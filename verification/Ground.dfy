/**
 The ground script library: it sends commands over a link that may drop them, polls
 housekeeping, and decides from the wrapping counters.
 */
module Ground {
  import opened Bytes
  import opened SensorCode
  import opened Simulator
  import opened Driver
  import opened CfsApp
  import opened CfsLaws
  import opened EndToEnd

  /** The latest telemetry on the ground, and the spacecraft. */
  datatype World = World(tlm: HkPacket, data: DeviceData, craft: System)

  /** One send: whether the command gets through, and the hardware during the command and the poll. */
  datatype Try = Try(delivered: bool, l: Links, poll: Links)

  const HK_REQUEST := Msg(REQ_HK_MID, REQ_HK_TLM, NO_ARGS_LENGTH)
  const DATA_REQUEST := Msg(REQ_HK_MID, REQ_DATA_TLM, NO_ARGS_LENGTH)

  function CommandOf(code: nat): Msg { Msg(CMD_MID, code, NO_ARGS_LENGTH) }

  // ---------- specification ----------

  function AfterMessage(w: World, m: Msg, l: Links): World {
    w.(craft := SystemStep(w.craft, Receive(m, l)).0)
  }

  /** A poll leaves the ground with a packet of the application's new state. */
  function AfterPoll(w: World, l: Links): World {
    var v := AfterMessage(w, HK_REQUEST, l);
    v.(tlm := PacketOf(v.craft.app))
  }

  function AfterTry(w: World, code: nat, t: Try): World {
    AfterPoll(if t.delivered then AfterMessage(w, CommandOf(code), t.l) else w, t.poll)
  }

  /** The world after the first n of three tries. */
  function AfterTries(w: World, code: nat, ts: seq<Try>, n: nat): World
    requires n <= |ts|
  {
    if n == 0 then w else AfterTry(AfterTries(w, code, ts, n - 1), code, ts[n - 1])
  }

  function Target(w: World): Byte { Inc(w.tlm.cmd) }

  /** After n tries the counter on the ground shows the target. */
  predicate Hit(w: World, code: nat, ts: seq<Try>, n: nat)
    requires n <= |ts|
  {
    AfterTries(w, code, ts, n).tlm.cmd == Target(w)
  }

  /** The number of sends: up to the first hit, and three at most. */
  function Sends(w: World, code: nat, ts: seq<Try>): (n: nat)
    requires |ts| == 3
    ensures 1 <= n <= 3
  {
    if Hit(w, code, ts, 1) then 1 else if Hit(w, code, ts, 2) then 2 else 3
  }

  function AfterSends(w: World, code: nat, ts: seq<Try>): World
    requires |ts| == 3
  {
    AfterTries(w, code, ts, Sends(w, code, ts))
  }

  /** The final check compares with >=. */
  predicate Passes(w: World, code: nat, ts: seq<Try>)
    requires |ts| == 3
  {
    AfterSends(w, code, ts).tlm.cmd >= Target(w)
  }

  /** One data check: the hardware during the data request and the poll, and the truth data. */
  datatype Check = Check(l: Links, poll: Links, truth: Readings)

  const ANGULAR_DIFF := 0.2
  const LINEAR_DIFF := 0.5

  predicate CloseTo(d: AxisData, a: AxisReading) {
    && -LINEAR_DIFF <= d.linear - a.acc <= LINEAR_DIFF
    && -ANGULAR_DIFF <= d.angular - a.gyro <= ANGULAR_DIFF
  }

  predicate MatchesTruth(d: DeviceData, truth: Readings) {
    CloseTo(d.x, truth.x) && CloseTo(d.y, truth.y) && CloseTo(d.z, truth.z)
  }

  /** The packet that a data request publishes, if any, is the last event of its step. */
  function DataOf(w: World, l: Links): seq<DeviceData> {
    var now := SystemStep(w.craft, Receive(DATA_REQUEST, l)).1;
    if |now| > 0 && now[|now| - 1].DataOut? then [now[|now| - 1].data] else []
  }

  /** A data check, up to the first comparison that fails. */
  function Confirm(w: World, c: Check): (World, bool) {
    var d := DataOf(w, c.l);
    var v := AfterMessage(w, DATA_REQUEST, c.l);
    if d == [] then (v, false) else
    var u := v.(data := d[0]);
    if !MatchesTruth(d[0], c.truth) then (u, false) else
    var r := AfterPoll(u, c.poll);
    (r, r.tlm.dev >= w.tlm.dev && r.tlm.devErr == w.tlm.devErr)
  }

  /** The first n data checks, up to the first that fails. */
  function ConfirmAll(w: World, cs: seq<Check>, n: nat): (World, bool)
    requires n <= |cs|
  {
    if n == 0 then (w, true) else
    var (v, ok) := ConfirmAll(w, cs, n - 1);
    if ok then Confirm(v, cs[n - 1]) else (v, false)
  }

  lemma {:induction false} StoppedStays(w: World, cs: seq<Check>, m: nat, n: nat)
    requires m <= n <= |cs| && !ConfirmAll(w, cs, m).1
    ensures ConfirmAll(w, cs, n) == ConfirmAll(w, cs, m)
  {
    hide Confirm;
    if m < n {
      StoppedStays(w, cs, m, n - 1);
    }
  }

  /** safe_generic_imu: poll, and disable unless already disabled. */
  function AfterSafe(w: World, l: Links, ts: seq<Try>): World
    requires |ts| == 3
  {
    var v := AfterPoll(w, l);
    if v.tlm.enabled then AfterSends(v, DISABLE_CC, ts) else v
  }

  predicate Safes(w: World, l: Links, ts: seq<Try>)
    requires |ts| == 3
  {
    var v := AfterPoll(w, l);
    v.tlm.enabled ==> Passes(v, DISABLE_CC, ts) && !AfterSends(v, DISABLE_CC, ts).tlm.enabled
  }

  const DEVICE_LOOP_COUNT := 5

  /** generic_imu_prepare_ast, up to the first check that fails. */
  function Prepare(w: World, l: Links, off: seq<Try>, on: seq<Try>, cs: seq<Check>): (World, bool)
    requires |off| == 3 && |on| == 3 && |cs| == DEVICE_LOOP_COUNT
  {
    var v := AfterSafe(w, l, off);
    if !Safes(w, l, off) then (v, false) else
    var u := AfterSends(v, ENABLE_CC, on);
    if Passes(v, ENABLE_CC, on) && u.tlm.enabled then ConfirmAll(u, cs, DEVICE_LOOP_COUNT) else (u, false)
  }

  lemma PollPublishes(s: System, l: Links)
    ensures var (t, now) := SystemStep(s, Receive(HK_REQUEST, l));
            |now| > 0 && now[|now| - 1] == HkOut(PacketOf(t.app))
  {
    hide EnvOf, SlaveAfter;
    OnePacketPerRequest(s.app, Message(HK_REQUEST, EnvOf(s, l)));
  }

  // ---------- at-most-once acceptance ----------

  /** The ground knows the application's counters and enable flag. */
  predicate InStep(w: World) { w.tlm == PacketOf(w.craft.app) }

  /** The counter on the ground is the application's. */
  predicate CountInStep(w: World) { w.tlm.cmd == w.craft.app.cmd }

  /** This try's command gets through and is accepted. */
  predicate Taken(w: World, code: nat, t: Try) {
    t.delivered && Accepted(CommandOf(code), w.craft.app.enabled)
  }

  lemma PollKeeps(w: World, l: Links)
    ensures var v := AfterPoll(w, l);
            && InStep(v) && v.data == w.data
            && v.craft.app.cmd == w.craft.app.cmd && v.craft.app.enabled == w.craft.app.enabled
  {
    hide EnvOf, SlaveAfter;
  }

  lemma EnvFlags(s: System, l: Links)
    ensures EnvOf(s, l).initOk == l.initOk && EnvOf(s, l).closeOk == l.closeOk
  {
  }

  lemma CommandCounts(w: World, code: nat, l: Links)
    requires code == NOOP_CC || code == ENABLE_CC || code == DISABLE_CC
    ensures var v := AfterMessage(w, CommandOf(code), l);
            var taken := Accepted(CommandOf(code), w.craft.app.enabled);
            && v.craft.app.cmd == (if taken then Inc(w.craft.app.cmd) else w.craft.app.cmd)
            && v.craft.app.enabled ==
                 (if taken && code == ENABLE_CC then l.initOk
                  else if taken && code == DISABLE_CC then !l.closeOk
                  else w.craft.app.enabled)
  {
    hide EnvOf, SlaveAfter;
    assert EnvOf(w.craft, l).initOk == l.initOk && EnvOf(w.craft, l).closeOk == l.closeOk by { EnvFlags(w.craft, l); }
  }

  /** One try: the counter advances exactly if the command is taken, and the ground sees it. */
  lemma TryCounts(w: World, code: nat, t: Try)
    requires code == NOOP_CC || code == ENABLE_CC || code == DISABLE_CC
    ensures var v := AfterTry(w, code, t);
            && InStep(v)
            && v.craft.app.cmd == (if Taken(w, code, t) then Inc(w.craft.app.cmd) else w.craft.app.cmd)
            && v.craft.app.enabled ==
                 (if Taken(w, code, t) && code == ENABLE_CC then t.l.initOk
                  else if Taken(w, code, t) && code == DISABLE_CC then !t.l.closeOk
                  else w.craft.app.enabled)
  {
    hide AfterMessage, AfterPoll;
    CommandCounts(w, code, t.l);
    PollKeeps(if t.delivered then AfterMessage(w, CommandOf(code), t.l) else w, t.poll);
  }

  /** Among the sends of one command, only the last can have been taken. */
  predicate OnlyLastTaken(w: World, code: nat, ts: seq<Try>, n: nat)
    requires n <= |ts|
  {
    forall i :: 0 <= i < n - 1 ==> !Taken(AfterTries(w, code, ts, i), code, ts[i])
  }

  /**
   At-most-once acceptance, over any pattern of dropped commands and across the wrap from 255 to 0:
   at most three sends; no send after one that was taken; fewer than three only if the last was
   taken; and the final check passes exactly if one was taken, or if the counter started at 255.
   */
  lemma AtMostOnce(w: World, code: nat, ts: seq<Try>)
    requires CountInStep(w) && |ts| == 3
    requires code == NOOP_CC || code == ENABLE_CC || code == DISABLE_CC
    ensures var n := Sends(w, code, ts);
            var taken := Taken(AfterTries(w, code, ts, n - 1), code, ts[n - 1]);
            var v := AfterSends(w, code, ts);
            && 1 <= n <= 3 && OnlyLastTaken(w, code, ts, n) && (n < 3 ==> taken)
            && InStep(v) && v.craft.app.cmd == (if taken then Inc(w.craft.app.cmd) else w.craft.app.cmd)
            && (Passes(w, code, ts) <==> taken || w.tlm.cmd == 255)
  {
    hide AfterTry, Taken;
    var w1 := AfterTries(w, code, ts, 1);
    var w2 := AfterTries(w, code, ts, 2);
    TryCounts(w, code, ts[0]);
    TryCounts(w1, code, ts[1]);
    TryCounts(w2, code, ts[2]);
    assert AfterTries(w, code, ts, 0) == w;
    assert AfterTries(w, code, ts, 3) == AfterTry(w2, code, ts[2]);
  }

  /** A start at 255 makes the final check vacuous: it passes although all three commands were dropped. */
  lemma CheckIsVacuousAt255(w: World, code: nat, ts: seq<Try>)
    requires CountInStep(w) && |ts| == 3 && w.tlm.cmd == 255
    requires code == NOOP_CC || code == ENABLE_CC || code == DISABLE_CC
    requires !ts[0].delivered && !ts[1].delivered && !ts[2].delivered
    ensures Passes(w, code, ts) && Sends(w, code, ts) == 3 && AfterSends(w, code, ts).craft.app.cmd == 255
  {
    hide AfterTry;
    AtMostOnce(w, code, ts);
    var w1 := AfterTries(w, code, ts, 1);
    TryCounts(w, code, ts[0]);
    TryCounts(w1, code, ts[1]);
    TryCounts(AfterTries(w, code, ts, 2), code, ts[2]);
  }

  lemma NoopIsTaken(w: World, t: Try)
    requires t.delivered
    ensures Taken(w, NOOP_CC, t)
  {
  }

  /** A ground that is not in step sends a NOOP again after it was accepted, if the first gets through. */
  lemma OutOfStepResends(w: World, ts: seq<Try>)
    requires !CountInStep(w) && |ts| == 3 && ts[0].delivered
    ensures !OnlyLastTaken(w, NOOP_CC, ts, Sends(w, NOOP_CC, ts))
  {
    hide AfterTry, Taken;
    TryCounts(w, NOOP_CC, ts[0]);
    assert AfterTries(w, NOOP_CC, ts, 0) == w;
    assert Taken(w, NOOP_CC, ts[0]) by { NoopIsTaken(w, ts[0]); }
    assert !Hit(w, NOOP_CC, ts, 1);
  }

  /** So over all patterns of drops no NOOP is sent again after it was accepted, exactly if the ground is in step. */
  lemma NoResendExactly(w: World)
    ensures (forall ts: seq<Try> :: |ts| == 3 ==> OnlyLastTaken(w, NOOP_CC, ts, Sends(w, NOOP_CC, ts)))
       <==> CountInStep(w)
  {
    hide OnlyLastTaken, Sends;
    if CountInStep(w) {
      forall ts: seq<Try> | |ts| == 3 ensures OnlyLastTaken(w, NOOP_CC, ts, Sends(w, NOOP_CC, ts)) {
        AtMostOnce(w, NOOP_CC, ts);
      }
    } else {
      var t: Try := *;
      var sent := t.(delivered := true);
      OutOfStepResends(w, [sent, sent, sent]);
    }
  }

  /** With the application one count ahead, a dropped command is taken for accepted after one send. */
  lemma OneAheadPasses(w: World, code: nat, ts: seq<Try>)
    requires w.craft.app.cmd == Target(w) && |ts| == 3 && !ts[0].delivered
    requires code == NOOP_CC || code == ENABLE_CC || code == DISABLE_CC
    ensures Sends(w, code, ts) == 1 && Passes(w, code, ts) && AfterSends(w, code, ts).craft.app.cmd == w.craft.app.cmd
  {
    hide AfterTry;
    TryCounts(w, code, ts[0]);
    assert AfterTries(w, code, ts, 0) == w;
    assert AfterTries(w, code, ts, 1) == AfterTry(w, code, ts[0]);
  }

  lemma ResetTry(w: World, t: Try)
    ensures var v := AfterTry(w, RESET_COUNTERS_CC, t);
            InStep(v) && v.craft.app.cmd == if t.delivered then 0 else w.craft.app.cmd
  {
    hide AfterPoll;
    PollKeeps(if t.delivered then AfterMessage(w, CommandOf(RESET_COUNTERS_CC), t.l) else w, t.poll);
    hide EnvOf, SlaveAfter;
  }

  /** Sent through the same routine, a reset is confirmed only if the counter happened to be at 255. */
  lemma ResetIsNotConfirmed(w: World, ts: seq<Try>)
    requires CountInStep(w) && |ts| == 3
    ensures Passes(w, RESET_COUNTERS_CC, ts) <==> w.tlm.cmd == 255
    ensures w.tlm.cmd != 255 ==> Sends(w, RESET_COUNTERS_CC, ts) == 3
  {
    hide AfterTry;
    var w1 := AfterTries(w, RESET_COUNTERS_CC, ts, 1);
    var w2 := AfterTries(w, RESET_COUNTERS_CC, ts, 2);
    ResetTry(w, ts[0]);
    ResetTry(w1, ts[1]);
    ResetTry(w2, ts[2]);
    assert AfterTries(w, RESET_COUNTERS_CC, ts, 0) == w;
    assert AfterTries(w, RESET_COUNTERS_CC, ts, 3) == AfterTry(w2, RESET_COUNTERS_CC, ts[2]);
  }

  // ---------- enable, disable, safe ----------

  /** The first delivered try, if there is one, succeeds in the hardware. */
  predicate FirstDelivered(ts: seq<Try>, enable: bool) {
    exists i :: 0 <= i < |ts| && ts[i].delivered && (forall j :: 0 <= j < i ==> !ts[j].delivered)
             && (if enable then ts[i].l.initOk else ts[i].l.closeOk)
  }

  lemma AcceptsWhenOther(enable: bool, open: bool)
    ensures Accepted(CommandOf(if enable then ENABLE_CC else DISABLE_CC), open) <==> open != enable
  {
    if enable {} else {}
  }

  /**
   enable (true) and disable (false) succeed exactly if the first command to arrive does its work,
   or if there was nothing to do and the counter check was vacuous.
   */
  lemma SwitchExactly(w: World, enable: bool, ts: seq<Try>)
    requires CountInStep(w) && |ts| == 3
    ensures var code := if enable then ENABLE_CC else DISABLE_CC;
            Passes(w, code, ts) && AfterSends(w, code, ts).tlm.enabled == enable <==>
            if w.craft.app.enabled == enable then w.tlm.cmd == 255 else FirstDelivered(ts, enable)
  {
    hide AfterTry, Accepted;
    var code := if enable then ENABLE_CC else DISABLE_CC;
    AtMostOnce(w, code, ts);
    var w1 := AfterTries(w, code, ts, 1);
    var w2 := AfterTries(w, code, ts, 2);
    TryCounts(w, code, ts[0]);
    TryCounts(w1, code, ts[1]);
    TryCounts(w2, code, ts[2]);
    AcceptsWhenOther(enable, w.craft.app.enabled);
    AcceptsWhenOther(enable, w1.craft.app.enabled);
    AcceptsWhenOther(enable, w2.craft.app.enabled);
    assert AfterTries(w, code, ts, 0) == w;
    assert AfterTries(w, code, ts, 3) == AfterTry(w2, code, ts[2]);
  }

  /** The tail of safe_generic_imu, after its poll has brought the ground into step. */
  lemma SafeIsDisabled(w: World, ts: seq<Try>)
    requires |ts| == 3
    ensures InStep(AfterSends(w, DISABLE_CC, ts))
  {
    hide AfterTry;
    TryCounts(w, DISABLE_CC, ts[0]);
    TryCounts(AfterTries(w, DISABLE_CC, ts, 1), DISABLE_CC, ts[1]);
    TryCounts(AfterTries(w, DISABLE_CC, ts, 2), DISABLE_CC, ts[2]);
    assert AfterTries(w, DISABLE_CC, ts, 0) == w;
    assert AfterTries(w, DISABLE_CC, ts, 3) == AfterTry(AfterTries(w, DISABLE_CC, ts, 2), DISABLE_CC, ts[2]);
  }

  /** safe_generic_imu succeeds exactly if the application is disabled, or the first disable to arrive does its work. */
  lemma SafeExactly(w: World, l: Links, ts: seq<Try>)
    requires |ts| == 3
    ensures Safes(w, l, ts) <==> !w.craft.app.enabled || FirstDelivered(ts, false)
  {
    hide AfterPoll, Passes, AfterSends;
    PollKeeps(w, l);
    SwitchExactly(AfterPoll(w, l), false, ts);
  }

  // ---------- the data-check loop ----------

  /** The transaction is delivered, and the device is not disabled before it. */
  predicate Undisturbed(link: Link) { link.outcome == Deliver && Disable !in link.sims }

  /** The readings are as close to the truth as the script's tolerance, less that of the sensor code. */
  predicate NearTruth(a: AxisReading, truth: AxisReading) {
    && -LINEAR_DIFF + Tolerance(Linear) <= a.acc - truth.acc <= LINEAR_DIFF - Tolerance(Linear)
    && -ANGULAR_DIFF + Tolerance(Angular) <= a.gyro - truth.gyro <= ANGULAR_DIFF - Tolerance(Angular)
  }

  /** No faults, readings that can be encoded, and truth data that agrees with them. */
  predicate Clean(c: Check) {
    && Undisturbed(c.l.x) && Undisturbed(c.l.y) && Undisturbed(c.l.z) && Undisturbed(c.poll.hk)
    && Encodable(c.l.x.readings.x) && NearTruth(c.l.x.readings.x, c.truth.x)
    && Encodable(c.l.y.readings.y) && NearTruth(c.l.y.readings.y, c.truth.y)
    && Encodable(c.l.z.readings.z) && NearTruth(c.l.z.readings.z, c.truth.z)
  }

  predicate Ready(w: World) { InStep(w) && w.craft.app.enabled && w.craft.slave.device.enabled }

  /** w' is w after `ops` more device operations of the application and `cmds` more commands of the device. */
  predicate Moved(w: World, v: World, ops: nat, cmds: nat) {
    && v.craft.app.dev == (w.craft.app.dev + ops) % 0x100 && v.craft.app.devErr == w.craft.app.devErr
    && v.craft.slave.device.count == (w.craft.slave.device.count + cmds) % 0x1_0000_0000
  }

  lemma CloseEnough(d: AxisData, a: AxisReading, truth: AxisReading)
    requires Faithful(d, a) && NearTruth(a, truth)
    ensures CloseTo(d, truth)
  {
  }

  lemma {:induction false} SimsKeepCount(d: Device, cs: seq<SimCommand>)
    requires d.enabled && Disable !in cs
    ensures AfterSimCommands(d, cs).enabled && AfterSimCommands(d, cs).count == d.count
    decreases |cs|
  {
    if |cs| > 0 { SimsKeepCount(d, cs[..|cs| - 1]); }
  }

  lemma CleanTransact(s: Slave, code: Byte, link: Link)
    requires s.device.enabled && Undisturbed(link) && code <= 4
    ensures var (s', t) := Transact(s, code, link);
            t.Ok() && s'.device.enabled && s'.device.count == (s.device.count + 1) % 0x1_0000_0000
  {
    hide Transact;
    DeviceAfter(s, code, link);
    OutcomeSeen(s, code, link);
    SimsKeepCount(s.device, link.sims);
  }

  lemma CleanThree(s: System, l: Links)
    requires s.app.enabled && s.slave.device.enabled
    requires Undisturbed(l.x) && Undisturbed(l.y) && Undisturbed(l.z)
    ensures var t := SystemStep(s, Receive(DATA_REQUEST, l)).0;
            && t.app.enabled && t.slave.device.enabled
            && t.app.dev == Inc(s.app.dev) && t.app.devErr == s.app.devErr
            && t.slave.device.count == (s.slave.device.count + 3) % 0x1_0000_0000
  {
    hide Transact, Overwrite;
    CleanTransact(s.slave, REQ_X_CMD, l.x);
    var s1 := Transact(s.slave, REQ_X_CMD, l.x).0;
    CleanTransact(s1, REQ_Y_CMD, l.y);
    var s2 := Transact(s1, REQ_Y_CMD, l.y).0;
    CleanTransact(s2, REQ_Z_CMD, l.z);
  }

  lemma CleanRequest(w: World, c: Check)
    requires Ready(w) && Clean(c)
    ensures var v := AfterMessage(w, DATA_REQUEST, c.l);
            && |DataOf(w, c.l)| == 1 && MatchesTruth(DataOf(w, c.l)[0], c.truth)
            && v.craft.app.enabled && v.craft.slave.device.enabled && Moved(w, v, 1, 3)
  {
    hide SystemStep, Encodable, Faithful, NearTruth, CloseTo, OnAfter;
    PublishedReadings(w.craft, DATA_REQUEST, c.l);
    StaysOn(c.l.x.sims);
    StaysOn(c.l.y.sims);
    StaysOn(c.l.z.sims);
    CleanThree(w.craft, c.l);
    var d := DataOf(w, c.l)[0];
    CloseEnough(d.x, c.l.x.readings.x, c.truth.x);
    CloseEnough(d.y, c.l.y.readings.y, c.truth.y);
    CloseEnough(d.z, c.l.z.readings.z, c.truth.z);
  }

  lemma CleanPoll(w: World, l: Links)
    requires w.craft.app.enabled && w.craft.slave.device.enabled && Undisturbed(l.hk)
    ensures var v := AfterPoll(w, l); Ready(v) && Moved(w, v, 1, 1)
  {
    hide Transact, RequestThree, DecodeHk;
    CleanTransact(w.craft.slave, REQ_HK_CMD, l.hk);
  }

  lemma CleanHasPoll(c: Check)
    requires Clean(c)
    ensures Undisturbed(c.poll.hk)
  {
  }

  /** Six differences within the tolerances of the script. */
  predicate WithinTolerance(d: DeviceData, truth: Readings) {
    && -0.5 <= d.x.linear - truth.x.acc <= 0.5 && -0.2 <= d.x.angular - truth.x.gyro <= 0.2
    && -0.5 <= d.y.linear - truth.y.acc <= 0.5 && -0.2 <= d.y.angular - truth.y.gyro <= 0.2
    && -0.5 <= d.z.linear - truth.z.acc <= 0.5 && -0.2 <= d.z.angular - truth.z.gyro <= 0.2
  }

  /** What a data request counts: it publishes exactly if the application is enabled and nothing is lost. */
  lemma DataCounts(w: World, l: Links)
    ensures var v := AfterMessage(w, DATA_REQUEST, l);
            && (DataOf(w, l) != [] <==> w.craft.app.enabled && AllDeliver(l))
            && v.craft.app.enabled == w.craft.app.enabled
            && (DataOf(w, l) != [] ==>
                  v.craft.app.dev == Inc(w.craft.app.dev) && v.craft.app.devErr == w.craft.app.devErr)
  {
    hide Transact, Overwrite;
    OutcomeSeen(w.craft.slave, REQ_X_CMD, l.x);
    var s1 := Transact(w.craft.slave, REQ_X_CMD, l.x).0;
    OutcomeSeen(s1, REQ_Y_CMD, l.y);
    var s2 := Transact(s1, REQ_Y_CMD, l.y).0;
    OutcomeSeen(s2, REQ_Z_CMD, l.z);
  }

  /** Exactly one of the device counters is one further. */
  predicate OneMore(a: App, b: App) {
    || (b.dev == Inc(a.dev) && b.devErr == a.devErr)
    || (b.dev == a.dev && b.devErr == Inc(a.devErr))
  }

  /** A data request counts one operation, if the application is enabled. */
  lemma DataAttempts(w: World, l: Links)
    ensures var v := AfterMessage(w, DATA_REQUEST, l);
            if w.craft.app.enabled then OneMore(w.craft.app, v.craft.app) else v.craft.app == w.craft.app
  {
    hide RequestThree, Overwrite;
  }

  lemma WrapOnce(a: App, b: App)
    requires OneMore(a, b)
    ensures (b.dev + b.devErr) % 0x100 == (a.dev + a.devErr + 1) % 0x100
  {
    AddWraps(Inc(a.dev), a.dev + 1, a.devErr);
    AddWraps(Inc(a.devErr), a.devErr + 1, a.dev);
  }

  lemma WrapTwice(a: App, b: App, c: App)
    requires OneMore(a, b) && OneMore(b, c)
    ensures (c.dev + c.devErr) % 0x100 == (a.dev + a.devErr + 2) % 0x100
  {
    WrapOnce(a, b);
    WrapOnce(b, c);
    AddWraps((b.dev + b.devErr) % 0x100, a.dev + a.devErr + 1, 1);
    AddWraps((b.dev + b.devErr) % 0x100, b.dev + b.devErr, 1);
  }

  /** What a poll of an enabled application counts. */
  lemma PollCounts(w: World, l: Links)
    requires w.craft.app.enabled
    ensures var (a, b) := (w.craft.app, AfterPoll(w, l).craft.app);
            if l.hk.outcome == Deliver then b.dev == Inc(a.dev) && b.devErr == a.devErr
            else b.dev == a.dev && b.devErr == Inc(a.devErr)
  {
    hide Transact, RequestThree, DecodeHk;
    OutcomeSeen(w.craft.slave, REQ_HK_CMD, l.hk);
  }

  /** The event that ends a complete data request. */
  lemma LastIsPacket(s: System, l: Links)
    requires s.app.enabled && AllDeliver(l)
    ensures var now := SystemStep(s, Receive(DATA_REQUEST, l)).1; |now| == 4 && now[3].DataOut?
  {
    hide Transact, Overwrite;
    OutcomeSeen(s.slave, REQ_X_CMD, l.x);
    var s1 := Transact(s.slave, REQ_X_CMD, l.x).0;
    OutcomeSeen(s1, REQ_Y_CMD, l.y);
    var s2 := Transact(s1, REQ_Y_CMD, l.y).0;
    OutcomeSeen(s2, REQ_Z_CMD, l.z);
  }

  /**
   What one check leaves behind, whatever fails and whatever the ground knew: it polls, and counts a second
   operation, only after data that are near the truth; and it passes exactly if the poll then shows the
   error counter that the ground had before, and a count that is not below the one it had.
   */
  lemma ConfirmLeaves(w: World, c: Check)
    ensures var (v, ok) := Confirm(w, c);
            var now := SystemStep(w.craft, Receive(DATA_REQUEST, c.l)).1;
            var published := |now| == 4 && now[3].DataOut?;
            var polled := published && WithinTolerance(now[3].data, c.truth);
            && (published <==> w.craft.app.enabled && AllDeliver(c.l))
            && v.data == (if published then now[3].data else w.data)
            && (if polled then
                  && InStep(v)
                  && (v.craft.app.dev + v.craft.app.devErr) % 0x100
                     == (w.craft.app.dev + w.craft.app.devErr + 2) % 0x100
                else
                  && v.tlm == w.tlm
                  && if w.craft.app.enabled then OneMore(w.craft.app, v.craft.app)
                     else v.craft.app.dev == w.craft.app.dev && v.craft.app.devErr == w.craft.app.devErr)
            && (ok <==> polled && v.craft.app.dev >= w.tlm.dev && v.craft.app.devErr == w.tlm.devErr)
  {
    hide AfterPoll, SystemStep;
    DataCounts(w, c.l);
    DataAttempts(w, c.l);
    if w.craft.app.enabled && AllDeliver(c.l) {
      LastIsPacket(w.craft, c.l);
      var u := AfterMessage(w, DATA_REQUEST, c.l).(data := DataOf(w, c.l)[0]);
      PollCounts(u, c.poll);
      PollKeeps(u, c.poll);
      WrapTwice(w.craft.app, u.craft.app, AfterPoll(u, c.poll).craft.app);
    }
  }

  /** A device that stays disabled fails the check, if any one truth value is not near minus full scale. */
  lemma DisabledFailsCheck(w: World, c: Check)
    requires !w.craft.slave.device.enabled
    requires NotSwitched(c.l.x.sims) && NotSwitched(c.l.y.sims) && NotSwitched(c.l.z.sims)
    requires !(-10.5 <= c.truth.x.acc <= -9.5 && -400.2 <= c.truth.x.gyro <= -399.8
               && -10.5 <= c.truth.y.acc <= -9.5 && -400.2 <= c.truth.y.gyro <= -399.8
               && -10.5 <= c.truth.z.acc <= -9.5 && -400.2 <= c.truth.z.gyro <= -399.8)
    ensures !Confirm(w, c).1
  {
    hide AfterPoll, AfterMessage, SystemStep;
    DataCounts(w, c.l);
    if w.craft.app.enabled && AllDeliver(c.l) { DisabledReadsFullScale(w.craft, DATA_REQUEST, c.l); }
  }

  /** One clean data check counts two operations and four commands; its own check fails near the wrap. */
  lemma CleanConfirm(w: World, c: Check)
    requires Ready(w) && Clean(c)
    ensures var (v, ok) := Confirm(w, c);
            Ready(v) && Moved(w, v, 2, 4) && (ok <==> w.craft.app.dev < 254)
  {
    hide AfterPoll, AfterMessage, DataOf, MatchesTruth, Clean;
    CleanRequest(w, c);
    var u := AfterMessage(w, DATA_REQUEST, c.l).(data := DataOf(w, c.l)[0]);
    assert Undisturbed(c.poll.hk) by { CleanHasPoll(c); }
    assert u.craft == AfterMessage(w, DATA_REQUEST, c.l).craft;
    CleanPoll(u, c.poll);
  }

  /**
   A data check, whatever fails: it passes exactly if the application is enabled, all four transactions
   are delivered, the counter starts below 254, and each of the six values in the published packet is
   within 0.5 g or 0.2 deg/s of the truth.
   */
  lemma ConfirmExactly(w: World, c: Check)
    requires InStep(w)
    ensures Confirm(w, c).1 <==>
            && w.craft.app.enabled && w.craft.app.dev < 254
            && c.l.x.outcome == Deliver && c.l.y.outcome == Deliver && c.l.z.outcome == Deliver
            && c.poll.hk.outcome == Deliver
            && var now := SystemStep(w.craft, Receive(DATA_REQUEST, c.l)).1;
               && |now| == 4 && now[3].DataOut?
               && -0.5 <= now[3].data.x.linear - c.truth.x.acc <= 0.5
               && -0.5 <= now[3].data.y.linear - c.truth.y.acc <= 0.5
               && -0.5 <= now[3].data.z.linear - c.truth.z.acc <= 0.5
               && -0.2 <= now[3].data.x.angular - c.truth.x.gyro <= 0.2
               && -0.2 <= now[3].data.y.angular - c.truth.y.gyro <= 0.2
               && -0.2 <= now[3].data.z.angular - c.truth.z.gyro <= 0.2
  {
    hide AfterPoll, AfterMessage, SystemStep;
    DataCounts(w, c.l);
    if w.craft.app.enabled && AllDeliver(c.l) { LastIsPacket(w.craft, c.l); }
    if DataOf(w, c.l) != [] {
      var u := AfterMessage(w, DATA_REQUEST, c.l).(data := DataOf(w, c.l)[0]);
      PollCounts(u, c.poll);
      PollKeeps(u, c.poll);
    }
  }

  predicate StartsBelowWrap(w: World, i: nat) { (w.craft.app.dev + 2 * i) % 0x100 < 254 }

  predicate FirstAtWrap(w: World, k: nat) {
    !StartsBelowWrap(w, k) && forall i: nat :: i < k ==> StartsBelowWrap(w, i)
  }

  lemma MovedAdds(w: World, v: World, u: World, ops: nat, cmds: nat)
    requires Moved(w, v, ops, cmds) && Moved(v, u, 2, 4)
    ensures Moved(w, u, ops + 2, cmds + 4)
  {
    AddWraps(v.craft.app.dev, w.craft.app.dev + ops, 2);
    var m := w.craft.slave.device.count + cmds;
    assert m + 4 == v.craft.slave.device.count + 4 + 0x1_0000_0000 * (m / 0x1_0000_0000);
  }

  /**
   n clean data checks advance the application's device counter by 2n, leave its error counter, and
   advance the device's own counter by 4n; and they all pass exactly if none starts at 254 or 255,
   where the wrap makes the comparison of the counters fail.  The first check k that starts there is
   the last that is made, and still counts.
   */
  lemma {:induction false} CleanLoop(w: World, cs: seq<Check>, n: nat)
    requires Ready(w) && n <= |cs| && forall i :: 0 <= i < |cs| ==> Clean(cs[i])
    ensures var (v, ok) := ConfirmAll(w, cs, n);
            && (ok <==> forall i: nat :: i < n ==> StartsBelowWrap(w, i))
            && Ready(v)
            && (ok ==> Moved(w, v, 2 * n, 4 * n))
            && (forall k: nat :: k < n && FirstAtWrap(w, k) ==> Moved(w, v, 2 * (k + 1), 4 * (k + 1)))
  {
    hide Confirm, Clean;
    if n > 0 {
      CleanLoop(w, cs, n - 1);
      var (v, ok) := ConfirmAll(w, cs, n - 1);
      if ok {
        assert Clean(cs[n - 1]);
        CleanConfirm(v, cs[n - 1]);
        MovedAdds(w, v, Confirm(v, cs[n - 1]).0, 2 * (n - 1), 4 * (n - 1));
        assert StartsBelowWrap(w, n - 1) <==> v.craft.app.dev < 254;
      }
    }
  }

  /** The script's own five data checks all pass exactly if the counter starts at 245 or below. */
  lemma FiveConfirms(w: World, cs: seq<Check>)
    requires Ready(w) && |cs| == DEVICE_LOOP_COUNT && forall i :: 0 <= i < |cs| ==> Clean(cs[i])
    ensures ConfirmAll(w, cs, DEVICE_LOOP_COUNT).1 <==> w.craft.app.dev <= 245
  {
    hide ConfirmAll, Clean;
    CleanLoop(w, cs, 5);
    var d := w.craft.app.dev;
    if d > 245 {
      assert !StartsBelowWrap(w, (255 - d) / 2);
    }
  }

  // ---------- preparing for the tests ----------

  /** Whenever it is asked, the hardware does its work, and the device is not disabled. */
  predicate Works(t: Try) { t.l.initOk && t.l.closeOk && Undisturbed(t.poll.hk) }

  /** The number of tries before the first that is delivered. */
  function Dropped(ts: seq<Try>): nat
    requires |ts| == 3
  {
    if ts[0].delivered then 0 else if ts[1].delivered then 1 else if ts[2].delivered then 2 else 3
  }

  /** A counter, advanced by one operation if there is one. */
  function CountIf(counts: bool, b: Byte): Byte { if counts then Inc(b) else b }

  /** From a to b the flag changes or stays, and a change and the poll after it are counted. */
  predicate Switched(a: App, b: App, switches: bool) {
    && b.enabled == (if switches then !a.enabled else a.enabled)
    && b.cmd == CountIf(switches, a.cmd)
    && b.dev == CountIf(b.enabled, CountIf(switches, a.dev))
  }

  lemma SwitchMoves(w: World, enable: bool, l: Links)
    requires l.initOk && l.closeOk
    ensures var v := AfterMessage(w, CommandOf(if enable then ENABLE_CC else DISABLE_CC), l);
            && v.craft.slave == w.craft.slave
            && v.craft.app.dev == CountIf(w.craft.app.enabled != enable, w.craft.app.dev)
  {
    hide EnvOf;
    EnvFlags(w.craft, l);
  }

  /** A poll of a disabled application leaves the spacecraft as it was. */
  lemma QuietPoll(w: World, l: Links)
    requires !w.craft.app.enabled
    ensures AfterPoll(w, l).craft == w.craft
  {
    hide EnvOf;
  }

  /** One try counts its init or close, if there is one to do, and its poll, if the application is enabled then. */
  lemma TryMoves(w: World, enable: bool, t: Try)
    requires Works(t) && w.craft.slave.device.enabled
    ensures var v := AfterTry(w, if enable then ENABLE_CC else DISABLE_CC, t);
            && InStep(v) && v.craft.slave.device.enabled
            && Switched(w.craft.app, v.craft.app, t.delivered && w.craft.app.enabled != enable)
  {
    hide AfterPoll, AfterMessage, Accepted;
    var code := if enable then ENABLE_CC else DISABLE_CC;
    TryCounts(w, code, t);
    AcceptsWhenOther(enable, w.craft.app.enabled);
    SwitchMoves(w, enable, t.l);
    var u := if t.delivered then AfterMessage(w, CommandOf(code), t.l) else w;
    PollKeeps(u, t.poll);
    if u.craft.app.enabled { CleanPoll(u, t.poll); } else { QuietPoll(u, t.poll); }
  }

  /** While commands are dropped, only the polls of an enabled application count. */
  lemma {:induction false} DropsMove(w: World, enable: bool, ts: seq<Try>, n: nat)
    requires InStep(w) && w.craft.slave.device.enabled && w.craft.app.enabled != enable
    requires |ts| == 3 && forall i :: 0 <= i < 3 ==> Works(ts[i])
    requires n <= Dropped(ts)
    ensures var v := AfterTries(w, if enable then ENABLE_CC else DISABLE_CC, ts, n);
            && InStep(v) && v.craft.slave.device.enabled
            && v.craft.app.enabled == w.craft.app.enabled && v.craft.app.cmd == w.craft.app.cmd
            && v.craft.app.dev == (w.craft.app.dev + if enable then 0 else n) % 0x100
  {
    hide AfterTry, Works;
    if n > 0 {
      DropsMove(w, enable, ts, n - 1);
      var u := AfterTries(w, if enable then ENABLE_CC else DISABLE_CC, ts, n - 1);
      TryMoves(u, enable, ts[n - 1]);
      AddWraps(u.craft.app.dev, w.craft.app.dev + if enable then 0 else n - 1, if enable then 0 else 1);
    }
  }

  lemma NoTries(w: World, code: nat, ts: seq<Try>)
    ensures AfterTries(w, code, ts, 0) == w
  {
  }

  lemma TriesExtend(w: World, code: nat, ts: seq<Try>, n: nat)
    requires n < |ts|
    ensures AfterTries(w, code, ts, n + 1) == AfterTry(AfterTries(w, code, ts, n), code, ts[n])
  {
  }

  /** Switching over a link that drops commands sends up to the first that arrives. */
  lemma SwitchSends(w: World, enable: bool, ts: seq<Try>)
    requires InStep(w) && w.craft.slave.device.enabled && w.craft.app.enabled != enable
    requires |ts| == 3 && forall i :: 0 <= i < 3 ==> Works(ts[i])
    ensures var code, k := if enable then ENABLE_CC else DISABLE_CC, Dropped(ts);
            if k < 3 then
              Passes(w, code, ts) && AfterSends(w, code, ts) == AfterTry(AfterTries(w, code, ts, k), code, ts[k])
            else AfterSends(w, code, ts).tlm.enabled != enable
  {
    hide AfterTry, AfterTries, Works;
    var code, k := if enable then ENABLE_CC else DISABLE_CC, Dropped(ts);
    DropsMove(w, enable, ts, k);
    if k > 0 { DropsMove(w, enable, ts, 1); }
    if k > 1 { DropsMove(w, enable, ts, 2); }
    if k < 3 {
      TryMoves(AfterTries(w, code, ts, k), enable, ts[k]);
      TriesExtend(w, code, ts, k);
    }
  }

  /** How far it moves the counter, if any command arrives. */
  lemma SwitchWorks(w: World, enable: bool, ts: seq<Try>)
    requires InStep(w) && w.craft.slave.device.enabled && w.craft.app.enabled != enable
    requires |ts| == 3 && forall i :: 0 <= i < 3 ==> Works(ts[i])
    ensures var code := if enable then ENABLE_CC else DISABLE_CC;
            var v := AfterSends(w, code, ts);
            && (Passes(w, code, ts) && v.tlm.enabled == enable <==> Dropped(ts) < 3)
            && (Dropped(ts) < 3 ==>
                  && InStep(v) && v.craft.slave.device.enabled && v.craft.app.enabled == enable
                  && v.craft.app.dev == (w.craft.app.dev + if enable then 2 else Dropped(ts) + 1) % 0x100)
  {
    hide AfterTry, AfterTries, AfterSends, Passes, Works, Inc;
    SwitchSends(w, enable, ts);
    var code, k := if enable then ENABLE_CC else DISABLE_CC, Dropped(ts);
    if k < 3 {
      DropsMove(w, enable, ts, k);
      var u := AfterTries(w, code, ts, k);
      TryMoves(u, enable, ts[k]);
      var n := w.craft.app.dev + if enable then 0 else k;
      CountsOn(u.craft.app.dev, n);
      CountsOn(Inc(u.craft.app.dev), n + 1);
    }
  }

  /**
   generic_imu_prepare_ast, over a link that drops commands and with hardware that works: it succeeds
   exactly if a command of each kind that is needed arrives, and if the counter, moved by what safing
   and enabling count, is at 245 or below.  So it can fail although nothing is wrong.
   */
  lemma PrepareExactly(w: World, l: Links, off: seq<Try>, on: seq<Try>, cs: seq<Check>)
    requires w.craft.slave.device.enabled && Undisturbed(l.hk)
    requires |off| == 3 && forall i :: 0 <= i < 3 ==> Works(off[i])
    requires |on| == 3 && forall i :: 0 <= i < 3 ==> Works(on[i])
    requires |cs| == DEVICE_LOOP_COUNT && forall i :: 0 <= i < |cs| ==> Clean(cs[i])
    ensures Prepare(w, l, off, on, cs).1 <==>
            && Dropped(on) < 3
            && (if w.craft.app.enabled
                then Dropped(off) < 3 && (w.craft.app.dev + Dropped(off) + 4) % 0x100 <= 245
                else (w.craft.app.dev + 2) % 0x100 <= 245)
  {
    hide AfterPoll, AfterSends, Passes, ConfirmAll, Works, Clean, Dropped;
    PollKeeps(w, l);
    if w.craft.app.enabled { CleanPoll(w, l); } else { QuietPoll(w, l); }
    var v := AfterPoll(w, l);
    if v.craft.app.enabled {
      SwitchWorks(v, false, off);
      AddWraps(v.craft.app.dev, w.craft.app.dev + 1, Dropped(off) + 1);
    }
    if Safes(w, l, off) {
      var u := AfterSafe(w, l, off);
      SwitchWorks(u, true, on);
      AddWraps(u.craft.app.dev, w.craft.app.dev + if w.craft.app.enabled then Dropped(off) + 2 else 0, 2);
      if Dropped(on) < 3 {
        FiveConfirms(AfterSends(u, ENABLE_CC, on), cs);
      }
    }
  }

  /** Without drops: from 242 to 251 if it was enabled, and at 244 to 253 if it was disabled, it fails. */
  lemma PrepareWithoutDrops(w: World, l: Links, off: seq<Try>, on: seq<Try>, cs: seq<Check>)
    requires w.craft.slave.device.enabled && Undisturbed(l.hk)
    requires |off| == 3 && off[0].delivered && forall i :: 0 <= i < 3 ==> Works(off[i])
    requires |on| == 3 && on[0].delivered && forall i :: 0 <= i < 3 ==> Works(on[i])
    requires |cs| == DEVICE_LOOP_COUNT && forall i :: 0 <= i < |cs| ==> Clean(cs[i])
    ensures !Prepare(w, l, off, on, cs).1 <==>
            if w.craft.app.enabled then 242 <= w.craft.app.dev <= 251 else 244 <= w.craft.app.dev <= 253
  {
    hide Prepare, Works, Clean;
    PrepareExactly(w, l, off, on, cs);
  }

  // ---------- the scripts ----------

  class Station {
    var tlm: HkPacket
    var data: DeviceData
    var craft: System

    function View(): World
      reads this
    {
      World(tlm, data, craft)
    }

    constructor (w: World)
      ensures View() == w
    {
      tlm, data, craft := w.tlm, w.data, w.craft;
    }

    method Cmd(m: Msg, l: Links) returns (now: seq<Event>)
      modifies this`craft
      ensures (craft, now) == SystemStep(old(craft), Receive(m, l))
    {
      var r := SystemStep(craft, Receive(m, l));
      craft, now := r.0, r.1;
    }

    /** The packet on the ground is the one that the application publishes last. */
    method GetHk(l: Links)
      modifies this
      ensures View() == AfterPoll(old(View()), l)
    {
      hide SystemStep;
      PollPublishes(craft, l);
      var now := Cmd(HK_REQUEST, l);
      tlm := now[|now| - 1].pkt;
    }

    /** False if no packet arrives, which ends a script. */
    method GetData(l: Links) returns (ok: bool)
      modifies this
      ensures var w := old(View());
              && ok == (DataOf(w, l) != [])
              && View() == AfterMessage(w, DATA_REQUEST, l).(data := if ok then DataOf(w, l)[0] else w.data)
    {
      hide SystemStep;
      var now := Cmd(DATA_REQUEST, l);
      ok := |now| > 0 && now[|now| - 1].DataOut?;
      if ok {
        data := now[|now| - 1].data;
      }
    }

    method Send(code: nat, t: Try)
      modifies this
      ensures View() == AfterTry(old(View()), code, t)
    {
      hide SystemStep;
      if t.delivered {
        var now := Cmd(CommandOf(code), t.l);
      }
      GetHk(t.poll);
    }

    method GenericImuCmd(code: nat, ts: seq<Try>) returns (sends: nat, ok: bool)
      requires |ts| == 3
      modifies this
      ensures View() == AfterSends(old(View()), code, ts)
      ensures sends == Sends(old(View()), code, ts)
      ensures ok == Passes(old(View()), code, ts)
    {
      hide AfterTry, AfterTries;
      ghost var w := View();
      NoTries(w, code, ts);
      TriesExtend(w, code, ts, 0);
      TriesExtend(w, code, ts, 1);
      TriesExtend(w, code, ts, 2);
      var count: int := tlm.cmd + 1;
      if count == 256 {
        count := 0;
      }
      Send(code, ts[0]);
      sends := 1;
      assert View() == AfterTries(w, code, ts, 1);
      var current := tlm.cmd;
      if current != count {
        Send(code, ts[1]);
        sends := 2;
        assert View() == AfterTries(w, code, ts, 2);
        current := tlm.cmd;
        if current != count {
          Send(code, ts[2]);
          sends := 3;
          current := tlm.cmd;
          assert View() == AfterTries(w, code, ts, 3);
        }
      }
      ok := tlm.cmd >= count;
    }

    method EnableGenericImu(ts: seq<Try>) returns (ok: bool)
      requires |ts| == 3
      modifies this
      ensures View() == AfterSends(old(View()), ENABLE_CC, ts)
      ensures ok == (Passes(old(View()), ENABLE_CC, ts) && tlm.enabled)
    {
      var sends, passed := GenericImuCmd(ENABLE_CC, ts);
      ok := passed && tlm.enabled;
    }

    method DisableGenericImu(ts: seq<Try>) returns (ok: bool)
      requires |ts| == 3
      modifies this
      ensures View() == AfterSends(old(View()), DISABLE_CC, ts)
      ensures ok == (Passes(old(View()), DISABLE_CC, ts) && !tlm.enabled)
    {
      var sends, passed := GenericImuCmd(DISABLE_CC, ts);
      ok := passed && !tlm.enabled;
    }

    /** Success leaves the application disabled, whatever the ground knew before. */
    method SafeGenericImu(l: Links, ts: seq<Try>) returns (ok: bool)
      requires |ts| == 3
      modifies this
      ensures View() == AfterSafe(old(View()), l, ts) && ok == Safes(old(View()), l, ts)
      ensures ok ==> !craft.app.enabled && !tlm.enabled
    {
      hide AfterSends, Passes, SystemStep;
      GetHk(l);
      ok := true;
      if tlm.enabled {
        SafeIsDisabled(View(), ts);
        ok := DisableGenericImu(ts);
      }
    }

    method ConfirmData(c: Check) returns (ok: bool)
      modifies this
      ensures (View(), ok) == Confirm(old(View()), c)
    {
      hide SystemStep, DataOf, AfterPoll;
      var count, errors := tlm.dev, tlm.devErr;
      var published := GetData(c.l);
      if !published || !MatchesTruth(data, c.truth) {
        return false;
      }
      GetHk(c.poll);
      ok := tlm.dev >= count && tlm.devErr == errors;
    }

    method ConfirmDataLoop(cs: seq<Check>) returns (ok: bool)
      modifies this
      ensures (View(), ok) == ConfirmAll(old(View()), cs, |cs|)
    {
      hide Confirm;
      ok := true;
      for n := 0 to |cs|
        invariant (View(), true) == ConfirmAll(old(View()), cs, n)
      {
        ok := ConfirmData(cs[n]);
        if !ok {
          StoppedStays(old(View()), cs, n + 1, |cs|);
          return;
        }
      }
    }

    /** Safe, enable, and five data checks, up to the first that fails. */
    method PrepareAst(l: Links, off: seq<Try>, on: seq<Try>, cs: seq<Check>) returns (ok: bool)
      requires |off| == 3 && |on| == 3 && |cs| == DEVICE_LOOP_COUNT
      modifies this
      ensures (View(), ok) == Prepare(old(View()), l, off, on, cs)
    {
      hide AfterSafe, Safes, AfterSends, Passes, ConfirmAll;
      ok := SafeGenericImu(l, off);
      if ok {
        ok := EnableGenericImu(on);
        if ok {
          ok := ConfirmDataLoop(cs);
        }
      }
    }
  }
}

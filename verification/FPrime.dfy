/**
 The F' component: a second implementation of the same commands on the same driver, with
 telemetry and data driven by periodic ticks as well.
 */
module FPrime {
  import opened Bytes
  import opened Simulator
  import opened Driver
  import C = CfsApp
  import opened CfsLaws

  datatype Component = Component(
    cmd: Byte, cmdErr: Byte, dev: Byte, devErr: Byte, enabled: bool, hk: HkData, data: DeviceData)

  datatype Call =
    | RequestHousekeeping(t: Transfer)
    | RequestData(ts: Transfers)
    | Noop(t: Transfer)
    | ResetCounters
    | EnableCmd(ok: bool)
    | DisableCmd(ok: bool)
    | DataTick(ts: Transfers)
    | TlmTick(t: Transfer)
  {
    predicate IsCommand() { !DataTick? && !TlmTick? }
  }

  datatype Effect =
    | Init(ok: bool)
    | Close(ok: bool)
    | Exchange(code: Byte, t: Transfer)
    | ImuOut(data: DeviceData)
    | Response

  // ---------- specification ----------

  function Inc(b: Byte): Byte { C.Inc(b) }

  function Exchanges(ts: Transfers): seq<Effect> {
    seq(|ts|, i requires 0 <= i < |ts| => Exchange(REQ_X_CMD + i, ts[i]))
  }

  function CountDevice(c: Component, ok: bool): Component {
    if ok then c.(dev := Inc(c.dev)) else c.(devErr := Inc(c.devErr))
  }

  function HkAfter(h: HkData, t: Transfer): HkData { if t.Ok() then DecodeHk(t.data) else h }

  function Step(c: Component, i: Call): (Component, seq<Effect>) {
    match i
    case RequestHousekeeping(t) =>
      var d := c.(cmd := Inc(c.cmd));
      if c.enabled then (CountDevice(d.(hk := HkAfter(d.hk, t)), t.Ok()), [Exchange(REQ_HK_CMD, t), Response])
      else (d, [Response])
    case RequestData(ts) =>
      if c.enabled then
        var d := c.(cmd := Inc(c.cmd), data := Overwrite(c.data, ts));
        (d, Exchanges(ts) + [ImuOut(d.data), Response])
      else (c.(cmdErr := Inc(c.cmdErr)), [ImuOut(c.data), Response])
    case Noop(t) => (c.(cmd := Inc(c.cmd)), [Exchange(NOOP_CMD, t), Response])
    case ResetCounters => (c.(cmd := 0, cmdErr := 0, dev := 0, devErr := 0), [Response])
    case EnableCmd(ok) =>
      if c.enabled then (c.(cmdErr := Inc(c.cmdErr)), [Response])
      else (CountDevice(c.(cmd := Inc(c.cmd), enabled := ok), ok), [Init(ok), Response])
    case DisableCmd(ok) =>
      if !c.enabled then (c.(cmdErr := Inc(c.cmdErr)), [Response])
      else (CountDevice(c.(cmd := Inc(c.cmd), enabled := !ok), ok), [Close(ok), Response])
    case DataTick(ts) =>
      var d := c.(data := Overwrite(c.data, ts));
      (CountDevice(d, AllThree(ts)), Exchanges(ts) + (if AllThree(ts) then [ImuOut(d.data)] else []))
    case TlmTick(t) => (c.(hk := HkAfter(c.hk, t)), [Exchange(REQ_HK_CMD, t)])
  }

  function Run(c: Component, calls: seq<Call>): (Component, seq<Effect>)
    decreases |calls|
  {
    if |calls| == 0 then (c, []) else
    var (d, before) := Run(c, calls[..|calls| - 1]);
    var (e, now) := Step(d, calls[|calls| - 1]);
    (e, before + now)
  }

  // ---------- specification of the component with driver and device ----------

  /**
   The handlers as the framework invokes them, with what the bus and the interface do.  A simulator
   command that comes between two of them comes before the next transaction.
   */
  datatype Invocation =
    | OnRequestHousekeeping(l: Link)
    | OnRequestData(x: Link, y: Link, z: Link)
    | OnNoop(l: Link)
    | OnResetCounters
    | OnEnable(ok: bool)
    | OnDisable(ok: bool)
    | OnDataTick(x: Link, y: Link, z: Link)
    | OnTlmTick(l: Link)

  /** The component and the device behind its bus. */
  datatype System = System(component: Component, slave: Slave)

  function CallOf(s: Slave, i: Invocation): Call {
    match i
    case OnRequestHousekeeping(l) => RequestHousekeeping(Transact(s, REQ_HK_CMD, l).1)
    case OnRequestData(x, y, z) => RequestData(RequestThree(s, x, y, z).1)
    case OnNoop(l) => Noop(Transact(s, NOOP_CMD, l).1)
    case OnResetCounters => ResetCounters
    case OnEnable(ok) => EnableCmd(ok)
    case OnDisable(ok) => DisableCmd(ok)
    case OnDataTick(x, y, z) => DataTick(RequestThree(s, x, y, z).1)
    case OnTlmTick(l) => TlmTick(Transact(s, REQ_HK_CMD, l).1)
  }

  function SlaveAfter(s: System, i: Invocation): Slave {
    match i
    case OnRequestHousekeeping(l) => if s.component.enabled then Transact(s.slave, REQ_HK_CMD, l).0 else s.slave
    case OnRequestData(x, y, z) => if s.component.enabled then RequestThree(s.slave, x, y, z).0 else s.slave
    case OnNoop(l) => Transact(s.slave, NOOP_CMD, l).0
    case OnDataTick(x, y, z) => RequestThree(s.slave, x, y, z).0
    case OnTlmTick(l) => Transact(s.slave, REQ_HK_CMD, l).0
    case _ => s.slave
  }

  function SystemStep(s: System, i: Invocation): (System, seq<Effect>) {
    var (d, es) := Step(s.component, CallOf(s.slave, i));
    (System(d, SlaveAfter(s, i)), es)
  }

  function SystemRun(s: System, ins: seq<Invocation>): (System, seq<Effect>)
    decreases |ins|
  {
    if |ins| == 0 then (s, []) else
    var (t, before) := SystemRun(s, ins[..|ins| - 1]);
    var (u, now) := SystemStep(t, ins[|ins| - 1]);
    (u, before + now)
  }

  // ---------- the component ----------

  class ImuComponent {
    var commandCount: Byte
    var commandErrorCount: Byte
    var deviceCount: Byte
    var deviceErrorCount: Byte
    var deviceEnabled: Byte
    const imuHK: HkStruct
    const imuData: DataStruct
    const can: CanInfo
    ghost var trace: seq<Effect>

    ghost predicate Valid()
      reads this
    {
      && can.Valid() && imuData.Valid()
      && (deviceEnabled == C.DEVICE_DISABLED || deviceEnabled == C.DEVICE_ENABLED)
    }

    function View(): Component
      reads this, imuHK, imuData.xData, imuData.yData, imuData.zData
    {
      Component(commandCount, commandErrorCount, deviceCount, deviceErrorCount,
                deviceEnabled == C.DEVICE_ENABLED, imuHK.View(), imuData.View())
    }

    /** The component starts out enabled, whether its own init succeeds or not. */
    constructor (c: CanInfo, initOk: bool)
      requires c.Valid()
      ensures Valid() && can == c && trace == [Init(initOk)]
      ensures View() == Component(0, 0, 0, 0, true, HkData(0, 0), imuData.View())
      ensures fresh(imuHK) && fresh(imuData.xData) && fresh(imuData.yData) && fresh(imuData.zData)
    {
      can := c;
      imuHK := new HkStruct();
      imuData := new DataStruct();
      commandCount, commandErrorCount, deviceCount, deviceErrorCount := 0, 0, 0, 0;
      deviceEnabled := C.DEVICE_ENABLED;
      trace := [Init(initOk)];
    }

    ghost function Structs(): set<object> {
      {this, imuHK, imuData.xData, imuData.yData, imuData.zData}
    }

    function Whole(): System
      reads this, imuHK, imuData.xData, imuData.yData, imuData.zData, can.slave, can.slave.model
    {
      System(View(), can.slave.View())
    }

    method RequestHousekeepingHandler(link: Link)
      requires Valid()
      modifies Structs(), can.Footprint()
      ensures Valid()
      ensures var (s, t) := Transact(old(can.slave.View()), REQ_HK_CMD, link);
              var (c, es) := Step(old(View()), RequestHousekeeping(t));
              && can.slave.View() == (if old(View()).enabled then s else old(can.slave.View()))
              && View() == c && trace == old(trace) + es
    {
      hide Transact, DecodeHk, Overwrite, Exchanges;
      commandCount := Inc(commandCount);
      if deviceEnabled == C.DEVICE_ENABLED {
        ghost var t := Transact(can.slave.View(), REQ_HK_CMD, link).1;
        var status := can.RequestHK(imuHK, link);
        assert imuData.View() == old(imuData.View());
        trace := trace + [Exchange(REQ_HK_CMD, t)];
        if status == OS_SUCCESS {
          deviceCount := Inc(deviceCount);
        } else {
          deviceErrorCount := Inc(deviceErrorCount);
        }
      }
      trace := trace + [Response];
    }

    method UpdateData(x: Link, y: Link, z: Link)
      requires Valid()
      modifies Structs(), can.Footprint()
      ensures Valid()
      ensures var (s, ts) := RequestThree(old(can.slave.View()), x, y, z);
              var (c, es) := Step(old(View()), DataTick(ts));
              can.slave.View() == s && View() == c && trace == old(trace) + es
    {
      hide RequestThree, Overwrite, Exchanges;
      ghost var ts := RequestThree(can.slave.View(), x, y, z).1;
      var status := can.RequestData(imuData, x, y, z);
      trace := trace + Exchanges(ts);
      if status == OS_SUCCESS {
        deviceCount := Inc(deviceCount);
        trace := trace + [ImuOut(imuData.View())];
      } else {
        deviceErrorCount := Inc(deviceErrorCount);
      }
    }

    method UpdateTlm(link: Link)
      requires Valid()
      modifies Structs(), can.Footprint()
      ensures Valid()
      ensures var (s, t) := Transact(old(can.slave.View()), REQ_HK_CMD, link);
              var (c, es) := Step(old(View()), TlmTick(t));
              can.slave.View() == s && View() == c && trace == old(trace) + es
    {
      hide Transact, DecodeHk;
      ghost var t := Transact(can.slave.View(), REQ_HK_CMD, link).1;
      var status := can.RequestHK(imuHK, link);
      trace := trace + [Exchange(REQ_HK_CMD, t)];
    }

    method RequestDataHandler(x: Link, y: Link, z: Link)
      requires Valid()
      modifies Structs(), can.Footprint()
      ensures Valid()
      ensures var (s, ts) := RequestThree(old(can.slave.View()), x, y, z);
              var (c, es) := Step(old(View()), RequestData(ts));
              && can.slave.View() == (if old(View()).enabled then s else old(can.slave.View()))
              && View() == c && trace == old(trace) + es
    {
      hide RequestThree, Overwrite, Exchanges;
      if deviceEnabled == C.DEVICE_ENABLED {
        commandCount := Inc(commandCount);
        ghost var ts := RequestThree(can.slave.View(), x, y, z).1;
        var status := can.RequestData(imuData, x, y, z);
        trace := trace + Exchanges(ts);
      } else {
        commandErrorCount := Inc(commandErrorCount);
      }
      trace := trace + [ImuOut(imuData.View()), Response];
    }

    method NoopHandler(link: Link)
      requires Valid()
      modifies Structs(), can.Footprint()
      ensures Valid()
      ensures var (s, t) := Transact(old(can.slave.View()), NOOP_CMD, link);
              var (c, es) := Step(old(View()), Noop(t));
              can.slave.View() == s && View() == c && trace == old(trace) + es
    {
      hide Transact, DecodeHk, Overwrite, Exchanges;
      ghost var t := Transact(can.slave.View(), NOOP_CMD, link).1;
      var status := can.CommandDevice(NOOP_CMD, link);
      assert imuHK.View() == old(imuHK.View()) && imuData.View() == old(imuData.View());
      commandCount := Inc(commandCount);
      trace := trace + [Exchange(NOOP_CMD, t), Response];
    }

    method ResetCountersHandler()
      requires Valid()
      modifies this
      ensures Valid()
      ensures var (c, es) := Step(old(View()), ResetCounters); View() == c && trace == old(trace) + es
    {
      commandCount := 0;
      commandErrorCount := 0;
      deviceCount := 0;
      deviceErrorCount := 0;
      trace := trace + [Response];
    }

    method EnableHandler(initOk: bool)
      requires Valid()
      modifies this
      ensures Valid()
      ensures var (c, es) := Step(old(View()), EnableCmd(initOk)); View() == c && trace == old(trace) + es
    {
      if deviceEnabled == C.DEVICE_DISABLED {
        commandCount := Inc(commandCount);
        trace := trace + [Init(initOk)];
        if initOk {
          deviceEnabled := C.DEVICE_ENABLED;
          deviceCount := Inc(deviceCount);
        } else {
          deviceErrorCount := Inc(deviceErrorCount);
        }
      } else {
        commandErrorCount := Inc(commandErrorCount);
      }
      trace := trace + [Response];
    }

    method DisableHandler(closeOk: bool)
      requires Valid()
      modifies this
      ensures Valid()
      ensures var (c, es) := Step(old(View()), DisableCmd(closeOk)); View() == c && trace == old(trace) + es
    {
      if deviceEnabled == C.DEVICE_ENABLED {
        commandCount := Inc(commandCount);
        trace := trace + [Close(closeOk)];
        if closeOk {
          deviceEnabled := C.DEVICE_DISABLED;
          deviceCount := Inc(deviceCount);
        } else {
          deviceErrorCount := Inc(deviceErrorCount);
        }
      } else {
        commandErrorCount := Inc(commandErrorCount);
      }
      trace := trace + [Response];
    }

    /** The framework invokes one handler. */
    method Serve(i: Invocation)
      requires Valid()
      modifies Structs(), can.Footprint()
      ensures Valid()
      ensures var (s, es) := SystemStep(old(Whole()), i); Whole() == s && trace == old(trace) + es
    {
      hide Step, Transact, RequestThree;
      match i
      case OnRequestHousekeeping(l) => RequestHousekeepingHandler(l);
      case OnRequestData(x, y, z) => RequestDataHandler(x, y, z);
      case OnNoop(l) => NoopHandler(l);
      case OnResetCounters => ResetCountersHandler();
      case OnEnable(ok) => EnableHandler(ok);
      case OnDisable(ok) => DisableHandler(ok);
      case OnDataTick(x, y, z) => UpdateData(x, y, z);
      case OnTlmTick(l) => UpdateTlm(l);
    }
  }

  // ---------- counter conservation ----------

  /** Whether the component is enabled: so it starts, and so the last successful switch left it. */
  function On(calls: seq<Call>): bool
    decreases |calls|
  {
    if |calls| == 0 then true else
    match calls[|calls| - 1]
    case EnableCmd(ok) => ok || On(calls[..|calls| - 1])
    case DisableCmd(ok) => !ok && On(calls[..|calls| - 1])
    case _ => On(calls[..|calls| - 1])
  }

  /** Commands since the last reset. */
  function CommandsSince(calls: seq<Call>): nat
    decreases |calls|
  {
    if |calls| == 0 then 0 else
    var last, n := calls[|calls| - 1], CommandsSince(calls[..|calls| - 1]);
    if last.ResetCounters? then 0 else if last.IsCommand() then n + 1 else n
  }

  /** Device operations that are counted: housekeeping commands while on, data ticks, and switches that are tried. */
  function OperationsSince(calls: seq<Call>): nat
    decreases |calls|
  {
    if |calls| == 0 then 0 else
    var front, last := calls[..|calls| - 1], calls[|calls| - 1];
    var n := OperationsSince(front);
    match last
    case ResetCounters => 0
    case RequestHousekeeping(_) => if On(front) then n + 1 else n
    case EnableCmd(_) => if On(front) then n else n + 1
    case DisableCmd(_) => if On(front) then n + 1 else n
    case DataTick(_) => n + 1
    case _ => n
  }

  function Responses(tr: seq<Effect>): nat
    decreases |tr|
  {
    if |tr| == 0 then 0 else Responses(tr[..|tr| - 1]) + (if tr[|tr| - 1].Response? then 1 else 0)
  }

  function Commands(calls: seq<Call>): nat
    decreases |calls|
  {
    if |calls| == 0 then 0 else Commands(calls[..|calls| - 1]) + (if calls[|calls| - 1].IsCommand() then 1 else 0)
  }

  lemma {:induction false} ResponsesAdd(s: seq<Effect>, t: seq<Effect>)
    ensures Responses(s + t) == Responses(s) + Responses(t)
    decreases |t|
  {
    if |t| == 0 {
      assert s + t == s;
    } else {
      assert (s + t)[..|s + t| - 1] == s + t[..|t| - 1];
      ResponsesAdd(s, t[..|t| - 1]);
    }
  }

  lemma {:induction false} NoResponses(t: seq<Effect>)
    requires forall i :: 0 <= i < |t| ==> !t[i].Response?
    ensures Responses(t) == 0
    decreases |t|
  {
    if |t| > 0 { NoResponses(t[..|t| - 1]); }
  }

  /** Every command is answered once, as its last effect; a tick is never answered. */
  lemma StepAnswers(c: Component, i: Call)
    ensures Responses(Step(c, i).1) == if i.IsCommand() then 1 else 0
  {
    hide DecodeHk, Overwrite;
    var now := Step(c, i).1;
    if i.IsCommand() {
      assert now[|now| - 1] == Response;
      NoResponses(now[..|now| - 1]);
    } else {
      NoResponses(now);
    }
  }

  lemma {:induction false} EveryCommandAnswered(c: Component, calls: seq<Call>)
    ensures Responses(Run(c, calls).1) == Commands(calls)
    decreases |calls|
  {
    hide Step;
    if |calls| > 0 {
      var front, last := calls[..|calls| - 1], calls[|calls| - 1];
      EveryCommandAnswered(c, front);
      var (d, before) := Run(c, front);
      StepAnswers(d, last);
      ResponsesAdd(before, Step(d, last).1);
    }
  }

  lemma StepResets(c: Component)
    ensures var d := Step(c, ResetCounters).0;
            d.cmd == d.cmdErr == d.dev == d.devErr == 0 && d.enabled == c.enabled
  {
  }

  /** A command that is turned down, given whether the component is on. */
  predicate Refused(i: Call, on: bool) {
    (i.RequestData? && !on) || (i.EnableCmd? && on) || (i.DisableCmd? && !on)
  }

  /** A command, other than a reset, that is carried out. */
  predicate CarriedOut(i: Call, on: bool) {
    i.IsCommand() && !i.ResetCounters? && !Refused(i, on)
  }

  /** A device operation that works: a switch, a housekeeping command that is answered, a tick with all three axes. */
  predicate Worked(i: Call, on: bool) {
    || (i.RequestHousekeeping? && on && i.t.Delivered?)
    || (i.EnableCmd? && !on && i.ok)
    || (i.DisableCmd? && on && i.ok)
    || (i.DataTick? && |i.ts| == 3 && i.ts[0].Delivered? && i.ts[1].Delivered? && i.ts[2].Delivered?)
  }

  /** A device operation that fails. */
  predicate Failed(i: Call, on: bool) {
    || (i.RequestHousekeeping? && on && (i.t.RequestLost? || i.t.ReplyLost?))
    || (i.EnableCmd? && !on && !i.ok)
    || (i.DisableCmd? && on && !i.ok)
    || (i.DataTick? && exists k :: 0 <= k < |i.ts| && !i.ts[k].Delivered?)
  }

  /** The number of calls of one kind since the last reset. */
  ghost function Since(calls: seq<Call>, kind: (Call, bool) -> bool): nat
    decreases |calls|
  {
    if |calls| == 0 then 0 else
    var front, last := calls[..|calls| - 1], calls[|calls| - 1];
    if last.ResetCounters? then 0 else Since(front, kind) + (if kind(last, On(front)) then 1 else 0)
  }

  /** A tick either has all three axes, or one that is missing. */
  lemma TickWorksOrFails(ts: Transfers)
    ensures AllThree(ts) <==> |ts| == 3 && ts[0].Delivered? && ts[1].Delivered? && ts[2].Delivered?
    ensures AllThree(ts) <==> forall k :: 0 <= k < |ts| ==> ts[k].Delivered?
  {
    assert !ts[|ts| - 1].Ok() || AllThree(ts);
  }

  lemma StepCountsEach(c: Component, i: Call)
    requires !i.ResetCounters?
    ensures var d := Step(c, i).0;
            && d.cmd == (if CarriedOut(i, c.enabled) then Inc(c.cmd) else c.cmd)
            && d.cmdErr == (if Refused(i, c.enabled) then Inc(c.cmdErr) else c.cmdErr)
            && d.dev == (if Worked(i, c.enabled) then Inc(c.dev) else c.dev)
            && d.devErr == (if Failed(i, c.enabled) then Inc(c.devErr) else c.devErr)
  {
    hide DecodeHk, Overwrite, Exchanges, AllThree;
    if i.DataTick? {
      TickWorksOrFails(i.ts);
    }
  }

  lemma StepSwitches(c: Component, i: Call)
    ensures Step(c, i).0.enabled ==
            if i.EnableCmd? then i.ok || c.enabled else if i.DisableCmd? then !i.ok && c.enabled else c.enabled
  {
    hide DecodeHk, Overwrite;
  }

  lemma {:induction false} EnabledIsOn(c: Component, calls: seq<Call>)
    requires c.enabled
    ensures Run(c, calls).0.enabled == On(calls)
    decreases |calls|
  {
    hide Step;
    if |calls| > 0 {
      EnabledIsOn(c, calls[..|calls| - 1]);
      StepSwitches(Run(c, calls[..|calls| - 1]).0, calls[|calls| - 1]);
    }
  }

  /**
   Each of the four counters, after any run from a start with zero counters: the commands that were
   carried out and those that were turned down, and the device operations that worked and those that
   failed, since the last reset, modulo 256.
   */
  lemma {:induction false} EachCounterExactly(c: Component, calls: seq<Call>)
    requires c.cmd == c.cmdErr == c.dev == c.devErr == 0 && c.enabled
    ensures var d := Run(c, calls).0;
            && d.cmd == Since(calls, CarriedOut) % 0x100
            && d.cmdErr == Since(calls, Refused) % 0x100
            && d.dev == Since(calls, Worked) % 0x100
            && d.devErr == Since(calls, Failed) % 0x100
    decreases |calls|
  {
    hide Step, CarriedOut, Refused, Worked, Failed, C.Inc;
    if |calls| > 0 {
      var front, last := calls[..|calls| - 1], calls[|calls| - 1];
      EachCounterExactly(c, front);
      EnabledIsOn(c, front);
      var d := Run(c, front).0;
      if last.ResetCounters? {
        StepResets(d);
      } else {
        StepCountsEach(d, last);
        CountsOn(d.cmd, Since(front, CarriedOut));
        CountsOn(d.cmdErr, Since(front, Refused));
        CountsOn(d.dev, Since(front, Worked));
        CountsOn(d.devErr, Since(front, Failed));
      }
    }
  }

  /** Every command but a reset is carried out or turned down, and every counted operation works or fails. */
  lemma {:induction false} KindsAddUp(calls: seq<Call>)
    ensures Since(calls, CarriedOut) + Since(calls, Refused) == CommandsSince(calls)
    ensures Since(calls, Worked) + Since(calls, Failed) == OperationsSince(calls)
    decreases |calls|
  {
    if |calls| > 0 {
      KindsAddUp(calls[..|calls| - 1]);
      if calls[|calls| - 1].DataTick? {
        TickWorksOrFails(calls[|calls| - 1].ts);
      }
    }
  }

  /**
   Counter conservation: after any run from a start with zero counters, the sums of the counters are
   the commands, and the counted device operations, since the last reset; every command got one response.
   */
  lemma CountersConserved(c: Component, calls: seq<Call>)
    requires c.cmd == c.cmdErr == c.dev == c.devErr == 0 && c.enabled
    ensures var (d, tr) := Run(c, calls);
            && (d.cmd + d.cmdErr) % 0x100 == CommandsSince(calls) % 0x100
            && (d.dev + d.devErr) % 0x100 == OperationsSince(calls) % 0x100
            && d.enabled == On(calls)
            && Responses(tr) == Commands(calls)
  {
    hide Run, Since, On, CommandsSince, OperationsSince, Responses, Commands;
    var d := Run(c, calls).0;
    EachCounterExactly(c, calls);
    KindsAddUp(calls);
    EnabledIsOn(c, calls);
    EveryCommandAnswered(c, calls);
    SumWraps(d.cmd, d.cmdErr, Since(calls, CarriedOut), Since(calls, Refused));
    SumWraps(d.dev, d.devErr, Since(calls, Worked), Since(calls, Failed));
  }

  // ---------- what is in memory, and what is sent out ----------

  /** An effect other than a response, in the vocabulary of the cFS application. */
  function AsEvent(e: Effect): C.Event
    requires !e.Response?
  {
    match e
    case Init(ok) => C.Init(ok)
    case Close(ok) => C.Close(ok)
    case Exchange(code, t) => C.Exchange(code, t)
    case ImuOut(d) => C.DataOut(d)
  }

  /** The record without the responses. */
  function EventsOf(tr: seq<Effect>): seq<C.Event>
    decreases |tr|
  {
    if |tr| == 0 then [] else
    EventsOf(tr[..|tr| - 1]) + (if tr[|tr| - 1].Response? then [] else [AsEvent(tr[|tr| - 1])])
  }

  lemma {:induction false} EventsAdd(s: seq<Effect>, t: seq<Effect>)
    ensures EventsOf(s + t) == EventsOf(s) + EventsOf(t)
    decreases |t|
  {
    if |t| == 0 {
      assert s + t == s;
    } else {
      assert (s + t)[..|s + t| - 1] == s + t[..|t| - 1];
      EventsAdd(s, t[..|t| - 1]);
    }
  }

  /** Without responses, the events are the effects, one by one. */
  lemma {:induction false} EventsInPlace(tr: seq<Effect>)
    requires forall k :: 0 <= k < |tr| ==> !tr[k].Response?
    ensures |EventsOf(tr)| == |tr| && forall k :: 0 <= k < |tr| ==> EventsOf(tr)[k] == AsEvent(tr[k])
    decreases |tr|
  {
    if |tr| > 0 { EventsInPlace(tr[..|tr| - 1]); }
  }

  /** The events of one step are its effects, up to the response that ends a command. */
  lemma EventsOfStep(c: Component, i: Call)
    ensures var now := Step(c, i).1;
            && |EventsOf(now)| == |now| - (if i.IsCommand() then 1 else 0)
            && forall k :: 0 <= k < |EventsOf(now)| ==> !now[k].Response? && EventsOf(now)[k] == AsEvent(now[k])
  {
    hide DecodeHk, Overwrite, AsEvent;
    var now := Step(c, i).1;
    if i.IsCommand() {
      var body := now[..|now| - 1];
      assert now[|now| - 1] == Response;
      EventsInPlace(body);
    } else {
      EventsInPlace(now);
    }
  }

  function HkSince(tr: seq<Effect>, h: HkData): HkData {
    match Latest(EventsOf(tr), REQ_HK_CMD)
    case Nothing => h
    case Just(p) => DecodeHk(p)
  }

  function AxisSince(tr: seq<Effect>, code: Byte, d: AxisData): AxisData {
    match Latest(EventsOf(tr), code)
    case Nothing => d
    case Just(p) => DecodeAxis(p)
  }

  function DataSince(tr: seq<Effect>, d: DeviceData): DeviceData {
    DeviceData(AxisSince(tr, REQ_X_CMD, d.x), AxisSince(tr, REQ_Y_CMD, d.y), AxisSince(tr, REQ_Z_CMD, d.z))
  }

  lemma LatestOfCall(s: seq<Effect>, t: seq<Effect>, code: Byte)
    ensures Latest(EventsOf(s + t), code) ==
            if Latest(EventsOf(t), code).Just? then Latest(EventsOf(t), code) else Latest(EventsOf(s), code)
  {
    EventsAdd(s, t);
    LatestAppends(EventsOf(s), EventsOf(t), code);
  }

  /** The delivered replies of one call, by command code. */
  function ReplyOf(c: Component, i: Call, code: Byte): Maybe {
    match i
    case RequestHousekeeping(t) => if c.enabled && code == REQ_HK_CMD && t.Ok() then Just(t.data) else Nothing
    case TlmTick(t) => if code == REQ_HK_CMD && t.Ok() then Just(t.data) else Nothing
    case RequestData(ts) =>
      if c.enabled && code >= 2 && code - 2 < |ts| && ts[code - 2].Ok() then Just(ts[code - 2].data) else Nothing
    case DataTick(ts) => if code >= 2 && code - 2 < |ts| && ts[code - 2].Ok() then Just(ts[code - 2].data) else Nothing
    case _ => Nothing
  }

  lemma LatestOfStep(c: Component, i: Call, code: Byte)
    requires 1 <= code <= 4
    ensures Latest(EventsOf(Step(c, i).1), code) == ReplyOf(c, i, code)
  {
    hide DecodeHk, Overwrite, Latest, EventsOf;
    EventsOfStep(c, i);
    var es := EventsOf(Step(c, i).1);
    if ReplyOf(c, i, code).Just? {
      LatestIs(es, code, if code == REQ_HK_CMD then 0 else code - 2);
    } else {
      LatestNothing(es, code);
    }
  }

  lemma StepStores(c: Component, i: Call)
    ensures var (d, now) := Step(c, i);
            && d.hk == HkSince(now, c.hk) && d.data == DataSince(now, c.data)
            && (forall k :: 0 <= k < |now| && now[k].ImuOut? ==> now[k].data == d.data)
  {
    hide DecodeHk, DecodeAxis, Latest, EventsOf;
    LatestOfStep(c, i, 1);
    LatestOfStep(c, i, 2);
    LatestOfStep(c, i, 3);
    LatestOfStep(c, i, 4);
  }

  /** Memory holds the latest successful reply of each kind, and this is what is sent out. */
  lemma {:induction false} ComponentRemembers(c: Component, calls: seq<Call>)
    ensures var (d, tr) := Run(c, calls); d.hk == HkSince(tr, c.hk) && d.data == DataSince(tr, c.data)
    decreases |calls|
  {
    hide Step, EventsOf, DecodeHk, DecodeAxis;
    if |calls| == 0 {
      EventsInPlace([]);
    } else {
      var front, last := calls[..|calls| - 1], calls[|calls| - 1];
      ComponentRemembers(c, front);
      var (d, before) := Run(c, front);
      StepStores(d, last);
      var now := Step(d, last).1;
      forall code: Byte | 1 <= code <= 4
        ensures Latest(EventsOf(before + now), code) ==
          if Latest(EventsOf(now), code).Just? then Latest(EventsOf(now), code) else Latest(EventsOf(before), code)
      {
        LatestOfCall(before, now, code);
      }
    }
  }

  // ---------- which requests the data come from ----------

  /** What call k of a run delivers under this command code. */
  function ReplyAt(c: Component, calls: seq<Call>, k: nat, code: Byte): Maybe
    requires k < |calls|
  {
    ReplyOf(Run(c, calls[..k]).0, calls[k], code)
  }

  lemma ReplyAtPrefix(c: Component, calls: seq<Call>, n: nat, code: Byte)
    requires n <= |calls|
    ensures forall j: nat :: j < n ==> ReplyAt(c, calls[..n], j, code) == ReplyAt(c, calls, j, code)
  {
    forall j: nat | j < n ensures ReplyAt(c, calls[..n], j, code) == ReplyAt(c, calls, j, code) {
      assert calls[..n][..j] == calls[..j];
    }
  }

  /** The last call that delivers a reply under this command code, or -1 if none does. */
  function Origin(c: Component, calls: seq<Call>, code: Byte): (k: int)
    ensures -1 <= k < |calls|
    ensures k >= 0 ==> ReplyAt(c, calls, k, code).Just?
    ensures forall j :: k < j < |calls| ==> ReplyAt(c, calls, j, code) == Nothing
    decreases |calls|
  {
    if |calls| == 0 then -1 else
    var n := |calls| - 1;
    if ReplyAt(c, calls, n, code).Just? then n else
    ReplyAtPrefix(c, calls, n, code);
    Origin(c, calls[..n], code)
  }

  lemma OriginExtends(c: Component, calls: seq<Call>, i: Call, code: Byte)
    ensures Origin(c, calls + [i], code) ==
            if ReplyOf(Run(c, calls).0, i, code).Just? then |calls| else Origin(c, calls, code)
  {
    assert (calls + [i])[..|calls|] == calls;
  }

  /** An axis in memory: the reply of its origin, or what was there at the start. */
  function AxisFrom(c: Component, calls: seq<Call>, code: Byte, start: AxisData): AxisData {
    var k := Origin(c, calls, code);
    if k == -1 then start else DecodeAxis(ReplyAt(c, calls, k, code).data)
  }

  function DataFrom(c: Component, calls: seq<Call>): DeviceData {
    DeviceData(
      AxisFrom(c, calls, REQ_X_CMD, c.data.x), AxisFrom(c, calls, REQ_Y_CMD, c.data.y),
      AxisFrom(c, calls, REQ_Z_CMD, c.data.z))
  }

  lemma AxisFromExtends(c: Component, calls: seq<Call>, i: Call, code: Byte, start: AxisData)
    ensures AxisFrom(c, calls + [i], code, start) ==
            match ReplyOf(Run(c, calls).0, i, code)
            case Nothing => AxisFrom(c, calls, code, start)
            case Just(p) => DecodeAxis(p)
  {
    hide Step, ReplyOf, DecodeAxis;
    var all := calls + [i];
    OriginExtends(c, calls, i, code);
    assert all[..|calls|] == calls;
    var k := Origin(c, calls, code);
    if k >= 0 {
      assert all[..k] == calls[..k];
    }
  }

  lemma NoOrigins(c: Component)
    ensures DataFrom(c, []) == c.data
  {
  }

  /** Memory holds the replies of the origins. */
  lemma {:induction false} MemoryFromOrigins(c: Component, calls: seq<Call>)
    ensures Run(c, calls).0.data == DataFrom(c, calls)
    decreases |calls|
  {
    hide Step, ReplyOf, DecodeAxis, AxisFrom, EventsOf;
    if |calls| == 0 {
      NoOrigins(c);
    } else {
      var front, last := calls[..|calls| - 1], calls[|calls| - 1];
      MemoryFromOrigins(c, front);
      var d := Run(c, front).0;
      StepStores(d, last);
      assert calls == front + [last];
      LatestOfStep(d, last, REQ_X_CMD);
      LatestOfStep(d, last, REQ_Y_CMD);
      LatestOfStep(d, last, REQ_Z_CMD);
      AxisFromExtends(c, front, last, REQ_X_CMD, c.data.x);
      AxisFromExtends(c, front, last, REQ_Y_CMD, c.data.y);
      AxisFromExtends(c, front, last, REQ_Z_CMD, c.data.z);
    }
  }

  /** A call delivers an axis only after the one before it. */
  lemma RepliesInOrder(c: Component, i: Call)
    ensures ReplyOf(c, i, REQ_Z_CMD).Just? ==> ReplyOf(c, i, REQ_Y_CMD).Just?
    ensures ReplyOf(c, i, REQ_Y_CMD).Just? ==> ReplyOf(c, i, REQ_X_CMD).Just?
  {
  }

  /** The axes come from one request exactly if the last request that delivered X delivered Z as well. */
  lemma {:induction false} OneOriginExactly(c: Component, calls: seq<Call>)
    ensures var x, y, z := Origin(c, calls, REQ_X_CMD), Origin(c, calls, REQ_Y_CMD), Origin(c, calls, REQ_Z_CMD);
            && z <= y <= x
            && (x == y == z <==> x == -1 || ReplyAt(c, calls, x, REQ_Z_CMD).Just?)
    decreases |calls|
  {
    hide Step, ReplyOf;
    if |calls| > 0 {
      var front, last := calls[..|calls| - 1], calls[|calls| - 1];
      OneOriginExactly(c, front);
      RepliesInOrder(Run(c, front).0, last);
      var x := Origin(c, front, REQ_X_CMD);
      assert calls == front + [last];
      OriginExtends(c, front, last, REQ_X_CMD);
      OriginExtends(c, front, last, REQ_Y_CMD);
      OriginExtends(c, front, last, REQ_Z_CMD);
      if x >= 0 {
        assert calls[..x] == front[..x];
      }
    }
  }

  /**
   Every output of every run holds the axes of their origins, where no axis is newer than the one
   before it; and it is unmixed exactly if nothing was ever delivered, or if the last request that
   delivered X delivered Z as well.
   */
  lemma OutputUnmixedExactly(c: Component, calls: seq<Call>)
    requires |calls| > 0
    ensures var now := Step(Run(c, calls[..|calls| - 1]).0, calls[|calls| - 1]).1;
            var x, y, z := Origin(c, calls, REQ_X_CMD), Origin(c, calls, REQ_Y_CMD), Origin(c, calls, REQ_Z_CMD);
            && (forall k :: 0 <= k < |now| && now[k].ImuOut? ==> now[k].data == DataFrom(c, calls))
            && z <= y <= x
            && (x == y == z <==> x == -1 || ReplyAt(c, calls, x, REQ_Z_CMD).Just?)
  {
    hide Step, Origin, DataFrom, EventsOf;
    StepStores(Run(c, calls[..|calls| - 1]).0, calls[|calls| - 1]);
    MemoryFromOrigins(c, calls);
    OneOriginExactly(c, calls);
  }

  // ---------- where it departs from the cFS application ----------

  /** e is a successful transaction with this command code. */
  predicate Succeeds(e: Effect, code: Byte) { e.Exchange? && e.code == code && e.t.Ok() }

  /** The output at k decodes the three successful transactions just before it. */
  predicate FreshAt(now: seq<Effect>, k: nat)
    requires k < |now| && now[k].ImuOut?
  {
    && k >= 3
    && Succeeds(now[k - 3], REQ_X_CMD) && Succeeds(now[k - 2], REQ_Y_CMD) && Succeeds(now[k - 1], REQ_Z_CMD)
    && now[k].data == DeviceData(
         DecodeAxis(now[k - 3].t.data), DecodeAxis(now[k - 2].t.data), DecodeAxis(now[k - 1].t.data))
  }

  lemma OutputFreshAt(c: Component, i: Call, k: nat)
    ensures var now := Step(c, i).1;
            k < |now| && now[k].ImuOut? ==>
              (FreshAt(now, k) <==> i.DataTick? || (i.RequestData? && c.enabled && AllThree(i.ts)))
  {
    hide DecodeHk, DecodeAxis;
    var now := Step(c, i).1;
    if k >= |now| || !now[k].ImuOut? {
      return;
    }
    if i.RequestData? && c.enabled && !AllThree(i.ts) {
      assert k == |i.ts|;
      assert now[k - 1] == Exchange(REQ_X_CMD + k - 1, i.ts[k - 1]);
    }
    if i.DataTick? || (i.RequestData? && c.enabled && AllThree(i.ts)) {
      assert k == 3 && |i.ts| == 3;
      assert now[0] == Exchange(2, i.ts[0]) && now[1] == Exchange(3, i.ts[1]) && now[2] == Exchange(4, i.ts[2]);
    }
  }

  /** An output is what its own call asked for exactly if that is a tick, or an enabled command that lost nothing. */
  lemma OutputFreshExactly(c: Component, i: Call)
    ensures var now := Step(c, i).1;
            forall k: nat :: k < |now| && now[k].ImuOut? ==>
              (FreshAt(now, k) <==> i.DataTick? || (i.RequestData? && c.enabled && AllThree(i.ts)))
  {
    var now := Step(c, i).1;
    forall k: nat | k < |now| && now[k].ImuOut?
      ensures FreshAt(now, k) <==> i.DataTick? || (i.RequestData? && c.enabled && AllThree(i.ts))
    {
      OutputFreshAt(c, i, k);
    }
  }

  /** A data command that loses the Y axis sends out a mixed packet: X from now, Y and Z from before. */
  lemma MixedOutput(c: Component, a: Payload, b: Payload)
    requires c.enabled
    ensures var first := RequestData([Delivered([], a), Delivered([], a), Delivered([], a)]);
            var second := RequestData([Delivered([], b), RequestLost([])]);
            var (d, tr) := Run(c, [first, second]);
            |tr| >= 2 && tr[|tr| - 2] == ImuOut(DeviceData(DecodeAxis(b), DecodeAxis(a), DecodeAxis(a)))
  {
    hide DecodeAxis;
    var first := RequestData([Delivered([], a), Delivered([], a), Delivered([], a)]);
    var second := RequestData([Delivered([], b), RequestLost([])]);
    assert [first, second][..1] == [first];
    assert [first][..0] == [];
    assert Run(c, [first]).0 == Step(c, first).0;
  }

  /** The calls that use the bus whether the component is enabled or not. */
  predicate IgnoresFlag(i: Call) { i.Noop? || i.DataTick? || i.TlmTick? }

  /** While disabled, the component uses the bus exactly for the NOOP command and for the two ticks. */
  lemma UsesBusWhileDisabled(c: Component, i: Call)
    requires !c.enabled
    ensures (exists k :: 0 <= k < |Step(c, i).1| && Step(c, i).1[k].Exchange?) <==> IgnoresFlag(i)
  {
    hide DecodeHk, Overwrite;
    var now := Step(c, i).1;
    if IgnoresFlag(i) {
      assert now[0].Exchange?;
    }
  }

  /** What a step does to the bus, event by event. */
  lemma StepOnBus(c: Component, i: Call)
    ensures var (d, now) := (Step(c, i).0, EventsOf(Step(c, i).1));
            && (forall k :: 0 <= k < |now| && now[k].Init? ==> !c.enabled)
            && (forall k :: 0 <= k < |now| && now[k].Close? ==> c.enabled)
            && (forall k :: 0 <= k < |now| && now[k].Exchange? ==> c.enabled || IgnoresFlag(i))
            && (IgnoresFlag(i) ==> |now| > 0 && now[0].Exchange?)
            && (c.enabled && !i.ResetCounters? && !i.EnableCmd? ==> |now| > 0 && (now[0].Exchange? || now[0].Close?))
            && (c.enabled && (i.ResetCounters? || i.EnableCmd?) ==> now == [])
            && (|now| != 1 ==> d.enabled == c.enabled && forall k :: 0 <= k < |now| ==> Weight(now[k]) == 0)
            && (|now| == 1 ==> Weight(now[0]) == (if d.enabled then 1 else 0) - (if c.enabled then 1 else 0))
  {
    hide DecodeHk, Overwrite, EventsOf;
    EventsOfStep(c, i);
  }

  /** In a state that agrees with the record so far, a step keeps the discipline unless it ignores a cleared flag. */
  lemma StepInOrder(c: Component, i: Call, before: seq<C.Event>)
    requires Balance(before) == if c.enabled then 1 else 0
    ensures var (d, now) := (Step(c, i).0, EventsOf(Step(c, i).1));
            && (MayFollow(before, now) <==> c.enabled || !IgnoresFlag(i))
            && Balance(before + now) == if d.enabled then 1 else 0
  {
    hide Step, EventsOf, Balance;
    StepOnBus(c, i);
    var now := EventsOf(Step(c, i).1);
    BalanceAdds(before, now);
    assert before + now[..0] == before;
    if |now| == 1 {
      BalanceOfOne(now[0]);
      assert now == [now[0]];
    } else {
      QuietBalance(now);
      forall k | 0 <= k < |now| ensures Balance(before + now[..k]) == Balance(before) {
        BalanceAdds(before, now[..k]);
        QuietBalance(now[..k]);
      }
    }
    if !c.enabled && IgnoresFlag(i) {
      assert !InOrder(before + now[..0], now[0]);
    }
  }

  /** The calls that ignore the flag all come while it is set. */
  predicate OnlyWhileOn(calls: seq<Call>) {
    forall k :: 0 <= k < |calls| && IgnoresFlag(calls[k]) ==> On(calls[..k])
  }

  lemma InitAlone(ok: bool)
    ensures var bus := [C.Init(ok)]; Disciplined(bus) && Balance(bus) == if ok then 1 else 0
  {
    assert [C.Init(ok)][..0] == [];
  }

  lemma OnlyWhileOnAppends(calls: seq<Call>, i: Call)
    ensures OnlyWhileOn(calls + [i]) <==> OnlyWhileOn(calls) && (IgnoresFlag(i) ==> On(calls))
  {
    hide On, IgnoresFlag;
    var all := calls + [i];
    assert all[..|calls|] == calls && all[|calls|] == i;
    forall k | 0 <= k < |calls| ensures all[..k] == calls[..k] && all[k] == calls[k] {
    }
  }

  lemma {:induction false} DisciplineAfterInit(c: Component, calls: seq<Call>)
    requires c.enabled
    ensures var (d, tr) := Run(c, calls);
            var bus := [C.Init(true)] + EventsOf(tr);
            && d.enabled == On(calls) && Balance(bus) == (if d.enabled then 1 else 0)
            && (Disciplined(bus) <==> OnlyWhileOn(calls))
    decreases |calls|
  {
    hide Step, EventsOf, InOrder, MayFollow;
    if |calls| == 0 {
      EventsInPlace([]);
      InitAlone(true);
    } else {
      var front, last := calls[..|calls| - 1], calls[|calls| - 1];
      DisciplineAfterInit(c, front);
      var (d, tr) := Run(c, front);
      var bus := [C.Init(true)] + EventsOf(tr);
      var now := Step(d, last).1;
      StepInOrder(d, last, bus);
      StepSwitches(d, last);
      EventsAdd(tr, now);
      assert bus + EventsOf(now) == [C.Init(true)] + EventsOf(tr + now);
      DisciplinedAppends(bus, EventsOf(now));
      OnlyWhileOnAppends(front, last);
      assert calls == front + [last];
    }
  }

  /** A reset, or an enable: rejected while the component is enabled, and neither touches the bus. */
  predicate Idle(i: Call) { i.ResetCounters? || i.EnableCmd? }

  lemma AfterFailedInit(c: Component, i: Call)
    requires c.enabled
    ensures var (d, now) := (Step(c, i).0, EventsOf(Step(c, i).1));
            if Idle(i) then d.enabled && now == [] && MayFollow([C.Init(false)], now)
            else !MayFollow([C.Init(false)], now)
  {
    hide Step, EventsOf;
    StepOnBus(c, i);
    StepSwitches(c, i);
    InitAlone(false);
    var now := EventsOf(Step(c, i).1);
    if !Idle(i) {
      assert [C.Init(false)] + now[..0] == [C.Init(false)];
      assert !InOrder([C.Init(false)] + now[..0], now[0]);
    }
  }

  lemma {:induction false} DisciplineAfterFailedInit(c: Component, calls: seq<Call>)
    requires c.enabled
    ensures var (d, tr) := Run(c, calls);
            var bus := [C.Init(false)] + EventsOf(tr);
            var idle := forall k :: 0 <= k < |calls| ==> Idle(calls[k]);
            && (idle ==> d.enabled && EventsOf(tr) == [])
            && (Disciplined(bus) <==> idle)
    decreases |calls|
  {
    hide Step, EventsOf, MayFollow, Idle;
    EventsInPlace([]);
    InitAlone(false);
    if |calls| > 0 {
      var front, last := calls[..|calls| - 1], calls[|calls| - 1];
      DisciplineAfterFailedInit(c, front);
      var (d, tr) := Run(c, front);
      var bus := [C.Init(false)] + EventsOf(tr);
      var now := Step(d, last).1;
      EventsAdd(tr, now);
      assert bus + EventsOf(now) == [C.Init(false)] + EventsOf(tr + now);
      DisciplinedAppends(bus, EventsOf(now));
      if forall k :: 0 <= k < |front| ==> Idle(front[k]) {
        assert bus == [C.Init(false)];
        AfterFailedInit(d, last);
      }
    }
  }

  /**
   Bus discipline of the component, from its constructor on.  If its init succeeded, the discipline of
   the cFS application holds exactly if every NOOP and every tick comes while the component is enabled;
   if its init failed, it is broken by the first call that is not a reset or an enable.
   */
  lemma DisciplineExactly(c: Component, initOk: bool, calls: seq<Call>)
    requires c.enabled
    ensures var tr := [Init(initOk)] + Run(c, calls).1;
            Disciplined(EventsOf(tr)) <==>
            if initOk then OnlyWhileOn(calls) else forall k :: 0 <= k < |calls| ==> Idle(calls[k])
  {
    hide Run, OnlyWhileOn, Idle;
    EventsInPlace([Init(initOk)]);
    EventsAdd([Init(initOk)], Run(c, calls).1);
    assert EventsOf([Init(initOk)]) == [C.Init(initOk)];
    if initOk {
      DisciplineAfterInit(c, calls);
    } else {
      DisciplineAfterFailedInit(c, calls);
    }
  }

  // ---------- the two implementations agree ----------

  /** The commands that both have, with what the hardware does. */
  datatype Common = Nop(t: Transfer) | Reset | Enable(ok: bool) | Disable(ok: bool)

  function ForCfs(k: Common, rest: C.Env): C.Input {
    match k
    case Nop(_) => C.Message(C.Msg(C.CMD_MID, C.NOOP_CC, C.NO_ARGS_LENGTH), rest)
    case Reset => C.Message(C.Msg(C.CMD_MID, C.RESET_COUNTERS_CC, C.NO_ARGS_LENGTH), rest)
    case Enable(ok) => C.Message(C.Msg(C.CMD_MID, C.ENABLE_CC, C.NO_ARGS_LENGTH), rest.(initOk := ok))
    case Disable(ok) => C.Message(C.Msg(C.CMD_MID, C.DISABLE_CC, C.NO_ARGS_LENGTH), rest.(closeOk := ok))
  }

  function ForFPrime(k: Common): Call {
    match k
    case Nop(t) => Noop(t)
    case Reset => ResetCounters
    case Enable(ok) => EnableCmd(ok)
    case Disable(ok) => DisableCmd(ok)
  }

  /** Equal counters and equal enable state. */
  predicate Related(a: C.App, c: Component) {
    a.cmd == c.cmd && a.cmdErr == c.cmdErr && a.dev == c.dev && a.devErr == c.devErr && a.enabled == c.enabled
  }

  /** The inits (true) and closes (false) that were tried, with their outcomes. */
  function CfsSwitches(tr: seq<C.Event>): seq<(bool, bool)>
    decreases |tr|
  {
    if |tr| == 0 then [] else
    var e := tr[|tr| - 1];
    CfsSwitches(tr[..|tr| - 1]) + (if e.Init? then [(true, e.ok)] else if e.Close? then [(false, e.ok)] else [])
  }

  function FPrimeSwitches(tr: seq<Effect>): seq<(bool, bool)>
    decreases |tr|
  {
    if |tr| == 0 then [] else
    var e := tr[|tr| - 1];
    FPrimeSwitches(tr[..|tr| - 1]) + (if e.Init? then [(true, e.ok)] else if e.Close? then [(false, e.ok)] else [])
  }

  lemma {:induction false} CfsSwitchesAdd(s: seq<C.Event>, t: seq<C.Event>)
    ensures CfsSwitches(s + t) == CfsSwitches(s) + CfsSwitches(t)
    decreases |t|
  {
    if |t| == 0 {
      assert s + t == s;
    } else {
      assert (s + t)[..|s + t| - 1] == s + t[..|t| - 1];
      CfsSwitchesAdd(s, t[..|t| - 1]);
    }
  }

  lemma {:induction false} FPrimeSwitchesAdd(s: seq<Effect>, t: seq<Effect>)
    ensures FPrimeSwitches(s + t) == FPrimeSwitches(s) + FPrimeSwitches(t)
    decreases |t|
  {
    if |t| == 0 {
      assert s + t == s;
    } else {
      assert (s + t)[..|s + t| - 1] == s + t[..|t| - 1];
      FPrimeSwitchesAdd(s, t[..|t| - 1]);
    }
  }

  lemma SwitchesOfOne(e: C.Event, f: Effect)
    ensures CfsSwitches([e]) == if e.Init? then [(true, e.ok)] else if e.Close? then [(false, e.ok)] else []
    ensures FPrimeSwitches([f]) == if f.Init? then [(true, f.ok)] else if f.Close? then [(false, f.ok)] else []
  {
    assert [e][..0] == [] && [f][..0] == [];
  }

  lemma NoSwitches()
    ensures CfsSwitches([]) == [] && FPrimeSwitches([]) == []
  {
  }

  lemma StepsAgree(a: C.App, c: Component, k: Common, rest: C.Env)
    requires Related(a, c)
    ensures var (b, es) := C.InputStep(a, ForCfs(k, rest));
            var (d, fs) := Step(c, ForFPrime(k));
            Related(b, d) && CfsSwitches(es) == FPrimeSwitches(fs)
  {
    hide DecodeHk, Overwrite, Exchanges, CfsSwitches, FPrimeSwitches;
    var es := C.InputStep(a, ForCfs(k, rest)).1;
    var fs := Step(c, ForFPrime(k)).1;
    NoSwitches();
    SwitchesOfOne(C.Init(true), Response);
    if |es| == 1 {
      assert es == [es[0]];
    }
    if |fs| == 2 {
      assert fs == [fs[0]] + [Response];
      FPrimeSwitchesAdd([fs[0]], [Response]);
      SwitchesOfOne(if |es| > 0 then es[0] else C.Init(true), fs[0]);
    }
  }

  function CfsInputs(ks: seq<Common>, rests: seq<C.Env>): (r: seq<C.Input>)
    requires |ks| == |rests|
    ensures |r| == |ks|
  {
    seq(|ks|, i requires 0 <= i < |ks| => ForCfs(ks[i], rests[i]))
  }

  function FPrimeCalls(ks: seq<Common>): (r: seq<Call>)
    ensures |r| == |ks|
  {
    seq(|ks|, i requires 0 <= i < |ks| => ForFPrime(ks[i]))
  }

  /**
   From related states, any sequence of the common commands with the same outcomes of init and close
   leaves related states, and makes both try the same inits and closes in the same order.
   */
  lemma {:induction false} ImplementationsAgree(a: C.App, c: Component, ks: seq<Common>, rests: seq<C.Env>)
    requires Related(a, c) && |ks| == |rests|
    ensures var (b, es) := C.Run(a, CfsInputs(ks, rests));
            var (d, fs) := Run(c, FPrimeCalls(ks));
            Related(b, d) && CfsSwitches(es) == FPrimeSwitches(fs)
    decreases |ks|
  {
    hide Step, C.InputStep, ForCfs, ForFPrime;
    if |ks| > 0 {
      var n := |ks| - 1;
      ImplementationsAgree(a, c, ks[..n], rests[..n]);
      assert CfsInputs(ks, rests)[..n] == CfsInputs(ks[..n], rests[..n]);
      assert FPrimeCalls(ks)[..n] == FPrimeCalls(ks[..n]);
      var (b, es) := C.Run(a, CfsInputs(ks[..n], rests[..n]));
      var (d, fs) := Run(c, FPrimeCalls(ks[..n]));
      StepsAgree(b, d, ks[n], rests[n]);
      CfsSwitchesAdd(es, C.InputStep(b, ForCfs(ks[n], rests[n])).1);
      FPrimeSwitchesAdd(fs, Step(d, ForFPrime(ks[n])).1);
    }
  }
}

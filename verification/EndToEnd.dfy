/** Laws of runs of the application together with its driver and the simulated device. */
module EndToEnd {
  import opened Bytes
  import opened SensorCode
  import opened Powers
  import opened Rounding
  import opened Simulator
  import opened Driver
  import opened CfsApp
  import opened CfsLaws

  // ---------- a system run is a run of the application ----------

  function Projected(s: System, i: SystemInput): Input {
    match i
    case Receive(m, l) => Message(m, EnvOf(s, l))
    case Backdoor(c) => Command(c)
  }

  function Projection(s: System, ins: seq<SystemInput>): (r: seq<Input>)
    ensures |r| == |ins|
    decreases |ins|
  {
    if |ins| == 0 then [] else
    var front := ins[..|ins| - 1];
    Projection(s, front) + [Projected(SystemRun(s, front).0, ins[|ins| - 1])]
  }

  lemma {:induction false} SystemProjects(s: System, ins: seq<SystemInput>)
    ensures var (t, tr) := SystemRun(s, ins); Run(s.app, Projection(s, ins)) == (t.app, tr)
    decreases |ins|
  {
    hide Step, EnvOf, SlaveAfter;
    if |ins| > 0 {
      var front := ins[..|ins| - 1];
      SystemProjects(s, front);
      var p := Projection(s, ins);
      assert p[..|p| - 1] == Projection(s, front);
    }
  }

  /** So the laws of the application hold with the driver and the device in place. */
  lemma SystemKeepsLaws(s: System, ins: seq<SystemInput>)
    requires s.app == INITIAL
    ensures var (t, tr) := SystemRun(s, ins);
            && Disciplined(tr) && Balance(tr) == (if t.app.enabled then 1 else 0)
            && NeverMixed(tr) && SnapshotsTrue(tr) && Remembers(t.app, tr)
  {
    var p := Projection(s, ins);
    SystemProjects(s, ins);
    BusDiscipline(p);
    PublishedDataIsFresh(p);
    HousekeepingSnapshot(p);
  }

  // ---------- counting accepted commands ----------

  /** What the record says about the device: is it on, how many commands has it accepted, its status. */
  datatype Ledger = Ledger(on: bool, accepted: nat, status: Word)

  function LedgerOf(d: Device): Ledger { Ledger(d.enabled, d.count, d.status) }

  function EnterSim(l: Ledger, c: SimCommand): Ledger {
    match c
    case Enable => l.(on := true)
    case Disable => Ledger(false, 0, 0)
    case SetStatus(w) => l.(status := w)
    case Other => l
  }

  function EnterSims(l: Ledger, cs: seq<SimCommand>): Ledger
    decreases |cs|
  {
    if |cs| == 0 then l else EnterSim(EnterSims(l, cs[..|cs| - 1]), cs[|cs| - 1])
  }

  function EnterRequest(l: Ledger, lost: bool): Ledger {
    if l.on && !lost then l.(accepted := l.accepted + 1) else l
  }

  function Enter(l: Ledger, e: Event): Ledger {
    match e
    case Exchange(_, t) => EnterRequest(EnterSims(l, t.sims), t.RequestLost?)
    case Sim(c) => EnterSim(l, c)
    case _ => l
  }

  function LedgerAfter(l: Ledger, tr: seq<Event>): Ledger
    decreases |tr|
  {
    if |tr| == 0 then l else Enter(LedgerAfter(l, tr[..|tr| - 1]), tr[|tr| - 1])
  }

  lemma {:induction false} LedgerAppends(l: Ledger, s: seq<Event>, t: seq<Event>)
    ensures LedgerAfter(l, s + t) == LedgerAfter(LedgerAfter(l, s), t)
    decreases |t|
  {
    if |t| == 0 {
      assert s + t == s;
    } else {
      assert (s + t)[..|s + t| - 1] == s + t[..|t| - 1];
      LedgerAppends(l, s, t[..|t| - 1]);
    }
  }

  lemma LedgerOne(l: Ledger, e: Event)
    ensures LedgerAfter(l, [e]) == Enter(l, e)
  {
    assert [e][..0] == [];
  }

  /** The 32-bit counter is the number of accepted commands, wrapped. */
  predicate Agrees(d: Device, l: Ledger) {
    d.enabled == l.on && d.count == l.accepted % 0x1_0000_0000 && d.status == l.status
  }

  /** What a housekeeping reply says in a state that agrees with l. */
  predicate Reports(p: Payload, l: Ledger) {
    DecodeHk(p) == if l.on then HkData(l.accepted % 0x1_0000_0000, l.status) else HkData(0, 0)
  }

  lemma {:induction false} SimsAgree(d: Device, l: Ledger, cs: seq<SimCommand>)
    requires Agrees(d, l)
    ensures Agrees(AfterSimCommands(d, cs), EnterSims(l, cs))
    decreases |cs|
  {
    if |cs| > 0 { SimsAgree(d, l, cs[..|cs| - 1]); }
  }

  lemma OutcomeSeen(s: Slave, code: Byte, link: Link)
    ensures var t := Transact(s, code, link).1;
            && t.sims == link.sims
            && (t.RequestLost? <==> link.outcome == LoseRequest) && (t.Ok() <==> link.outcome == Deliver)
  {
  }

  lemma ZeroReply()
    ensures DecodeHk(seq(8, _ => 0)) == HkData(0, 0)
  {
  }

  lemma NextCount(count: Word, accepted: nat)
    requires count == accepted % 0x1_0000_0000
    ensures (count + 1) % 0x1_0000_0000 == (accepted + 1) % 0x1_0000_0000
  {
    assert accepted + 1 == (count + 1) + 0x1_0000_0000 * (accepted / 0x1_0000_0000);
  }

  lemma TransactAgrees(s: Slave, code: Byte, link: Link, l: Ledger)
    requires Agrees(s.device, l) && code <= 4
    ensures var (s', t) := Transact(s, code, link);
            && Agrees(s'.device, Enter(l, Exchange(code, t)))
            && (t.Ok() && code == REQ_HK_CMD ==> Reports(t.data, EnterSims(l, t.sims)))
  {
    hide Transact, DecodeHk, AfterSimCommands, EnterSims;
    SimsAgree(s.device, l, link.sims);
    DeviceAfter(s, code, link);
    OutcomeSeen(s, code, link);
    ZeroReply();
    var t := Transact(s, code, link).1;
    var k := EnterSims(l, t.sims);
    if t.Ok() {
      if k.on && code == REQ_HK_CMD { HousekeepingRoundTrip(s, link); }
      if !k.on { DisabledReadsAsSuccess(s, code, link); }
    }
    if k.on && !t.RequestLost? {
      NextCount(DeviceAt(s, link).count, k.accepted);
    }
  }

  lemma ThreeAgree(s: Slave, x: Link, y: Link, z: Link, l: Ledger)
    requires Agrees(s.device, l)
    ensures var (s', ts) := RequestThree(s, x, y, z); Agrees(s'.device, LedgerAfter(l, Exchanges(ts)))
  {
    hide Transact, Enter;
    var (s1, tx) := Transact(s, REQ_X_CMD, x);
    TransactAgrees(s, REQ_X_CMD, x, l);
    var e1 := Exchange(2, tx);
    LedgerOne(l, e1);
    var ts := RequestThree(s, x, y, z).1;
    if !tx.Ok() {
      assert Exchanges(ts) == [e1];
    } else {
      var (s2, ty) := Transact(s1, REQ_Y_CMD, y);
      var l1 := Enter(l, e1);
      TransactAgrees(s1, REQ_Y_CMD, y, l1);
      var e2 := Exchange(3, ty);
      LedgerOne(l1, e2);
      LedgerAppends(l, [e1], [e2]);
      if !ty.Ok() {
        assert Exchanges(ts) == [e1] + [e2];
      } else {
        var (s3, tz) := Transact(s2, REQ_Z_CMD, z);
        var l2 := Enter(l1, e2);
        TransactAgrees(s2, REQ_Z_CMD, z, l2);
        var e3 := Exchange(4, tz);
        LedgerOne(l2, e3);
        LedgerAppends(l, [e1] + [e2], [e3]);
        assert Exchanges(ts) == [e1] + [e2] + [e3];
      }
    }
  }

  /** Every housekeeping reply on record carries the number of commands accepted strictly before it. */
  predicate RepliesCount(start: Ledger, tr: seq<Event>) {
    forall i :: 0 <= i < |tr| && tr[i].Exchange? && tr[i].code == REQ_HK_CMD && tr[i].t.Ok() ==>
      Reports(tr[i].t.data, EnterSims(LedgerAfter(start, tr[..i]), tr[i].t.sims))
  }

  /** No housekeeping reply is among the events, or only one that reports g, as the first of them. */
  predicate ReportsFirst(es: seq<Event>, g: Ledger) {
    forall j :: 0 <= j < |es| && es[j].Exchange? && es[j].code == REQ_HK_CMD && es[j].t.Ok() ==>
      j == 0 && Reports(es[0].t.data, EnterSims(g, es[0].t.sims))
  }

  /** A step that records no successful housekeeping transaction, or one as its first event. */
  lemma RepliesAppend(start: Ledger, s: seq<Event>, now: seq<Event>)
    requires RepliesCount(start, s)
    requires ReportsFirst(now, LedgerAfter(start, s))
    ensures RepliesCount(start, s + now)
  {
    hide Reports, LedgerAfter, EnterSims;
    var tr := s + now;
    forall i | 0 <= i < |tr| && tr[i].Exchange? && tr[i].code == REQ_HK_CMD && tr[i].t.Ok()
      ensures Reports(tr[i].t.data, EnterSims(LedgerAfter(start, tr[..i]), tr[i].t.sims))
    {
      if i < |s| {
        assert tr[..i] == s[..i];
      } else {
        assert now[i - |s|] == tr[i];
        assert tr[..i] == s;
      }
    }
  }

  lemma HkStepAgrees(s: System, l: Links, g: Ledger)
    requires Agrees(s.slave.device, g) && s.app.enabled
    ensures var (s', t) := Transact(s.slave, REQ_HK_CMD, l.hk);
            var now := HousekeepingStep(s.app, t).1;
            && Agrees(s'.device, LedgerAfter(g, now))
            && (t.Ok() ==> Reports(t.data, EnterSims(g, t.sims)))
  {
    hide Transact, Agrees, Reports, EnterSims;
    TransactAgrees(s.slave, REQ_HK_CMD, l.hk, g);
    var t := Transact(s.slave, REQ_HK_CMD, l.hk).1;
    var now := HousekeepingStep(s.app, t).1;
    assert now == [now[0]] + [now[1]];
    LedgerAppends(g, [now[0]], [now[1]]);
    LedgerOne(g, now[0]);
    LedgerOne(Enter(g, now[0]), now[1]);
  }

  lemma DataStepAgrees(s: System, l: Links, g: Ledger)
    requires Agrees(s.slave.device, g) && s.app.enabled
    ensures var (s', ts) := RequestThree(s.slave, l.x, l.y, l.z);
            Agrees(s'.device, LedgerAfter(g, DataStep(s.app, ts).1))
  {
    hide RequestThree, Agrees, Overwrite, Exchanges;
    ThreeAgree(s.slave, l.x, l.y, l.z, g);
    var ts := RequestThree(s.slave, l.x, l.y, l.z).1;
    if AllThree(ts) {
      var (b, now) := DataStep(s.app, ts);
      LedgerAppends(g, Exchanges(ts), [DataOut(b.data)]);
      LedgerOne(LedgerAfter(g, Exchanges(ts)), DataOut(b.data));
    }
  }

  lemma QuietStepAgrees(s: System, i: SystemInput, g: Ledger)
    requires Agrees(s.slave.device, g)
    requires i.Receive? ==> !s.app.enabled || !i.m.IsTelemetryRequest()
    ensures var (t, now) := SystemStep(s, i);
            Agrees(t.slave.device, LedgerAfter(g, now)) && forall j :: 0 <= j < |now| ==> !now[j].Exchange?
  {
    hide EnvOf, DecodeHk, Overwrite;
    var now := SystemStep(s, i).1;
    assert |now| <= 1;
    if |now| == 1 {
      LedgerOne(g, now[0]);
    }
  }

  lemma StepAgrees(s: System, i: SystemInput, g: Ledger)
    requires Agrees(s.slave.device, g)
    ensures var (t, now) := SystemStep(s, i);
            Agrees(t.slave.device, LedgerAfter(g, now)) && ReportsFirst(now, g)
  {
    hide Agrees, Reports, Transact, RequestThree, LedgerAfter, EnterSims, DecodeHk, Overwrite;
    if i.Receive? && s.app.enabled && i.m.IsTelemetryRequest() {
      if i.m.code == REQ_HK_TLM {
        HkStepAgrees(s, i.l, g);
      } else {
        DataStepAgrees(s, i.l, g);
      }
    } else {
      QuietStepAgrees(s, i, g);
    }
  }

  /**
   End-to-end counting: for every run, from any state, the device counter is the number of commands
   the device accepted since it was last disabled, modulo 2^32, and each housekeeping reply carries
   the number accepted strictly before it.
   */
  lemma {:induction false} DeviceCountsAccepted(s: System, ins: seq<SystemInput>)
    ensures var (t, tr) := SystemRun(s, ins);
            var start := LedgerOf(s.slave.device);
            Agrees(t.slave.device, LedgerAfter(start, tr)) && RepliesCount(start, tr)
    decreases |ins|
  {
    hide SystemStep;
    if |ins| > 0 {
      var front := ins[..|ins| - 1];
      DeviceCountsAccepted(s, front);
      var (t, before) := SystemRun(s, front);
      var start, now := LedgerOf(s.slave.device), SystemStep(t, ins[|ins| - 1]).1;
      StepAgrees(t, ins[|ins| - 1], LedgerAfter(start, before));
      LedgerAppends(start, before, now);
      RepliesAppend(start, before, now);
    }
  }

  // ---------- what the flight software can conclude ----------

  function ProvenBy(e: Event): nat {
    if e.Exchange? && e.code == REQ_HK_CMD && e.t.Ok() then 1 else if e.DataOut? then 3 else 0
  }

  /** The commands that a record accounts for: at least those of the successes, at most those of the attempts. */
  function Proven(tr: seq<Event>): nat
    decreases |tr|
  {
    if |tr| == 0 then 0 else Proven(tr[..|tr| - 1]) + ProvenBy(tr[|tr| - 1])
  }

  function PossibleBy(e: Event): nat {
    if e.Exchange? && e.code == REQ_HK_CMD then 1 else if e.Exchange? && e.code == REQ_X_CMD then 3 else 0
  }

  function Possible(tr: seq<Event>): nat
    decreases |tr|
  {
    if |tr| == 0 then 0 else Possible(tr[..|tr| - 1]) + PossibleBy(tr[|tr| - 1])
  }

  function Reached(tr: seq<Event>): nat
    decreases |tr|
  {
    if |tr| == 0 then 0 else
    var e := tr[|tr| - 1];
    Reached(tr[..|tr| - 1]) + (if e.Exchange? && !e.t.RequestLost? then 1 else 0)
  }

  lemma {:induction false} TotalsAdd(s: seq<Event>, t: seq<Event>)
    ensures Proven(s + t) == Proven(s) + Proven(t)
    ensures Possible(s + t) == Possible(s) + Possible(t)
    ensures Reached(s + t) == Reached(s) + Reached(t)
    decreases |t|
  {
    if |t| == 0 {
      assert s + t == s;
    } else {
      assert (s + t)[..|s + t| - 1] == s + t[..|t| - 1];
      TotalsAdd(s, t[..|t| - 1]);
    }
  }

  lemma TotalsOne(e: Event)
    ensures Proven([e]) == ProvenBy(e) && Possible([e]) == PossibleBy(e)
    ensures Reached([e]) == if e.Exchange? && !e.t.RequestLost? then 1 else 0
  {
    assert [e][..0] == [];
  }

  predicate NothingLost(tr: seq<Event>) {
    forall i :: 0 <= i < |tr| && tr[i].Exchange? ==> tr[i].t.Ok()
  }

  /** The number that reached the device lies between the two totals, and meets them if nothing was lost. */
  predicate Bracketed(tr: seq<Event>) {
    && Proven(tr) <= Reached(tr) <= Possible(tr)
    && (NothingLost(tr) ==> Proven(tr) == Reached(tr) == Possible(tr))
  }

  lemma ExchangesBracketed(ts: Transfers)
    ensures var es := Exchanges(ts);
            && Proven(es) == 0 && Possible(es) == 3 && |ts| - 1 <= Reached(es) <= |ts|
            && (AllThree(ts) ==> Reached(es) == 3)
  {
    var es := Exchanges(ts);
    TotalsOne(Exchange(2, ts[0]));
    assert es[..1] == [Exchange(2, ts[0])];
    if |ts| > 1 {
      TotalsOne(Exchange(3, ts[1]));
      assert es[..2] == es[..1] + [Exchange(3, ts[1])];
      TotalsAdd(es[..1], [Exchange(3, ts[1])]);
    }
    if |ts| > 2 {
      TotalsOne(Exchange(4, ts[2]));
      assert es[..3] == es[..2] + [Exchange(4, ts[2])];
      TotalsAdd(es[..2], [Exchange(4, ts[2])]);
    }
    assert es == es[..|ts|];
  }

  lemma DataBracketed(a: App, ts: Transfers)
    ensures Bracketed(DataStep(a, ts).1)
  {
    hide Overwrite;
    var (b, now) := DataStep(a, ts);
    if a.enabled {
      ExchangesBracketed(ts);
      if AllThree(ts) {
        TotalsOne(DataOut(b.data));
        TotalsAdd(Exchanges(ts), [DataOut(b.data)]);
      } else {
        assert now[|ts| - 1] == Exchange(REQ_X_CMD + |ts| - 1, ts[|ts| - 1]);
      }
    }
  }

  lemma StepBracketed(a: App, i: Input)
    ensures Bracketed(InputStep(a, i).1)
  {
    hide InputStep, DecodeHk, Overwrite;
    var now := InputStep(a, i).1;
    if IsHkRequest(i) {
      HkCase(a, i);
      var b := HousekeepingStep(a, i.env.hk).0;
      TotalsOne(HkOut(PacketOf(b)));
      if a.enabled {
        TotalsOne(Exchange(REQ_HK_CMD, i.env.hk));
        TotalsAdd([Exchange(REQ_HK_CMD, i.env.hk)], [HkOut(PacketOf(b))]);
        assert now == [Exchange(REQ_HK_CMD, i.env.hk)] + [HkOut(PacketOf(b))];
        assert NothingLost(now) ==> now[0].t.Ok();
      }
    } else if IsDataRequest(i) {
      DataCase(a, i);
      DataBracketed(a, i.env.data);
    } else {
      OtherCase(a, i);
      if |now| > 0 { TotalsOne(now[0]); }
    }
  }

  lemma NothingLostInParts(s: seq<Event>, t: seq<Event>)
    requires NothingLost(s + t)
    ensures NothingLost(s) && NothingLost(t)
  {
    forall k | 0 <= k < |s| && s[k].Exchange? ensures s[k].t.Ok() {
      assert (s + t)[k] == s[k];
    }
    forall k | 0 <= k < |t| && t[k].Exchange? ensures t[k].t.Ok() {
      assert (s + t)[|s| + k] == t[k];
    }
  }

  /**
   In every run of the application: (HK successes + 3 x data successes) <= commands that reached the
   device <= (HK attempts + 3 x data attempts), with equality when nothing is lost.
   */
  lemma {:induction false} ReachedIsBracketed(a: App, ins: seq<Input>)
    ensures Bracketed(Run(a, ins).1)
    decreases |ins|
  {
    hide InputStep;
    if |ins| > 0 {
      var front := ins[..|ins| - 1];
      ReachedIsBracketed(a, front);
      var (b, before) := Run(a, front);
      var now := InputStep(b, ins[|ins| - 1]).1;
      StepBracketed(b, ins[|ins| - 1]);
      TotalsAdd(before, now);
      if NothingLost(before + now) {
        NothingLostInParts(before, now);
      }
    }
  }

  lemma {:induction false} SimsKeepOn(l: Ledger, cs: seq<SimCommand>)
    requires l.on && Disable !in cs
    ensures EnterSims(l, cs).on && EnterSims(l, cs).accepted == l.accepted
    decreases |cs|
  {
    if |cs| > 0 { SimsKeepOn(l, cs[..|cs| - 1]); }
  }

  /** A simulator command disables the device here, by itself or just before a transaction. */
  predicate Disables(e: Event) {
    (e.Sim? && e.c.Disable?) || (e.Exchange? && Disable in e.t.sims)
  }

  predicate NeverDisabled(tr: seq<Event>) {
    forall k :: 0 <= k < |tr| ==> !Disables(tr[k])
  }

  /** While the device is never disabled, it accepts exactly what reaches it. */
  lemma {:induction false} AcceptedIsReached(l: Ledger, tr: seq<Event>)
    requires l.on && NeverDisabled(tr)
    ensures LedgerAfter(l, tr).on && LedgerAfter(l, tr).accepted == l.accepted + Reached(tr)
    decreases |tr|
  {
    if |tr| > 0 {
      AcceptedIsReached(l, tr[..|tr| - 1]);
      var e := tr[|tr| - 1];
      assert !Disables(e);
      if e.Exchange? { SimsKeepOn(LedgerAfter(l, tr[..|tr| - 1]), e.t.sims); }
    }
  }

  predicate MayDisable(i: SystemInput) {
    match i
    case Receive(_, l) => Disable in l.hk.sims || Disable in l.x.sims || Disable in l.y.sims || Disable in l.z.sims
    case Backdoor(c) => c.Disable?
  }

  lemma NoDisableStep(s: System, i: SystemInput)
    requires !MayDisable(i)
    ensures NeverDisabled(SystemStep(s, i).1)
  {
    hide DecodeHk, Overwrite, Transact;
    if i.Receive? {
      OutcomeSeen(s.slave, REQ_HK_CMD, i.l.hk);
      OutcomeSeen(s.slave, REQ_X_CMD, i.l.x);
      var s1 := Transact(s.slave, REQ_X_CMD, i.l.x).0;
      OutcomeSeen(s1, REQ_Y_CMD, i.l.y);
      var s2 := Transact(s1, REQ_Y_CMD, i.l.y).0;
      OutcomeSeen(s2, REQ_Z_CMD, i.l.z);
    }
  }

  lemma {:induction false} NoDisableOnRecord(s: System, ins: seq<SystemInput>)
    requires forall i :: 0 <= i < |ins| ==> !MayDisable(ins[i])
    ensures NeverDisabled(SystemRun(s, ins).1)
    decreases |ins|
  {
    hide SystemStep;
    if |ins| > 0 {
      var front := ins[..|ins| - 1];
      NoDisableOnRecord(s, front);
      NoDisableStep(SystemRun(s, front).0, ins[|ins| - 1]);
    }
  }

  /** With the simulated device enabled throughout, its counter advances within the brackets. */
  lemma CounterIsBracketed(s: System, ins: seq<SystemInput>)
    requires s.slave.device.enabled
    requires forall i :: 0 <= i < |ins| ==> !MayDisable(ins[i])
    ensures var (t, tr) := SystemRun(s, ins);
            && Bracketed(tr)
            && t.slave.device.count == (s.slave.device.count + Reached(tr)) % 0x1_0000_0000
  {
    hide SystemRun, Run, LedgerAfter, Projection, NeverDisabled, MayDisable, Bracketed, RepliesCount, Reached;
    SystemProjects(s, ins);
    ReachedIsBracketed(s.app, Projection(s, ins));
    DeviceCountsAccepted(s, ins);
    NoDisableOnRecord(s, ins);
    AcceptedIsReached(LedgerOf(s.slave.device), SystemRun(s, ins).1);
  }

  // ---------- published readings ----------

  predicate AllDeliver(l: Links) {
    l.x.outcome == Deliver && l.y.outcome == Deliver && l.z.outcome == Deliver
  }

  /** Its length is never checked. */
  predicate IsDataMessage(m: Msg) { m.id == REQ_HK_MID && m.code == REQ_DATA_TLM }

  /** What a frame of zeros decodes to. */
  const FULL_SCALE := AxisData(-10.0, -400.0)

  /** The device's enable flag after simulator commands. */
  function OnAfter(on: bool, cs: seq<SimCommand>): bool
    decreases |cs|
  {
    if |cs| == 0 then on else
    match cs[|cs| - 1]
    case Enable => true
    case Disable => false
    case _ => OnAfter(on, cs[..|cs| - 1])
  }

  lemma {:induction false} OnAfterIsEnabled(d: Device, cs: seq<SimCommand>)
    ensures AfterSimCommands(d, cs).enabled == OnAfter(d.enabled, cs)
    decreases |cs|
  {
    if |cs| > 0 { OnAfterIsEnabled(d, cs[..|cs| - 1]); }
  }

  /** What is published of a reading, given whether the device was enabled when it was asked. */
  predicate PublishedOf(d: AxisData, a: AxisReading, on: bool) {
    && (Faithful(d, a) <==> on || Faithful(FULL_SCALE, a))
    && (!on ==> d == FULL_SCALE)
  }

  lemma DecodeZero(ch: Channel, n: int)
    requires n == if ch == Linear then 10 else 400
    ensures Decode(ch, 0) == -(n as real)
  {
    hide Decode, Round;
    DecodeIsNarrowedQuotient(ch, 0);
    ConcretePowers();
    IntegerExact(BINARY64, -n);
    IntegerExact(BINARY32, -n);
    assert DecodeExact(ch, 0) == (-n) as real;
  }

  lemma ZeroWords()
    ensures DecodeAxis(seq(8, _ => 0)) == FULL_SCALE
  {
    hide Decode;
    DecodeZero(Linear, 10);
    DecodeZero(Angular, 400);
  }

  lemma AxisExactly(s: Slave, code: Byte, link: Link)
    requires link.outcome == Deliver && 2 <= code <= 4 && Encodable(link.readings.Axis(code))
    ensures var (s', t) := Transact(s, code, link);
            && t.Ok() && s'.device.enabled == OnAfter(s.device.enabled, link.sims)
            && PublishedOf(DecodeAxis(t.data), link.readings.Axis(code), OnAfter(s.device.enabled, link.sims))
  {
    hide Transact, DecodeAxis, Faithful, Encodable, Readings.Axis;
    OnAfterIsEnabled(s.device, link.sims);
    DeviceAfter(s, code, link);
    if OnAfter(s.device.enabled, link.sims) {
      AxisRoundTrip(s, code, link);
    } else {
      DisabledReadsAsSuccess(s, code, link);
      ZeroWords();
    }
  }

  /** The same for the three axes of one request, between which the device may be switched. */
  lemma ThreeExactly(s: Slave, x: Link, y: Link, z: Link)
    requires x.outcome == Deliver && y.outcome == Deliver && z.outcome == Deliver
    requires Encodable(x.readings.x) && Encodable(y.readings.y) && Encodable(z.readings.z)
    ensures var (s', ts) := RequestThree(s, x, y, z);
            var onX := OnAfter(s.device.enabled, x.sims);
            var onY := OnAfter(onX, y.sims);
            var onZ := OnAfter(onY, z.sims);
            && AllThree(ts) && ts[0].Ok() && ts[1].Ok() && s'.device.enabled == onZ
            && PublishedOf(DecodeAxis(ts[0].data), x.readings.x, onX)
            && PublishedOf(DecodeAxis(ts[1].data), y.readings.y, onY)
            && PublishedOf(DecodeAxis(ts[2].data), z.readings.z, onZ)
  {
    hide Transact, PublishedOf, Encodable, DecodeAxis, OnAfter;
    AxisExactly(s, REQ_X_CMD, x);
    var s1 := Transact(s, REQ_X_CMD, x).0;
    AxisExactly(s1, REQ_Y_CMD, y);
    var s2 := Transact(s1, REQ_Y_CMD, y).0;
    AxisExactly(s2, REQ_Z_CMD, z);
  }

  /**
   With the application enabled and no loss, a data request publishes one packet.  Each axis is within
   the tolerance of what the device read for it exactly if the device was enabled when it was asked for
   that axis, or if the reading is minus full scale; otherwise minus full scale is published.
   */
  lemma PublishedReadings(s: System, m: Msg, l: Links)
    requires IsDataMessage(m) && s.app.enabled && AllDeliver(l)
    requires Encodable(l.x.readings.x) && Encodable(l.y.readings.y) && Encodable(l.z.readings.z)
    ensures var (t, now) := SystemStep(s, Receive(m, l));
            var x := OnAfter(s.slave.device.enabled, l.x.sims);
            var y := OnAfter(x, l.y.sims);
            var z := OnAfter(y, l.z.sims);
            && |now| == 4 && now[3].DataOut? && t.slave.device.enabled == z
            && PublishedOf(now[3].data.x, l.x.readings.x, x)
            && PublishedOf(now[3].data.y, l.y.readings.y, y)
            && PublishedOf(now[3].data.z, l.z.readings.z, z)
  {
    hide RequestThree, PublishedOf, Encodable, DecodeAxis, OnAfter;
    ThreeExactly(s.slave, l.x, l.y, l.z);
  }

  /** No simulator command switches the device during the request. */
  predicate NotSwitched(cs: seq<SimCommand>) {
    forall i :: 0 <= i < |cs| ==> !cs[i].Enable? && !cs[i].Disable?
  }

  lemma {:induction false} StaysAsItWas(on: bool, cs: seq<SimCommand>)
    requires NotSwitched(cs)
    ensures OnAfter(on, cs) == on
    decreases |cs|
  {
    if |cs| > 0 { StaysAsItWas(on, cs[..|cs| - 1]); }
  }

  lemma {:induction false} StaysOn(cs: seq<SimCommand>)
    requires Disable !in cs
    ensures OnAfter(true, cs)
    decreases |cs|
  {
    if |cs| > 0 { StaysOn(cs[..|cs| - 1]); }
  }

  /** The published packet holds the readings exactly if the device is enabled, or if they are all minus full scale. */
  lemma FaithfulExactly(s: System, m: Msg, l: Links)
    requires IsDataMessage(m) && s.app.enabled && AllDeliver(l)
    requires Encodable(l.x.readings.x) && Encodable(l.y.readings.y) && Encodable(l.z.readings.z)
    requires NotSwitched(l.x.sims) && NotSwitched(l.y.sims) && NotSwitched(l.z.sims)
    ensures var now := SystemStep(s, Receive(m, l)).1;
            && |now| == 4 && now[3].DataOut?
            && (Faithful(now[3].data.x, l.x.readings.x) && Faithful(now[3].data.y, l.y.readings.y)
                && Faithful(now[3].data.z, l.z.readings.z)
                <==> s.slave.device.enabled
                     || (Faithful(FULL_SCALE, l.x.readings.x) && Faithful(FULL_SCALE, l.y.readings.y)
                         && Faithful(FULL_SCALE, l.z.readings.z)))
  {
    hide SystemStep, Faithful, Encodable;
    PublishedReadings(s, m, l);
    StaysAsItWas(s.slave.device.enabled, l.x.sims);
    StaysAsItWas(s.slave.device.enabled, l.y.sims);
    StaysAsItWas(s.slave.device.enabled, l.z.sims);
  }

  /** Disabling the device between two axes of one request: a true X is published with minus full scale for Y and Z. */
  lemma TornPacket(s: System, m: Msg, l: Links)
    requires IsDataMessage(m) && s.app.enabled && s.slave.device.enabled && AllDeliver(l)
    requires Encodable(l.x.readings.x) && Encodable(l.y.readings.y) && Encodable(l.z.readings.z)
    requires l.x.sims == l.z.sims == [] && l.y.sims == [Disable]
    ensures var now := SystemStep(s, Receive(m, l)).1;
            && |now| == 4 && now[3].DataOut?
            && Faithful(now[3].data.x, l.x.readings.x)
            && now[3].data.y == FULL_SCALE && now[3].data.z == FULL_SCALE
  {
    hide SystemStep, Faithful, Encodable;
    PublishedReadings(s, m, l);
  }

  /** A data request publishes exactly if the application is enabled and all three replies arrive. */
  lemma PublishesExactly(s: System, m: Msg, l: Links)
    requires IsDataMessage(m)
    ensures var now := SystemStep(s, Receive(m, l)).1;
            (exists k :: 0 <= k < |now| && now[k].DataOut?) <==> s.app.enabled && AllDeliver(l)
  {
    hide Transact, Overwrite;
    OutcomeSeen(s.slave, REQ_X_CMD, l.x);
    var s1 := Transact(s.slave, REQ_X_CMD, l.x).0;
    OutcomeSeen(s1, REQ_Y_CMD, l.y);
    var s2 := Transact(s1, REQ_Y_CMD, l.y).0;
    OutcomeSeen(s2, REQ_Z_CMD, l.z);
    var now := SystemStep(s, Receive(m, l)).1;
    if s.app.enabled && AllDeliver(l) {
      assert now[3].DataOut?;
    }
  }

  lemma StaysOff(s: Slave, code: Byte, link: Link)
    requires !s.device.enabled && NotSwitched(link.sims) && link.outcome == Deliver
    ensures var (s', t) := Transact(s, code, link);
            !s'.device.enabled && t == Delivered(link.sims, seq(8, _ => 0))
  {
    hide Transact;
    OnAfterIsEnabled(s.device, link.sims);
    StaysAsItWas(s.device.enabled, link.sims);
    DisabledReadsAsSuccess(s, code, link);
  }

  /** A disabled device reads as minus full scale on every axis, and the packet is published all the same. */
  lemma DisabledReadsFullScale(s: System, m: Msg, l: Links)
    requires IsDataMessage(m) && s.app.enabled && AllDeliver(l)
    requires !s.slave.device.enabled
    requires NotSwitched(l.x.sims) && NotSwitched(l.y.sims) && NotSwitched(l.z.sims)
    ensures var now := SystemStep(s, Receive(m, l)).1;
            |now| == 4 && now[3] == DataOut(DeviceData(FULL_SCALE, FULL_SCALE, FULL_SCALE))
  {
    hide Transact, DecodeAxis, OnAfter;
    ZeroWords();
    StaysOff(s.slave, REQ_X_CMD, l.x);
    var s1 := Transact(s.slave, REQ_X_CMD, l.x).0;
    StaysOff(s1, REQ_Y_CMD, l.y);
    var s2 := Transact(s1, REQ_Y_CMD, l.y).0;
    StaysOff(s2, REQ_Z_CMD, l.z);
  }
}

/** Laws of runs of the F' component together with its driver and the simulated device. */
module FPrimeSystem {
  import opened Bytes
  import opened Simulator
  import opened Driver
  import C = CfsApp
  import opened EndToEnd
  import opened FPrime

  // ---------- a system run is a run of the component ----------

  function Calls(s: System, ins: seq<Invocation>): (r: seq<Call>)
    ensures |r| == |ins|
    decreases |ins|
  {
    if |ins| == 0 then [] else
    var front := ins[..|ins| - 1];
    Calls(s, front) + [CallOf(SystemRun(s, front).0.slave, ins[|ins| - 1])]
  }

  /** So the laws of the component hold with the driver and the device in place. */
  lemma {:induction false} ComponentProjects(s: System, ins: seq<Invocation>)
    ensures var (t, tr) := SystemRun(s, ins); Run(s.component, Calls(s, ins)) == (t.component, tr)
    decreases |ins|
  {
    hide Step, CallOf, SlaveAfter;
    if |ins| > 0 {
      var front := ins[..|ins| - 1];
      ComponentProjects(s, front);
      var calls := Calls(s, ins);
      assert calls[..|calls| - 1] == Calls(s, front);
    }
  }

  // ---------- counting accepted commands ----------

  /** The events of one call are its transactions, with no more than a switch or an output beside them. */
  lemma EventsOfCall(c: Component, i: Call)
    ensures var es := EventsOf(Step(c, i).1);
            match i
            case RequestHousekeeping(t) => es == if c.enabled then [C.Exchange(REQ_HK_CMD, t)] else []
            case Noop(t) => es == [C.Exchange(NOOP_CMD, t)]
            case TlmTick(t) => es == [C.Exchange(REQ_HK_CMD, t)]
            case RequestData(ts) =>
              es == (if c.enabled then C.Exchanges(ts) else []) + [C.DataOut(Step(c, i).0.data)]
            case DataTick(ts) =>
              es == C.Exchanges(ts) + (if AllThree(ts) then [C.DataOut(Step(c, i).0.data)] else [])
            case ResetCounters => es == []
            case EnableCmd(ok) => es == if c.enabled then [] else [C.Init(ok)]
            case DisableCmd(ok) => es == if c.enabled then [C.Close(ok)] else []
  {
    hide EventsOf, DecodeHk, Overwrite;
    EventsOfStep(c, i);
  }

  /** The events of one transaction. */
  lemma OneAgrees(s: Slave, code: Byte, l: Link, g: Ledger)
    requires Agrees(s.device, g) && code <= 4
    ensures var (s', t) := Transact(s, code, l);
            && Agrees(s'.device, LedgerAfter(g, [C.Exchange(code, t)]))
            && (t.Ok() && code == REQ_HK_CMD ==> Reports(t.data, EnterSims(g, t.sims)))
  {
    hide Transact, Agrees, Reports, EnterSims;
    TransactAgrees(s, code, l, g);
    LedgerOne(g, C.Exchange(code, Transact(s, code, l).1));
  }

  lemma OutputAgrees(es: seq<C.Event>, out: seq<C.Event>, g: Ledger)
    requires out == [] || (|out| == 1 && out[0].DataOut?)
    ensures LedgerAfter(g, es + out) == LedgerAfter(g, es)
  {
    LedgerAppends(g, es, out);
    if out != [] {
      assert out == [out[0]];
      LedgerOne(LedgerAfter(g, es), out[0]);
    }
  }

  /** The events of one data request, with an output after them or without. */
  lemma DataAgrees(s: Slave, x: Link, y: Link, z: Link, out: seq<C.Event>, g: Ledger)
    requires Agrees(s.device, g)
    requires out == [] || (|out| == 1 && out[0].DataOut?)
    ensures var (s', ts) := RequestThree(s, x, y, z);
            var es := C.Exchanges(ts) + out;
            Agrees(s'.device, LedgerAfter(g, es)) && ReportsFirst(es, g)
  {
    hide RequestThree, Agrees, EnterSims, Reports;
    ThreeAgree(s, x, y, z, g);
    OutputAgrees(C.Exchanges(RequestThree(s, x, y, z).1), out, g);
  }

  lemma NothingAgrees(g: Ledger)
    ensures LedgerAfter(g, []) == g
  {
  }

  lemma StepAgrees(s: System, i: Invocation, g: Ledger)
    requires Agrees(s.slave.device, g)
    ensures var (t, now) := SystemStep(s, i);
            Agrees(t.slave.device, LedgerAfter(g, EventsOf(now))) && ReportsFirst(EventsOf(now), g)
  {
    hide Step, Transact, RequestThree, Agrees, Reports, EnterSims, EventsOf, LedgerAfter, C.Exchanges, AllThree;
    EventsOfCall(s.component, CallOf(s.slave, i));
    NothingAgrees(g);
    var out := C.DataOut(SystemStep(s, i).0.component.data);
    match i
    case OnRequestHousekeeping(l) => OneAgrees(s.slave, REQ_HK_CMD, l, g);
    case OnNoop(l) => OneAgrees(s.slave, NOOP_CMD, l, g);
    case OnTlmTick(l) => OneAgrees(s.slave, REQ_HK_CMD, l, g);
    case OnRequestData(x, y, z) =>
      if s.component.enabled {
        DataAgrees(s.slave, x, y, z, [out], g);
      } else {
        OutputAgrees([], [out], g);
      }
    case OnDataTick(x, y, z) =>
      DataAgrees(s.slave, x, y, z, if AllThree(RequestThree(s.slave, x, y, z).1) then [out] else [], g);
    case OnEnable(ok) => LedgerOne(g, C.Init(ok));
    case OnDisable(ok) => LedgerOne(g, C.Close(ok));
    case OnResetCounters =>
  }

  /**
   End-to-end counting: for every run of the component, from any state and with the device enabled and
   disabled at will, the device counter is the number of commands that the device accepted since it was
   last disabled, modulo 2^32, and each housekeeping reply carries the number accepted strictly before it.
   */
  lemma {:induction false} ComponentCountsAccepted(s: System, ins: seq<Invocation>)
    ensures var (t, tr) := SystemRun(s, ins);
            var start := LedgerOf(s.slave.device);
            Agrees(t.slave.device, LedgerAfter(start, EventsOf(tr))) && RepliesCount(start, EventsOf(tr))
    decreases |ins|
  {
    hide SystemStep, EventsOf, EnterSims, Reports;
    var start := LedgerOf(s.slave.device);
    if |ins| == 0 {
      EventsInPlace([]);
    } else {
      var front, last := ins[..|ins| - 1], ins[|ins| - 1];
      ComponentCountsAccepted(s, front);
      var (t, before) := SystemRun(s, front);
      var now := SystemStep(t, last).1;
      StepAgrees(t, last, LedgerAfter(start, EventsOf(before)));
      EventsAdd(before, now);
      LedgerAppends(start, EventsOf(before), EventsOf(now));
      RepliesAppend(start, EventsOf(before), EventsOf(now));
    }
  }

  // ---------- a device that is never disabled ----------

  predicate DisablesBefore(l: Link) { SimCommand.Disable in l.sims }

  predicate MayDisableDevice(i: Invocation) {
    match i
    case OnRequestHousekeeping(l) => DisablesBefore(l)
    case OnNoop(l) => DisablesBefore(l)
    case OnTlmTick(l) => DisablesBefore(l)
    case OnRequestData(x, y, z) => DisablesBefore(x) || DisablesBefore(y) || DisablesBefore(z)
    case OnDataTick(x, y, z) => DisablesBefore(x) || DisablesBefore(y) || DisablesBefore(z)
    case _ => false
  }

  lemma ThreeSeen(s: Slave, x: Link, y: Link, z: Link)
    requires !DisablesBefore(x) && !DisablesBefore(y) && !DisablesBefore(z)
    ensures NeverDisabled(C.Exchanges(RequestThree(s, x, y, z).1))
  {
    hide Transact;
    OutcomeSeen(s, REQ_X_CMD, x);
    var s1 := Transact(s, REQ_X_CMD, x).0;
    OutcomeSeen(s1, REQ_Y_CMD, y);
    var s2 := Transact(s1, REQ_Y_CMD, y).0;
    OutcomeSeen(s2, REQ_Z_CMD, z);
  }

  lemma StepKeepsOn(s: System, i: Invocation)
    requires !MayDisableDevice(i)
    ensures NeverDisabled(EventsOf(SystemStep(s, i).1))
  {
    hide Step, Transact, RequestThree, EventsOf, C.Exchanges;
    EventsOfCall(s.component, CallOf(s.slave, i));
    match i
    case OnRequestHousekeeping(l) => OutcomeSeen(s.slave, REQ_HK_CMD, l);
    case OnNoop(l) => OutcomeSeen(s.slave, NOOP_CMD, l);
    case OnTlmTick(l) => OutcomeSeen(s.slave, REQ_HK_CMD, l);
    case OnRequestData(x, y, z) => ThreeSeen(s.slave, x, y, z);
    case OnDataTick(x, y, z) => ThreeSeen(s.slave, x, y, z);
    case _ =>
  }

  lemma {:induction false} RunKeepsOn(s: System, ins: seq<Invocation>)
    requires forall i :: 0 <= i < |ins| ==> !MayDisableDevice(ins[i])
    ensures NeverDisabled(EventsOf(SystemRun(s, ins).1))
    decreases |ins|
  {
    hide SystemStep, EventsOf, Disables, MayDisableDevice;
    if |ins| == 0 {
      EventsInPlace([]);
    } else {
      var front, last := ins[..|ins| - 1], ins[|ins| - 1];
      RunKeepsOn(s, front);
      var (t, before) := SystemRun(s, front);
      StepKeepsOn(t, last);
      EventsAdd(before, SystemStep(t, last).1);
    }
  }

  /** With the simulated device enabled throughout, its counter advances by the transactions that reach it. */
  lemma ComponentAdvances(s: System, ins: seq<Invocation>)
    requires s.slave.device.enabled
    requires forall i :: 0 <= i < |ins| ==> !MayDisableDevice(ins[i])
    ensures var (t, tr) := SystemRun(s, ins);
            t.slave.device.count == (s.slave.device.count + Reached(EventsOf(tr))) % 0x1_0000_0000
  {
    hide SystemRun, LedgerAfter, EventsOf, NeverDisabled, MayDisableDevice, RepliesCount, Reached;
    ComponentCountsAccepted(s, ins);
    RunKeepsOn(s, ins);
    AcceptedIsReached(LedgerOf(s.slave.device), EventsOf(SystemRun(s, ins).1));
  }

  // ---------- readings that are sent out ----------

  /** The output of a step that asks the device for data and loses nothing is exact, axis by axis. */
  lemma SentReadings(s: System, i: Invocation, x: Link, y: Link, z: Link)
    requires i == OnDataTick(x, y, z) || (i == OnRequestData(x, y, z) && s.component.enabled)
    requires x.outcome == Deliver && y.outcome == Deliver && z.outcome == Deliver
    requires Encodable(x.readings.x) && Encodable(y.readings.y) && Encodable(z.readings.z)
    ensures var now := SystemStep(s, i).1;
            var onX := OnAfter(s.slave.device.enabled, x.sims);
            var onY := OnAfter(onX, y.sims);
            var onZ := OnAfter(onY, z.sims);
            && |now| >= 4 && now[3].ImuOut?
            && PublishedOf(now[3].data.x, x.readings.x, onX)
            && PublishedOf(now[3].data.y, y.readings.y, onY)
            && PublishedOf(now[3].data.z, z.readings.z, onZ)
  {
    hide RequestThree, PublishedOf, Encodable, DecodeAxis, OnAfter;
    ThreeExactly(s.slave, x, y, z);
  }
}

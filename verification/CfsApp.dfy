/**
 The cFS application: message dispatch, the four wrapping counters, enable and disable,
 and the two telemetry packets.  Functions on values specify the step of each handler;
 the class performs it in place.
 */
module CfsApp {
  import opened Bytes
  import opened Simulator
  import opened Driver

  const CMD_MID := 0x1925
  const REQ_HK_MID := 0x1926
  const NOOP_CC := 0
  const RESET_COUNTERS_CC := 1
  const ENABLE_CC := 2
  const DISABLE_CC := 3
  const REQ_HK_TLM := 0
  const REQ_DATA_TLM := 1

  /** The size of a command without arguments: a six-byte primary and a two-byte secondary header. */
  const NO_ARGS_LENGTH := 8

  const DEVICE_DISABLED: Byte := 0
  const DEVICE_ENABLED: Byte := 1

  datatype Msg = Msg(id: nat, code: nat, length: nat)
  {
    /** A telemetry request that the application knows. */
    predicate IsTelemetryRequest() { id == REQ_HK_MID && (code == REQ_HK_TLM || code == REQ_DATA_TLM) }

    predicate IsReset() { id == CMD_MID && code == RESET_COUNTERS_CC && length == NO_ARGS_LENGTH }
  }

  datatype App = App(
    cmdErr: Byte, cmd: Byte, devErr: Byte, dev: Byte, enabled: bool, hk: HkData, data: DeviceData)

  datatype HkPacket = HkPacket(cmdErr: Byte, cmd: Byte, devErr: Byte, dev: Byte, enabled: bool, hk: HkData)

  /** What one run leaves on record: hardware operations, publications, and simulator commands. */
  datatype Event =
    | Init(ok: bool)
    | Close(ok: bool)
    | Exchange(code: Byte, t: Transfer)
    | HkOut(pkt: HkPacket)
    | DataOut(data: DeviceData)
    | Sim(c: SimCommand)

  /** What the hardware does during one step. */
  datatype Env = Env(initOk: bool, closeOk: bool, hk: Transfer, data: Transfers)

  // ---------- specification of the application alone ----------

  const ZERO_AXIS := AxisData(0.0, 0.0)
  const INITIAL := App(0, 0, 0, 0, false, HkData(0, 0), DeviceData(ZERO_AXIS, ZERO_AXIS, ZERO_AXIS))

  /** A uint8 counter wraps. */
  function Inc(b: Byte): Byte { if b == 0xFF then 0 else b + 1 }

  function PacketOf(a: App): HkPacket { HkPacket(a.cmdErr, a.cmd, a.devErr, a.dev, a.enabled, a.hk) }

  function Rejected(a: App): (App, seq<Event>) { (a.(cmdErr := Inc(a.cmdErr)), []) }

  /** The command is counted before the outcome of the hardware is known. */
  function EnableStep(a: App, ok: bool): (App, seq<Event>) {
    if a.enabled then Rejected(a)
    else if ok then (a.(cmd := Inc(a.cmd), dev := Inc(a.dev), enabled := true), [Init(true)])
    else (a.(cmd := Inc(a.cmd), devErr := Inc(a.devErr)), [Init(false)])
  }

  function DisableStep(a: App, ok: bool): (App, seq<Event>) {
    if !a.enabled then Rejected(a)
    else if ok then (a.(cmd := Inc(a.cmd), dev := Inc(a.dev), enabled := false), [Close(true)])
    else (a.(cmd := Inc(a.cmd), devErr := Inc(a.devErr)), [Close(false)])
  }

  function CommandStep(a: App, m: Msg, env: Env): (App, seq<Event>) {
    if m.code > DISABLE_CC || m.length != NO_ARGS_LENGTH then Rejected(a)
    else if m.code == NOOP_CC then (a.(cmd := Inc(a.cmd)), [])
    else if m.code == RESET_COUNTERS_CC then (a.(cmdErr := 0, cmd := 0, devErr := 0, dev := 0), [])
    else if m.code == ENABLE_CC then EnableStep(a, env.initOk)
    else DisableStep(a, env.closeOk)
  }

  function AfterHk(a: App, t: Transfer): App {
    if t.Ok() then a.(hk := DecodeHk(t.data), dev := Inc(a.dev)) else a.(devErr := Inc(a.devErr))
  }

  /** Housekeeping is published whether the device is enabled or not, and whether it answers or not. */
  function HousekeepingStep(a: App, t: Transfer): (App, seq<Event>) {
    if a.enabled then (AfterHk(a, t), [Exchange(REQ_HK_CMD, t), HkOut(PacketOf(AfterHk(a, t)))])
    else (a, [HkOut(PacketOf(a))])
  }

  function Exchanges(ts: seq<Transfer>): seq<Event>
    requires |ts| <= 3
  {
    seq(|ts|, i requires 0 <= i < |ts| => Exchange(REQ_X_CMD + i, ts[i]))
  }

  /** A failed request keeps the axes it has already overwritten, and publishes nothing. */
  function DataStep(a: App, ts: Transfers): (App, seq<Event>) {
    if !a.enabled then (a, []) else
    var b := a.(data := Overwrite(a.data, ts));
    if AllThree(ts) then (b.(dev := Inc(b.dev)), Exchanges(ts) + [DataOut(b.data)])
    else (b.(devErr := Inc(b.devErr)), Exchanges(ts))
  }

  function TelemetryStep(a: App, m: Msg, env: Env): (App, seq<Event>) {
    if m.code == REQ_HK_TLM then HousekeepingStep(a, env.hk)
    else if m.code == REQ_DATA_TLM then DataStep(a, env.data)
    else Rejected(a)
  }

  function Step(a: App, m: Msg, env: Env): (App, seq<Event>) {
    if m.id == CMD_MID then CommandStep(a, m, env)
    else if m.id == REQ_HK_MID then TelemetryStep(a, m, env)
    else Rejected(a)
  }

  /** The tail of the main loop: disable, and close once more. */
  function Shutdown(a: App, firstOk: bool, secondOk: bool): seq<Event> {
    DisableStep(a, firstOk).1 + [Close(secondOk)]
  }

  /** An input of a run: a message with the behaviour of the hardware, or a simulator command. */
  datatype Input = Message(m: Msg, env: Env) | Command(c: SimCommand)

  function InputStep(a: App, i: Input): (App, seq<Event>) {
    match i
    case Message(m, env) => Step(a, m, env)
    case Command(c) => (a, [Sim(c)])
  }

  function Run(a: App, ins: seq<Input>): (App, seq<Event>)
    decreases |ins|
  {
    if |ins| == 0 then (a, []) else
    var (b, before) := Run(a, ins[..|ins| - 1]);
    var (c, now) := InputStep(b, ins[|ins| - 1]);
    (c, before + now)
  }

  // ---------- specification of the application with driver and device ----------

  /** The application and the device behind its bus. */
  datatype System = System(app: App, slave: Slave)

  /** What the bus and the interface do during one step. */
  datatype Links = Links(initOk: bool, closeOk: bool, hk: Link, x: Link, y: Link, z: Link)

  datatype SystemInput = Receive(m: Msg, l: Links) | Backdoor(c: SimCommand)

  function EnvOf(s: System, l: Links): Env {
    Env(l.initOk, l.closeOk, Transact(s.slave, REQ_HK_CMD, l.hk).1, RequestThree(s.slave, l.x, l.y, l.z).1)
  }

  function SlaveAfter(s: System, m: Msg, l: Links): Slave {
    if !s.app.enabled || m.id != REQ_HK_MID then s.slave
    else if m.code == REQ_HK_TLM then Transact(s.slave, REQ_HK_CMD, l.hk).0
    else if m.code == REQ_DATA_TLM then RequestThree(s.slave, l.x, l.y, l.z).0
    else s.slave
  }

  function SystemStep(s: System, i: SystemInput): (System, seq<Event>) {
    match i
    case Receive(m, l) =>
      var (a, es) := Step(s.app, m, EnvOf(s, l));
      (System(a, SlaveAfter(s, m, l)), es)
    case Backdoor(c) =>
      (s.(slave := s.slave.(device := AfterSimCommand(s.slave.device, c))), [Sim(c)])
  }

  function SystemRun(s: System, ins: seq<SystemInput>): (System, seq<Event>)
    decreases |ins|
  {
    if |ins| == 0 then (s, []) else
    var (t, before) := SystemRun(s, ins[..|ins| - 1]);
    var (u, now) := SystemStep(t, ins[|ins| - 1]);
    (u, before + now)
  }

  lemma NothingRun(s: System)
    ensures SystemRun(s, []) == (s, [])
  {
  }

  lemma RunExtends(s: System, ins: seq<SystemInput>, i: SystemInput)
    ensures var (t, before) := SystemRun(s, ins);
            var (u, now) := SystemStep(t, i);
            SystemRun(s, ins + [i]) == (u, before + now)
  {
    assert (ins + [i])[..|ins + [i]| - 1] == ins;
  }

  // ---------- the application ----------

  /** What the main loop meets: a request to exit, which the loop test sees; a failed read; or a message. */
  datatype Arrival = ExitRequest | PipeError | Arrived(input: SystemInput)

  class AppData {
    var commandErrorCount: Byte
    var commandCount: Byte
    var deviceErrorCount: Byte
    var deviceCount: Byte
    var deviceEnabled: Byte
    const deviceHK: HkStruct
    const devicePkt: DataStruct
    const can: CanInfo
    var running: bool
    ghost var trace: seq<Event>

    ghost predicate Valid()
      reads this
    {
      can.Valid() && devicePkt.Valid() && (deviceEnabled == DEVICE_DISABLED || deviceEnabled == DEVICE_ENABLED)
    }

    function View(): App
      reads this, deviceHK, devicePkt.xData, devicePkt.yData, devicePkt.zData
    {
      App(commandErrorCount, commandCount, deviceErrorCount, deviceCount, deviceEnabled == DEVICE_ENABLED,
          deviceHK.View(), devicePkt.View())
    }

    constructor (c: CanInfo)
      requires c.Valid()
      ensures Valid() && can == c && View() == INITIAL && trace == [] && running
      ensures fresh(deviceHK) && fresh(devicePkt.xData) && fresh(devicePkt.yData) && fresh(devicePkt.zData)
    {
      can := c;
      deviceHK := new HkStruct();
      devicePkt := new DataStruct();
      commandErrorCount, commandCount, deviceErrorCount, deviceCount := 0, 0, 0, 0;
      deviceEnabled := DEVICE_DISABLED;
      running := true;
      trace := [];
    }

    ghost function Structs(): set<object> {
      {this, deviceHK, devicePkt.xData, devicePkt.yData, devicePkt.zData}
    }

    function Whole(): System
      reads this, deviceHK, devicePkt.xData, devicePkt.yData, devicePkt.zData, can.slave, can.slave.model
    {
      System(View(), can.slave.View())
    }

    /** A wrong length counts as a command error. */
    method VerifyCmdLength(m: Msg) returns (ok: bool)
      requires Valid()
      modifies this`commandErrorCount
      ensures ok <==> m.length == NO_ARGS_LENGTH
      ensures commandErrorCount == if ok then old(commandErrorCount) else Inc(old(commandErrorCount))
    {
      ok := true;
      if m.length != NO_ARGS_LENGTH {
        ok := false;
        commandErrorCount := Inc(commandErrorCount);
      }
    }

    method ResetCounters()
      modifies this`commandErrorCount, this`commandCount, this`deviceErrorCount, this`deviceCount
      ensures commandErrorCount == commandCount == deviceErrorCount == deviceCount == 0
    {
      commandErrorCount := 0;
      commandCount := 0;
      deviceErrorCount := 0;
      deviceCount := 0;
    }

    method Enable(initOk: bool)
      requires Valid()
      modifies this
      ensures Valid() && running == old(running)
      ensures var (a, es) := EnableStep(old(View()), initOk); View() == a && trace == old(trace) + es
    {
      if deviceEnabled == DEVICE_DISABLED {
        commandCount := Inc(commandCount);
        trace := trace + [Init(initOk)];
        if initOk {
          deviceCount := Inc(deviceCount);
          deviceEnabled := DEVICE_ENABLED;
        } else {
          deviceErrorCount := Inc(deviceErrorCount);
        }
      } else {
        commandErrorCount := Inc(commandErrorCount);
      }
    }

    method Disable(closeOk: bool)
      requires Valid()
      modifies this
      ensures Valid() && running == old(running)
      ensures var (a, es) := DisableStep(old(View()), closeOk); View() == a && trace == old(trace) + es
    {
      if deviceEnabled == DEVICE_ENABLED {
        commandCount := Inc(commandCount);
        trace := trace + [Close(closeOk)];
        if closeOk {
          deviceCount := Inc(deviceCount);
          deviceEnabled := DEVICE_DISABLED;
        } else {
          deviceErrorCount := Inc(deviceErrorCount);
        }
      } else {
        commandErrorCount := Inc(commandErrorCount);
      }
    }

    method ProcessGroundCommand(m: Msg, l: Links)
      requires Valid()
      modifies this
      ensures Valid() && running == old(running)
      ensures forall e: Env :: e.initOk == l.initOk && e.closeOk == l.closeOk ==>
                var (a, es) := CommandStep(old(View()), m, e); View() == a && trace == old(trace) + es
    {
      if m.code == NOOP_CC {
        var ok := VerifyCmdLength(m);
        if ok {
          commandCount := Inc(commandCount);
        }
      } else if m.code == RESET_COUNTERS_CC {
        var ok := VerifyCmdLength(m);
        if ok {
          ResetCounters();
        }
      } else if m.code == ENABLE_CC {
        var ok := VerifyCmdLength(m);
        if ok {
          Enable(l.initOk);
        }
      } else if m.code == DISABLE_CC {
        var ok := VerifyCmdLength(m);
        if ok {
          Disable(l.closeOk);
        }
      } else {
        commandErrorCount := Inc(commandErrorCount);
      }
    }

    method ReportHousekeeping(link: Link)
      requires Valid()
      modifies this, deviceHK, can.Footprint()
      ensures Valid() && running == old(running)
      ensures var (s, t) := Transact(old(can.slave.View()), REQ_HK_CMD, link);
              var (a, es) := HousekeepingStep(old(View()), t);
              && can.slave.View() == (if old(View()).enabled then s else old(can.slave.View()))
              && View() == a && trace == old(trace) + es
    {
      hide Transact, DecodeHk;
      if deviceEnabled == DEVICE_ENABLED {
        ghost var t := Transact(can.slave.View(), REQ_HK_CMD, link).1;
        var status := can.RequestHK(deviceHK, link);
        assert devicePkt.View() == old(devicePkt.View());
        trace := trace + [Exchange(REQ_HK_CMD, t)];
        if status == OS_SUCCESS {
          deviceCount := Inc(deviceCount);
        } else {
          deviceErrorCount := Inc(deviceErrorCount);
        }
      }
      trace := trace + [HkOut(PacketOf(View()))];
    }

    method ReportDeviceTelemetry(x: Link, y: Link, z: Link)
      requires Valid()
      modifies Structs(), can.Footprint()
      ensures Valid() && running == old(running)
      ensures var (s, ts) := RequestThree(old(can.slave.View()), x, y, z);
              var (a, es) := DataStep(old(View()), ts);
              && can.slave.View() == (if old(View()).enabled then s else old(can.slave.View()))
              && View() == a && trace == old(trace) + es
    {
      hide RequestThree, Overwrite, Exchanges;
      if deviceEnabled == DEVICE_ENABLED {
        ghost var ts := RequestThree(can.slave.View(), x, y, z).1;
        var status := can.RequestData(devicePkt, x, y, z);
        trace := trace + Exchanges(ts);
        if status == OS_SUCCESS {
          deviceCount := Inc(deviceCount);
          trace := trace + [DataOut(devicePkt.View())];
        } else {
          deviceErrorCount := Inc(deviceErrorCount);
        }
      }
    }

    method ProcessTelemetryRequest(m: Msg, l: Links)
      requires Valid() && m.id == REQ_HK_MID
      modifies Structs(), can.Footprint()
      ensures Valid() && running == old(running)
      ensures var (s, es) := SystemStep(old(Whole()), Receive(m, l)); Whole() == s && trace == old(trace) + es
    {
      hide Transact, RequestThree, DecodeHk, Overwrite;
      if m.code == REQ_HK_TLM {
        ReportHousekeeping(l.hk);
      } else if m.code == REQ_DATA_TLM {
        ReportDeviceTelemetry(l.x, l.y, l.z);
      } else {
        commandErrorCount := Inc(commandErrorCount);
      }
    }

    method ProcessCommandPacket(m: Msg, l: Links)
      requires Valid()
      modifies Structs(), can.Footprint()
      ensures Valid() && running == old(running)
      ensures var (s, es) := SystemStep(old(Whole()), Receive(m, l)); Whole() == s && trace == old(trace) + es
    {
      hide Transact, RequestThree, DecodeHk, Overwrite;
      if m.id == CMD_MID {
        ProcessGroundCommand(m, l);
      } else if m.id == REQ_HK_MID {
        ProcessTelemetryRequest(m, l);
      } else {
        commandErrorCount := Inc(commandErrorCount);
      }
    }

    method Serve(i: SystemInput)
      requires Valid()
      modifies Structs(), can.Footprint()
      ensures Valid() && running == old(running)
      ensures var (s, es) := SystemStep(old(Whole()), i); Whole() == s && trace == old(trace) + es
    {
      hide Step, EnvOf, SlaveAfter;
      match i
      case Receive(m, l) => ProcessCommandPacket(m, l);
      case Backdoor(c) =>
        can.slave.model.CommandCallback(c);
        trace := trace + [Sim(c)];
    }

    /**
     The main loop runs until it is asked to exit or the pipe fails, and not at all after a failed start;
     simulator commands may come between two messages.
     */
    method MainLoop(arrivals: seq<Arrival>) returns (k: nat)
      requires Valid()
      modifies Structs(), can.Footprint()
      ensures Valid() && k <= |arrivals|
      ensures forall i :: 0 <= i < k ==> arrivals[i].Arrived?
      ensures old(running) ==> if running then k == |arrivals| else k < |arrivals| && !arrivals[k].Arrived?
      ensures !old(running) ==> k == 0 && !running
      ensures var (s, es) := SystemRun(old(Whole()), seq(k, i requires 0 <= i < k => arrivals[i].input));
              Whole() == s && trace == old(trace) + es
    {
      hide SystemStep, SystemRun;
      k := 0;
      ghost var ins: seq<SystemInput> := [];
      NothingRun(Whole());
      while running && k < |arrivals|
        invariant Valid() && k <= |arrivals|
        invariant |ins| == k && forall i :: 0 <= i < k ==> arrivals[i].Arrived? && ins[i] == arrivals[i].input
        invariant old(running) && !running ==> k < |arrivals| && !arrivals[k].Arrived?
        invariant !old(running) ==> k == 0 && !running
        invariant var (s, es) := SystemRun(old(Whole()), ins); Whole() == s && trace == old(trace) + es
        decreases |arrivals| - k, running
      {
        match arrivals[k]
        case ExitRequest =>
          running := false;
        case PipeError =>
          running := false;
        case Arrived(i) =>
          Serve(i);
          RunExtends(old(Whole()), ins, i);
          ins := ins + [i];
          k := k + 1;
      }
      assert seq(k, i requires 0 <= i < k => arrivals[i].input) == ins;
    }

    /** What follows the main loop. */
    method Finish(firstOk: bool, secondOk: bool)
      requires Valid() && !running
      modifies this
      ensures Valid() && !running && View() == DisableStep(old(View()), firstOk).0
      ensures trace == old(trace) + Shutdown(old(View()), firstOk, secondOk)
    {
      Disable(firstOk);
      trace := trace + [Close(secondOk)];
    }
  }
}

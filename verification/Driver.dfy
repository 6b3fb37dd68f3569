/**
 The device driver: it prepares a frame, exchanges it for the reply, and decodes the
 data field of the reply.
 */
module Driver {
  import opened Bytes
  import opened SensorCode
  import opened Simulator

  const OS_SUCCESS := 0
  const OS_ERROR := -1
  const CAN_SUCCESS := 0
  const CAN_ERROR := -1
  const CFG_CAN_ID: Byte := 15
  const DEVICE_HDR: Byte := 0x80
  const NOOP_CMD: Byte := 0
  const REQ_HK_CMD: Byte := 1
  const REQ_X_CMD: Byte := 2
  const REQ_Y_CMD: Byte := 3
  const REQ_Z_CMD: Byte := 4
  const CAN_MAX_DLEN := 8

  /** The six bytes of memory behind the two-byte command, which are copied along with it. */
  type Tail = t: seq<Byte> | |t| == 6 witness [0, 0, 0, 0, 0, 0]

  /** What becomes of one transaction on the bus. */
  datatype Outcome = LoseRequest | LoseReply | Deliver

  /** One transaction: what the simulator's command bus does just before it, and what becomes of it. */
  datatype Link = Link(sims: seq<SimCommand>, outcome: Outcome, tail: Tail, readings: Readings)

  /** One transaction on record: the simulator commands before it, and what the master sees of it. */
  datatype Transfer =
    | RequestLost(sims: seq<SimCommand>)
    | ReplyLost(sims: seq<SimCommand>)
    | Delivered(sims: seq<SimCommand>, data: Payload)
  {
    predicate Ok() { Delivered? }
  }

  datatype HkData = HkData(counter: Word, status: Word)

  datatype AxisData = AxisData(linear: real, angular: real)

  datatype DeviceData = DeviceData(x: AxisData, y: AxisData, z: AxisData)

  // ---------- specification ----------

  /** The sixteen-byte frame: identifier, length, padding, data. */
  function FrameBytes(dlc: Byte, data: seq<Byte>): seq<Byte> {
    [CFG_CAN_ID, 0, 0, 0] + [dlc] + [0, 0, 0] + data
  }

  function CommandFrame(code: Byte, tail: Tail): (f: seq<Byte>)
    ensures |f| == 16 && f[4] == CMD_SIZE && f[9] == code
  {
    FrameBytes(CMD_SIZE, [DEVICE_HDR, code] + tail)
  }

  /** The device when a transaction begins. */
  function DeviceAt(s: Slave, link: Link): Device {
    AfterSimCommands(s.device, link.sims)
  }

  /**
   One transaction.  The device sees it as one event, at the write; a simulator command between the
   write and the read leaves the reply alone, so it may as well come after the transaction.
   */
  function Transact(s: Slave, code: Byte, link: Link): (Slave, Transfer) {
    var v := s.(device := DeviceAt(s, link));
    var w := AfterWrite(v, CommandFrame(code, link.tail), link.readings);
    match link.outcome
    case LoseRequest => (v, RequestLost(link.sims))
    case LoseReply => (w, ReplyLost(link.sims))
    case Deliver =>
      var rbuf := Resize(w.out, 16);
      (w.(out := rbuf), Delivered(link.sims, rbuf[8..]))
  }

  function DecodeHk(p: Payload): HkData {
    HkData(WordAt(p, 0), WordAt(p, 4))
  }

  function DecodeAxis(p: Payload): AxisData {
    AxisData(Decode(Linear, WordAt(p, 0)), Decode(Angular, WordAt(p, 4)))
  }

  /** The transactions of one data request: the first that fails is the last. */
  predicate Sequenced(ts: seq<Transfer>) {
    && 1 <= |ts| <= 3
    && (forall i :: 0 <= i < |ts| - 1 ==> ts[i].Ok())
    && (|ts| < 3 ==> !ts[|ts| - 1].Ok())
  }

  type Transfers = ts: seq<Transfer> | Sequenced(ts) witness [RequestLost([])]

  /** The axes are requested in order, and a failure ends the request. */
  function RequestThree(s: Slave, x: Link, y: Link, z: Link): (Slave, Transfers) {
    var (s1, tx) := Transact(s, REQ_X_CMD, x);
    if !tx.Ok() then (s1, [tx]) else
    var (s2, ty) := Transact(s1, REQ_Y_CMD, y);
    if !ty.Ok() then (s2, [tx, ty]) else
    var (s3, tz) := Transact(s2, REQ_Z_CMD, z);
    (s3, [tx, ty, tz])
  }

  /** An axis in memory after a transaction: decoded if delivered, otherwise as before. */
  function AxisAfter(d: AxisData, t: Transfer): AxisData {
    if t.Ok() then DecodeAxis(t.data) else d
  }

  /** The data in memory after the transactions of one request. */
  function Overwrite(d: DeviceData, ts: seq<Transfer>): DeviceData {
    DeviceData(
      if |ts| > 0 then AxisAfter(d.x, ts[0]) else d.x,
      if |ts| > 1 then AxisAfter(d.y, ts[1]) else d.y,
      if |ts| > 2 then AxisAfter(d.z, ts[2]) else d.z)
  }

  predicate AllThree(ts: Transfers) {
    |ts| == 3 && ts[2].Ok()
  }

  // ---------- structures that the driver writes through pointers ----------

  class HkStruct {
    var deviceCounter: Word
    var deviceStatus: Word

    function View(): HkData
      reads this
    {
      HkData(deviceCounter, deviceStatus)
    }

    constructor ()
      ensures View() == HkData(0, 0)
    {
      deviceCounter, deviceStatus := 0, 0;
    }
  }

  class AxisStruct {
    var linearAcc: real
    var angularAcc: real

    function View(): AxisData
      reads this
    {
      AxisData(linearAcc, angularAcc)
    }

    constructor ()
      ensures View() == AxisData(0.0, 0.0)
    {
      linearAcc, angularAcc := 0.0, 0.0;
    }
  }

  class DataStruct {
    const xData: AxisStruct
    const yData: AxisStruct
    const zData: AxisStruct

    predicate Valid() {
      xData != yData && xData != zData && yData != zData
    }

    function View(): DeviceData
      reads xData, yData, zData
    {
      DeviceData(xData.View(), yData.View(), zData.View())
    }

    constructor ()
      ensures Valid() && fresh(xData) && fresh(yData) && fresh(zData)
      ensures View() == DeviceData(AxisData(0.0, 0.0), AxisData(0.0, 0.0), AxisData(0.0, 0.0))
    {
      xData := new AxisStruct();
      yData := new AxisStruct();
      zData := new AxisStruct();
    }
  }

  // ---------- the driver ----------

  class CanInfo {
    var txId: Byte
    var txDlc: Byte
    const txData: array<Byte>
    var rxId: Byte
    var rxDlc: Byte
    const rxData: array<Byte>
    const slave: CanSlave

    predicate Valid() {
      txData.Length == CAN_MAX_DLEN && rxData.Length == CAN_MAX_DLEN && txData != rxData
    }

    constructor (s: CanSlave)
      ensures Valid() && slave == s && fresh(txData) && fresh(rxData)
    {
      txId, txDlc, rxId, rxDlc := 0, 0, 0, 0;
      txData := new Byte[CAN_MAX_DLEN](_ => 0);
      rxData := new Byte[CAN_MAX_DLEN](_ => 0);
      slave := s;
    }

    /** Everything that a transaction may change. */
    ghost function Footprint(): set<object> {
      {this, txData, rxData, slave, slave.model}
    }

    method FramePrep(data: seq<Byte>, dataLen: Byte)
      requires Valid() && |data| == CAN_MAX_DLEN
      modifies this, txData, rxData
      ensures txId == CFG_CAN_ID && txDlc == dataLen && txData[..] == data
      ensures rxId == CFG_CAN_ID && rxDlc == 0 && rxData[..] == seq(CAN_MAX_DLEN, _ => 0)
    {
      txId, txDlc := CFG_CAN_ID, dataLen;
      forall i | 0 <= i < CAN_MAX_DLEN {
        txData[i] := data[i];
      }
      rxId, rxDlc := CFG_CAN_ID, 0;
      forall i | 0 <= i < CAN_MAX_DLEN {
        rxData[i] := 0;
      }
    }

    /** The bus under the driver: the frame is written to the slave, and its reply read back. */
    method MasterTransaction(link: Link) returns (status: int)
      requires Valid() && txId == CFG_CAN_ID && txData[0] == DEVICE_HDR
      requires txDlc == CMD_SIZE && txData[2..] == link.tail
      modifies Footprint()
      ensures var (s, t) := Transact(old(slave.View()), old(txData[1]), link);
              && slave.View() == s
              && (status == CAN_SUCCESS <==> t.Ok())
              && rxData[..] == if t.Ok() then t.data else old(rxData[..])
    {
      slave.model.CommandCallbacks(link.sims);
      if link.outcome == LoseRequest {
        return CAN_ERROR;
      }
      assert [txId, 0, 0, 0] + [txDlc] + [0, 0, 0] + txData[..] == CommandFrame(txData[1], link.tail) by {
        assert txData[..] == [DEVICE_HDR, txData[1]] + txData[2..];
      }
      slave.CanWrite([txId, 0, 0, 0] + [txDlc] + [0, 0, 0] + txData[..], link.readings);
      if link.outcome == LoseReply {
        return CAN_ERROR;
      }
      var rbuf := slave.CanRead(16);
      rxDlc := rbuf[4];
      forall i | 0 <= i < CAN_MAX_DLEN {
        rxData[i] := rbuf[8 + i];
      }
      return CAN_SUCCESS;
    }

    method ReadData(link: Link) returns (status: int)
      requires Valid() && txId == CFG_CAN_ID && txData[0] == DEVICE_HDR
      requires txDlc == CMD_SIZE && txData[2..] == link.tail
      modifies Footprint()
      ensures var (s, t) := Transact(old(slave.View()), old(txData[1]), link);
              && slave.View() == s
              && (status == CAN_SUCCESS <==> t.Ok())
              && rxData[..] == if t.Ok() then t.data else old(rxData[..])
    {
      status := MasterTransaction(link);
      if status != CAN_SUCCESS {
        status := CAN_ERROR;
      }
    }

    /** Sends one command.  The receive buffer holds the reply, or zeros if there was none. */
    method CommandDevice(code: Byte, link: Link) returns (status: int)
      requires Valid()
      modifies Footprint()
      ensures var (s, t) := Transact(old(slave.View()), code, link);
              && slave.View() == s
              && (status == OS_SUCCESS <==> t.Ok())
              && rxData[..] == if t.Ok() then t.data else seq(CAN_MAX_DLEN, _ => 0)
    {
      var writeData: seq<Byte> := [0, 0] + link.tail;
      writeData := writeData[0 := DEVICE_HDR];
      writeData := writeData[1 := code];
      FramePrep(writeData, CMD_SIZE);
      assert txData[..] == writeData;
      assert txData[2..] == txData[..][2..] == link.tail;
      status := ReadData(link);
    }

    method RequestHK(data: HkStruct, link: Link) returns (status: int)
      requires Valid()
      modifies Footprint(), data
      ensures var (s, t) := Transact(old(slave.View()), REQ_HK_CMD, link);
              && slave.View() == s
              && (status == OS_SUCCESS <==> t.Ok())
              && data.View() == if t.Ok() then DecodeHk(t.data) else old(data.View())
    {
      hide Transact;
      status := CommandDevice(REQ_HK_CMD, link);
      if status == OS_SUCCESS {
        assert WordAt(rxData[..], 0) == WordOf(rxData[0], rxData[1], rxData[2], rxData[3]);
        assert WordAt(rxData[..], 4) == WordOf(rxData[4], rxData[5], rxData[6], rxData[7]);
        var counter := AssembleWord(rxData[0], rxData[1], rxData[2], rxData[3]);
        data.deviceCounter := counter;
        var deviceStatus := AssembleWord(rxData[4], rxData[5], rxData[6], rxData[7]);
        data.deviceStatus := deviceStatus;
      }
    }

    method RequestAxis(data: AxisStruct, code: Byte, link: Link) returns (status: int)
      requires Valid()
      modifies Footprint(), data
      ensures var (s, t) := Transact(old(slave.View()), code, link);
              && slave.View() == s
              && (status == OS_SUCCESS <==> t.Ok())
              && data.View() == AxisAfter(old(data.View()), t)
    {
      hide Transact, Decode;
      status := CommandDevice(code, link);
      if status == OS_SUCCESS {
        assert WordAt(rxData[..], 0) == WordOf(rxData[0], rxData[1], rxData[2], rxData[3]);
        assert WordAt(rxData[..], 4) == WordOf(rxData[4], rxData[5], rxData[6], rxData[7]);
        var la := AssembleWord(rxData[0], rxData[1], rxData[2], rxData[3]);
        var aa := AssembleWord(rxData[4], rxData[5], rxData[6], rxData[7]);
        data.linearAcc := Decode(Linear, la);
        data.angularAcc := Decode(Angular, aa);
      } else {
        status := OS_ERROR;
      }
    }

    method RequestData(data: DataStruct, x: Link, y: Link, z: Link) returns (status: int)
      requires Valid() && data.Valid()
      modifies Footprint(), data.xData, data.yData, data.zData
      ensures var (s, ts) := RequestThree(old(slave.View()), x, y, z);
              && slave.View() == s
              && (status == OS_SUCCESS <==> AllThree(ts))
              && data.View() == Overwrite(old(data.View()), ts)
    {
      hide Transact, AxisAfter;
      status := RequestAxis(data.xData, REQ_X_CMD, x);
      if status == OS_SUCCESS {
        status := RequestAxis(data.yData, REQ_Y_CMD, y);
        if status == OS_SUCCESS {
          status := RequestAxis(data.zData, REQ_Z_CMD, z);
        }
      }
    }
  }

  // ---------- laws ----------

  /** The command on the wire: identifier 15, length 2, header 0x80, the code, and the six bytes behind it. */
  lemma CommandOnTheWire(code: Byte, tail: Tail)
    ensures CommandFrame(code, tail) == [15, 0, 0, 0, 2, 0, 0, 0, 0x80, code] + tail
  {
  }

  /** The bytes that are copied along with the command do not matter. */
  lemma TailDoesNotMatter(s: Slave, code: Byte, link: Link, tail: Tail)
    ensures Transact(s, code, link) == Transact(s, code, link.(tail := tail))
  {
    var f, g := CommandFrame(code, link.tail), CommandFrame(code, tail);
    var a, b := f[..FRAME_SIZE], g[..FRAME_SIZE];
    assert a[4] == f[4] && b[4] == g[4] && a[9] == f[9] && b[9] == g[9];
    OnlySizeAndTwoBytesMatter(DeviceAt(s, link), a, b, link.readings);
  }

  /** A delivered reply holds what the device answers now, and never what it answered before. */
  lemma ReplyIsFresh(s: Slave, code: Byte, link: Link)
    requires link.outcome == Deliver
    ensures var d := DeviceAt(s, link);
            Transact(s, code, link).1 ==
            Delivered(
              link.sims, if d.enabled && 1 <= code <= 4 then DataField(d, code, link.readings) else seq(8, _ => 0))
  {
    hide DeviceAt, DataField;
    var d := DeviceAt(s, link);
    var f := CommandFrame(code, link.tail);
    var frame := f[..FRAME_SIZE];
    assert frame[4] == f[4] && frame[9] == f[9];
    var out := Reply(d, frame, link.readings);
    if d.enabled && 1 <= code <= 4 {
      assert Resize(out, 16) == out;
      assert out[8..] == DataField(d, code, link.readings);
    } else {
      assert Resize(out, 16)[8..] == seq(8, _ => 0);
    }
  }

  /** The device accepts exactly the commands that reach it while it is enabled and that it knows. */
  lemma DeviceAfter(s: Slave, code: Byte, link: Link)
    ensures var d := DeviceAt(s, link);
            Transact(s, code, link).0.device ==
            if link.outcome != LoseRequest && d.enabled && code <= 4
            then d.(count := (d.count + 1) % 0x1_0000_0000) else d
  {
    hide DeviceAt;
    var f := CommandFrame(code, link.tail);
    var frame := f[..FRAME_SIZE];
    assert frame[4] == f[4] && frame[9] == f[9];
  }

  lemma WordsOfTwo(a: Word, b: Word)
    ensures var p := BytesOf(a) + BytesOf(b); |p| == 8 && WordAt(p, 0) == a && WordAt(p, 4) == b
  {
    PackThenUnpack(a);
    PackThenUnpack(b);
  }

  /** Housekeeping survives the frame: the decoded reply is the state before the request was counted. */
  lemma HousekeepingRoundTrip(s: Slave, link: Link)
    requires DeviceAt(s, link).enabled && link.outcome == Deliver
    ensures var t := Transact(s, REQ_HK_CMD, link).1;
            t.Ok() && DecodeHk(t.data) == HkData(DeviceAt(s, link).count, DeviceAt(s, link).status)
  {
    hide DeviceAt;
    ReplyIsFresh(s, REQ_HK_CMD, link);
    WordsOfTwo(DeviceAt(s, link).count, DeviceAt(s, link).status);
  }

  /** A reading that the encoder can convert. */
  predicate Encodable(a: AxisReading) {
    InRange(Linear, a.acc) && InRange(Angular, a.gyro)
  }

  /** The decoded axis is within the tolerance of the reading. */
  predicate Faithful(d: AxisData, a: AxisReading) {
    && -Tolerance(Linear) <= d.linear - a.acc <= Tolerance(Linear)
    && -Tolerance(Angular) <= d.angular - a.gyro <= Tolerance(Angular)
  }

  /** Sensor round trip: reading, word, bytes, frame, bytes, word, reading. */
  lemma AxisRoundTrip(s: Slave, code: Byte, link: Link)
    requires DeviceAt(s, link).enabled && link.outcome == Deliver && 2 <= code <= 4
    requires Encodable(link.readings.Axis(code))
    ensures var t := Transact(s, code, link).1;
            t.Ok() && Faithful(DecodeAxis(t.data), link.readings.Axis(code))
  {
    hide DeviceAt;
    var a := link.readings.Axis(code);
    ReplyIsFresh(s, code, link);
    WordsOfTwo(Encode(Linear, a.acc, a.badAcc), Encode(Angular, a.gyro, a.badGyro));
    ReadingRoundTrip(Linear, a.acc, a.badAcc);
    ReadingRoundTrip(Angular, a.gyro, a.badGyro);
  }

  /** A disabled device answers with zeros, which the driver takes for a successful reading. */
  lemma DisabledReadsAsSuccess(s: Slave, code: Byte, link: Link)
    requires !DeviceAt(s, link).enabled && link.outcome == Deliver
    ensures Transact(s, code, link) ==
            (Slave(DeviceAt(s, link), seq(16, _ => 0)), Delivered(link.sims, seq(8, _ => 0)))
  {
    hide DeviceAt;
    assert Resize([], 16) == seq(16, _ => 0);
    assert (seq(16, _ => 0))[8..] == seq(8, _ => 0);
  }
}

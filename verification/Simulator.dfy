/**
 The simulated device: the hardware model that answers a raw CAN frame, and the bus
 slave that keeps the answer until the master reads it.
 */
module Simulator {
  import opened Bytes
  import opened SensorCode

  const SIM_SUCCESS: Byte := 0
  const SIM_ERROR: Byte := 1

  /** The number of data bytes of a command. */
  const CMD_SIZE: Byte := 2

  /** The number of bytes of a written frame that the slave passes on. */
  const FRAME_SIZE := 14

  /** What the data provider reads on one axis, and what a conversion out of range would leave. */
  datatype AxisReading = AxisReading(acc: real, gyro: real, badAcc: Word, badGyro: Word)

  datatype Readings = Readings(x: AxisReading, y: AxisReading, z: AxisReading)
  {
    function Axis(code: Byte): AxisReading {
      if code == 2 then x else if code == 3 then y else z
    }
  }

  datatype Device = Device(enabled: bool, count: Word, status: Word)

  /** Commands on the simulator's own command bus. */
  datatype SimCommand = Enable | Disable | SetStatus(status: Word) | Other

  // ---------- specification ----------

  predicate Accepts(d: Device, frame: seq<Byte>) {
    d.enabled && |frame| == FRAME_SIZE && frame[4] == CMD_SIZE && frame[9] <= 4
  }

  function AfterCommand(d: Device, frame: seq<Byte>): Device {
    if Accepts(d, frame) then d.(count := if d.count == 0xFFFF_FFFF then 0 else d.count + 1) else d
  }

  function AxisField(a: AxisReading): Payload {
    BytesOf(Encode(Linear, a.acc, a.badAcc)) + BytesOf(Encode(Angular, a.gyro, a.badGyro))
  }

  function HkField(d: Device): Payload {
    BytesOf(d.count) + BytesOf(d.status)
  }

  function DataField(d: Device, code: Byte, r: Readings): Payload {
    if code == 1 then HkField(d) else AxisField(r.Axis(code))
  }

  const REPLY_HEADER: seq<Byte> := [0, 0, 0, 0, 8, 0, 0, 0]

  /** The reply, as a function of the state before the command is counted. */
  function Reply(d: Device, frame: seq<Byte>, r: Readings): seq<Byte> {
    if Accepts(d, frame) && frame[9] != 0 then REPLY_HEADER + DataField(d, frame[9], r) else []
  }

  function AfterSimCommand(d: Device, c: SimCommand): Device {
    match c
    case Enable => d.(enabled := true)
    case Disable => Device(false, 0, 0)
    case SetStatus(s) => d.(status := s)
    case Other => d
  }

  /** Several commands, in order. */
  function AfterSimCommands(d: Device, cs: seq<SimCommand>): Device
    decreases |cs|
  {
    if |cs| == 0 then d else AfterSimCommand(AfterSimCommands(d, cs[..|cs| - 1]), cs[|cs| - 1])
  }

  // ---------- the hardware model ----------

  class HardwareModel {
    var enabled: Byte
    var count: Word
    var status: Word

    function View(): Device
      reads this
    {
      Device(enabled == SIM_SUCCESS, count, status)
    }

    constructor ()
      ensures View() == Device(true, 0, 0)
    {
      enabled, count, status := SIM_SUCCESS, 0, 0;
    }

    method CommandCallback(c: SimCommand)
      modifies this
      ensures View() == AfterSimCommand(old(View()), c)
    {
      match c
      case Enable => enabled := SIM_SUCCESS;
      case Disable => enabled, count, status := SIM_ERROR, 0, 0;
      case SetStatus(s) => status := s;
      case Other =>
    }

    /** The commands that arrive between two transactions. */
    method CommandCallbacks(cs: seq<SimCommand>)
      modifies this
      ensures View() == AfterSimCommands(old(View()), cs)
    {
      for i := 0 to |cs|
        invariant View() == AfterSimCommands(old(View()), cs[..i])
      {
        CommandCallback(cs[i]);
        assert cs[..i + 1][..i] == cs[..i];
      }
      assert cs[..|cs|] == cs;
    }

    /** Stores a word in four consecutive bytes, most significant first. */
    method StoreWord(field: seq<Byte>, at: nat, w: Word) returns (out: seq<Byte>)
      requires at + 4 <= |field|
      ensures out == field[..at] + BytesOf(w) + field[at + 4..]
    {
      out := field;
      out := out[at := w / 0x100_0000 % 0x100];
      out := out[at + 1 := w / 0x1_0000 % 0x100];
      out := out[at + 2 := w / 0x100 % 0x100];
      out := out[at + 3 := w % 0x100];
    }

    method CreateHk() returns (out: seq<Byte>)
      ensures out == HkField(View())
    {
      out := seq(8, _ => 0);
      out := StoreWord(out, 0, count);
      out := StoreWord(out, 4, status);
    }

    /** The stores that the three axis cases share. */
    method StoreAxis(field: seq<Byte>, a: AxisReading) returns (out: seq<Byte>)
      requires |field| == 8
      ensures out == AxisField(a)
    {
      out := StoreWord(field, 0, Encode(Linear, a.acc, a.badAcc));
      out := StoreWord(out, 4, Encode(Angular, a.gyro, a.badGyro));
    }

    method CreateData(axis: Byte, r: Readings) returns (out: seq<Byte>)
      ensures 2 <= axis <= 4 ==> out == AxisField(r.Axis(axis))
      ensures !(2 <= axis <= 4) ==> out == seq(8, _ => 0)
    {
      out := seq(8, _ => 0);
      if axis == 2 {
        out := StoreAxis(out, r.x);
      } else if axis == 3 {
        out := StoreAxis(out, r.y);
      } else if axis == 4 {
        out := StoreAxis(out, r.z);
      }
    }

    /** The frame around a reply: identifier, length, padding, data. */
    method WrapReply(imuData: Payload) returns (out: seq<Byte>)
      ensures out == REPLY_HEADER + imuData
    {
      out := [];
      out := out + [0] + [0] + [0] + [0];
      out := out + [|imuData|];
      out := out + [0] + [0] + [0];
      out := out + imuData;
    }

    /** The answer to a raw frame.  The reply is built before the command is counted. */
    method DetermineCanResponse(inData: seq<Byte>, r: Readings) returns (outData: seq<Byte>)
      modifies this
      ensures View() == AfterCommand(old(View()), inData)
      ensures outData == Reply(old(View()), inData, r)
    {
      outData := [];
      var valid := SIM_SUCCESS;
      if enabled != SIM_SUCCESS {
        valid := SIM_ERROR;
      } else {
        if |inData| != 14 {
          valid := SIM_ERROR;
        } else if inData[4] != CMD_SIZE {
          valid := SIM_ERROR;
        }
        if valid == SIM_SUCCESS {
          var code := inData[9];
          if code == 0 {
          } else if code == 1 {
            var imuData := CreateHk();
            outData := WrapReply(imuData);
          } else if code == 2 || code == 3 || code == 4 {
            var imuData := CreateData(code, r);
            outData := WrapReply(imuData);
          } else {
            valid := SIM_ERROR;
          }
        }
      }
      if valid == SIM_SUCCESS {
        count := (count + 1) % 0x1_0000_0000;
      }
    }
  }

  // ---------- the bus slave ----------

  datatype Slave = Slave(device: Device, out: seq<Byte>)

  /** A vector resize: cut off, or extended by zeros. */
  function Resize(s: seq<Byte>, n: nat): (t: seq<Byte>)
    ensures |t| == n
  {
    if n <= |s| then s[..n] else s + seq(n - |s|, _ => 0)
  }

  function AfterWrite(s: Slave, wbuf: seq<Byte>, r: Readings): Slave
    requires |wbuf| >= FRAME_SIZE
  {
    Slave(AfterCommand(s.device, wbuf[..FRAME_SIZE]), Reply(s.device, wbuf[..FRAME_SIZE], r))
  }

  class CanSlave {
    const model: HardwareModel
    var canOut: seq<Byte>

    constructor (m: HardwareModel)
      ensures model == m && canOut == seq(14, _ => 0)
    {
      model := m;
      canOut := seq(14, _ => 0);
    }

    function View(): Slave
      reads this, model
    {
      Slave(model.View(), canOut)
    }

    method CanWrite(wbuf: seq<Byte>, r: Readings)
      requires |wbuf| >= FRAME_SIZE
      modifies this, model
      ensures View() == AfterWrite(old(View()), wbuf, r)
    {
      var inData := wbuf[..FRAME_SIZE];
      canOut := model.DetermineCanResponse(inData, r);
    }

    method CanRead(rlen: nat) returns (rbuf: seq<Byte>)
      modifies this
      ensures View() == old(View()).(out := rbuf)
      ensures rbuf == Resize(old(canOut), rlen)
    {
      canOut := Resize(canOut, rlen);
      rbuf := canOut;
    }
  }

  // ---------- laws ----------

  /** The buffer after a series of reads of the given lengths. */
  function AfterReads(out: seq<Byte>, lengths: seq<nat>): seq<Byte>
    decreases |lengths|
  {
    if |lengths| == 0 then out
    else Resize(AfterReads(out, lengths[..|lengths| - 1]), lengths[|lengths| - 1])
  }

  /** The number of reply bytes that survive the reads. */
  function Surviving(n: nat, lengths: seq<nat>): (k: nat)
    ensures k <= n
    decreases |lengths|
  {
    if |lengths| == 0 then n
    else
      var k := Surviving(n, lengths[..|lengths| - 1]);
      if lengths[|lengths| - 1] < k then lengths[|lengths| - 1] else k
  }

  lemma {:induction false} SurvivingBounded(n: nat, lengths: seq<nat>)
    ensures forall i :: 0 <= i < |lengths| ==> Surviving(n, lengths) <= lengths[i]
    decreases |lengths|
  {
    if |lengths| > 0 {
      SurvivingBounded(n, lengths[..|lengths| - 1]);
    }
  }

  /**
   After a write, each read returns the part of the reply that no earlier read has cut off,
   extended by zeros; so reads of equal length repeat the same frame.
   */
  lemma {:induction false} ReadsRepeat(out: seq<Byte>, lengths: seq<nat>, n: nat)
    ensures Resize(AfterReads(out, lengths), n) == Resize(out[..Surviving(|out|, lengths)], n)
    decreases |lengths|
  {
    if |lengths| == 0 {
      assert out[..|out|] == out;
    } else {
      var front, last := lengths[..|lengths| - 1], lengths[|lengths| - 1];
      ReadsRepeat(out, front, last);
    }
  }

  lemma {:induction false} SurvivingIsCut(m: nat, lengths: seq<nat>, n: nat)
    requires forall i :: 0 <= i < |lengths| ==> lengths[i] == n
    ensures Surviving(m, lengths) == if |lengths| > 0 && n < m then n else m
    decreases |lengths|
  {
    if |lengths| > 0 {
      SurvivingIsCut(m, lengths[..|lengths| - 1], n);
    }
  }

  /** Any number of reads of the length n leave a later read of that length unchanged. */
  lemma EqualReadsRepeat(out: seq<Byte>, lengths: seq<nat>, n: nat)
    requires forall i :: 0 <= i < |lengths| ==> lengths[i] == n
    ensures Resize(AfterReads(out, lengths), n) == Resize(out, n)
  {
    ReadsRepeat(out, lengths, n);
    SurvivingIsCut(|out|, lengths, n);
  }

  /** Frames of one size, which have the same bytes 4 and 9 if it is the right size. */
  predicate SameCommand(f: seq<Byte>, g: seq<Byte>) {
    |f| == |g| && (|f| == FRAME_SIZE ==> f[4] == g[4] && f[9] == g[9])
  }

  /** Of a frame, only its size and the bytes 4 and 9 matter. */
  lemma OnlySizeAndTwoBytesMatter(d: Device, f: seq<Byte>, g: seq<Byte>, r: Readings)
    requires SameCommand(f, g)
    ensures AfterCommand(d, f) == AfterCommand(d, g) && Reply(d, f, r) == Reply(d, g, r)
  {
  }

  /**
   The frame by number: exactly an enabled device takes exactly a frame of 14 bytes with length 2 and a
   code up to 4, and counts it; and it answers exactly the codes 1 to 4, with a frame of 16 bytes whose
   length is 8.
   */
  lemma FrameByNumber(d: Device, f: seq<Byte>, r: Readings)
    ensures var taken := d.enabled && |f| == 14 && f[4] == 2 && f[9] <= 4;
            && AfterCommand(d, f) ==
               (if !taken then d else d.(count := if d.count == 0xFFFF_FFFF then 0 else d.count + 1))
            && if taken && f[9] >= 1 then
                 |Reply(d, f, r)| == 16 && Reply(d, f, r)[..8] == [0, 0, 0, 0, 8, 0, 0, 0]
               else Reply(d, f, r) == []
  {
    if Reply(d, f, r) != [] {
      assert Reply(d, f, r)[..8] == REPLY_HEADER;
    }
  }

  /** A frame read after a write is all zero exactly when the command was rejected or a NOOP. */
  lemma ZeroFrameExactly(s: Slave, f: seq<Byte>, r: Readings)
    requires |f| >= FRAME_SIZE
    ensures Resize(AfterWrite(s, f, r).out, 16) == seq(16, _ => 0)
       <==> !Accepts(s.device, f[..FRAME_SIZE]) || f[9] == 0
  {
    var frame := f[..FRAME_SIZE];
    assert frame[9] == f[9];
    var got := Resize(AfterWrite(s, f, r).out, 16);
    if Accepts(s.device, frame) && f[9] != 0 {
      assert got[4] == 8;
      assert (seq(16, _ => 0))[4] == 0;
    } else {
      assert got == seq(16, _ => 0);
    }
  }
}

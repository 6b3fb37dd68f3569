/** The data point of the 42 provider, which is parsed when it is first read. */
module DataPoint {
  import opened Rounding

  datatype Option = None | Some(value: real)

  datatype Accessor = AccX | AccY | AccZ | GyroX | GyroY | GyroZ

  /** The numbers that the six keys denote, in the order in which they are parsed; None if a key does not parse. */
  datatype Source = Source(
    accel0: Option, accel1: Option, accel2: Option, gyro0: Option, gyro1: Option, gyro2: Option)
  {
    predicate Parses() {
      accel0.Some? && accel1.Some? && accel2.Some? && gyro0.Some? && gyro1.Some? && gyro2.Some?
    }

    function Key(a: Accessor): Option {
      match a
      case AccX => accel0
      case AccY => accel1
      case AccZ => accel2
      case GyroX => gyro0
      case GyroY => gyro1
      case GyroZ => gyro2
    }

    /** What the accessor returns when its key has been parsed: the number as a float. */
    function Parsed(a: Accessor): real
      requires Key(a).Some?
    {
      Round(BINARY32, Key(a).value)
    }

    /** No key that is parsed up to and including a's fails. */
    predicate ReachedWith(a: Accessor) {
      && accel0.Some?
      && (a.AccX? || accel1.Some?)
      && (a.AccX? || a.AccY? || accel2.Some?)
      && (a.AccX? || a.AccY? || a.AccZ? || gyro0.Some?)
      && (a.GyroY? || a.GyroZ? ==> gyro1.Some?)
      && (a.GyroZ? ==> gyro2.Some?)
    }
  }

  /** No data from 42. */
  const EMPTY := Source(None, None, None, None, None, None)

  /** The seven public accessors: six readings, and the validity of the point. */
  datatype Query = Read(a: Accessor) | Validity

  datatype Answer = Value(v: real) | Validated(valid: bool)

  class ImuDataPoint {
    const dp: Source
    var notParsed: bool
    var valid: bool
    const gyroRates: array<real>
    const accelRates: array<real>
    ghost var parses: nat

    ghost predicate Sound()
      reads this, gyroRates, accelRates
    {
      && gyroRates.Length == 3 && accelRates.Length == 3 && gyroRates != accelRates
      && (valid <==> !notParsed)
    }

    /** The fields that an accessor returns. */
    function Field(a: Accessor): real
      requires gyroRates.Length == 3 && accelRates.Length == 3
      reads gyroRates, accelRates
    {
      match a
      case AccX => accelRates[0]
      case AccY => accelRates[1]
      case AccZ => accelRates[2]
      case GyroX => gyroRates[0]
      case GyroY => gyroRates[1]
      case GyroZ => gyroRates[2]
    }

    /** The point that is parsed on demand.  Its rates are not initialised. */
    constructor From42(s: Source)
      ensures Sound() && dp == s && notParsed && parses == 0
      ensures fresh(gyroRates) && fresh(accelRates)
    {
      dp := s;
      notParsed, valid := true, false;
      gyroRates := new real[3];
      accelRates := new real[3];
      parses := 0;
    }

    /** The point whose six values are given as doubles: its fields are floats. */
    constructor Direct(gx: real, gy: real, gz: real, ax: real, ay: real, az: real)
      ensures Sound() && !notParsed && parses == 0
      ensures Field(AccX) == Round(BINARY32, ax) && Field(GyroX) == Round(BINARY32, gx)
      ensures Field(AccY) == Round(BINARY32, ay) && Field(GyroY) == Round(BINARY32, gy)
      ensures Field(AccZ) == Round(BINARY32, az) && Field(GyroZ) == Round(BINARY32, gz)
      ensures fresh(gyroRates) && fresh(accelRates)
    {
      dp := EMPTY;
      notParsed, valid := false, true;
      gyroRates := new real[] [Round(BINARY32, gx), Round(BINARY32, gy), Round(BINARY32, gz)];
      accelRates := new real[] [Round(BINARY32, ax), Round(BINARY32, ay), Round(BINARY32, az)];
      parses := 0;
    }

    /** Stores one key after the other; the first that does not parse ends it. */
    method DoParsing()
      requires Sound() && notParsed
      modifies this, gyroRates, accelRates
      ensures Sound() && parses == old(parses) + 1 && notParsed == !dp.Parses()
      ensures forall a: Accessor :: Field(a) == if dp.ReachedWith(a) then dp.Parsed(a) else old(Field(a))
    {
      hide Round;
      parses := parses + 1;
      if dp.accel0.None? { return; }
      accelRates[0] := Round(BINARY32, dp.accel0.value);
      if dp.accel1.None? { return; }
      accelRates[1] := Round(BINARY32, dp.accel1.value);
      if dp.accel2.None? { return; }
      accelRates[2] := Round(BINARY32, dp.accel2.value);
      if dp.gyro0.None? { return; }
      gyroRates[0] := Round(BINARY32, dp.gyro0.value);
      if dp.gyro1.None? { return; }
      gyroRates[1] := Round(BINARY32, dp.gyro1.value);
      if dp.gyro2.None? { return; }
      gyroRates[2] := Round(BINARY32, dp.gyro2.value);
      valid := true;
      notParsed := false;
    }

    method ParseDataPoint()
      requires Sound()
      modifies this, gyroRates, accelRates
      ensures Sound() && parses == old(parses) + (if old(notParsed) then 1 else 0)
      ensures notParsed == (old(notParsed) && !dp.Parses())
      ensures forall a: Accessor :: Field(a) ==
                if old(notParsed) && dp.ReachedWith(a) then dp.Parsed(a) else old(Field(a))
    {
      if notParsed {
        DoParsing();
      }
    }

    /** One of the six accessors. */
    method Get(a: Accessor) returns (v: real)
      requires Sound()
      modifies this, gyroRates, accelRates
      ensures Sound() && parses == old(parses) + (if old(notParsed) then 1 else 0)
      ensures notParsed == (old(notParsed) && !dp.Parses())
      ensures forall b: Accessor :: Field(b) ==
                if old(notParsed) && dp.ReachedWith(b) then dp.Parsed(b) else old(Field(b))
      ensures v == Field(a)
      ensures dp.Parses() && old(notParsed) ==>
                match a
                case AccX => v == Round(BINARY32, dp.accel0.value)
                case AccY => v == Round(BINARY32, dp.accel1.value)
                case AccZ => v == Round(BINARY32, dp.accel2.value)
                case GyroX => v == Round(BINARY32, dp.gyro0.value)
                case GyroY => v == Round(BINARY32, dp.gyro1.value)
                case GyroZ => v == Round(BINARY32, dp.gyro2.value)
    {
      ParseDataPoint();
      v := Field(a);
    }

    method IsValid() returns (v: bool)
      requires Sound()
      modifies this, gyroRates, accelRates
      ensures Sound() && parses == old(parses) + (if old(notParsed) then 1 else 0)
      ensures notParsed == (old(notParsed) && !dp.Parses())
      ensures forall b: Accessor :: Field(b) ==
                if old(notParsed) && dp.ReachedWith(b) then dp.Parsed(b) else old(Field(b))
      ensures v == !notParsed
    {
      ParseDataPoint();
      v := valid;
    }

    /** A field once parsing has been tried, given the state before. */
    ghost function AfterParse(a: Accessor): real
      requires Sound()
      reads this, gyroRates, accelRates
    {
      if notParsed && dp.ReachedWith(a) then dp.Parsed(a) else Field(a)
    }

    /** The answer to a query in any sequence of queries, given the state before them all. */
    ghost function AnswerTo(q: Query): Answer
      requires Sound()
      reads this, gyroRates, accelRates
    {
      match q
      case Read(a) => Value(AfterParse(a))
      case Validity => Validated(!notParsed || dp.Parses())
    }

    /**
     Any calls of the seven accessors in any order: if the six keys parse, each reading is the directly
     parsed value, the point is valid, and one parse serves them all; if not, the point is invalid, every
     call parses again, and the readings of keys before the failing one are still the parsed values.
     A point that needs no parsing never parses.
     */
    method GetAll(calls: seq<Query>) returns (vs: seq<Answer>)
      requires Sound()
      modifies this, gyroRates, accelRates
      ensures Sound() && |vs| == |calls|
      ensures parses == old(parses) + (if !old(notParsed) then 0
                                       else if dp.Parses() && |calls| > 0 then 1 else |calls|)
      ensures notParsed <==> old(notParsed) && (!dp.Parses() || |calls| == 0)
      ensures forall i :: 0 <= i < |calls| ==> vs[i] == old(AnswerTo(calls[i]))
    {
      vs := [];
      for n := 0 to |calls|
        invariant Sound() && |vs| == n
        invariant parses == old(parses) + (if !old(notParsed) then 0 else if dp.Parses() && n > 0 then 1 else n)
        invariant notParsed <==> old(notParsed) && (!dp.Parses() || n == 0)
        invariant forall a: Accessor :: Field(a) == if n == 0 then old(Field(a)) else old(AfterParse(a))
        invariant forall i :: 0 <= i < n ==> vs[i] == old(AnswerTo(calls[i]))
      {
        match calls[n]
        case Read(a) =>
          var v := Get(a);
          vs := vs + [Value(v)];
        case Validity =>
          var b := IsValid();
          vs := vs + [Validated(b)];
      }
    }
  }

  /** The position of an accessor's key in the order of parsing. */
  function Position(a: Accessor): nat {
    match a
    case AccX => 0
    case AccY => 1
    case AccZ => 2
    case GyroX => 3
    case GyroY => 4
    case GyroZ => 5
  }

  /** Parsing stops at the first key that fails: a key is reached exactly if it and all before it parse. */
  lemma ReachedExactly(s: Source, a: Accessor)
    ensures s.ReachedWith(a) <==> forall b: Accessor :: Position(b) <= Position(a) ==> s.Key(b).Some?
    ensures s.Parses() <==> forall b: Accessor :: s.Key(b).Some?
  {
    var all := [s.Key(AccX), s.Key(AccY), s.Key(AccZ), s.Key(GyroX), s.Key(GyroY), s.Key(GyroZ)];
    assert all == [s.accel0, s.accel1, s.accel2, s.gyro0, s.gyro1, s.gyro2];
  }

  /**
   On-demand parsing agrees with direct parsing: a point that is parsed when it is first read gives the
   same answers, to any calls of the accessors in any order, as one that was made from the six values.
   */
  method OnDemandAgrees(s: Source, calls: seq<Query>) returns (lazy: seq<Answer>, direct: seq<Answer>)
    requires s.accel0.Some? && s.accel1.Some? && s.accel2.Some? && s.gyro0.Some? && s.gyro1.Some? && s.gyro2.Some?
    ensures |lazy| == |calls| && lazy == direct
  {
    hide Round;
    var p := new ImuDataPoint.From42(s);
    var q := new ImuDataPoint.Direct(
      s.gyro0.value, s.gyro1.value, s.gyro2.value, s.accel0.value, s.accel1.value, s.accel2.value);
    assert forall a: Accessor :: p.AfterParse(a) == q.AfterParse(a);
    lazy := p.GetAll(calls);
    direct := q.GetAll(calls);
  }
}

/**
 The offset-binary sensor code.  The simulated device encodes a reading in binary32
 arithmetic and truncates it to a 32-bit word; the driver decodes the word in binary64
 and narrows the result to binary32.  Each operation rounds once.
 */
module SensorCode {
  import opened Bytes
  import opened Powers
  import opened Rounding

  /** Linear acceleration in g, and angular rate in deg/s. */
  datatype Channel = Linear | Angular
  {
    /** The conversion constant as both sources declare it. */
    function Constant(): real { if Linear? then 214748364.0 else 5368709.0 }

    /** The range of the readings, and the multiple of the constant that is added. */
    function Factor(): real { if Linear? then 10.0 else 400.0 }

    /** x times the constant. */
    function Times(x: real): real { if Linear? then x * 214748364.0 else x * 5368709.0 }

    function Per(a: real): real { if Linear? then a / 214748364.0 else a / 5368709.0 }

    /** The constant once it is stored in binary32, and x times that. */
    function Narrowed(): real { if Linear? then 214748368.0 else 5368709.0 }

    function NarrowedTimes(x: real): real { if Linear? then x * 214748368.0 else x * 5368709.0 }
  }

  const TWO_31 := 2147483648.0

  /** Conversion from floating point to integer: the fraction is discarded. */
  function Truncate(v: real): int {
    if v >= 0.0 then v.Floor else -((-v).Floor)
  }

  predicate FitsWord(v: real) {
    0 <= Truncate(v) < 0x1_0000_0000
  }

  /** The integer part keeps the sign, and loses less than one in magnitude. */
  lemma TruncateDropsFraction(v: real)
    ensures Abs(Truncate(v) as real) <= Abs(v) < Abs(Truncate(v) as real) + 1.0
    ensures v >= 0.0 ==> Truncate(v) >= 0
    ensures v <= 0.0 ==> Truncate(v) <= 0
  {
    assert v >= 0.0 || (-v).Floor >= 0;
  }

  // ---------- exact specification ----------

  function EncodeExact(ch: Channel, x: real): int {
    Truncate(ch.Times(x) + ch.Times(ch.Factor()))
  }

  function DecodeExact(ch: Channel, n: int): real {
    ch.Per(n as real - ch.Times(ch.Factor()))
  }

  // ---------- the two implementations ----------

  /** The binary32 value that the encoder converts to a word. */
  function WireValue(ch: Channel, x: real): real {
    Round(BINARY32, Round(BINARY32, ch.NarrowedTimes(x)) + Round(BINARY32, ch.NarrowedTimes(ch.Factor())))
  }

  /** The word on the wire.  A conversion that does not fit leaves some other word. */
  function Encode(ch: Channel, x: real, outside: Word): Word {
    if FitsWord(WireValue(ch, x)) then Truncate(WireValue(ch, x)) else outside
  }

  /** The word less the offset, both in binary64. */
  function Centred(ch: Channel, n: Word): real {
    Round(BINARY64, n as real - Round(BINARY64, ch.Times(ch.Factor())))
  }

  /** One binary64 division by the conversion constant. */
  function Quotient(ch: Channel, a: real): real {
    Round(BINARY64, ch.Per(a))
  }

  function Decode(ch: Channel, n: Word): real {
    Round(BINARY32, Quotient(ch, Centred(ch, n)))
  }

  /** The formulas as the sources write them, with the constants by name. */
  lemma AsWritten(ch: Channel, x: real, n: Word)
    ensures EncodeExact(ch, x) == Truncate(x * ch.Constant() + ch.Constant() * ch.Factor())
    ensures DecodeExact(ch, n) == (n as real - ch.Constant() * ch.Factor()) / ch.Constant()
    ensures WireValue(ch, x) ==
            Round(BINARY32, Round(BINARY32, x * ch.Narrowed()) + Round(BINARY32, ch.Narrowed() * ch.Factor()))
    ensures Centred(ch, n) == Round(BINARY64, n as real - Round(BINARY64, ch.Constant() * ch.Factor()))
    ensures Quotient(ch, x) == Round(BINARY64, x / ch.Constant())
  {
    hide Round, Truncate;
    if ch == Linear {} else {}
  }

  // ---------- constants as the encoder sees them ----------

  /** Computes one rounding whose quantum is 16, 128 or 256. */
  lemma RoundAt(x: real, e: int, n: int)
    requires e == 4 || e == 7 || e == 8
    requires var b := if e == 4 then 134217728.0 else if e == 7 then 1073741824.0 else TWO_31;
             b <= Abs(x) < 2.0 * b
    requires var u := if e == 4 then 16.0 else if e == 7 then 128.0 else 256.0;
             n == NearestEven(x / u)
    ensures Round(BINARY32, x) == n as real * (if e == 4 then 16.0 else if e == 7 then 128.0 else 256.0)
  {
    ConcretePowers();
    ExponentUnique(BINARY32, x, e);
    SmallScales(x, n as real);
  }

  /** In binary32 the linear constant grows by four, and both offsets become two to the 31. */
  lemma Constants(ch: Channel)
    ensures Round(BINARY32, ch.Constant()) == ch.Narrowed()
    ensures Round(BINARY32, ch.NarrowedTimes(ch.Factor())) == TWO_31
  {
    if ch == Linear {
      RoundAt(214748364.0, 4, 13421773);
      RoundAt(2147483680.0, 8, 8388608);
    } else {
      ConcretePowers();
      IntegerExact(BINARY32, 5368709);
      RoundAt(2147483600.0, 7, 16777216);
    }
  }

  // ---------- the shifted sum ----------

  /** The encoder as a function of the exact product v. */
  function Shifted(v: real): real {
    Round(BINARY32, Round(BINARY32, v) + TWO_31)
  }

  lemma WireValueIsShifted(ch: Channel, x: real)
    ensures WireValue(ch, x) == Shifted(ch.NarrowedTimes(x))
  {
    Constants(ch);
  }

  lemma ShiftedMonotone(v: real, w: real)
    requires v <= w
    ensures Shifted(v) <= Shifted(w)
  {
    RoundMonotone(BINARY32, v, w);
    RoundMonotone(BINARY32, Round(BINARY32, v) + TWO_31, Round(BINARY32, w) + TWO_31);
  }

  lemma LowerEnd()
    ensures Shifted(-2147483776.0) == 0.0
  {
    RoundAt(-2147483776.0, 8, -8388608);
    ConcretePowers();
    IntegerExact(BINARY32, 0);
  }

  /** The values of the encoder at the two ends of its range. */
  lemma RangeEnds()
    ensures Shifted(2147483456.0) == 4294967040.0
    ensures Shifted(-2147483776.0) == 0.0
  {
    RoundAt(2147483456.0, 7, 16777214);
    RoundAt(4294967040.0, 8, 16777215);
    LowerEnd();
  }

  lemma PastTheTie(q: real, n: int)
    requires q > n as real + 0.5
    ensures NearestEven(q) >= n + 1
  {
  }

  lemma RoundsUp(v: real)
    requires v > 2147483456.0
    ensures Round(BINARY32, v) >= 2147483520.0
  {
    if v < TWO_31 {
      PastTheTie(v / 128.0, 16777214);
      RoundAt(v, 7, NearestEven(v / 128.0));
    } else {
      RoundMonotone(BINARY32, TWO_31, v);
      RoundAt(TWO_31, 8, 8388608);
    }
  }

  lemma OverflowAbove(v: real)
    requires v > 2147483456.0
    ensures Shifted(v) >= 4294967296.0
  {
    RoundsUp(v);
    RoundMonotone(BINARY32, 4294967168.0, Round(BINARY32, v) + TWO_31);
    RoundAt(4294967168.0, 8, 16777216);
  }

  lemma BeforeTheTie(q: real, n: int)
    requires q < n as real - 0.5
    ensures NearestEven(q) <= n - 1
  {
  }

  lemma RoundsDown(v: real)
    requires v < -2147483776.0
    ensures Round(BINARY32, v) <= -2147483904.0
  {
    if v > -4294967296.0 {
      BeforeTheTie(v / 256.0, -8388608);
      RoundAt(v, 8, NearestEven(v / 256.0));
    } else {
      RoundMonotone(BINARY32, v, -4294967040.0);
      RoundAt(-4294967040.0, 8, -16777215);
    }
  }

  lemma NegativeBelow(v: real)
    requires v < -2147483776.0
    ensures Shifted(v) <= -256.0
  {
    RoundsDown(v);
    RoundMonotone(BINARY32, Round(BINARY32, v) + TWO_31, -256.0);
    ConcretePowers();
    IntegerExact(BINARY32, -256);
  }

  /** The product of the reading and the narrowed constant stays where the sum fits a word. */
  predicate InRange(ch: Channel, x: real) {
    -2147483776.0 <= ch.NarrowedTimes(x) <= 2147483456.0
  }

  /** Exactly which readings the encoder can convert. */
  lemma EncodeFitsExactly(ch: Channel, x: real)
    ensures FitsWord(WireValue(ch, x)) <==> InRange(ch, x)
  {
    WireValueIsShifted(ch, x);
    var v := ch.NarrowedTimes(x);
    RangeEnds();
    if v > 2147483456.0 {
      OverflowAbove(v);
    } else if v < -2147483776.0 {
      NegativeBelow(v);
    } else {
      ShiftedMonotone(-2147483776.0, v);
      ShiftedMonotone(v, 2147483456.0);
    }
  }

  // ---------- the documented range ----------

  /** The largest binary32 value below 10. */
  const LARGEST_BELOW_10 := 10.0 - 1.0 / 1048576.0

  lemma GridOf(x: real, e: int) returns (n: int)
    requires Representable(BINARY32, x) && Exponent(BINARY32, x) == e
    ensures x == Scale(n as real, e)
  {
    RoundExact(BINARY32, x);
    n := NearestEven(Scale(x, -e));
  }

  lemma SpacingBelow16(x: real) returns (n: int)
    requires Representable(BINARY32, x) && 8.0 <= x < 16.0
    ensures n as real == x * 1048576.0
  {
    ConcretePowers();
    ExponentUnique(BINARY32, x, -20);
    n := GridOf(x, -20);
    ScaledDown(n as real);
  }

  /** The header promises -10 < x < 10.  Among binary32 values at most one, the largest, breaks it. */
  lemma LinearRange(x: real)
    requires Representable(BINARY32, x) && -10.0 < x < 10.0
    ensures x <= LARGEST_BELOW_10
    ensures FitsWord(WireValue(Linear, x)) <==> x != LARGEST_BELOW_10
  {
    EncodeFitsExactly(Linear, x);
    if x >= 8.0 {
      var n := SpacingBelow16(x);
      assert n <= 10485759;
      assert x == LARGEST_BELOW_10 <==> n == 10485759;
    }
  }

  /** And that one is a binary32 value in the documented range. */
  lemma LinearRangeFails()
    ensures Representable(BINARY32, LARGEST_BELOW_10) && -10.0 < LARGEST_BELOW_10 < 10.0
    ensures !FitsWord(WireValue(Linear, LARGEST_BELOW_10))
  {
    ConcretePowers();
    ScaledDown(10485759.0);
    assert IsValue(BINARY32, LARGEST_BELOW_10, 10485759, -20);
    EncodeFitsExactly(Linear, LARGEST_BELOW_10);
  }

  lemma SpacingBelow512(x: real) returns (n: int)
    requires Representable(BINARY32, x) && 256.0 <= x < 512.0
    ensures n as real == x * 32768.0
  {
    ConcretePowers();
    ExponentUnique(BINARY32, x, -15);
    n := GridOf(x, -15);
    ScaledDown(n as real);
  }

  /** The header promises -400 < x < 400, and every such binary32 value can be encoded. */
  lemma AngularRange(x: real)
    requires Representable(BINARY32, x) && -400.0 < x < 400.0
    ensures FitsWord(WireValue(Angular, x))
  {
    EncodeFitsExactly(Angular, x);
    if x >= 256.0 {
      var n := SpacingBelow512(x);
      assert n <= 13107199;
    }
  }

  // ---------- order ----------

  /** A larger reading never encodes to a smaller word. */
  lemma EncodeMonotone(ch: Channel, x: real, y: real, outside: Word)
    requires x <= y
    requires InRange(ch, x) && InRange(ch, y)
    ensures Encode(ch, x, outside) <= Encode(ch, y, outside)
  {
    EncodeFitsExactly(ch, x);
    EncodeFitsExactly(ch, y);
    WireValueIsShifted(ch, x);
    WireValueIsShifted(ch, y);
    ShiftedMonotone(ch.NarrowedTimes(x), ch.NarrowedTimes(y));
  }

  lemma CentredMonotone(ch: Channel, m: Word, n: Word)
    requires m <= n
    ensures Centred(ch, m) <= Centred(ch, n)
  {
    var o := Round(BINARY64, ch.Times(ch.Factor()));
    RoundMonotone(BINARY64, m as real - o, n as real - o);
  }

  lemma QuotientMonotone(ch: Channel, a: real, b: real)
    requires a <= b
    ensures Quotient(ch, a) <= Quotient(ch, b)
  {
    if ch == Linear {
      RoundMonotone(BINARY64, a / 214748364.0, b / 214748364.0);
    } else {
      RoundMonotone(BINARY64, a / 5368709.0, b / 5368709.0);
    }
  }

  lemma DecodeMonotone(ch: Channel, m: Word, n: Word)
    requires m <= n
    ensures Decode(ch, m) <= Decode(ch, n)
  {
    CentredMonotone(ch, m, n);
    QuotientMonotone(ch, Centred(ch, m), Centred(ch, n));
    RoundMonotone(BINARY32, Quotient(ch, Centred(ch, m)), Quotient(ch, Centred(ch, n)));
  }

  /** So the driver sees readings in the order in which the device read them. */
  lemma OrderKept(ch: Channel, x: real, y: real, outside: Word)
    requires x <= y
    requires InRange(ch, x) && InRange(ch, y)
    ensures Decode(ch, Encode(ch, x, outside)) <= Decode(ch, Encode(ch, y, outside))
  {
    EncodeMonotone(ch, x, y, outside);
    DecodeMonotone(ch, Encode(ch, x, outside), Encode(ch, y, outside));
  }

  // ---------- accuracy ----------

  lemma Cancels()
    ensures Shifted(-TWO_31) == 0.0
  {
    RoundAt(-TWO_31, 8, -8388608);
    ConcretePowers();
    IntegerExact(BINARY32, 0);
  }

  lemma ShiftedZero(v: real)
    requires -2147483776.0 <= v <= -TWO_31
    ensures Shifted(v) == 0.0
  {
    RangeEnds();
    Cancels();
    ShiftedMonotone(-2147483776.0, v);
    ShiftedMonotone(v, -TWO_31);
  }

  /** Both encoder roundings together stay within 192 counts of the shifted product. */
  lemma ShiftedError(v: real)
    requires -2147483776.0 <= v <= 2147483456.0
    ensures Abs(Shifted(v) - (v + TWO_31)) <= 192.0
  {
    if v <= -TWO_31 {
      ShiftedZero(v);
    } else {
      ConcretePowers();
      SmallScales(1.0, 1.0);
      HalfUlp(BINARY32, v, 7);
      HalfUlp(BINARY32, Round(BINARY32, v) + TWO_31, 8);
    }
  }

  /** The error of decoding, and its final narrowing to binary32. */
  function Tolerance(ch: Channel): real { if ch == Linear then 0.000002 else 0.0001 }

  /** The exact quotient is all that the decoder rounds. */
  lemma DecodeIsNarrowedQuotient(ch: Channel, n: Word)
    ensures Decode(ch, n) == Round(BINARY32, Round(BINARY64, DecodeExact(ch, n)))
  {
    ConcretePowers();
    var offset := if ch == Linear then 2147483640 else 2147483600;
    IntegerExact(BINARY64, offset);
    IntegerExact(BINARY64, n - offset);
    assert (n - offset) as real == n as real - offset as real;
  }

  lemma NarrowingError(q: real, k: int)
    requires (k == 4 && Abs(q) < 10.5) || (k == 9 && Abs(q) < 400.5)
    ensures Abs(Round(BINARY32, Round(BINARY64, q)) - q) <= if k == 4 then 0.0000005 else 0.000016
  {
    ConcretePowers();
    SmallQuanta();
    TwoToMonotone(k, k + 13);
    TwoToMonotone(k - 40, -30);
    HalfUlp(BINARY64, q, k - 40);
    HalfUlp(BINARY32, Round(BINARY64, q), k - 24);
  }

  /** Decoding is off the exact quotient by no more than the final narrowing. */
  lemma DecodeError(ch: Channel, n: Word)
    ensures Abs(Decode(ch, n) - DecodeExact(ch, n)) <= if ch == Linear then 0.0000005 else 0.000016
  {
    DecodeIsNarrowedQuotient(ch, n);
    NarrowingError(DecodeExact(ch, n), if ch == Linear then 4 else 9);
  }

  /** n is within 193 counts of the shifted product of a reading in range. */
  ghost predicate Near(ch: Channel, x: real, n: Word) {
    && InRange(ch, x)
    && Abs(n as real - (ch.NarrowedTimes(x) + TWO_31)) <= 193.0
  }

  /** Two roundings and one truncation cost the encoder at most 193 counts. */
  lemma EncodeError(ch: Channel, x: real, outside: Word)
    requires InRange(ch, x)
    ensures Near(ch, x, Encode(ch, x, outside))
  {
    EncodeFitsExactly(ch, x);
    WireValueIsShifted(ch, x);
    ShiftedError(ch.NarrowedTimes(x));
  }

  /** The 193 counts and the mismatch of the constants, in units of the reading. */
  lemma CountsToUnits(ch: Channel, x: real, n: Word)
    requires Near(ch, x, n)
    ensures Abs(DecodeExact(ch, n) - x) <= if ch == Linear then 0.0000012 else 0.00005
  {
    if ch == Linear {
      assert DecodeExact(ch, n) * 214748364.0 == n as real - 2147483640.0;
    } else {
      assert DecodeExact(ch, n) * 5368709.0 == n as real - 2147483600.0;
    }
  }

  lemma AddErrors(ch: Channel, x: real, q: real, y: real)
    requires Abs(q - x) <= if ch == Linear then 0.0000012 else 0.00005
    requires Abs(y - q) <= if ch == Linear then 0.0000005 else 0.000016
    ensures Abs(y - x) <= Tolerance(ch)
  {
  }

  lemma DecodeNear(ch: Channel, x: real, n: Word)
    requires Near(ch, x, n)
    ensures Abs(Decode(ch, n) - x) <= Tolerance(ch)
  {
    CountsToUnits(ch, x, n);
    DecodeError(ch, n);
    AddErrors(ch, x, DecodeExact(ch, n), Decode(ch, n));
  }

  /** Every reading that the encoder can convert comes back within the tolerance. */
  lemma ReadingRoundTrip(ch: Channel, x: real, outside: Word)
    requires InRange(ch, x)
    ensures Abs(Decode(ch, Encode(ch, x, outside)) - x) <= Tolerance(ch)
  {
    EncodeError(ch, x, outside);
    DecodeNear(ch, x, Encode(ch, x, outside));
  }

  /** No reading is within the tolerance of both ends of the code. */
  lemma WordsApart(ch: Channel, x: real)
    ensures Abs(Decode(ch, 0) - x) > Tolerance(ch) || Abs(Decode(ch, 0xFFFF_FFFF) - x) > Tolerance(ch)
  {
    hide Decode;
    DecodeError(ch, 0);
    DecodeError(ch, 0xFFFF_FFFF);
  }

  /**
   And only those do, whatever the others leave on the wire: for a reading out of range the smallest
   or the largest word is too far away.
   */
  lemma RoundTripExactly(ch: Channel, x: real)
    ensures (forall outside: Word :: Abs(Decode(ch, Encode(ch, x, outside)) - x) <= Tolerance(ch)) <==> InRange(ch, x)
  {
    hide Decode, WireValue, FitsWord, InRange, Tolerance;
    if InRange(ch, x) {
      forall outside: Word ensures Abs(Decode(ch, Encode(ch, x, outside)) - x) <= Tolerance(ch) {
        ReadingRoundTrip(ch, x, outside);
      }
    } else {
      EncodeFitsExactly(ch, x);
      WordsApart(ch, x);
      assert Encode(ch, x, 0) == 0 && Encode(ch, x, 0xFFFF_FFFF) == 0xFFFF_FFFF;
    }
  }

  // ---------- the exact specification, and how far the encoder strays from it ----------

  /** Over the reals the documented open range fits a word. */
  lemma ExactFits(ch: Channel, x: real)
    requires -ch.Factor() < x < ch.Factor()
    ensures 0 <= EncodeExact(ch, x) < 0x1_0000_0000
  {
    if ch == Linear {} else {}
  }

  /** Encoding loses less than one step, always downwards. */
  lemma ExactDecodeEncode(ch: Channel, x: real)
    requires -ch.Factor() < x < ch.Factor()
    ensures var y := DecodeExact(ch, EncodeExact(ch, x)); x - ch.Per(1.0) < y <= x
  {
    if ch == Linear {} else {}
  }

  /** Decoding loses nothing. */
  lemma ExactEncodeDecode(ch: Channel, n: Word)
    ensures EncodeExact(ch, DecodeExact(ch, n)) == n
  {
    if ch == Linear {
      assert DecodeExact(ch, n) * 214748364.0 + 2147483640.0 == n as real;
    } else {
      assert DecodeExact(ch, n) * 5368709.0 + 2147483600.0 == n as real;
    }
  }

  /** In the documented range the binary32 encoder stays within 242 counts of the exact one. */
  lemma EncodeNearExact(ch: Channel, x: real, outside: Word)
    requires -ch.Factor() < x < ch.Factor() && InRange(ch, x)
    ensures -242 <= Encode(ch, x, outside) - EncodeExact(ch, x) <= 242
  {
    EncodeFitsExactly(ch, x);
    WireValueIsShifted(ch, x);
    ShiftedError(ch.NarrowedTimes(x));
    if ch == Linear {
      assert Abs(WireValue(ch, x) - (x * 214748364.0 + 2147483640.0)) <= 240.0;
    } else {
      assert Abs(WireValue(ch, x) - (x * 5368709.0 + 2147483600.0)) <= 240.0;
    }
  }
}

/** Bytes, 32-bit words, and the shifts and ors that move between them. */
module Bytes {
  import opened Powers

  type Byte = b: int | 0 <= b < 0x100

  type Word = w: int | 0 <= w < 0x1_0000_0000

  /** Exactly eight bytes: the data field of a frame. */
  type Payload = p: seq<Byte> | |p| == 8 witness [0, 0, 0, 0, 0, 0, 0, 0]

  function Shl(a: nat, k: nat): nat { a * Pow2(k) }

  /** Bitwise or. */
  function Or(a: nat, b: nat): nat {
    if a == 0 && b == 0 then 0
    else 2 * Or(a / 2, b / 2) + (if a % 2 == 1 || b % 2 == 1 then 1 else 0)
  }

  lemma {:induction false} OrZero(a: nat)
    ensures Or(a, 0) == a
  {
    if a > 0 { OrZero(a / 2); }
  }

  /** Where the bits do not overlap, or is addition. */
  lemma {:induction false} OrDisjoint(a: nat, b: nat, k: nat)
    requires b < Pow2(k)
    ensures Or(Shl(a, k), b) == Shl(a, k) + b
  {
    if k == 0 {
      OrZero(a);
    } else {
      var h := Shl(a, k - 1);
      assert Shl(a, k) == 2 * h by {
        assert a * (2 * Pow2(k - 1)) == 2 * (a * Pow2(k - 1));
      }
      OrDisjoint(a, b / 2, k - 1);
    }
  }

  /** The word whose bytes, most significant first, are the arguments. */
  function WordOf(b0: Byte, b1: Byte, b2: Byte, b3: Byte): Word {
    b0 * 0x100_0000 + b1 * 0x1_0000 + b2 * 0x100 + b3
  }

  /** The bytes of a word, most significant first. */
  function BytesOf(w: Word): (s: seq<Byte>)
    ensures |s| == 4
  {
    [w / 0x100_0000, w / 0x1_0000 % 0x100, w / 0x100 % 0x100, w % 0x100]
  }

  /** The 32-bit big-endian word at index i. */
  function WordAt(s: seq<Byte>, i: nat): Word
    requires i + 4 <= |s|
  {
    WordOf(s[i], s[i + 1], s[i + 2], s[i + 3])
  }

  lemma PackThenUnpack(w: Word)
    ensures WordAt(BytesOf(w), 0) == w
  {
    var h, m := w / 0x100, w / 0x1_0000;
    assert w == 0x100 * h + w % 0x100;
    assert h == 0x100 * m + h % 0x100;
    assert m == 0x100 * (w / 0x100_0000) + m % 0x100;
  }

  lemma Digits(a: Byte, b: Byte, c: Byte, d: Byte)
    ensures BytesOf(WordOf(a, b, c, d)) == [a, b, c, d]
  {
    var w: int := WordOf(a, b, c, d);
    var high: int := a * 0x1_0000 + b * 0x100 + c;
    var upper: int := a * 0x100 + b;
    assert w == high * 0x100 + d && high == upper * 0x100 + c;
    assert w / 0x100 == high;
    assert w / 0x1_0000 == high / 0x100 == upper;
    assert w / 0x100_0000 == upper / 0x100 == a;
  }

  lemma UnpackThenPack(s: seq<Byte>)
    requires |s| == 4
    ensures BytesOf(WordAt(s, 0)) == s
  {
    Digits(s[0], s[1], s[2], s[3]);
  }

  lemma Constants()
    ensures Pow2(8) == 0x100 && Pow2(16) == 0x1_0000 && Pow2(24) == 0x100_0000
  {
  }

  /** Shifting four bytes into place and or-ing them together is big-endian assembly. */
  method AssembleWord(d0: Byte, d1: Byte, d2: Byte, d3: Byte) returns (w: Word)
    ensures w == WordOf(d0, d1, d2, d3)
  {
    Constants();
    OrDisjoint(d0, Shl(d1, 16), 24);
    OrDisjoint(d0 * 0x100 + d1, Shl(d2, 8), 16);
    OrDisjoint(d0 * 0x1_0000 + d1 * 0x100 + d2, d3, 8);
    var acc: nat := Shl(d0, 24);
    acc := Or(acc, Shl(d1, 16));
    acc := Or(acc, Shl(d2, 8));
    acc := Or(acc, d3);
    w := acc;
  }
}

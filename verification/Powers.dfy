/** Powers of two, and scaling of reals by them. */
module Powers {
  function Pow2(n: nat): (r: nat)
    ensures r > 0
  {
    if n == 0 then 1 else 2 * Pow2(n - 1)
  }

  /** x times two to the power e. */
  function Scale(x: real, e: int): real
    decreases if e < 0 then -e else e
  {
    if e == 0 then x else if e > 0 then 2.0 * Scale(x, e - 1) else Scale(x, e + 1) / 2.0
  }

  function TwoTo(e: int): real { Scale(1.0, e) }

  lemma {:induction false} ScaleStep(x: real, e: int)
    ensures Scale(x, e + 1) == 2.0 * Scale(x, e)
  {
  }

  lemma {:induction false} ScaleMonotone(x: real, y: real, e: int)
    ensures x < y <==> Scale(x, e) < Scale(y, e)
    ensures x == y <==> Scale(x, e) == Scale(y, e)
    decreases if e < 0 then -e else e
  {
    if e > 0 { ScaleMonotone(x, y, e - 1); } else if e < 0 { ScaleMonotone(x, y, e + 1); }
  }

  lemma {:induction false} ScaleAdds(x: real, y: real, e: int)
    ensures Scale(x + y, e) == Scale(x, e) + Scale(y, e)
    ensures Scale(x - y, e) == Scale(x, e) - Scale(y, e)
    ensures Scale(-x, e) == -Scale(x, e)
    ensures Scale(x / 2.0, e) == Scale(x, e) / 2.0
    decreases if e < 0 then -e else e
  {
    if e > 0 { ScaleAdds(x, y, e - 1); } else if e < 0 { ScaleAdds(x, y, e + 1); }
  }

  lemma {:induction false} ScaleComposes(x: real, a: int, b: int)
    ensures Scale(Scale(x, a), b) == Scale(x, a + b)
    decreases if b < 0 then -b else b
  {
    if b > 0 {
      ScaleComposes(x, a, b - 1);
      ScaleStep(x, a + b - 1);
    } else if b < 0 {
      ScaleComposes(x, a, b + 1);
      ScaleStep(x, a + b);
    }
  }

  /** Scaling an integer up gives an integer. */
  lemma {:induction false} ScaleInteger(n: int, k: nat) returns (r: int)
    ensures Scale(n as real, k) == r as real
  {
    if k == 0 {
      r := n;
    } else {
      r := ScaleInteger(n, k - 1);
      r := 2 * r;
    }
  }

  lemma {:induction false} ScaleZero(e: int)
    ensures Scale(0.0, e) == 0.0
    decreases if e < 0 then -e else e
  {
    if e > 0 { ScaleZero(e - 1); } else if e < 0 { ScaleZero(e + 1); }
  }

  lemma {:induction false} TwoToMonotone(a: int, b: int)
    requires a <= b
    ensures 0.0 < TwoTo(a) <= TwoTo(b)
    decreases b - a
  {
    ScaleMonotone(0.0, 1.0, a);
    ScaleZero(a);
    if a < b {
      ScaleStep(1.0, a);
      TwoToMonotone(a + 1, b);
    }
  }

  // ---------- concrete powers ----------

  lemma FourSteps(x: real, k: int)
    ensures Scale(x, k + 4) == 16.0 * Scale(x, k)
    ensures Scale(x, k + 3) == 8.0 * Scale(x, k)
    ensures Scale(x, k + 2) == 4.0 * Scale(x, k)
  {
    ScaleStep(x, k);
    ScaleStep(x, k + 1);
    ScaleStep(x, k + 2);
    ScaleStep(x, k + 3);
  }

  lemma TwentySteps(x: real, k: int)
    ensures Scale(x, k + 20) == 1048576.0 * Scale(x, k)
  {
    FourSteps(x, k);
    FourSteps(x, k + 4);
    FourSteps(x, k + 8);
    FourSteps(x, k + 12);
    FourSteps(x, k + 16);
  }

  lemma ConcretePowers()
    ensures TwoTo(3) == 8.0 && TwoTo(4) == 16.0 && TwoTo(8) == 256.0 && TwoTo(9) == 512.0
    ensures TwoTo(24) == 16777216.0 && TwoTo(27) == 134217728.0 && TwoTo(28) == 268435456.0
    ensures TwoTo(30) == 1073741824.0 && TwoTo(31) == 2147483648.0 && TwoTo(32) == 4294967296.0
    ensures TwoTo(53) == 9007199254740992.0
  {
    assert TwoTo(3) == 8.0;
    assert TwoTo(4) == 16.0;
    FourSteps(1.0, 4);
    ScaleStep(1.0, 8);
    TwentySteps(1.0, 4);
    FourSteps(1.0, 24);
    FourSteps(1.0, 28);
    TwentySteps(1.0, 32);
    ScaleStep(1.0, 52);
  }

  lemma ScaledDown(y: real)
    ensures Scale(y, -20) == y / 1048576.0 && Scale(y, -15) == y / 32768.0
  {
    TwentySteps(y, -20);
    TwentySteps(y, -15);
    assert Scale(y, 5) == 32.0 * y;
  }

  lemma SmallScales(x: real, y: real)
    ensures Scale(x, -4) == x / 16.0 && Scale(x, -7) == x / 128.0 && Scale(x, -8) == x / 256.0
    ensures Scale(y, 4) == 16.0 * y && Scale(y, 7) == 128.0 * y && Scale(y, 8) == 256.0 * y
  {
    assert Scale(x, -4) == x / 16.0;
    assert Scale(y, 4) == 16.0 * y;
    assert Scale(x, -7) == Scale(x, -4) / 8.0;
    assert Scale(y, 7) == 8.0 * Scale(y, 4);
  }

  lemma SmallQuanta()
    ensures TwoTo(-20) == 1.0 / 1048576.0 && TwoTo(-15) == 1.0 / 32768.0
    ensures TwoTo(-30) <= 0.00000001
  {
    ScaledDown(1.0);
    FourSteps(1.0, -24);
    FourSteps(1.0, -28);
    FourSteps(1.0, -30);
  }
}

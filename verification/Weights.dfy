/**
 Process weights of kernel/proc.c.  The C `double` is an exact `real` here.
 */
module Weights {

  /** 1.25 to the power n. */
  function Pow125(n: nat): (r: real)
    ensures r >= 1.0
  {
    if n == 0 then 1.0 else Pow125(n - 1) * 1.25
  }

  /** Nice values are cut off at 30; values of 0 and below count as 0. */
  function Clamp(nice: int): nat {
    if nice > 30 then 30 else if nice < 0 then 0 else nice
  }

  /** The product in calculateWeight starts at 1.25, so the exponent is one more than the nice value. */
  function WeightOf(nice: int): int {
    (1024.0 / Pow125(Clamp(nice) + 1)).Floor
  }

  method CalculateWeight(nice: int) returns (w: int)
    ensures w == WeightOf(nice)
  {
    var denominator := 1.25;
    var n := nice;
    if n > 30 {
      n := 30;
    }
    var i := 0;
    while i < n && n > 0
      invariant 0 <= i <= Clamp(nice)
      invariant denominator == Pow125(i + 1)
    {
      denominator := denominator * 1.25;
      i := i + 1;
    }
    return (1024.0 / denominator).Floor;
  }

  lemma {:induction false} Pow125Adds(m: nat, n: nat)
    ensures Pow125(m + n) == Pow125(m) * Pow125(n)
  {
    if n > 0 { Pow125Adds(m, n - 1); }
  }

  lemma {:induction false} Pow125Grows(m: nat, n: nat)
    requires m <= n
    ensures Pow125(m) <= Pow125(n)
  {
    if m < n { Pow125Grows(m, n - 1); }
  }

  lemma Pow125At31()
    ensures Pow125(31) <= 1024.0
  {
    assert Pow125(4) == 2.44140625;
    Pow125Adds(4, 4);
    Pow125Adds(8, 8);
    Pow125Adds(16, 8);
    Pow125Adds(24, 4);
    Pow125Adds(28, 3);
    assert Pow125(3) == 1.953125;
    assert Pow125(8) <= 5.9605;
    assert Pow125(16) <= 5.9605 * 5.9605;
    assert Pow125(24) <= 5.9605 * 5.9605 * 5.9605;
    assert Pow125(28) <= 5.9605 * 5.9605 * 5.9605 * 2.44140625;
  }

  /** Every weight lies between 1 and 819. */
  lemma WeightBounds(nice: int)
    ensures 1 <= WeightOf(nice) <= 819
  {
    var d := Pow125(Clamp(nice) + 1);
    Pow125Grows(1, Clamp(nice) + 1);
    Pow125Grows(Clamp(nice) + 1, 31);
    Pow125At31();
    assert Pow125(1) == 1.25;
    Quotient(d);
  }

  lemma Quotient(d: real)
    requires 1.25 <= d <= 1024.0
    ensures 1.0 <= 1024.0 / d <= 819.2
  {
    var q := 1024.0 / d;
    assert q * d == 1024.0;
  }

  lemma WeightAntitone(m: int, n: int)
    requires m <= n
    ensures WeightOf(n) <= WeightOf(m)
  {
    var d, e := Pow125(Clamp(m) + 1), Pow125(Clamp(n) + 1);
    Pow125Grows(Clamp(m) + 1, Clamp(n) + 1);
    QuotientAntitone(d, e);
  }

  lemma QuotientAntitone(d: real, e: real)
    requires 1.0 <= d <= e
    ensures 1024.0 / e <= 1024.0 / d
  {
    var p, q := 1024.0 / d, 1024.0 / e;
    assert p * d == 1024.0 && q * e == 1024.0;
    assert q > 0.0;
    assert q * d <= q * e;
    assert (p - q) * d >= 0.0;
  }

  /** The weight is not 1024/1.25^nice, as the comment above calculateWeight has it: a nice value of 0 weighs 819. */
  lemma WeightOfDefault()
    ensures WeightOf(0) == 819
  {
    assert Pow125(1) == 1.25;
    assert 1024.0 / 1.25 == 819.2;
  }

  /** The nicest process weighs 1. */
  lemma WeightOfNicest()
    ensures WeightOf(30) == 1
  {
    Pow125At31();
    Pow125AtLeast31();
    var d := Pow125(31);
    var q := 1024.0 / d;
    assert q * d == 1024.0;
    assert 1.0 <= q < 2.0;
  }

  lemma Pow125AtLeast31()
    ensures Pow125(31) > 512.0
  {
    assert Pow125(4) == 2.44140625;
    Pow125Adds(4, 4);
    assert Pow125(8) >= 5.96;
    Pow125Adds(8, 8);
    assert Pow125(16) >= 35.5;
    Pow125Adds(16, 8);
    assert Pow125(24) >= 211.0;
    Pow125Adds(24, 4);
    assert Pow125(28) >= 515.0;
    Pow125Grows(28, 31);
  }
}

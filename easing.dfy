/** The wait curve of the spaced-repetition schedule: a Fibonacci number scaled
    by 2/9, differenced level by level, with a floor of one day. */
module Easing {
  import opened Wrappers
  import opened Text
  import opened JsonValue

  /** Number of levels a new learning record climbs before it graduates. */
  const MAX_LEVEL: nat := 20

  /** Largest value of the 16-bit unsigned integers the curve is computed in. */
  const U16_MAX: nat := 65535

  function Fibo(n: nat): nat {
    if n == 0 then 0 else if n == 1 then 1 else Fibo(n - 1) + Fibo(n - 2)
  }

  /** Integer scaling by 2/9, rounding down. */
  function Shrink(n: nat): nat {
    n * 2 / 9
  }

  /** Wait, in days, after reaching level `n`: the growth of the scaled
      Fibonacci curve between `n` and `n + 1`, or one day when it does not grow. */
  function DefaultEasing(n: nat): (d: nat)
    ensures d >= 1
  {
    ShrinkFiboMonotone(n, n + 1);
    var diff := Shrink(Fibo(n + 1)) - Shrink(Fibo(n));
    if diff == 0 then 1 else diff
  }

  /** The wait-days of each of the first `m` levels. */
  function GenerateLevelUpPath(m: nat): (p: seq<nat>)
    ensures |p| == m
    ensures forall n :: 0 <= n < m ==> p[n] == DefaultEasing(n)
  {
    seq(m, n requires 0 <= n < m => DefaultEasing(n))
  }

  /** The path as the JSON text stored in `level_up_path`. */
  function GenerateLevelUpPathJson(m: nat): string {
    NatListToJson(GenerateLevelUpPath(m))
  }

  // ---------------------------------------------------------------------
  // Monotonicity: the subtraction in DefaultEasing never goes negative
  // ---------------------------------------------------------------------

  lemma {:induction false} FiboStep(n: nat)
    ensures Fibo(n) <= Fibo(n + 1)
  {
    if n >= 1 {
      assert Fibo(n + 1) == Fibo(n) + Fibo(n - 1);
    }
  }

  lemma {:induction false} FiboMonotone(i: nat, j: nat)
    requires i <= j
    ensures Fibo(i) <= Fibo(j)
    decreases j - i
  {
    if i < j {
      FiboStep(i);
      FiboMonotone(i + 1, j);
    }
  }

  lemma ShrinkMonotone(x: nat, y: nat)
    requires x <= y
    ensures Shrink(x) <= Shrink(y)
  {
    assert x * 2 <= y * 2;
  }

  lemma ShrinkFiboMonotone(i: nat, j: nat)
    requires i <= j
    ensures Shrink(Fibo(i)) <= Shrink(Fibo(j))
  {
    FiboMonotone(i, j);
    ShrinkMonotone(Fibo(i), Fibo(j));
  }

  /** Each entry is the growth of the scaled curve whenever that growth is
      non-zero, and one day otherwise. */
  lemma EasingIsGrowth(n: nat)
    ensures Shrink(Fibo(n)) <= Shrink(Fibo(n + 1))
    ensures Shrink(Fibo(n + 1)) > Shrink(Fibo(n)) ==>
              DefaultEasing(n) == Shrink(Fibo(n + 1)) - Shrink(Fibo(n))
    ensures Shrink(Fibo(n + 1)) == Shrink(Fibo(n)) ==> DefaultEasing(n) == 1
  {
    ShrinkFiboMonotone(n, n + 1);
  }

  function Sum(xs: seq<nat>): nat {
    if xs == [] then 0 else Sum(xs[..|xs| - 1]) + xs[|xs| - 1]
  }

  /** Waiting through the first `k` levels takes at least `Shrink(Fibo(k))`
      days in total: the floor of one day only ever adds time. */
  lemma {:induction false} PathSumBound(m: nat, k: nat)
    requires k <= m
    ensures Sum(GenerateLevelUpPath(m)[..k]) >= Shrink(Fibo(k))
  {
    var p := GenerateLevelUpPath(m);
    if k > 0 {
      PathSumBound(m, k - 1);
      assert p[..k][..k - 1] == p[..k - 1];
      var before := Sum(p[..k - 1]);
      var wait := p[k - 1];
      assert Sum(p[..k]) == before + wait;
      EasingIsGrowth(k - 1);
      var lo := Shrink(Fibo(k - 1));
      var hi := Shrink(Fibo(k));
      assert before >= lo && wait == DefaultEasing(k - 1);
      assert wait >= hi - lo;
    }
  }

  // ---------------------------------------------------------------------
  // 16-bit arithmetic
  // ---------------------------------------------------------------------

  /** Computing entry `n` in 16-bit arithmetic does not overflow: the largest
      intermediate value is `Fibo(n + 1) * 2`, and every Fibonacci sum on the
      way is at most `Fibo(n + 1)`. */
  predicate EasingFitsU16(n: nat) {
    Fibo(n + 1) * 2 <= U16_MAX
  }

  predicate PathFitsU16(m: nat) {
    forall n :: 0 <= n < m ==> EasingFitsU16(n)
  }

  lemma FiboValues()
    ensures Fibo(2) == 1
    ensures Fibo(3) == 2
    ensures Fibo(4) == 3
    ensures Fibo(5) == 5
    ensures Fibo(6) == 8
    ensures Fibo(7) == 13
    ensures Fibo(8) == 21
    ensures Fibo(9) == 34
    ensures Fibo(10) == 55
    ensures Fibo(11) == 89
    ensures Fibo(12) == 144
    ensures Fibo(13) == 233
    ensures Fibo(14) == 377
    ensures Fibo(15) == 610
    ensures Fibo(16) == 987
    ensures Fibo(17) == 1597
    ensures Fibo(18) == 2584
    ensures Fibo(19) == 4181
    ensures Fibo(20) == 6765
    ensures Fibo(21) == 10946
    ensures Fibo(22) == 17711
    ensures Fibo(23) == 28657
    ensures Fibo(24) == 46368
  {
    assert Fibo(2) == 1;
    assert Fibo(3) == 2;
    assert Fibo(4) == 3;
    assert Fibo(5) == 5;
    assert Fibo(6) == 8;
    assert Fibo(7) == 13;
    assert Fibo(8) == 21;
    assert Fibo(9) == 34;
    assert Fibo(10) == 55;
    assert Fibo(11) == 89;
    assert Fibo(12) == 144;
    assert Fibo(13) == 233;
    assert Fibo(14) == 377;
    assert Fibo(15) == 610;
    assert Fibo(16) == 987;
    assert Fibo(17) == 1597;
    assert Fibo(18) == 2584;
    assert Fibo(19) == 4181;
    assert Fibo(20) == 6765;
    assert Fibo(21) == 10946;
    assert Fibo(22) == 17711;
    assert Fibo(23) == 28657;
    assert Fibo(24) == 46368;
  }

  /** The 16-bit computation of a path of `m` levels is exact precisely when
      `m <= 23`; in particular for MAX_LEVEL. */
  lemma PathFitsU16Iff(m: nat)
    ensures PathFitsU16(m) <==> m <= 23
  {
    FiboValues();
    assert Fibo(23) == 28657;
    if m <= 23 {
      forall n | 0 <= n < m ensures EasingFitsU16(n) {
        FiboMonotone(n + 1, 23);
      }
    } else {
      assert Fibo(24) == 46368;
      assert !EasingFitsU16(23);
    }
  }

  // ---------------------------------------------------------------------
  // The default 20-level path
  // ---------------------------------------------------------------------

  const DEFAULT_PATH: seq<nat> :=
    [1, 1, 1, 1, 1, 1, 1, 2, 3, 5, 7, 13, 19, 32, 52, 84, 135, 220, 355, 574]

  /** One entry of the path, from the two Fibonacci numbers it is computed from. */
  lemma EasingStep(n: nat, a: nat, b: nat, d: nat)
    requires Fibo(n) == a && Fibo(n + 1) == b
    requires d == if b * 2 / 9 - a * 2 / 9 <= 0 then 1 else b * 2 / 9 - a * 2 / 9
    ensures DefaultEasing(n) == d
  {
  }

  lemma DefaultEasingTable(n: nat)
    requires n < MAX_LEVEL
    ensures DefaultEasing(n) == DEFAULT_PATH[n]
  {
    FiboValues();
    if n == 0 {
      EasingStep(n, 0, 1, 1);
    } else if n == 1 {
      EasingStep(n, 1, 1, 1);
    } else if n == 2 {
      EasingStep(n, 1, 2, 1);
    } else if n == 3 {
      EasingStep(n, 2, 3, 1);
    } else if n == 4 {
      EasingStep(n, 3, 5, 1);
    } else if n == 5 {
      EasingStep(n, 5, 8, 1);
    } else if n == 6 {
      EasingStep(n, 8, 13, 1);
    } else if n == 7 {
      EasingStep(n, 13, 21, 2);
    } else if n == 8 {
      EasingStep(n, 21, 34, 3);
    } else if n == 9 {
      EasingStep(n, 34, 55, 5);
    } else if n == 10 {
      EasingStep(n, 55, 89, 7);
    } else if n == 11 {
      EasingStep(n, 89, 144, 13);
    } else if n == 12 {
      EasingStep(n, 144, 233, 19);
    } else if n == 13 {
      EasingStep(n, 233, 377, 32);
    } else if n == 14 {
      EasingStep(n, 377, 610, 52);
    } else if n == 15 {
      EasingStep(n, 610, 987, 84);
    } else if n == 16 {
      EasingStep(n, 987, 1597, 135);
    } else if n == 17 {
      EasingStep(n, 1597, 2584, 220);
    } else if n == 18 {
      EasingStep(n, 2584, 4181, 355);
    } else {
      EasingStep(n, 4181, 6765, 574);
    }
  }

  /** The default path is the one the program documents. */
  lemma DefaultPathValues()
    ensures GenerateLevelUpPath(MAX_LEVEL) == DEFAULT_PATH
  {
    forall n | 0 <= n < MAX_LEVEL
      ensures GenerateLevelUpPath(MAX_LEVEL)[n] == DEFAULT_PATH[n]
    {
      DefaultEasingTable(n);
    }
  }

  /** The stored JSON text of the default path: bracketed, without spaces,
      its comma-separated pieces the decimals of the documented wait-days. */
  lemma DefaultPathJson()
    ensures var s := GenerateLevelUpPathJson(MAX_LEVEL);
      s[0] == '[' && s[|s| - 1] == ']' && ' ' !in s
      && Split(s[1..|s| - 1], ',') == Decimals(DEFAULT_PATH)
    ensures ParseNatListJson(GenerateLevelUpPathJson(MAX_LEVEL)) == Some(DEFAULT_PATH)
  {
    DefaultPathValues();
    NatListJsonShape(DEFAULT_PATH);
    NatListJsonRoundTrip(DEFAULT_PATH);
  }

  /** The stored text reads back as the path it was generated from. */
  lemma PathJsonRoundTrip(m: nat)
    ensures ParseNatListJson(GenerateLevelUpPathJson(m)) == Some(GenerateLevelUpPath(m))
  {
    NatListJsonRoundTrip(GenerateLevelUpPath(m));
  }

  /** The default path never shortens a wait from one level to the next. */
  lemma DefaultPathNonDecreasing()
    ensures forall i :: 0 <= i < MAX_LEVEL - 1 ==>
              GenerateLevelUpPath(MAX_LEVEL)[i] <= GenerateLevelUpPath(MAX_LEVEL)[i + 1]
  {
    DefaultPathValues();
  }
}

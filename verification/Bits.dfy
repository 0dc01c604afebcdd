/**
 Power-of-two alignment arithmetic on `size_t`.

 `And` is bitwise conjunction of unsigned integers, written on their binary digits, so that the
 bit tricks of the planner can be stated as they are written and then given their meaning.
 */
module Bits {
  import opened Prelude

  function And(a: nat, b: nat): nat {
    if a == 0 || b == 0 then 0 else 2 * And(a / 2, b / 2) + (a % 2) * (b % 2)
  }

  function Pow2(k: nat): nat {
    if k == 0 then 1 else 2 * Pow2(k - 1)
  }

  ghost predicate IsPowerOfTwo(a: nat) {
    exists k: nat :: Pow2(k) == a
  }

  /** The test for a usable alignment. */
  predicate AlignmentValid(alignment: nat) {
    alignment != 0 && And(alignment, alignment - 1) == 0
  }

  /** Rounding as the planner does it: mask arithmetic behind an overflow guard; `~mask` is `SIZE_MAX - mask`. */
  function AlignUpSize(value: Size, alignment: Size): Option<nat> {
    if !AlignmentValid(alignment) then None
    else
      var mask := alignment - 1;
      if value > SIZE_MAX - mask then None
      else Some(And(value + mask, SIZE_MAX - mask))
  }

  /** `r` is the least multiple of `a` that is at least `v`. */
  ghost predicate IsLeastMultiple(r: nat, v: nat, a: nat)
    requires a > 0
  {
    && v <= r
    && r % a == 0
    && forall m: nat :: v <= m && m % a == 0 ==> r <= m
  }

  /** Rounding up over unbounded integers. */
  function RoundUp(v: nat, a: nat): nat {
    if a == 0 then v else (v + a - 1) - (v + a - 1) % a
  }

  // ---- division facts ----

  lemma MulMod(q: nat, a: nat)
    requires a > 0
    ensures (q * a) % a == 0
  {
    ModUnique(q * a, a, q, 0);
  }

  lemma ModUnique(x: nat, a: nat, q: nat, r: nat)
    requires a > 0 && r < a && x == q * a + r
    ensures x / a == q && x % a == r
  {
    var q', r' := x / a, x % a;
    assert x == a * q' + r' && 0 <= r' < a;
    MulMonotone(q' + 1, q, a);
    MulMonotone(q + 1, q', a);
  }

  lemma MulMonotone(x: int, y: int, a: nat)
    ensures x <= y ==> a * x <= a * y
  {
  }

  lemma HalveMod(x: nat, m: nat)
    requires m > 0
    ensures x % (2 * m) == 2 * ((x / 2) % m) + x % 2
  {
    var h := x / 2;
    var q, r := h / m, h % m;
    assert h == m * q + r;
    assert x == q * (2 * m) + (2 * r + x % 2) by {
      assert x == 2 * h + x % 2;
      assert 2 * (m * q) == q * (2 * m);
    }
    ModUnique(x, 2 * m, q, 2 * r + x % 2);
  }

  // ---- the alignment test ----

  lemma {:induction false} AndSelf(a: nat)
    ensures And(a, a) == a
  {
    if a != 0 {
      AndSelf(a / 2);
    }
  }

  /** The bit test accepts exactly the powers of two. */
  lemma {:induction false} AlignmentValidIffPowerOfTwo(a: nat)
    ensures AlignmentValid(a) <==> IsPowerOfTwo(a)
  {
    if a == 0 {
      forall k: nat ensures Pow2(k) != 0 { Pow2Positive(k); }
    } else if a == 1 {
      assert Pow2(0) == 1;
    } else if a % 2 == 1 {
      AndSelf(a / 2);
      assert (a - 1) / 2 == a / 2;
      forall k: nat ensures Pow2(k) != a {
        if k > 0 {
          assert Pow2(k) % 2 == 0;
        }
      }
    } else {
      var b := a / 2;
      AlignmentValidIffPowerOfTwo(b);
      assert (a - 1) / 2 == b - 1 && (a - 1) % 2 == 1;
      assert And(a, a - 1) == 2 * And(b, b - 1);
      if IsPowerOfTwo(b) {
        var k: nat :| Pow2(k) == b;
        assert Pow2(k + 1) == a;
      }
      if IsPowerOfTwo(a) {
        var k: nat :| Pow2(k) == a;
        assert Pow2(k - 1) == b;
      }
    }
  }

  lemma {:induction false} Pow2Positive(k: nat)
    ensures Pow2(k) > 0
  {
    if k > 0 {
      Pow2Positive(k - 1);
    }
  }

  /** A power of two divides every power of two that is not smaller. */
  lemma {:induction false} Pow2Divides(j: nat, k: nat)
    requires j <= k
    ensures Pow2(j) > 0 && Pow2(k) % Pow2(j) == 0 && Pow2(j) <= Pow2(k)
    decreases k
  {
    Pow2Positive(j);
    if j == k {
      MulMod(1, Pow2(j));
    } else {
      Pow2Divides(j, k - 1);
      var d, q := Pow2(j), Pow2(k - 1) / Pow2(j);
      assert Pow2(k - 1) == d * q;
      MulMod(2 * q, d);
      assert Pow2(k) == (2 * q) * d;
    }
  }

  lemma {:induction false} Pow2Monotone(j: nat, k: nat)
    requires Pow2(j) <= Pow2(k)
    ensures j <= k
  {
    if k < j {
      Pow2Divides(k, j - 1);
    }
  }

  /** Of two accepted alignments the smaller divides the larger. */
  lemma AlignmentDivides(a: nat, b: nat)
    requires AlignmentValid(a) && AlignmentValid(b) && a <= b
    ensures b % a == 0
  {
    AlignmentValidIffPowerOfTwo(a);
    AlignmentValidIffPowerOfTwo(b);
    var j: nat :| Pow2(j) == a;
    var k: nat :| Pow2(k) == b;
    Pow2Monotone(j, k);
    Pow2Divides(j, k);
  }

  lemma Factor(x: nat, a: nat) returns (q: nat)
    requires a > 0 && x % a == 0
    ensures x == a * q
  {
    q := x / a;
  }

  lemma SumOfMultiples(s: nat, t: nat, q: nat, u: nat)
    requires s > 0
    ensures ((s * t) * q + s * u) % s == 0
  {
    assert (s * t) * q + s * u == (t * q + u) * s;
    MulMod(t * q + u, s);
  }

  /** Adding a multiple does not change whether something is one. */
  lemma SumAlignedIff(x: nat, y: nat, a: nat)
    requires a > 0 && y % a == 0
    ensures (x + y) % a == 0 <==> x % a == 0
  {
    var q := Factor(y, a);
    var p := x / a;
    assert x == a * p + x % a;
    assert x + y == (p + q) * a + x % a by {
      assert a * p + a * q == (p + q) * a;
    }
    ModUnique(x + y, a, p + q, x % a);
  }

  /** A base aligned to an accepted alignment keeps every offset aligned to a smaller one aligned. */
  lemma AlignedBase(base: nat, big: nat, offset: nat, small: nat)
    requires AlignmentValid(small) && AlignmentValid(big) && small <= big
    requires base % big == 0 && offset % small == 0
    ensures (base + offset) % small == 0
  {
    AlignmentDivides(small, big);
    var q := Factor(base, big);
    var t := Factor(big, small);
    var u := Factor(offset, small);
    SumOfMultiples(small, t, q, u);
  }

  // ---- rounding ----

  /** A multiple below `v + a` is not above any multiple that reaches `v`. */
  lemma NoMultipleBetween(v: nat, a: nat, q: nat, m: nat)
    requires a > 0 && a * q < v + a && v <= m && m % a == 0
    ensures a * q <= m
  {
    var p := Factor(m, a);
    assert a * (p + 1) == a * p + a;
    MulMonotone(p + 1, q, a);
    MulMonotone(q, p, a);
  }

  lemma RoundUpQuotient(v: nat, a: nat) returns (q: nat)
    requires a > 0
    ensures RoundUp(v, a) == a * q && v <= a * q < v + a
  {
    q := (v + a - 1) / a;
  }

  lemma RoundUpIsLeast(v: nat, a: nat)
    requires a > 0
    ensures IsLeastMultiple(RoundUp(v, a), v, a)
  {
    hide RoundUp;
    var q := RoundUpQuotient(v, a);
    MulMod(q, a);
    forall m: nat | v <= m && m % a == 0
      ensures a * q <= m
    {
      NoMultipleBetween(v, a, q, m);
    }
  }

  /** A multiple that is already large enough is left alone, and one step is never skipped. */
  lemma RoundUpBounds(v: nat, a: nat)
    requires a > 0
    ensures v <= RoundUp(v, a) < v + a
  {
  }

  lemma {:induction false} AndAllOnes(x: nat, n: nat)
    requires x < Pow2(n)
    ensures And(x, Pow2(n) - 1) == x
  {
    if n > 0 && x > 0 {
      Pow2Positive(n - 1);
      AndAllOnes(x / 2, n - 1);
      assert (Pow2(n) - 1) / 2 == Pow2(n - 1) - 1;
      assert (Pow2(n) - 1) % 2 == 1;
    }
  }

  lemma AndEven(a: nat, b: nat)
    requires b % 2 == 0
    ensures And(a, b) == 2 * And(a / 2, b / 2)
  {
  }

  lemma ClearLowHalf(x: nat, m: nat)
    requires m > 0
    ensures 2 * (x / 2 - (x / 2) % m) == x - x % (2 * m)
  {
    HalveMod(x, m);
  }

  lemma Pow2Step(k: nat)
    requires k > 0
    ensures Pow2(k) == 2 * Pow2(k - 1)
  {
  }

  lemma {:induction false} AndHighBits(x: nat, n: nat, k: nat)
    requires x < Pow2(n) && k <= n
    ensures Pow2(k) > 0 && Pow2(k) <= Pow2(n)
    ensures And(x, Pow2(n) - Pow2(k)) == x - x % Pow2(k)
    decreases k
  {
    hide And;
    Pow2Divides(k, n);
    Pow2Positive(k);
    if k == 0 {
      AndAllOnes(x, n);
    } else {
      hide Pow2;
      Pow2Step(k);
      Pow2Step(n);
      AndHighBits(x / 2, n - 1, k - 1);
      ClearHighBits(x, Pow2(n - 1) - Pow2(k - 1), Pow2(k - 1));
    }
  }

  lemma ClearHighBits(x: nat, y: nat, m: nat)
    requires m > 0 && And(x / 2, y) == x / 2 - (x / 2) % m
    ensures And(x, 2 * y) == x - x % (2 * m)
  {
    hide And;
    AndEven(x, 2 * y);
    ClearLowHalf(x, m);
  }

  lemma Pow2Of64()
    ensures Pow2(64) == SIZE_MAX + 1
  {
    Pow2Of4();
    hide Pow2;
    Pow2Sum(4, 4);
    Pow2Sum(8, 8);
    Pow2Sum(16, 16);
    Pow2Sum(32, 32);
  }

  lemma Pow2Of4()
    ensures Pow2(4) == 16
  {
  }

  lemma {:induction false} Pow2Sum(j: nat, k: nat)
    ensures Pow2(j + k) == Pow2(j) * Pow2(k)
  {
    if j > 0 {
      Pow2Sum(j - 1, k);
      DoubleProduct(Pow2(j - 1), Pow2(k));
    }
  }

  lemma DoubleProduct(x: nat, y: nat)
    ensures (2 * x) * y == 2 * (x * y)
  {
  }

  /** A multiple of a divisor of `limit` that exceeds `limit - a` is at least `limit`. */
  lemma RoundPastLimit(value: nat, a: nat, limit: nat)
    requires a > 0 && limit % a == 0 && value + a - 1 >= limit
    ensures RoundUp(value, a) >= limit
  {
    var t := Factor(limit, a);
    var x := value + a - 1;
    var q := x / a;
    assert x == a * q + x % a;
    MulMonotone(q + 1, t, a);
    MulMonotone(t, q, a);
  }

  lemma AlignmentWidth(alignment: Size) returns (k: nat)
    requires AlignmentValid(alignment)
    ensures k <= 64 && Pow2(k) == alignment && (SIZE_MAX + 1) % alignment == 0
  {
    AlignmentValidIffPowerOfTwo(alignment);
    k :| Pow2(k) == alignment;
    Pow2Of64();
    Pow2Monotone(k, 64);
    Pow2Divides(k, 64);
  }

  lemma MaskRounds(value: nat, alignment: Size)
    requires AlignmentValid(alignment) && value + alignment - 1 <= SIZE_MAX
    ensures And(value + (alignment - 1), SIZE_MAX - (alignment - 1)) == RoundUp(value, alignment)
  {
    var k := AlignmentWidth(alignment);
    Pow2Of64();
    AndHighBits(value + alignment - 1, 64, k);
  }

  /**
   The mask arithmetic computes the least multiple, and its overflow guard refuses exactly when
   that multiple is not a `size_t`.
   */
  lemma AlignUpSizeExact(value: Size, alignment: Size)
    requires AlignmentValid(alignment)
    ensures AlignUpSize(value, alignment)
         == if RoundUp(value, alignment) <= SIZE_MAX then Some(RoundUp(value, alignment)) else None
    ensures IsLeastMultiple(RoundUp(value, alignment), value, alignment)
  {
    hide And, RoundUp, IsLeastMultiple;
    RoundUpIsLeast(value, alignment);
    if value + alignment - 1 <= SIZE_MAX {
      MaskRounds(value, alignment);
      RoundUpBelow(value, alignment);
    } else {
      var k := AlignmentWidth(alignment);
      RoundPastLimit(value, alignment, SIZE_MAX + 1);
    }
  }

  lemma RoundUpBelow(value: nat, alignment: nat)
    requires alignment > 0
    ensures RoundUp(value, alignment) <= value + alignment - 1
  {
  }
}

/** FFT length selection (`_fft_size`): the smallest integer not below the target whose only
    prime factors are 2, 3 and 5.  The search bound `best` shrinks while the three loops that
    it guards are still running. */
module FftSize {

  function Pow(b: nat, e: nat): nat {
    if e == 0 then 1 else b * Pow(b, e - 1)
  }

  /** The number that `a` doublings, then `b` triplings and `c` multiplications by five make of 1. */
  function Smooth(a: nat, b: nat, c: nat): nat {
    if c > 0 then 5 * Smooth(a, b, c - 1) else if b > 0 then 3 * Smooth(a, b - 1, 0)
    else if a > 0 then 2 * Smooth(a - 1, 0, 0)
    else 1
  }

  ghost predicate IsSmooth(n: int) {
    exists a: nat, b: nat, c: nat :: n == Smooth(a, b, c)
  }

  /** Python's `int.bit_length` on non-negative integers. */
  function BitLength(n: nat): nat {
    if n == 0 then 0 else 1 + BitLength(n / 2)
  }

  lemma {:induction false} BitLengthBounds(n: nat)
    ensures n < Pow(2, BitLength(n))
  {
    if n != 0 {
      BitLengthBounds(n / 2);
    }
  }

  /** These numbers are those of the form 2^a * 3^b * 5^c. */
  lemma {:induction false} SmoothIsProduct(a: nat, b: nat, c: nat)
    ensures Smooth(a, b, c) == Pow(2, a) * Pow(3, b) * Pow(5, c)
  {
    if c > 0 {
      SmoothIsProduct(a, b, c - 1);
      var front, last := Pow(2, a) * Pow(3, b), Pow(5, c - 1);
      assert 5 * (front * last) == front * (5 * last);
    } else if b > 0 {
      SmoothIsProduct(a, b - 1, 0);
      var twos, last := Pow(2, a), Pow(3, b - 1);
      assert 3 * (twos * last) == twos * (3 * last);
    } else if a > 0 {
      SmoothIsProduct(a - 1, 0, 0);
    }
  }

  lemma {:induction false} SmoothIsPositive(a: nat, b: nat, c: nat)
    ensures Smooth(a, b, c) >= 1
  {
    if c > 0 {
      SmoothIsPositive(a, b, c - 1);
    } else if b > 0 {
      SmoothIsPositive(a, b - 1, 0);
    } else if a > 0 {
      SmoothIsPositive(a - 1, 0, 0);
    }
  }

  /** Larger exponents, after a point from which all later ones start at zero, give larger numbers. */
  lemma {:induction false} SmoothGrows(i: nat, j: nat, k: nat, a: nat, b: nat, c: nat)
    requires i <= a && (i < a ==> j == 0) && j <= b && (i < a || j < b ==> k == 0) && k <= c
    ensures Smooth(i, j, k) <= Smooth(a, b, c)
    decreases a, b, c
  {
    if c > k {
      SmoothGrows(i, j, k, a, b, c - 1);
    } else if b > j {
      SmoothGrows(i, j, 0, a, b - 1, 0);
    } else if a > i {
      SmoothGrows(i, 0, 0, a - 1, 0, 0);
    }
  }

  /** Whether exponent triple (a,b,c) comes before (i,j,k) in the order in which the loops visit them. */
  ghost predicate Before(a: nat, b: nat, c: nat, i: nat, j: nat, k: nat) {
    a < i || (a == i && (b < j || (b == j && c < k)))
  }

  /** No triple before (i,j,k) gives a candidate for `target` that is smaller than `best`. */
  ghost predicate Searched(target: int, best: int, i: nat, j: nat, k: nat) {
    forall a: nat, b: nat, c: nat | Before(a, b, c, i, j, k) && Smooth(a, b, c) >= target ::
      best <= Smooth(a, b, c)
  }

  /** What holds throughout: `best` is a candidate, and no smaller one comes before (i,j,k). */
  ghost predicate Best(target: int, best: int, i: nat, j: nat, k: nat) {
    IsSmooth(best) && best >= 1 && best >= target && Searched(target, best, i, j, k)
  }

  /** The innermost loop passes over a number below the target. */
  lemma PassOver(target: int, best: int, i: nat, j: nat, k: nat)
    requires Best(target, best, i, j, k) && Smooth(i, j, k) < target
    ensures Best(target, best, i, j, k + 1)
  {
  }

  /** The innermost loop finds a smaller candidate. */
  lemma Improve(target: int, best: int, i: nat, j: nat, k: nat)
    requires Best(target, best, i, j, k) && target <= Smooth(i, j, k) < best
    ensures Best(target, Smooth(i, j, k), i, j, k)
  {
    SmoothIsPositive(i, j, k);
  }

  /** Leaving the innermost loop: every larger power of five is out of reach too. */
  lemma FinishFives(target: int, best: int, i: nat, j: nat, k: nat)
    requires Best(target, best, i, j, k) && best <= Smooth(i, j, k)
    ensures Best(target, best, i, j + 1, 0)
  {
    forall a: nat, b: nat, c: nat | Before(a, b, c, i, j + 1, 0) && Smooth(a, b, c) >= target
      ensures best <= Smooth(a, b, c)
    {
      if !Before(a, b, c, i, j, k) {
        SmoothGrows(i, j, k, a, b, c);
      }
    }
  }

  lemma FinishThrees(target: int, best: int, i: nat, j: nat)
    requires Best(target, best, i, j, 0) && best <= Smooth(i, j, 0)
    ensures Best(target, best, i + 1, 0, 0)
  {
    forall a: nat, b: nat, c: nat | Before(a, b, c, i + 1, 0, 0) && Smooth(a, b, c) >= target
      ensures best <= Smooth(a, b, c)
    {
      if !Before(a, b, c, i, j, 0) {
        SmoothGrows(i, j, 0, a, b, c);
      }
    }
  }

  /** Leaving the outermost loop: no candidate at all is smaller. */
  lemma FinishTwos(target: int, best: int, i: nat)
    requires Best(target, best, i, 0, 0) && best <= Smooth(i, 0, 0)
    ensures forall n | IsSmooth(n) && n >= target :: best <= n
  {
    forall n | IsSmooth(n) && n >= target
      ensures best <= n
    {
      var a: nat, b: nat, c: nat :| n == Smooth(a, b, c);
      if !Before(a, b, c, i, 0, 0) {
        SmoothGrows(i, 0, 0, a, b, c);
      }
    }
  }

  /** The start: a power of two above the target, and nothing visited yet. */
  lemma StartOfSearch(target: int, width: nat)
    requires target < Pow(2, width)
    ensures Best(target, Pow(2, width), 0, 0, 0)
  {
    SmoothIsProduct(width, 0, 0);
    SmoothIsPositive(width, 0, 0);
    assert Pow(2, width) == Smooth(width, 0, 0);
  }

  /** The triple nested search.  `i`, `j`, `k` count the multiplications performed so far. */
  method Size(target: int) returns (best: nat)
    ensures IsSmooth(best) && best >= 1 && best >= target
    ensures forall n | IsSmooth(n) && n >= target :: best <= n
  {
    var width := BitLength(if target > 1 then target else 1);
    best := Pow(2, width);
    BitLengthBounds(if target > 1 then target else 1);
    StartOfSearch(target, width);
    var p2 := 1;
    ghost var i: nat := 0;
    while p2 < best
      invariant p2 == Smooth(i, 0, 0) && p2 >= 1 && Best(target, best, i, 0, 0)
      decreases best - p2
    {
      var p3 := p2;
      ghost var j: nat := 0;
      ghost var bound := best;
      while p3 < best
        invariant p3 == Smooth(i, j, 0) && p3 >= 1 && best <= bound && Best(target, best, i, j, 0)
        decreases best - p3
      {
        var p5 := p3;
        ghost var k: nat := 0;
        ghost var bound' := best;
        while p5 < best
          invariant p5 == Smooth(i, j, k) && p5 >= 1 && best == bound' && Best(target, best, i, j, k)
          decreases best - p5
        {
          if p5 >= target {
            Improve(target, best, i, j, k);
            best := p5;
            break;
          }
          PassOver(target, best, i, j, k);
          p5 := p5 * 5;
          k := k + 1;
        }
        FinishFives(target, best, i, j, k);
        p3 := p3 * 3;
        j := j + 1;
      }
      FinishThrees(target, best, i, j);
      p2 := p2 * 2;
      i := i + 1;
    }
    FinishTwos(target, best, i);
  }
}

/** The sieve of Atkin: flags that are flipped once for every representation of a number by a quadratic form. */
module Sieves {

  /** The pair (x, y) represents `n` by the form that belongs to the residue of `n`. */
  predicate Hit(n: int, x: int, y: int) {
    Hit1(n, x, y) || Hit2(n, x, y) || Hit3(n, x, y)
  }

  predicate Hit1(n: int, x: int, y: int) { n == 4 * (x * x) + y * y && (n % 12 == 1 || n % 12 == 5) }

  predicate Hit2(n: int, x: int, y: int) { n == 3 * (x * x) + y * y && n % 12 == 7 }

  predicate Hit3(n: int, x: int, y: int) { x > y && n == 3 * (x * x) - y * y && n % 12 == 11 }

  /** All representations of `n` by positive numbers. */
  function Representations(n: nat): set<(int, int)> {
    Pairs(n, n + 1, n + 1)
  }

  function Pairs(n: nat, xs: nat, ys: nat): set<(int, int)> {
    set x: int, y: int | 1 <= x < xs && 1 <= y < ys && Hit(n, x, y) :: (x, y)
  }

  /** The numbers of a representation are small. */
  lemma HitIsSmall(n: nat, x: int, y: int)
    requires x >= 1 && y >= 1 && Hit(n, x, y)
    ensures x * x < n && y * y < n && x <= n && y <= n
  {
    SquaresAscend(1, x);
    SquaresAscend(1, y);
    if Hit3(n, x, y) {
      SquaresAscend(y, x);
    }
    FormIsSmall(n, x, y, x * x, y * y);
  }

  lemma FormIsSmall(n: nat, x: int, y: int, a: int, b: int)
    requires 1 <= x <= a && 1 <= y <= b
    requires n == 4 * a + b || n == 3 * a + b || (n == 3 * a - b && b < a)
    ensures a < n && b < n && x <= n && y <= n
  {
  }

  lemma SquaresAscend(x: int, y: int)
    requires 1 <= x <= y
    ensures x <= x * x && y <= y * y && x * x <= y * y && (x < y ==> x * x < y * y)
  {
    assert x * x <= x * y <= y * y;
    assert x < y ==> x * x < x * y;
  }

  /** The set has every representation there is. */
  lemma AllRepresentations(n: nat, x: int, y: int)
    requires x >= 1 && y >= 1
    ensures (x, y) in Representations(n) <==> Hit(n, x, y)
  {
    if Hit(n, x, y) {
      HitIsSmall(n, x, y);
    }
  }

  function RowPairs(n: nat, x: int, ys: nat): set<(int, int)> {
    set y: int | 1 <= y < ys && Hit(n, x, y) :: (x, y)
  }

  predicate Odd(n: nat) { n % 2 == 1 }

  lemma RowNext(n: nat, x: int, y: nat)
    requires y >= 1
    ensures |RowPairs(n, x, y + 1)| == |RowPairs(n, x, y)| + if Hit(n, x, y) then 1 else 0
  {
    var last := if Hit(n, x, y) then {(x, y as int)} else {};
    assert RowPairs(n, x, y + 1) == RowPairs(n, x, y) + last;
  }

  lemma PairsNext(n: nat, x: nat, ys: nat)
    requires x >= 1
    ensures Odd(|Pairs(n, x + 1, ys)|) == (Odd(|Pairs(n, x, ys)|) != Odd(|RowPairs(n, x, ys)|))
  {
    var before, row := Pairs(n, x, ys), RowPairs(n, x, ys);
    assert Pairs(n, x + 1, ys) == before + row && before !! row;
    OddSum(|before|, |row|);
  }

  lemma OddSum(a: nat, b: nat)
    ensures Odd(a + b) == (Odd(a) != Odd(b))
  {
  }

  /** Larger bounds find nothing more. */
  lemma RowEnds(n: nat, x: int, small: nat, large: nat)
    requires x >= 1 && 1 <= small <= large && n <= small * small
    ensures RowPairs(n, x, large) == RowPairs(n, x, small)
  {
    forall y: int | 1 <= y < large && Hit(n, x, y)
      ensures y < small
    {
      HitIsSmall(n, x, y);
      if y >= small {
        SquaresAscend(small, y);
      }
    }
  }

  lemma PairsEnd(n: nat, limit: nat, xs: nat)
    requires 1 <= xs <= limit + 1 && n <= limit <= xs * xs
    ensures Pairs(n, xs, limit + 1) == Representations(n)
  {
    forall x: int, y: int | 1 <= x && 1 <= y && Hit(n, x, y)
      ensures x < xs && x <= n && y <= n
    {
      HitIsSmall(n, x, y);
      if x >= xs {
        SquaresAscend(xs, x);
      }
    }
  }

  lemma RowsNext(limit: nat, x: int, y: nat)
    requires y >= 1
    ensures forall n :: 0 <= n <= limit ==>
      Odd(|RowPairs(n, x, y + 1)|) == (Odd(|RowPairs(n, x, y)|) != Hit(n, x, y))
  {
    forall n | 0 <= n <= limit
      ensures Odd(|RowPairs(n, x, y + 1)|) == (Odd(|RowPairs(n, x, y)|) != Hit(n, x, y))
    {
      RowNext(n, x, y);
    }
  }

  lemma AllPairsNext(limit: nat, x: nat, ys: nat)
    requires x >= 1
    ensures forall n :: 0 <= n <= limit ==>
      Odd(|Pairs(n, x + 1, ys)|) == (Odd(|Pairs(n, x, ys)|) != Odd(|RowPairs(n, x, ys)|))
  {
    forall n | 0 <= n <= limit
      ensures Odd(|Pairs(n, x + 1, ys)|) == (Odd(|Pairs(n, x, ys)|) != Odd(|RowPairs(n, x, ys)|))
    {
      PairsNext(n, x, ys);
    }
  }

  /** A positive multiple of `d`. */
  predicate Multiple(n: nat, d: nat)
    decreases n
  {
    d > 0 && (n == d || (n > d && Multiple(n - d, d)))
  }

  lemma {:induction false} NextMultiple(i: nat, d: nat)
    requires Multiple(i, d)
    ensures Multiple(i + d, d) && forall n: nat :: i < n < i + d ==> !Multiple(n, d)
    decreases i
  {
    forall n: nat | i < n < i + d
      ensures !Multiple(n, d)
    {
      if i > d {
        NextMultiple(i - d, d);
        assert !Multiple(n - d, d);
      } else {
        assert n - d < d;
        assert !Multiple(n - d, d);
      }
    }
  }

  /** `q * q`, as the sum of the first odd numbers. */
  function Square(q: nat): nat {
    if q == 0 then 0 else Square(q - 1) + 2 * q - 1
  }

  lemma {:induction false} SquareIs(q: nat)
    ensures Square(q) == q * q
  {
    if q > 0 {
      SquareIs(q - 1);
      assert (q - 1) * (q - 1) == q * q - 2 * q + 1;
    }
  }

  /** `n` is a multiple of the square of a flagged number from 5 up to, not including, `r`. */
  ghost predicate SquarefulBelow(flags: seq<bool>, n: nat, r: nat) {
    exists q :: 5 <= q < r && q < |flags| && flags[q] && Multiple(n, Square(q))
  }

  /** The same for all numbers whose square is below the limit. */
  ghost predicate Squareful(flags: seq<bool>, n: nat, limit: nat) {
    exists q :: 5 <= q < |flags| && Square(q) < limit && flags[q] && Multiple(n, Square(q))
  }

  lemma SquarefulNext(before: seq<bool>, after: seq<bool>, r: nat)
    requires 5 <= r < |before| == |after| && forall q :: 0 <= q <= r ==> before[q] == after[q]
    ensures forall n: nat ::
      SquarefulBelow(after, n, r + 1) == (SquarefulBelow(before, n, r) || (after[r] && Multiple(n, Square(r))))
  {
    forall n: nat
      ensures SquarefulBelow(after, n, r + 1) == (SquarefulBelow(before, n, r) || (after[r] && Multiple(n, Square(r))))
    {
      SquarefulOne(before, after, n, r);
    }
  }

  lemma SquarefulOne(before: seq<bool>, after: seq<bool>, n: nat, r: nat)
    requires 5 <= r < |before| == |after| && forall q :: 0 <= q <= r ==> before[q] == after[q]
    ensures SquarefulBelow(after, n, r + 1) == (SquarefulBelow(before, n, r) || (after[r] && Multiple(n, Square(r))))
  {
    if SquarefulBelow(after, n, r + 1) {
      var q :| 5 <= q < r + 1 && q < |after| && after[q] && Multiple(n, Square(q));
      assert q == r || before[q];
    }
    if SquarefulBelow(before, n, r) {
      var q :| 5 <= q < r && q < |before| && before[q] && Multiple(n, Square(q));
      assert after[q];
    }
  }

  lemma BelowIsAll(flags: seq<bool>, limit: nat, r: nat)
    requires 5 <= r && limit <= r * r && (r == 5 || (r - 1) * (r - 1) < limit)
    ensures forall n: nat :: SquarefulBelow(flags, n, r) == Squareful(flags, n, limit)
  {
    forall n: nat
      ensures SquarefulBelow(flags, n, r) == Squareful(flags, n, limit)
    {
      if SquarefulBelow(flags, n, r) {
        var q :| 5 <= q < r && q < |flags| && flags[q] && Multiple(n, Square(q));
        SquaresAscend(q, r - 1);
        SquareIs(q);
      }
      if Squareful(flags, n, limit) {
        var q :| 5 <= q < |flags| && Square(q) < limit && flags[q] && Multiple(n, Square(q));
        SquareIs(q);
        if q >= r {
          SquaresAscend(r, q);
        }
      }
    }
  }

  ghost predicate Ascending(l: seq<nat>) {
    forall i, j :: 0 <= i < j < |l| ==> l[i] < l[j]
  }

  class Sieve {
    const limit: nat
    const prime: array<bool>

    constructor (limit: nat)
      ensures this.limit == limit && prime.Length == limit + 1 && fresh(prime)
      ensures forall n :: 0 <= n <= limit ==> !prime[n]
    {
      this.limit := limit;
      prime := new bool[limit + 1](_ => false);
    }

    method Step1(x: int, y: int)
      requires prime.Length == limit + 1
      modifies prime
      ensures forall n :: 0 <= n <= limit ==> prime[n] == (old(prime[n]) != Hit1(n, x, y))
    {
      var n := 4 * (x * x) + y * y;
      assert 0 <= x * x && 0 <= y * y;
      if n <= limit && (n % 12 == 1 || n % 12 == 5) {
        prime[n] := !prime[n];
      }
    }

    method Step2(x: int, y: int)
      requires prime.Length == limit + 1
      modifies prime
      ensures forall n :: 0 <= n <= limit ==> prime[n] == (old(prime[n]) != Hit2(n, x, y))
    {
      var n := 3 * (x * x) + y * y;
      assert 0 <= x * x && 0 <= y * y;
      if n <= limit && n % 12 == 7 {
        prime[n] := !prime[n];
      }
    }

    method Step3(x: int, y: int)
      requires prime.Length == limit + 1 && x >= 1 && y >= 1
      modifies prime
      ensures forall n :: 0 <= n <= limit ==> prime[n] == (old(prime[n]) != Hit3(n, x, y))
    {
      var n := 3 * (x * x) - y * y;
      if x > y && n <= limit && n % 12 == 11 {
        SquaresAscend(y, x);
        prime[n] := !prime[n];
      }
    }

    /** One pair flips each number that it represents. */
    method Steps(x: int, y: int)
      requires prime.Length == limit + 1 && x >= 1 && y >= 1
      modifies prime
      ensures forall n :: 0 <= n <= limit ==> prime[n] == (old(prime[n]) != Hit(n, x, y))
    {
      Step1(x, y);
      Step2(x, y);
      Step3(x, y);
    }

    method LoopY(x: int)
      requires prime.Length == limit + 1 && x >= 1
      modifies prime
      ensures forall n :: 0 <= n <= limit ==> prime[n] == (old(prime[n]) != Odd(|RowPairs(n, x, limit + 1)|))
    {
      var y: nat := 1;
      forall n | 0 <= n <= limit
        ensures RowPairs(n, x, 1) == {}
      {
      }
      while y * y < limit
        invariant 1 <= y <= limit + 1
        invariant forall n :: 0 <= n <= limit ==> prime[n] == (old(prime[n]) != Odd(|RowPairs(n, x, y)|))
        decreases limit + 1 - y
      {
        SquaresAscend(1, y);
        RowsNext(limit, x, y);
        Steps(x, y);
        y := y + 1;
      }
      ghost var ys := limit + 1;
      forall n | 0 <= n <= limit
        ensures RowPairs(n, x, ys) == RowPairs(n, x, y)
      {
        RowEnds(n, x, y, ys);
      }
    }

    /** Both loops: each flag tells whether its number has an odd number of representations, out of all there are. */
    method LoopX()
      requires prime.Length == limit + 1 && forall n :: 0 <= n <= limit ==> !prime[n]
      modifies prime
      ensures forall n :: 0 <= n <= limit ==> prime[n] == Odd(|Representations(n)|)
    {
      var x: nat := 1;
      ghost var ys := limit + 1;
      forall n | 0 <= n <= limit
        ensures Pairs(n, 1, ys) == {}
      {
      }
      while x * x < limit
        invariant 1 <= x <= limit + 1
        invariant forall n :: 0 <= n <= limit ==> prime[n] == Odd(|Pairs(n, x, limit + 1)|)
        decreases limit + 1 - x
      {
        SquaresAscend(1, x);
        AllPairsNext(limit, x, limit + 1);
        LoopY(x);
        x := x + 1;
      }
      forall n | 0 <= n <= limit
        ensures Pairs(n, x, limit + 1) == Representations(n)
      {
        PairsEnd(n, limit, x);
      }
    }

    /** Clear the multiples of `d` below the limit. */
    method Clear(d: nat)
      requires prime.Length == limit + 1 && d > 0
      modifies prime
      ensures forall n :: 0 <= n <= limit ==> prime[n] == (old(prime[n]) && !(n < limit && Multiple(n, d)))
    {
      var i := d;
      assert Multiple(d, d);
      while i < limit
        invariant 0 < i && Multiple(i, d)
        invariant forall n :: 0 <= n <= limit ==> prime[n] == (old(prime[n]) && !(n < i && n < limit && Multiple(n, d)))
        decreases limit - i
      {
        NextMultiple(i, d);
        prime[i] := false;
        i := i + d;
      }
    }

    /**
     `omit_squares`: what stays is what was there and is no multiple, below the limit, of the square of a number that
     itself stays.
     */
    method OmitSquares()
      requires prime.Length == limit + 1
      modifies prime
      ensures forall n :: 0 <= n <= limit ==> prime[n] == (old(prime[n]) && !(n < limit && Squareful(prime[..], n, limit)))
    {
      var r := 5;
      while r * r < limit
        invariant 5 <= r && (r == 5 || (r - 1) * (r - 1) < limit)
        invariant forall n :: 0 <= n <= limit ==> prime[n] == (old(prime[n]) && !(n < limit && SquarefulBelow(prime[..], n, r)))
        decreases limit - r
      {
        SquaresAscend(1, r);
        Omit(r);
        r := r + 1;
      }
      BelowIsAll(prime[..], limit, r);
    }

    /** One round of it. */
    method Omit(r: nat)
      requires prime.Length == limit + 1 && 5 <= r < limit && r * r < limit
      modifies prime
      ensures forall n :: 0 <= n <= limit ==> prime[n] == (old(prime[n]) && !(n < limit && prime[r] && Multiple(n, Square(r))))
      ensures forall n :: 0 <= n < limit ==>
        SquarefulBelow(prime[..], n, r + 1) == (SquarefulBelow(old(prime[..]), n, r) || (prime[r] && Multiple(n, Square(r))))
    {
      ghost var before := prime[..];
      SquaresAscend(1, r);
      SquareIs(r);
      if prime[r] {
        Clear(r * r);
      }
      SquarefulNext(before, prime[..], r);
    }

    /** `to_list`: 2, 3 and every flagged number from 5 on, in ascending order. */
    method ToList() returns (l: seq<nat>)
      requires prime.Length == limit + 1
      ensures Ascending(l)
      ensures forall n :: n in l <==> n == 2 || n == 3 || (5 <= n <= limit && prime[n])
    {
      l := [2, 3];
      var p := 5;
      while p <= limit
        invariant 5 <= p && Ascending(l)
        invariant forall n :: n in l <==> n == 2 || n == 3 || (5 <= n < p && n <= limit && prime[n])
      {
        if prime[p] {
          assert forall k :: 0 <= k < |l| ==> l[k] in l;
          l := l + [p];
        }
        p := p + 1;
      }
    }
  }
}

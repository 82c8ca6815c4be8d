/**
 Enumeration of k-combinations of pool positions in lexicographic order
 (backend/src/modules/strategy/combinatorics.ts), and the number of them
 (combinationCount in deterministic-solver.service.ts).
 A combination is a strictly increasing list of positions. The search for the next one
 is compared with the lexicographic order, and the whole enumeration with the number of
 subsets of a size, which the code computes by a running product.
 */
module Combinatorics {
  import opened Options

  /** A strictly increasing list of positions below n. */
  ghost predicate IsCombination(c: seq<int>, n: int) {
    && (forall i :: 0 <= i < |c| ==> 0 <= c[i] < n)
    && (forall i, j :: 0 <= i < j < |c| ==> c[i] < c[j])
  }

  /** Lexicographic order on lists of one length. */
  ghost predicate LexLess(a: seq<int>, b: seq<int>)
    requires |a| == |b|
  {
    |a| > 0 && (a[0] < b[0] || (a[0] == b[0] && LexLess(a[1..], b[1..])))
  }

  lemma {:induction false} LexTotal(a: seq<int>, b: seq<int>)
    requires |a| == |b|
    ensures a == b || LexLess(a, b) || LexLess(b, a)
  {
    if |a| > 0 && a[0] == b[0] {
      LexTotal(a[1..], b[1..]);
      assert a == [a[0]] + a[1..] && b == [b[0]] + b[1..];
    }
  }

  function FirstCombination(k: nat): seq<int> {
    seq(k, i => i)
  }

  /** The rightmost position at or before i whose index can still grow, or -1. */
  function Pivot(c: seq<int>, n: int, i: int): (p: int)
    requires -1 <= i < |c|
    ensures -1 <= p <= i
    decreases i + 1
  {
    if i >= 0 && c[i] == n - |c| + i then Pivot(c, n, i - 1) else i
  }

  /** The list the loop of NextCombination builds: bump the pivot, then count up from it. */
  function Next(c: seq<int>, n: int): Option<seq<int>> {
    var p := Pivot(c, n, |c| - 1);
    if p < 0 then None else Some(c[..p] + seq(|c| - p, j => c[p] + 1 + j))
  }

  method NextCombination(indices: seq<int>, poolSize: int) returns (r: Option<seq<int>>)
    ensures r == Next(indices, poolSize)
  {
    var k := |indices|;
    var next := indices;
    var i := k - 1;
    while i >= 0 && next[i] == poolSize - k + i
      invariant -1 <= i < k
      invariant Pivot(indices, poolSize, k - 1) == Pivot(indices, poolSize, i)
      decreases i
    {
      i := i - 1;
    }
    if i < 0 {
      return None;
    }
    next := next[i := next[i] + 1];
    for j := i + 1 to k
      invariant |next| == k
      invariant next[..i] == indices[..i]
      invariant forall m :: i <= m < j ==> next[m] == indices[i] + 1 + (m - i)
    {
      next := next[j := next[j - 1] + 1];
    }
    assert next == indices[..i] + seq(k - i, j => indices[i] + 1 + j);
    return Some(next);
  }

  /** The number of k-element subsets of n things, by Pascal's rule. */
  function Binomial(n: nat, k: nat): nat {
    if k == 0 then 1
    else if n == 0 then 0
    else Binomial(n - 1, k - 1) + Binomial(n - 1, k)
  }

  /** How many combinations of |c| positions from lo..n-1 do not come before c. */
  ghost function Remaining(c: seq<int>, lo: int, n: int): nat
    requires IsCombination(c, n) && 0 <= lo
    requires |c| > 0 ==> lo <= c[0]
    decreases n - lo
  {
    if |c| == 0 then 1
    else if c[0] == lo then Remaining(c[1..], lo + 1, n) + Binomial(n - lo - 1, |c|)
    else Remaining(c, lo + 1, n)
  }

  lemma {:induction false} RemainingPositive(c: seq<int>, lo: int, n: int)
    requires IsCombination(c, n) && 0 <= lo
    requires |c| > 0 ==> lo <= c[0]
    ensures Remaining(c, lo, n) >= 1
    decreases n - lo
  {
    if |c| > 0 {
      if c[0] == lo {
        RemainingPositive(c[1..], lo + 1, n);
      } else {
        RemainingPositive(c, lo + 1, n);
      }
    }
  }

  lemma {:induction false} RemainingAtMost(c: seq<int>, lo: int, n: int)
    requires IsCombination(c, n) && 0 <= lo <= n
    requires |c| > 0 ==> lo <= c[0]
    ensures Remaining(c, lo, n) <= Binomial(n - lo, |c|)
    decreases n - lo
  {
    if |c| > 0 {
      if c[0] == lo {
        RemainingAtMost(c[1..], lo + 1, n);
      } else {
        RemainingAtMost(c, lo + 1, n);
      }
    }
  }

  lemma {:induction false} RemainingAntitone(a: seq<int>, b: seq<int>, lo: int, n: int)
    requires IsCombination(a, n) && IsCombination(b, n) && |a| == |b| && 0 <= lo
    requires LexLess(a, b) && lo <= a[0]
    ensures lo <= b[0] && Remaining(b, lo, n) < Remaining(a, lo, n)
    decreases n - lo
  {
    if a[0] > lo {
      RemainingAntitone(a, b, lo + 1, n);
    } else if b[0] > lo {
      RemainingAtMost(b, lo + 1, n);
      RemainingPositive(a[1..], lo + 1, n);
    } else {
      RemainingAntitone(a[1..], b[1..], lo + 1, n);
    }
  }

  /** A run x, x+1, ... is the first combination at or above x. */
  lemma {:induction false} RemainingOfRun(c: seq<int>, x: int, lo: int, n: int)
    requires IsCombination(c, n) && 0 <= lo <= x <= n
    requires forall j :: 0 <= j < |c| ==> c[j] == x + j
    ensures Remaining(c, lo, n) == if |c| == 0 then 1 else Binomial(n - x, |c|)
    decreases n - lo
  {
    if |c| > 0 {
      assert c[0] == x + 0;
      if x == lo {
        RemainingOfRun(c[1..], x + 1, lo + 1, n);
        if |c| == 1 {
          assert Binomial(n - x, 1) == Binomial(n - x - 1, 0) + Binomial(n - x - 1, 1);
        }
      } else {
        RemainingOfRun(c, x, lo + 1, n);
      }
    }
  }

  /** The successor computed from the right agrees with recursion from the left. */
  lemma {:induction false} PivotCons(c: seq<int>, n: int, i: int)
    requires |c| > 0 && 0 <= i < |c|
    ensures Pivot(c[1..], n, i - 1) >= 0 ==> Pivot(c, n, i) == Pivot(c[1..], n, i - 1) + 1
    ensures Pivot(c[1..], n, i - 1) < 0 ==> Pivot(c, n, i) == if c[0] == n - |c| then -1 else 0
    decreases i
  {
    if i > 0 && c[i] == n - |c| + i {
      PivotCons(c, n, i - 1);
    }
  }

  lemma NextCons(c: seq<int>, n: int)
    requires |c| > 0
    ensures Next(c[1..], n).Some? ==> Next(c, n) == Some([c[0]] + Next(c[1..], n).value)
    ensures Next(c[1..], n).None? ==>
              Next(c, n) == if c[0] == n - |c| then None else Some(seq(|c|, j => c[0] + 1 + j))
  {
    PivotCons(c, n, |c| - 1);
    var q := Pivot(c[1..], n, |c| - 2);
    if q >= 0 {
      var d := Next(c, n).value;
      assert c[..q + 1] == [c[0]] + c[1..][..q];
      assert d[q + 1..] == Next(c[1..], n).value[q..];
      assert forall j :: 0 <= j < |c[1..]| ==> d[j + 1] == Next(c[1..], n).value[j];
      assert d == [c[0]] + Next(c[1..], n).value;
    } else if c[0] != n - |c| {
      assert Next(c, n).value == seq(|c|, j => c[0] + 1 + j);
    }
  }

  lemma TopOfCombination(c: seq<int>, n: int)
    requires IsCombination(c, n) && |c| > 0
    ensures c[0] <= n - |c|
    decreases |c|
  {
    if |c| > 1 {
      TopOfCombination(c[1..], n);
    }
  }

  /** When the tail has no successor, the head moves on to the next run, if there is one. */
  lemma HeadMovesOn(c: seq<int>, lo: int, n: int)
    requires IsCombination(c, n) && |c| > 0 && 0 <= lo == c[0] && lo + 1 <= n
    requires Next(c[1..], n).None? && Remaining(c[1..], lo + 1, n) == 1
    ensures Next(c, n).None? <==> Remaining(c, lo, n) == 1
    ensures Next(c, n).Some? ==>
              var d := Next(c, n).value;
              && IsCombination(d, n) && |d| == |c| && c[0] <= d[0]
              && Remaining(d, lo, n) == Remaining(c, lo, n) - 1
  {
    TopOfCombination(c, n);
    NextCons(c, n);
    if c[0] != n - |c| {
      RemainingOfRun(Next(c, n).value, c[0] + 1, lo + 1, n);
      BinomialPositive(n - lo - 1, |c|);
    } else {
      BinomialZero(n - lo - 1, |c|);
    }
  }

  /** When the tail has a successor, the head stays. */
  lemma HeadStays(c: seq<int>, lo: int, n: int)
    requires IsCombination(c, n) && |c| > 0 && 0 <= lo == c[0] && lo + 1 <= n
    requires Next(c[1..], n).Some?
    requires var t := Next(c[1..], n).value;
             && IsCombination(t, n) && |t| == |c| - 1 && (|t| > 0 ==> c[0] < t[0])
             && Remaining(t, lo + 1, n) == Remaining(c[1..], lo + 1, n) - 1
    ensures Next(c, n).Some?
    ensures var d := Next(c, n).value;
            && IsCombination(d, n) && |d| == |c| && d[0] == c[0]
            && Remaining(d, lo, n) == Remaining(c, lo, n) - 1
  {
    NextCons(c, n);
    assert Next(c, n).value[1..] == Next(c[1..], n).value;
  }

  /** Next counts Remaining down by exactly one, and stops exactly at one. */
  lemma {:induction false} NextCountsDown(c: seq<int>, lo: int, n: int)
    requires IsCombination(c, n) && 0 <= lo <= n
    requires |c| > 0 ==> lo <= c[0]
    ensures Next(c, n).None? <==> Remaining(c, lo, n) == 1
    ensures Next(c, n).Some? ==>
              var d := Next(c, n).value;
              && IsCombination(d, n) && |d| == |c| && (|c| > 0 ==> c[0] <= d[0])
              && Remaining(d, lo, n) == Remaining(c, lo, n) - 1
    decreases n - lo
  {
    if |c| > 0 {
      if c[0] > lo {
        NextCountsDown(c, lo + 1, n);
      } else {
        NextCountsDown(c[1..], lo + 1, n);
        if Next(c[1..], n).Some? {
          HeadStays(c, lo, n);
          RemainingPositive(Next(c, n).value, lo, n);
        } else {
          HeadMovesOn(c, lo, n);
        }
      }
    }
  }

  lemma {:induction false} BinomialPositive(n: nat, k: nat)
    requires k <= n
    ensures Binomial(n, k) >= 1
  {
    if k > 0 {
      BinomialPositive(n - 1, k - 1);
    }
  }

  lemma {:induction false} BinomialZero(n: nat, k: nat)
    requires n < k
    ensures Binomial(n, k) == 0
  {
    if n > 0 {
      BinomialZero(n - 1, k - 1);
      BinomialZero(n - 1, k);
    }
  }

  /** NextCombination returns the lexicographic successor, and nothing exactly at the last. */
  lemma NextIsSuccessor(c: seq<int>, n: nat)
    requires IsCombination(c, n)
    ensures Next(c, n).None? <==>
              forall e :: IsCombination(e, n) && |e| == |c| ==> !LexLess(c, e)
    ensures Next(c, n).Some? ==>
              var d := Next(c, n).value;
              && IsCombination(d, n) && |d| == |c| && LexLess(c, d)
              && forall e :: IsCombination(e, n) && |e| == |c| && LexLess(c, e) ==> e == d || LexLess(d, e)
  {
    NextCountsDown(c, 0, n);
    forall e | IsCombination(e, n) && |e| == |c| && LexLess(c, e)
      ensures Remaining(e, 0, n) < Remaining(c, 0, n) && Remaining(e, 0, n) >= 1
    {
      RemainingAntitone(c, e, 0, n);
      RemainingPositive(e, 0, n);
    }
    if Next(c, n).Some? {
      var d := Next(c, n).value;
      LexTotal(c, d);
      if LexLess(d, c) {
        RemainingAntitone(d, c, 0, n);
      }
      forall e | IsCombination(e, n) && |e| == |c| && LexLess(c, e)
        ensures e == d || LexLess(d, e)
      {
        LexTotal(d, e);
        if LexLess(e, d) {
          RemainingAntitone(e, d, 0, n);
        }
      }
    }
  }

  /** The combination visited after m calls from the first one. */
  ghost function Visit(n: nat, k: nat, m: nat): Option<seq<int>> {
    if m == 0 then Some(FirstCombination(k))
    else match Visit(n, k, m - 1)
      case None => None
      case Some(c) => Next(c, n)
  }

  ghost predicate Visited(n: nat, k: nat, c: seq<int>) {
    exists m: nat :: Visit(n, k, m) == Some(c)
  }

  lemma {:induction false} VisitRemaining(n: nat, k: nat, m: nat)
    requires k <= n
    ensures Visit(n, k, m).Some? <==> m < Binomial(n, k)
    ensures Visit(n, k, m).Some? ==>
              var c := Visit(n, k, m).value;
              IsCombination(c, n) && |c| == k && Remaining(c, 0, n) == Binomial(n, k) - m
  {
    if m == 0 {
      RemainingOfRun(FirstCombination(k), 0, 0, n);
      BinomialPositive(n, k);
    } else {
      VisitRemaining(n, k, m - 1);
      if Visit(n, k, m - 1).Some? {
        NextCountsDown(Visit(n, k, m - 1).value, 0, n);
      }
    }
  }

  /** A combination at or after the m-th visit is itself visited. */
  lemma {:induction false} VisitReaches(n: nat, k: nat, c: seq<int>, m: nat) returns (at: nat)
    requires k <= n && IsCombination(c, n) && |c| == k
    requires Visit(n, k, m).Some? && |Visit(n, k, m).value| == k
    requires Visit(n, k, m).value == c || LexLess(Visit(n, k, m).value, c)
    ensures Visit(n, k, at) == Some(c)
    decreases Binomial(n, k) - m
  {
    VisitRemaining(n, k, m);
    var v := Visit(n, k, m).value;
    if v == c {
      return m;
    }
    NextIsSuccessor(v, n);
    at := VisitReaches(n, k, c, m + 1);
  }

  lemma {:induction false} FirstIsLeast(c: seq<int>, lo: int)
    requires forall i, j :: 0 <= i < j < |c| ==> c[i] < c[j]
    requires |c| > 0 ==> lo <= c[0]
    ensures c == seq(|c|, i => lo + i) || LexLess(seq(|c|, i => lo + i), c)
  {
    if |c| > 0 && c[0] == lo {
      FirstIsLeast(c[1..], lo + 1);
      assert seq(|c|, i => lo + i)[1..] == seq(|c[1..]|, i => lo + 1 + i);
      assert c == [c[0]] + c[1..];
      assert seq(|c|, i => lo + i) == [lo] + seq(|c[1..]|, i => lo + 1 + i);
    }
  }

  lemma {:induction false} LexAsymmetric(a: seq<int>, b: seq<int>)
    requires |a| == |b| && LexLess(a, b)
    ensures a != b && !LexLess(b, a)
  {
    if a[0] == b[0] {
      LexAsymmetric(a[1..], b[1..]);
    }
  }

  lemma NothingBeforeFirst(c: seq<int>, n: int)
    requires IsCombination(c, n)
    ensures !LexLess(c, FirstCombination(|c|))
  {
    FirstIsLeast(c, 0);
    assert FirstCombination(|c|) == seq(|c|, i => 0 + i);
    if LexLess(c, FirstCombination(|c|)) {
      LexAsymmetric(c, FirstCombination(|c|));
    }
  }

  /**
   Walking from the first combination visits every k-subset of n positions
   exactly once, in Binomial(n, k) visits, and then stops.
   */
  lemma FullEnumeration(n: nat, k: nat)
    requires k <= n
    ensures forall m: nat :: Visit(n, k, m).Some? <==> m < Binomial(n, k)
    ensures forall c :: IsCombination(c, n) && |c| == k ==> Visited(n, k, c)
    ensures forall a: nat, b: nat :: a < b < Binomial(n, k) ==> Visit(n, k, a) != Visit(n, k, b)
  {
    forall m: nat ensures Visit(n, k, m).Some? <==> m < Binomial(n, k) {
      VisitRemaining(n, k, m);
    }
    forall c | IsCombination(c, n) && |c| == k
      ensures Visited(n, k, c)
    {
      FirstIsLeast(c, 0);
      assert FirstCombination(k) == seq(|c|, i => 0 + i);
      assert Visit(n, k, 0) == Some(FirstCombination(k));
      var at := VisitReaches(n, k, c, 0);
      assert Visit(n, k, at) == Some(c);
    }
    forall a: nat, b: nat | a < b < Binomial(n, k)
      ensures Visit(n, k, a) != Visit(n, k, b)
    {
      VisitRemaining(n, k, a);
      VisitRemaining(n, k, b);
    }
  }

  lemma {:induction false} BinomialRatio(n: nat, i: nat)
    ensures Binomial(n, i + 1) * (i + 1) == Binomial(n, i) * (n - i)
  {
    if n > 0 {
      BinomialRatio(n - 1, i);
      if i > 0 {
        BinomialRatio(n - 1, i - 1);
        PascalRatio(Binomial(n - 1, i - 1), Binomial(n - 1, i), Binomial(n - 1, i + 1), n, i);
      } else {
        PascalRatio(0, Binomial(n - 1, 0), Binomial(n - 1, 1), n, 0);
      }
    }
  }

  lemma PascalRatio(c: int, a: int, b: int, n: int, i: int)
    requires b * (i + 1) == a * (n - 1 - i) && a * i == c * (n - i)
    ensures (a + b) * (i + 1) == (c + a) * (n - i)
  {
    assert (a + b) * (i + 1) == a * (i + 1) + b * (i + 1) == a * n;
    assert (c + a) * (n - i) == c * (n - i) + a * (n - i) == a * n;
  }

  /** The running product divides exactly at every step, and the result is the subset count. */
  method CombinationCount(n: nat, k: nat) returns (r: int)
    ensures r == Binomial(n, k)
  {
    var result := 1.0;
    for i := 0 to k
      invariant result == Binomial(n, i) as real
    {
      BinomialRatio(n, i);
      result := (result * (n - i) as real) / (i + 1) as real;
    }
    r := result.Floor;
  }
}

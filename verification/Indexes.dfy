/** Sets of chunk indexes and their ascending lists. */
module Indexes {
  import opened Base

  /** The members of `s` below `n`, in ascending order: the order in which std::set iterates. */
  function Ascending(s: set<u64>, n: nat): seq<u64>
    requires n <= TWO_64
  {
    if n == 0 then []
    else if n - 1 in s then Ascending(s, n - 1) + [n - 1]
    else Ascending(s, n - 1)
  }

  predicate StrictlyIncreasing(xs: seq<u64>) {
    forall i, j :: 0 <= i < j < |xs| ==> xs[i] < xs[j]
  }

  lemma {:induction false} AscendingIsSorted(s: set<u64>, n: nat)
    requires n <= TWO_64
    ensures StrictlyIncreasing(Ascending(s, n))
    ensures forall x :: x in Ascending(s, n) <==> x in s && x < n
  {
    if n > 0 {
      AscendingIsSorted(s, n - 1);
      var prefix := Ascending(s, n - 1);
      assert forall i :: 0 <= i < |prefix| ==> prefix[i] in prefix;
    }
  }

  /** The sets of a list and back. */
  function Members(xs: seq<u64>): set<u64> {
    set x | x in xs
  }

  lemma {:induction false} AscendingUnique(xs: seq<u64>, n: nat)
    requires StrictlyIncreasing(xs) && n <= TWO_64 && forall i :: 0 <= i < |xs| ==> xs[i] < n
    ensures Ascending(Members(xs), n) == xs
  {
    if n > 0 {
      if xs != [] && xs[|xs| - 1] == n - 1 {
        var prefix := xs[..|xs| - 1];
        AscendingUnique(prefix, n - 1);
        AscendingDependsBelow(Members(xs), Members(prefix), n - 1);
        assert n - 1 in Members(xs);
      } else {
        assert n - 1 !in Members(xs);
        AscendingUnique(xs, n - 1);
      }
    }
  }

  lemma {:induction false} AscendingDependsBelow(s: set<u64>, t: set<u64>, n: nat)
    requires n <= TWO_64 && forall x: u64 :: x < n ==> (x in s <==> x in t)
    ensures Ascending(s, n) == Ascending(t, n)
  {
    if n > 0 {
      AscendingDependsBelow(s, t, n - 1);
    }
  }

  /** The numbers from `lo` up to but not including `hi`. */
  function Range(lo: nat, hi: nat): (xs: seq<u64>)
    requires hi <= TWO_64
    ensures |xs| == if lo <= hi then hi - lo else 0
    ensures forall i :: 0 <= i < |xs| ==> xs[i] == lo + i
  {
    if lo >= hi then [] else seq(hi - lo, i requires 0 <= i < hi - lo => lo + i)
  }

  lemma RangeMembers(lo: nat, hi: nat)
    requires hi <= TWO_64
    ensures forall x: u64 :: x in Range(lo, hi) <==> lo <= x < hi
  {
    forall x: u64 | lo <= x < hi
      ensures x in Range(lo, hi)
    {
      assert Range(lo, hi)[x - lo] == x;
    }
  }

  /** The set of the first `k` indexes. */
  function Below(k: nat): (s: set<u64>)
    requires k <= TWO_64
    ensures forall x: u64 :: x in s <==> x < k
  {
    RangeMembers(0, k);
    Members(Range(0, k))
  }

  lemma {:induction false} AscendingAbove(k: nat, n: nat)
    requires n <= TWO_64 && k <= n
    ensures Ascending(Below(n) - Below(k), n) == Range(k, n)
  {
    AscendingUnique(Range(k, n), n);
    RangeMembers(k, n);
    assert Members(Range(k, n)) == Below(n) - Below(k);
  }

  lemma RangeStep(lo: nat, hi: nat)
    requires lo < hi <= TWO_64
    ensures Range(lo, hi) == [lo] + Range(lo + 1, hi)
  {
  }

  /** An increasing list below `n` has at most `n` elements. */
  lemma {:induction false} IncreasingLength(xs: seq<u64>, n: nat)
    requires StrictlyIncreasing(xs) && forall i :: 0 <= i < |xs| ==> xs[i] < n
    ensures |xs| <= n
  {
    if xs != [] {
      IncreasingLength(xs[..|xs| - 1], xs[|xs| - 1]);
    }
  }
}

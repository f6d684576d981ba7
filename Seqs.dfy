// JavaScript's Array.prototype.filter on sequences, with the facts the
// fetch layer, the dashboard and the problem lists rely on.

module Seqs {

  /** `s.filter(keep)`: the elements of `s` that satisfy `keep`, in order. */
  function Filter<T>(s: seq<T>, keep: T -> bool): (r: seq<T>)
    ensures |r| <= |s|
    ensures forall x | x in r :: x in s && keep(x)
    ensures forall x | x in s && keep(x) :: x in r
    ensures multiset(r) <= multiset(s)
  {
    if s == [] then []
    else
      assert s == [s[0]] + s[1..];
      (if keep(s[0]) then [s[0]] else []) + Filter(s[1..], keep)
  }

  /** Every element a filter keeps passes its test, position by position. */
  lemma FilterKeeps<T>(s: seq<T>, keep: T -> bool)
    ensures forall i | 0 <= i < |Filter(s, keep)| :: keep(Filter(s, keep)[i])
  {
    var r := Filter(s, keep);
    forall i | 0 <= i < |r| ensures keep(r[i]) {
      assert r[i] in r;
    }
  }

  /** `r` can be obtained from `s` by deleting elements: order is kept. */
  ghost predicate IsSubsequence<T>(r: seq<T>, s: seq<T>)
    decreases |s|
  {
    r == [] || (s != [] && ((r[0] == s[0] && IsSubsequence(r[1..], s[1..])) || IsSubsequence(r, s[1..])))
  }

  /** Filtering only deletes elements; it never reorders them. */
  lemma {:induction false} FilterIsSubsequence<T>(s: seq<T>, keep: T -> bool)
    ensures IsSubsequence(Filter(s, keep), s)
  {
    if s != [] {
      FilterIsSubsequence(s[1..], keep);
      var r := Filter(s, keep);
      if keep(s[0]) {
        assert r[0] == s[0] && r[1..] == Filter(s[1..], keep);
      } else {
        assert r == Filter(s[1..], keep);
      }
    }
  }

  /** Filtering distributes over concatenation. */
  lemma {:induction false} FilterAppend<T>(a: seq<T>, b: seq<T>, keep: T -> bool)
    ensures Filter(a + b, keep) == Filter(a, keep) + Filter(b, keep)
  {
    if a == [] {
      assert a + b == b;
    } else {
      assert (a + b)[0] == a[0];
      assert (a + b)[1..] == a[1..] + b;
      FilterAppend(a[1..], b, keep);
    }
  }

  /** A filter that every element passes returns its input. */
  lemma {:induction false} FilterAll<T>(s: seq<T>, keep: T -> bool)
    requires forall x :: x in s ==> keep(x)
    ensures Filter(s, keep) == s
  {
    if s != [] {
      assert s == [s[0]] + s[1..];
      assert keep(s[0]);
      assert forall x :: x in s[1..] ==> x in s;
      FilterAll(s[1..], keep);
    }
  }

  /** The positions of `s` whose element passes `keep`. */
  ghost function Positions<T>(s: seq<T>, keep: T -> bool): set<int>
  {
    set i | 0 <= i < |s| && keep(s[i])
  }

  /** The length of a filter is the number of positions whose element passes. */
  lemma {:induction false} FilterLengthCountsPositions<T>(s: seq<T>, keep: T -> bool)
    ensures |Filter(s, keep)| == |Positions(s, keep)|
  {
    if s == [] {
      assert Positions(s, keep) == {};
    } else {
      var n := |s| - 1;
      var init := s[..n];
      assert s == init + [s[n]];
      FilterAppend(init, [s[n]], keep);
      FilterLengthCountsPositions(init, keep);
      PositionsExtend(s, keep);
    }
  }

  /** The passing positions of `s` are those of all but its last element,
      plus the last one when it passes. */
  lemma PositionsExtend<T>(s: seq<T>, keep: T -> bool)
    requires s != []
    ensures |Positions(s, keep)|
            == |Positions(s[..|s| - 1], keep)| + (if keep(s[|s| - 1]) then 1 else 0)
  {
    var n := |s| - 1;
    var before := Positions(s[..n], keep);
    assert before == set i | 0 <= i < n && keep(s[i]);
    if keep(s[n]) {
      assert Positions(s, keep) == before + {n};
    } else {
      assert Positions(s, keep) == before;
    }
  }

  /** Two disjoint filters that together make a third split its length. */
  lemma {:induction false} FilterPartition<T>(s: seq<T>, f: T -> bool, g: T -> bool, h: T -> bool)
    requires forall x :: x in s ==> (h(x) <==> f(x) || g(x))
    requires forall x :: x in s ==> !(f(x) && g(x))
    ensures |Filter(s, f)| + |Filter(s, g)| == |Filter(s, h)|
  {
    if s != [] {
      assert forall x :: x in s[1..] ==> x in s;
      FilterPartition(s[1..], f, g, h);
    }
  }

  /** A filter whose test implies another's is no longer than it. */
  lemma {:induction false} FilterMonotone<T>(s: seq<T>, f: T -> bool, g: T -> bool)
    requires forall x :: x in s ==> f(x) ==> g(x)
    ensures |Filter(s, f)| <= |Filter(s, g)|
  {
    if s != [] {
      assert forall x :: x in s[1..] ==> x in s;
      FilterMonotone(s[1..], f, g);
    }
  }

  /** `k` is the first position of `s` whose element passes `keep`. */
  predicate FirstKeptAt<T>(s: seq<T>, keep: T -> bool, k: int)
  {
    0 <= k < |s| && keep(s[k]) && forall j :: 0 <= j < k ==> !keep(s[j])
  }

  /** The first element a filter keeps comes from the first passing position. */
  lemma {:induction false} FilterHead<T>(s: seq<T>, keep: T -> bool)
    requires Filter(s, keep) != []
    ensures exists k :: FirstKeptAt(s, keep, k) && Filter(s, keep)[0] == s[k]
  {
    if keep(s[0]) {
      assert FirstKeptAt(s, keep, 0) && Filter(s, keep)[0] == s[0];
    } else {
      assert Filter(s, keep) == Filter(s[1..], keep);
      FilterHead(s[1..], keep);
      var k :| FirstKeptAt(s[1..], keep, k) && Filter(s[1..], keep)[0] == s[1..][k];
      FirstKeptShift(s, keep, k);
    }
  }

  /** Past a failing head, the first passing position moves by one. */
  lemma FirstKeptShift<T>(s: seq<T>, keep: T -> bool, k: int)
    requires s != [] && !keep(s[0]) && FirstKeptAt(s[1..], keep, k)
    ensures FirstKeptAt(s, keep, k + 1) && s[k + 1] == s[1..][k]
  {
    forall j | 0 <= j < k + 1 ensures !keep(s[j]) {
      if j > 0 { assert s[j] == s[1..][j - 1]; }
    }
  }

  /** No element occurs twice. */
  predicate NoDuplicates<T(==)>(s: seq<T>)
  {
    forall i, j | 0 <= i < j < |s| :: s[i] != s[j]
  }

  /** `Array.from(new Set(s))`: the elements of `s` once each, in the order
      of their first occurrence. */
  function Distinct<T(==)>(s: seq<T>): (r: seq<T>)
    ensures forall x | x in r :: x in s
    ensures forall x | x in s :: x in r
    ensures NoDuplicates(r)
  {
    if s == [] then []
    else
      var r := Distinct(s[..|s| - 1]);
      assert s == s[..|s| - 1] + [s[|s| - 1]];
      if s[|s| - 1] in r then r else r + [s[|s| - 1]]
  }

  /** A sequence with no repeated element holds each value at most once. */
  lemma {:induction false} NoDuplicatesCount<T>(s: seq<T>, x: T)
    requires NoDuplicates(s)
    ensures multiset(s)[x] <= 1
  {
    if s != [] {
      var init := s[..|s| - 1];
      assert s == init + [s[|s| - 1]];
      NoDuplicatesCount(init, x);
      if s[|s| - 1] == x {
        assert x !in init;
      }
    }
  }

  /** Rearranging a sequence with no repeated element cannot create one. */
  lemma PermutationNoDuplicates<T>(r: seq<T>, s: seq<T>)
    requires multiset(r) == multiset(s) && NoDuplicates(s)
    ensures NoDuplicates(r)
  {
    forall i, j | 0 <= i < j < |r| ensures r[i] != r[j] {
      if r[i] == r[j] {
        assert r == r[..j] + r[j..];
        assert r[i] in r[..j] && r[j] in r[j..];
        NoDuplicatesCount(s, r[i]);
        assert false;
      }
    }
  }
}

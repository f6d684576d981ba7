// Array.prototype.sort with a comparator, on a copy of the array. The
// comparator returns a number: negative, zero or positive as its first
// argument belongs before, level with or after its second. The language
// requires the sort to be stable; it is modelled as a stable insertion sort.

module Sorting {
  /** The sign of a comparator result. */
  function Sign(x: int): int
  {
    if x < 0 then -1 else if x > 0 then 1 else 0
  }

  /** `cmp` orders the elements of `s` consistently: swapping the operands
      flips the sign, and "not after" is transitive. */
  ghost predicate Consistent<T>(cmp: (T, T) -> int, s: seq<T>)
  {
    && (forall a, b | a in s && b in s :: Sign(cmp(a, b)) == -Sign(cmp(b, a)))
    && (forall a, b, c {:trigger cmp(a, b), cmp(b, c), cmp(a, c)}
          | a in s && b in s && c in s && cmp(a, b) <= 0 && cmp(b, c) <= 0 :: cmp(a, c) <= 0)
  }

  /** Every element is "not after" every later one. */
  ghost predicate Sorted<T>(s: seq<T>, cmp: (T, T) -> int)
  {
    forall i, j | 0 <= i < j < |s| :: cmp(s[i], s[j]) <= 0
  }

  lemma Flip<T>(cmp: (T, T) -> int, s: seq<T>, a: T, b: T)
    requires Consistent(cmp, s) && a in s && b in s
    ensures Sign(cmp(a, b)) == -Sign(cmp(b, a))
  {
  }

  lemma Chain<T>(cmp: (T, T) -> int, s: seq<T>, a: T, b: T, c: T)
    requires Consistent(cmp, s) && a in s && b in s && c in s
    requires cmp(a, b) <= 0 && cmp(b, c) <= 0
    ensures cmp(a, c) <= 0
  {
  }

  /** Inserts `x` before the first element it is "not after". */
  function Insert<T>(x: T, r: seq<T>, cmp: (T, T) -> int): (out: seq<T>)
    ensures multiset(out) == multiset(r) + multiset{x}
  {
    if r == [] || cmp(x, r[0]) <= 0 then [x] + r
    else
      assert r == [r[0]] + r[1..];
      [r[0]] + Insert(x, r[1..], cmp)
  }

  /** `[...s].sort(cmp)`: a permutation of `s`. */
  function SortBy<T>(s: seq<T>, cmp: (T, T) -> int): (r: seq<T>)
    ensures multiset(r) == multiset(s)
    ensures |r| == |s|
  {
    if s == [] then []
    else
      assert s == [s[0]] + s[1..];
      Insert(s[0], SortBy(s[1..], cmp), cmp)
  }

  /** Inserting into a sorted sequence keeps it sorted; `u` holds every
      element involved and `cmp` is consistent on it. */
  lemma {:induction false} InsertSorted<T>(x: T, r: seq<T>, cmp: (T, T) -> int, u: seq<T>)
    requires Consistent(cmp, u) && x in u && forall y | y in r :: y in u
    requires Sorted(r, cmp)
    ensures Sorted(Insert(x, r, cmp), cmp)
  {
    if r == [] {
    } else if cmp(x, r[0]) <= 0 {
      forall j | 0 <= j < |r| ensures cmp(x, r[j]) <= 0 {
        if j > 0 {
          Chain(cmp, u, x, r[0], r[j]);
        }
      }
    } else {
      Flip(cmp, u, r[0], x);
      var tail := Insert(x, r[1..], cmp);
      InsertSorted(x, r[1..], cmp, u);
      forall j | 0 <= j < |tail| ensures cmp(r[0], tail[j]) <= 0 {
        assert tail[j] in multiset(tail);
        assert tail[j] == x || tail[j] in r[1..];
      }
    }
  }

  lemma {:induction false} SortBySortedIn<T>(s: seq<T>, cmp: (T, T) -> int, u: seq<T>)
    requires Consistent(cmp, u) && forall y | y in s :: y in u
    ensures Sorted(SortBy(s, cmp), cmp)
  {
    if s != [] {
      SortBySortedIn(s[1..], cmp, u);
      var rest := SortBy(s[1..], cmp);
      SortByWithin(s[1..], cmp, u);
      InsertSorted(s[0], rest, cmp, u);
    }
  }

  /** Under a consistent comparator the result is sorted. */
  lemma SortBySorted<T>(s: seq<T>, cmp: (T, T) -> int)
    requires Consistent(cmp, s)
    ensures Sorted(SortBy(s, cmp), cmp)
  {
    SortBySortedIn(s, cmp, s);
  }

  /** The elements of `s` level with `e` under `cmp`, in the order `s` has
      them. */
  function Level<T>(s: seq<T>, cmp: (T, T) -> int, e: T): seq<T>
  {
    if s == [] then [] else (if cmp(e, s[0]) == 0 then [s[0]] else []) + Level(s[1..], cmp, e)
  }

  lemma LevelCons<T>(x: T, r: seq<T>, cmp: (T, T) -> int, e: T)
    ensures Level([x] + r, cmp, e) == (if cmp(e, x) == 0 then [x] else []) + Level(r, cmp, e)
  {
    assert ([x] + r)[1..] == r;
  }

  lemma {:induction false} InsertStable<T>(x: T, r: seq<T>, cmp: (T, T) -> int, e: T, u: seq<T>)
    requires Consistent(cmp, u) && e in u && x in u && forall y | y in r :: y in u
    ensures Level(Insert(x, r, cmp), cmp, e) == (if cmp(e, x) == 0 then [x] else []) + Level(r, cmp, e)
  {
    if r == [] || cmp(x, r[0]) <= 0 {
      LevelCons(x, r, cmp, e);
    } else {
      InsertStable(x, r[1..], cmp, e, u);
      // x and r[0] are not level with each other, so at most one is level with e
      if cmp(e, x) == 0 && cmp(e, r[0]) == 0 {
        Flip(cmp, u, x, e);
        assert false;
      }
      LevelPastHead(x, r, cmp, e);
    }
  }

  /** Inserting `x` past the head of `r`, when at most one of the two is
      level with `e`, adds `x` to the front of the level elements. */
  lemma LevelPastHead<T>(x: T, r: seq<T>, cmp: (T, T) -> int, e: T)
    requires r != [] && cmp(x, r[0]) > 0
    requires !(cmp(e, x) == 0 && cmp(e, r[0]) == 0)
    requires Level(Insert(x, r[1..], cmp), cmp, e) == (if cmp(e, x) == 0 then [x] else []) + Level(r[1..], cmp, e)
    ensures Level(Insert(x, r, cmp), cmp, e) == (if cmp(e, x) == 0 then [x] else []) + Level(r, cmp, e)
  {
    var tail := Insert(x, r[1..], cmp);
    var head := if cmp(e, r[0]) == 0 then [r[0]] else [];
    var mid := if cmp(e, x) == 0 then [x] else [];
    var rest := Level(r[1..], cmp, e);
    calc {
      Level(Insert(x, r, cmp), cmp, e);
    == { InsertPast(x, r, cmp); }
      Level([r[0]] + tail, cmp, e);
    == { LevelCons(r[0], tail, cmp, e); }
      head + Level(tail, cmp, e);
    == // the inductive hypothesis, as required
      head + (mid + rest);
    == { SwapAroundEmpty(head, mid, rest); }
      mid + (head + rest);
    == // Level unfolds once on a non-empty sequence
      mid + Level(r, cmp, e);
    }
  }

  /** Past an element it comes after, `x` is inserted into the tail. */
  lemma InsertPast<T>(x: T, r: seq<T>, cmp: (T, T) -> int)
    requires r != [] && cmp(x, r[0]) > 0
    ensures Insert(x, r, cmp) == [r[0]] + Insert(x, r[1..], cmp)
  {
  }

  lemma SwapAroundEmpty<T>(a: seq<T>, b: seq<T>, c: seq<T>)
    requires a == [] || b == []
    ensures a + (b + c) == b + (a + c)
  {
  }

  lemma {:induction false} SortByStableIn<T>(s: seq<T>, cmp: (T, T) -> int, e: T, u: seq<T>)
    requires Consistent(cmp, u) && e in u && forall y | y in s :: y in u
    ensures Level(SortBy(s, cmp), cmp, e) == Level(s, cmp, e)
  {
    if s != [] {
      SortByStableIn(s[1..], cmp, e, u);
      var rest := SortBy(s[1..], cmp);
      SortByWithin(s[1..], cmp, u);
      InsertStable(s[0], rest, cmp, e, u);
      assert s == [s[0]] + s[1..];
      LevelCons(s[0], s[1..], cmp, e);
    }
  }

  /** Sorting draws its elements from the input, hence from any universe
      the input is drawn from. */
  lemma SortByWithin<T>(s: seq<T>, cmp: (T, T) -> int, u: seq<T>)
    requires forall y | y in s :: y in u
    ensures forall y | y in SortBy(s, cmp) :: y in u
  {
    forall y | y in SortBy(s, cmp) ensures y in u {
      assert y in multiset(SortBy(s, cmp));
    }
  }

  /** Stability: the elements level with any `e` keep their relative order. */
  lemma SortByStable<T>(s: seq<T>, cmp: (T, T) -> int, e: T)
    requires Consistent(cmp, s) && e in s
    ensures Level(SortBy(s, cmp), cmp, e) == Level(s, cmp, e)
  {
    SortByStableIn(s, cmp, e, s);
  }
}

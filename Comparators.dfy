// The comparators both problem lists hand to Array.prototype.sort, written
// the way JavaScript evaluates them: a subtraction of numbers, a string
// comparison, and `x || y` to fall back to a second key when the first is
// zero. Each comparator is paired with the field-level relation it
// stands for, and the sort needs each one to be a consistent order.

module Comparators {
  import opened Types
  import Strings
  import opened Sorting

  // ---------------------------------------------------------------------
  // Building blocks

  /** `x || y` on two numbers: `x`, unless it is falsy (zero), then `y`. */
  function Or(x: int, y: int): int
  {
    if x != 0 then x else y
  }

  /** `c1(a, b) || c2(a, b)`: order by `c1`, break its ties with `c2`. */
  function Then<T>(c1: (T, T) -> int, c2: (T, T) -> int): (T, T) -> int
  {
    (a: T, b: T) => Or(c1(a, b), c2(a, b))
  }

  /** `key(a) - key(b)`: smaller keys first. */
  function Ascending<T>(key: T -> int): (T, T) -> int
  {
    (a: T, b: T) => key(a) - key(b)
  }

  /** `key(b) - key(a)`: larger keys first. */
  function Descending<T>(key: T -> int): (T, T) -> int
  {
    (a: T, b: T) => key(b) - key(a)
  }

  function SolvedCount(p: Problem): int
  {
    p.solvedCount
  }

  /** `a.name.localeCompare(b.name)`. */
  function NameOrder(a: Problem, b: Problem): int
  {
    Strings.Compare(a.name, b.name)
  }

  /** `a.category.localeCompare(b.category)`. */
  function CategoryOrder(a: Problem, b: Problem): int
  {
    Strings.Compare(a.category, b.category)
  }

  /** The table `{ Easy: 0, Medium: 1, Hard: 2 }`; any other label is not
      in it (`undefined`). */
  function Rank(d: Difficulty): (r: Option<int>)
    ensures r.Some? <==> Listed(d)
    ensures r.Some? ==> 0 <= r.value <= 2
  {
    match d
    case Easy => Some(0)
    case Medium => Some(1)
    case Hard => Some(2)
    case Unlisted(_) => None
  }

  /** `difficultyOrder[a] - difficultyOrder[b]`. With an unlisted label the
      difference is NaN, which is falsy like zero, so before `||` it is
      written as zero. */
  function DifficultyOrder(a: Problem, b: Problem): int
  {
    var ra := Rank(a.difficulty);
    var rb := Rank(b.difficulty);
    if ra.Some? && rb.Some? then ra.value - rb.value else 0
  }

  /** The last-solved comparator: never-solved problems go last, and
      solved ones newest first. */
  function LastSolvedOrder(a: Problem, b: Problem): (r: int)
    ensures a.lastSolved.Some? && b.lastSolved.None? ==> r < 0
    ensures a.lastSolved.None? && b.lastSolved.Some? ==> r > 0
    ensures a.lastSolved.Some? && b.lastSolved.Some? ==>
      (r < 0 <==> a.lastSolved.value > b.lastSolved.value)
    ensures r == 0 <==> a.lastSolved == b.lastSolved
  {
    if a.lastSolved.None? && b.lastSolved.None? then 0
    else if a.lastSolved.None? then 1
    else if b.lastSolved.None? then -1
    else b.lastSolved.value - a.lastSolved.value
  }

  // ---------------------------------------------------------------------
  // What each order means, field by field: "a may come before b"

  predicate NameAtMost(a: Problem, b: Problem)
  {
    Strings.Compare(a.name, b.name) <= 0
  }

  predicate CategoryThenName(a: Problem, b: Problem)
  {
    Strings.Compare(a.category, b.category) < 0 || (a.category == b.category && NameAtMost(a, b))
  }

  /** Easy before Medium before Hard, then by name. */
  predicate DifficultyThenName(a: Problem, b: Problem)
  {
    var ra := Rank(a.difficulty);
    var rb := Rank(b.difficulty);
    (ra.Some? && rb.Some? && ra.value < rb.value) || (a.difficulty == b.difficulty && NameAtMost(a, b))
  }

  /** Solved before never solved, and the later instant first. */
  predicate NewerFirst(a: Problem, b: Problem)
  {
    b.lastSolved.Some? ==> a.lastSolved.Some? && a.lastSolved.value >= b.lastSolved.value
  }

  predicate FewerSolved(a: Problem, b: Problem)
  {
    a.solvedCount <= b.solvedCount
  }

  predicate MoreSolved(a: Problem, b: Problem)
  {
    a.solvedCount >= b.solvedCount
  }

  predicate FewerSolvedThenName(a: Problem, b: Problem)
  {
    a.solvedCount < b.solvedCount || (a.solvedCount == b.solvedCount && NameAtMost(a, b))
  }

  predicate MoreSolvedThenName(a: Problem, b: Problem)
  {
    a.solvedCount > b.solvedCount || (a.solvedCount == b.solvedCount && NameAtMost(a, b))
  }

  lemma CategoryThenNameMeaning(a: Problem, b: Problem)
    ensures Then(CategoryOrder, NameOrder)(a, b) <= 0 <==> CategoryThenName(a, b)
  {
    assert Then(CategoryOrder, NameOrder)(a, b) == Or(CategoryOrder(a, b), NameOrder(a, b));
  }

  /** For listed difficulties; an unlisted one falls through to the names. */
  lemma DifficultyThenNameMeaning(a: Problem, b: Problem)
    ensures Listed(a.difficulty) && Listed(b.difficulty) ==>
      (Then(DifficultyOrder, NameOrder)(a, b) <= 0 <==> DifficultyThenName(a, b))
    ensures !(Listed(a.difficulty) && Listed(b.difficulty)) ==>
      Then(DifficultyOrder, NameOrder)(a, b) == NameOrder(a, b)
  {
    assert Then(DifficultyOrder, NameOrder)(a, b) == Or(DifficultyOrder(a, b), NameOrder(a, b));
  }

  lemma LastSolvedMeaning(a: Problem, b: Problem)
    ensures LastSolvedOrder(a, b) <= 0 <==> NewerFirst(a, b)
  {
  }

  lemma SolvedMeaning(a: Problem, b: Problem)
    ensures Ascending(SolvedCount)(a, b) <= 0 <==> FewerSolved(a, b)
    ensures Descending(SolvedCount)(a, b) <= 0 <==> MoreSolved(a, b)
    ensures Then(Ascending(SolvedCount), NameOrder)(a, b) <= 0 <==> FewerSolvedThenName(a, b)
    ensures Then(Descending(SolvedCount), NameOrder)(a, b) <= 0 <==> MoreSolvedThenName(a, b)
  {
    assert Ascending(SolvedCount)(a, b) == SolvedCount(a) - SolvedCount(b);
    assert SolvedCount(a) == a.solvedCount;
  }

  // ---------------------------------------------------------------------
  // Consistency: each comparator is an order the sort can rely on

  /** Breaking the ties of one consistent order with another gives a
      consistent order. */
  lemma ThenConsistent<T>(c1: (T, T) -> int, c2: (T, T) -> int, s: seq<T>)
    requires Consistent(c1, s) && Consistent(c2, s)
    ensures Consistent(Then(c1, c2), s)
  {
    var t := Then(c1, c2);
    forall a, b | a in s && b in s ensures Sign(t(a, b)) == -Sign(t(b, a)) {
      Flip(c1, s, a, b);
      Flip(c2, s, a, b);
    }
    forall a, b, c | a in s && b in s && c in s && t(a, b) <= 0 && t(b, c) <= 0
      ensures t(a, c) <= 0
    {
      ThenStep(c1, c2, s, a, b, c);
    }
  }

  lemma ThenStep<T>(c1: (T, T) -> int, c2: (T, T) -> int, s: seq<T>, a: T, b: T, c: T)
    requires Consistent(c1, s) && Consistent(c2, s) && a in s && b in s && c in s
    requires Then(c1, c2)(a, b) <= 0 && Then(c1, c2)(b, c) <= 0
    ensures Then(c1, c2)(a, c) <= 0
  {
    assert c1(a, b) <= 0 && c1(b, c) <= 0;
    Chain(c1, s, a, b, c);
    if c1(a, c) == 0 {
      // Both steps are then ties of c1, and c2 decides.
      Flip(c1, s, a, c);
      Chain(c1, s, c, a, b);
      Flip(c1, s, b, c);
      Chain(c1, s, b, c, a);
      Flip(c1, s, a, b);
      Chain(c2, s, a, b, c);
    }
  }

  lemma AscendingConsistent<T>(key: T -> int, s: seq<T>)
    ensures Consistent(Ascending(key), s)
  {
  }

  lemma DescendingConsistent<T>(key: T -> int, s: seq<T>)
    ensures Consistent(Descending(key), s)
  {
  }

  lemma NameOrderConsistent(s: seq<Problem>)
    ensures Consistent(NameOrder, s)
  {
    forall a, b | a in s && b in s ensures Sign(NameOrder(a, b)) == -Sign(NameOrder(b, a)) {
      Strings.CompareAntisymmetric(a.name, b.name);
    }
    forall a, b, c | a in s && b in s && c in s && NameOrder(a, b) <= 0 && NameOrder(b, c) <= 0
      ensures NameOrder(a, c) <= 0
    {
      Strings.CompareTransitive(a.name, b.name, c.name);
    }
  }

  lemma CategoryOrderConsistent(s: seq<Problem>)
    ensures Consistent(CategoryOrder, s)
  {
    forall a, b | a in s && b in s ensures Sign(CategoryOrder(a, b)) == -Sign(CategoryOrder(b, a)) {
      Strings.CompareAntisymmetric(a.category, b.category);
    }
    forall a, b, c | a in s && b in s && c in s && CategoryOrder(a, b) <= 0 && CategoryOrder(b, c) <= 0
      ensures CategoryOrder(a, c) <= 0
    {
      Strings.CompareTransitive(a.category, b.category, c.category);
    }
  }

  /** Only the listed difficulties form an order: an unlisted label ties
      with every other, which breaks transitivity. */
  lemma DifficultyOrderConsistent(s: seq<Problem>)
    requires forall p | p in s :: Listed(p.difficulty)
    ensures Consistent(DifficultyOrder, s)
  {
  }

  lemma LastSolvedOrderConsistent(s: seq<Problem>)
    ensures Consistent(LastSolvedOrder, s)
  {
  }

  /** The unlisted-difficulty failure, exhibited: Hard ties with an unlisted
      label, which ties with Easy, yet Hard comes after Easy. */
  lemma DifficultyOrderNotConsistentWithUnlisted()
    ensures var easy := Problem("a", "", Easy, "", 0, None);
      var other := Problem("a", "", Unlisted("?"), "", 0, None);
      var hard := Problem("a", "", Hard, "", 0, None);
      !Consistent(Then(DifficultyOrder, NameOrder), [easy, other, hard])
  {
    var easy := Problem("a", "", Easy, "", 0, None);
    var other := Problem("a", "", Unlisted("?"), "", 0, None);
    var hard := Problem("a", "", Hard, "", 0, None);
    var t := Then(DifficultyOrder, NameOrder);
    assert t(hard, other) == Or(DifficultyOrder(hard, other), NameOrder(hard, other)) == 0;
    assert t(other, easy) == Or(DifficultyOrder(other, easy), NameOrder(other, easy)) == 0;
    assert t(hard, easy) == Or(DifficultyOrder(hard, easy), NameOrder(hard, easy)) == 2;
  }
}

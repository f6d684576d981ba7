// The problem list of the dashboard (src/app/components/ProblemList.tsx):
// the category pills, the search and category filter, the five sort
// orders applied to a copy of the filtered list, and the category toggle.

module ProblemList {
  import opened Types
  import Seqs
  import Strings
  import opened Sorting
  import opened Comparators

  // ---------------------------------------------------------------------
  // Categories

  /** `problems.map(p => p.category)`. */
  function CategoryColumn(problems: seq<Problem>): (all: seq<string>)
    ensures |all| == |problems|
    ensures forall i | 0 <= i < |problems| :: all[i] == problems[i].category
  {
    seq(|problems|, i requires 0 <= i < |problems| => problems[i].category)
  }

  /** The categories of the problems, once each, in string order. */
  function Categories(problems: seq<Problem>): (r: seq<string>)
    ensures forall c | c in r :: c in CategoryColumn(problems)
    ensures forall c | c in CategoryColumn(problems) :: c in r
  {
    var d := Seqs.Distinct(CategoryColumn(problems));
    var r := SortBy(d, Strings.Compare);
    assert forall c | c in r :: c in multiset(d);
    assert forall c | c in d :: c in multiset(r);
    r
  }

  /** Exactly the categories that occur among the problems. */
  lemma CategoriesExact(problems: seq<Problem>)
    ensures forall p | p in problems :: p.category in Categories(problems)
    ensures forall c | c in Categories(problems) :: exists p | p in problems :: p.category == c
  {
    var all := CategoryColumn(problems);
    forall p | p in problems ensures p.category in all {
      var i :| 0 <= i < |problems| && problems[i] == p;
      assert all[i] == p.category;
    }
    forall c | c in Categories(problems) ensures exists p | p in problems :: p.category == c {
      var i :| 0 <= i < |all| && all[i] == c;
      assert problems[i] in problems;
    }
  }

  /** The categories are strictly increasing, so no category appears twice. */
  lemma CategoriesStrictlySorted(problems: seq<Problem>)
    ensures var r := Categories(problems);
      forall i, j | 0 <= i < j < |r| :: Strings.Compare(r[i], r[j]) < 0
  {
    var d := Seqs.Distinct(CategoryColumn(problems));
    var r := Categories(problems);
    assert r == SortBy(d, Strings.Compare);
    StringOrderConsistent(d);
    SortBySorted(d, Strings.Compare);
    Seqs.PermutationNoDuplicates(r, d);
  }

  lemma StringOrderConsistent(s: seq<string>)
    ensures Consistent(Strings.Compare, s)
  {
    forall a, b | a in s && b in s ensures Sign(Strings.Compare(a, b)) == -Sign(Strings.Compare(b, a)) {
      Strings.CompareAntisymmetric(a, b);
    }
    forall a, b, c | a in s && b in s && c in s && Strings.Compare(a, b) <= 0 && Strings.Compare(b, c) <= 0
      ensures Strings.Compare(a, c) <= 0
    {
      Strings.CompareTransitive(a, b, c);
    }
  }

  // ---------------------------------------------------------------------
  // Search and category filter

  /** The query, lowercased, occurs in the lowercased name or category. */
  predicate MatchesSearch(p: Problem, query: string)
  {
    Strings.Includes(Strings.Lower(p.name), Strings.Lower(query))
    || Strings.Includes(Strings.Lower(p.category), Strings.Lower(query))
  }

  /** No active category (null, or the empty string, which is falsy)
      lets everything through; otherwise the category must be equal. */
  predicate MatchesCategory(p: Problem, active: Option<string>)
  {
    active.None? || active.value == "" || p.category == active.value
  }

  function Passes(query: string, active: Option<string>): Problem -> bool
  {
    (p: Problem) => MatchesSearch(p, query) && MatchesCategory(p, active)
  }

  /** `filteredProblems`: the problems passing both tests, in order. */
  function FilterProblems(problems: seq<Problem>, query: string, active: Option<string>): (r: seq<Problem>)
    ensures forall p | p in r :: p in problems && MatchesSearch(p, query) && MatchesCategory(p, active)
    ensures forall p | p in problems && MatchesSearch(p, query) && MatchesCategory(p, active) :: p in r
    ensures |r| == |set i | 0 <= i < |problems| && MatchesSearch(problems[i], query) && MatchesCategory(problems[i], active)|
    ensures Seqs.IsSubsequence(r, problems)
  {
    Seqs.FilterIsSubsequence(problems, Passes(query, active));
    Seqs.FilterLengthCountsPositions(problems, Passes(query, active));
    assert Seqs.Positions(problems, Passes(query, active))
        == set i | 0 <= i < |problems| && MatchesSearch(problems[i], query) && MatchesCategory(problems[i], active);
    Seqs.Filter(problems, Passes(query, active))
  }

  /** The search ignores the case of the query: lowering it first changes
      nothing. */
  lemma SearchIgnoresQueryCase(p: Problem, query: string)
    ensures MatchesSearch(p, Strings.Lower(query)) <==> MatchesSearch(p, query)
  {
    Strings.LowerIdempotent(query);
  }

  /** An empty query and no category: the whole list, in order. */
  lemma FilterNothing(problems: seq<Problem>)
    ensures FilterProblems(problems, "", None) == problems
  {
    forall p | p in problems ensures Passes("", None)(p) {
      Strings.IncludesEmpty(Strings.Lower(p.name));
    }
    Seqs.FilterAll(problems, Passes("", None));
  }

  // ---------------------------------------------------------------------
  // Sorting

  datatype SortOption = LastSolved | ByCategory | ByDifficulty | SolvedAsc | SolvedDesc

  /** The comparator the list hands to the sort for each option. */
  function Comparator(o: SortOption): (Problem, Problem) -> int
  {
    match o
    case LastSolved => LastSolvedOrder
    case ByCategory => Then(CategoryOrder, NameOrder)
    case ByDifficulty => Then(DifficultyOrder, NameOrder)
    case SolvedAsc => Ascending(SolvedCount)
    case SolvedDesc => Descending(SolvedCount)
  }

  /** "a may come before b" under each option, field by field. */
  predicate Precedes(o: SortOption, a: Problem, b: Problem)
  {
    match o
    case LastSolved => NewerFirst(a, b)
    case ByCategory => CategoryThenName(a, b)
    case ByDifficulty => DifficultyThenName(a, b)
    case SolvedAsc => FewerSolved(a, b)
    case SolvedDesc => MoreSolved(a, b)
  }

  /** The difficulty order needs every difficulty to be listed. */
  predicate Orderable(problems: seq<Problem>, o: SortOption)
  {
    o.ByDifficulty? ==> forall p | p in problems :: Listed(p.difficulty)
  }

  /** The comparator says "not after" exactly when the relation holds. */
  lemma ComparatorMeaning(o: SortOption, a: Problem, b: Problem)
    requires o.ByDifficulty? ==> Listed(a.difficulty) && Listed(b.difficulty)
    ensures Comparator(o)(a, b) <= 0 <==> Precedes(o, a, b)
  {
    match o
    case LastSolved => LastSolvedMeaning(a, b);
    case ByCategory => CategoryThenNameMeaning(a, b);
    case ByDifficulty => DifficultyThenNameMeaning(a, b);
    case SolvedAsc => SolvedMeaning(a, b);
    case SolvedDesc => SolvedMeaning(a, b);
  }

  lemma ComparatorConsistent(problems: seq<Problem>, o: SortOption)
    requires Orderable(problems, o)
    ensures Consistent(Comparator(o), problems)
  {
    match o
    case LastSolved => LastSolvedOrderConsistent(problems);
    case ByCategory =>
      CategoryOrderConsistent(problems);
      NameOrderConsistent(problems);
      ThenConsistent(CategoryOrder, NameOrder, problems);
    case ByDifficulty =>
      DifficultyOrderConsistent(problems);
      NameOrderConsistent(problems);
      ThenConsistent(DifficultyOrder, NameOrder, problems);
    case SolvedAsc => AscendingConsistent(SolvedCount, problems);
    case SolvedDesc => DescendingConsistent(SolvedCount, problems);
  }

  /** `[...filteredProblems].sort(...)`: a rearrangement of its input. */
  function SortProblems(problems: seq<Problem>, o: SortOption): (r: seq<Problem>)
    ensures multiset(r) == multiset(problems)
    ensures |r| == |problems|
  {
    SortBy(problems, Comparator(o))
  }

  /** The list as shown: filtered, then sorted. */
  function Visible(problems: seq<Problem>, query: string, active: Option<string>, o: SortOption): (r: seq<Problem>)
    ensures multiset(r) == multiset(FilterProblems(problems, query, active))
  {
    SortProblems(FilterProblems(problems, query, active), o)
  }

  /** Every shown problem precedes every later one under the option. */
  lemma SortProblemsOrdered(problems: seq<Problem>, o: SortOption)
    requires Orderable(problems, o)
    ensures var r := SortProblems(problems, o);
      forall i, j | 0 <= i < j < |r| :: Precedes(o, r[i], r[j])
  {
    var r := SortProblems(problems, o);
    ComparatorConsistent(problems, o);
    SortBySorted(problems, Comparator(o));
    forall i, j | 0 <= i < j < |r| ensures Precedes(o, r[i], r[j]) {
      assert r[i] in multiset(problems) && r[j] in multiset(problems);
      ComparatorMeaning(o, r[i], r[j]);
    }
  }

  /** Problems the option cannot tell apart from `e` (the same count, or
      both never solved) keep their relative order. */
  lemma SortProblemsStable(problems: seq<Problem>, o: SortOption, e: Problem)
    requires Orderable(problems, o) && e in problems
    ensures Level(SortProblems(problems, o), Comparator(o), e) == Level(problems, Comparator(o), e)
  {
    ComparatorConsistent(problems, o);
    SortByStable(problems, Comparator(o), e);
  }

  // ---------------------------------------------------------------------
  // Category pills

  /** Clicking a category pill: the active one is cleared, any other
      becomes active. */
  function ToggleCategory(active: Option<string>, clicked: string): (r: Option<string>)
    ensures active == Some(clicked) ==> r == None
    ensures active != Some(clicked) ==> r == Some(clicked)
  {
    if active == Some(clicked) then None else Some(clicked)
  }

  /** Clicking the same pill twice returns to a cleared filter, or to
      that pill when it was the active one. */
  lemma ToggleTwice(active: Option<string>, clicked: string)
    ensures ToggleCategory(ToggleCategory(active, clicked), clicked)
      == (if active == Some(clicked) then Some(clicked) else None)
  {
  }
}

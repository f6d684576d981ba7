// The older table view of the problems (src/components/ProblemList.tsx):
// six sort orders applied to a copy of the list, and the "time"/"times"
// label of the solved column.

module LegacyProblemList {
  import opened Types
  import opened Sorting
  import opened Comparators

  datatype SortOption = DefaultAsc | DefaultDesc | ByType | ByDifficulty | SolvedAsc | SolvedDesc

  /** The comparator the table hands to the sort for each option; both
      defaults break count ties by name ascending. */
  function Comparator(o: SortOption): (Problem, Problem) -> int
  {
    match o
    case DefaultAsc => Then(Ascending(SolvedCount), NameOrder)
    case DefaultDesc => Then(Descending(SolvedCount), NameOrder)
    case ByType => Then(CategoryOrder, NameOrder)
    case ByDifficulty => Then(DifficultyOrder, NameOrder)
    case SolvedAsc => Ascending(SolvedCount)
    case SolvedDesc => Descending(SolvedCount)
  }

  /** "a may come before b" under each option, field by field. */
  predicate Precedes(o: SortOption, a: Problem, b: Problem)
  {
    match o
    case DefaultAsc => FewerSolvedThenName(a, b)
    case DefaultDesc => MoreSolvedThenName(a, b)
    case ByType => CategoryThenName(a, b)
    case ByDifficulty => DifficultyThenName(a, b)
    case SolvedAsc => FewerSolved(a, b)
    case SolvedDesc => MoreSolved(a, b)
  }

  /** The difficulty order needs every difficulty to be listed. */
  predicate Orderable(problems: seq<Problem>, o: SortOption)
  {
    o.ByDifficulty? ==> forall p | p in problems :: Listed(p.difficulty)
  }

  /** The comparator says "not after" exactly when the relation holds. */
  lemma ComparatorMeaning(o: SortOption, a: Problem, b: Problem)
    requires o.ByDifficulty? ==> Listed(a.difficulty) && Listed(b.difficulty)
    ensures Comparator(o)(a, b) <= 0 <==> Precedes(o, a, b)
  {
    match o
    case DefaultAsc => SolvedMeaning(a, b);
    case DefaultDesc => SolvedMeaning(a, b);
    case ByType => CategoryThenNameMeaning(a, b);
    case ByDifficulty => DifficultyThenNameMeaning(a, b);
    case SolvedAsc => SolvedMeaning(a, b);
    case SolvedDesc => SolvedMeaning(a, b);
  }

  lemma ComparatorConsistent(problems: seq<Problem>, o: SortOption)
    requires Orderable(problems, o)
    ensures Consistent(Comparator(o), problems)
  {
    match o
    case DefaultAsc =>
      AscendingConsistent(SolvedCount, problems);
      NameOrderConsistent(problems);
      ThenConsistent(Ascending(SolvedCount), NameOrder, problems);
    case DefaultDesc =>
      DescendingConsistent(SolvedCount, problems);
      NameOrderConsistent(problems);
      ThenConsistent(Descending(SolvedCount), NameOrder, problems);
    case ByType =>
      CategoryOrderConsistent(problems);
      NameOrderConsistent(problems);
      ThenConsistent(CategoryOrder, NameOrder, problems);
    case ByDifficulty =>
      DifficultyOrderConsistent(problems);
      NameOrderConsistent(problems);
      ThenConsistent(DifficultyOrder, NameOrder, problems);
    case SolvedAsc => AscendingConsistent(SolvedCount, problems);
    case SolvedDesc => DescendingConsistent(SolvedCount, problems);
  }

  /** `[...problems].sort(...)`: a rearrangement of the list; the list
      itself is a value and is left as it was. */
  function SortProblems(problems: seq<Problem>, o: SortOption): (r: seq<Problem>)
    ensures multiset(r) == multiset(problems)
    ensures |r| == |problems|
  {
    SortBy(problems, Comparator(o))
  }

  /** Every row precedes every later one under the option. */
  lemma SortProblemsOrdered(problems: seq<Problem>, o: SortOption)
    requires Orderable(problems, o)
    ensures var r := SortProblems(problems, o);
      forall i, j | 0 <= i < j < |r| :: Precedes(o, r[i], r[j])
  {
    var r := SortProblems(problems, o);
    ComparatorConsistent(problems, o);
    SortBySorted(problems, Comparator(o));
    forall i, j | 0 <= i < j < |r| ensures Precedes(o, r[i], r[j]) {
      assert r[i] in multiset(problems) && r[j] in multiset(problems);
      ComparatorMeaning(o, r[i], r[j]);
    }
  }

  /** Rows the option cannot tell apart from `e` keep their relative order. */
  lemma SortProblemsStable(problems: seq<Problem>, o: SortOption, e: Problem)
    requires Orderable(problems, o) && e in problems
    ensures Level(SortProblems(problems, o), Comparator(o), e) == Level(problems, Comparator(o), e)
  {
    ComparatorConsistent(problems, o);
    SortByStable(problems, Comparator(o), e);
  }

  /** The unit after the solved count. */
  function SolvedLabel(solvedCount: nat): (r: string)
    ensures r == "time" <==> solvedCount == 1
    ensures r == "times" <==> solvedCount != 1
  {
    if solvedCount == 1 then "time" else "times"
  }
}

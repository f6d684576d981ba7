// The dashboard page (src/app/page.tsx): it reconciles the catalog with the
// latest submissions, filters the problems by the selected difficulty tab,
// counts solved problems per difficulty, and on every polling cycle fetches
// submissions and appends them to the session store.

module Page {
  import opened Types
  import Seqs
  import Api

  // ---------------------------------------------------------------------
  // Reconciliation

  /** The test "is a submission of the problem at `link`". */
  function ForLink(link: string): Submission -> bool
  {
    (s: Submission) => s.link == link
  }

  /** The submissions of the problem at `link`, in list order. */
  function Matching(subs: seq<Submission>, link: string): seq<Submission>
  {
    Seqs.Filter(subs, ForLink(link))
  }

  /** The fields reconciliation must not touch agree. */
  predicate SameEntry(p: Problem, q: Problem)
  {
    p.name == q.name && p.category == q.category && p.difficulty == q.difficulty && p.link == q.link
  }

  /** One problem with its statistics recomputed from `subs`. */
  function WithStats(p: Problem, subs: seq<Submission>): (q: Problem)
    ensures SameEntry(q, p)
  {
    var m := Matching(subs, p.link);
    p.(solvedCount := |m|, lastSolved := if |m| > 0 then Some(m[0].timestamp) else None)
  }

  /** The reconciliation effect: with no submissions the problems stay as
      they are; otherwise every problem gets the count of its submissions
      and the time of the first one. */
  function Reconcile(problems: seq<Problem>, subs: seq<Submission>): (r: seq<Problem>)
    ensures |r| == |problems|
    ensures subs == [] ==> r == problems
    ensures forall i :: 0 <= i < |r| ==> SameEntry(r[i], problems[i])
  {
    if |subs| == 0 then problems
    else seq(|problems|, i requires 0 <= i < |problems| => WithStats(problems[i], subs))
  }

  /** The positions in `subs` of submissions of the problem at `link`. */
  ghost function MatchPositions(subs: seq<Submission>, link: string): set<int>
  {
    set k | 0 <= k < |subs| && subs[k].link == link
  }

  /** Each problem's count is the number of submissions with its link. */
  lemma SolvedCountCountsMatches(problems: seq<Problem>, subs: seq<Submission>, i: int)
    requires subs != [] && 0 <= i < |problems|
    ensures Reconcile(problems, subs)[i].solvedCount == |MatchPositions(subs, problems[i].link)|
  {
    var link := problems[i].link;
    Seqs.FilterLengthCountsPositions(subs, ForLink(link));
    assert Seqs.Positions(subs, ForLink(link)) == MatchPositions(subs, link);
  }

  /** Each problem's last-solved time is that of its first submission in
      list order, and absent exactly when it has none. */
  lemma LastSolvedIsFirstMatch(problems: seq<Problem>, subs: seq<Submission>, i: int)
    requires subs != [] && 0 <= i < |problems|
    ensures var q := Reconcile(problems, subs)[i];
      && (q.lastSolved.None? <==> q.solvedCount == 0)
      && (q.lastSolved.Some? ==>
            (exists k :: 0 <= k < |subs| && subs[k].link == q.link
               && q.lastSolved.value == subs[k].timestamp
               && forall j :: 0 <= j < k ==> subs[j].link != q.link))
  {
    var link := problems[i].link;
    var m := Matching(subs, link);
    if m != [] {
      Seqs.FilterHead(subs, ForLink(link));
    }
  }

  /** Newest first: no later position has a later time. */
  predicate NewestFirst(subs: seq<Submission>)
  {
    forall j, k :: 0 <= j < k < |subs| ==> subs[j].timestamp >= subs[k].timestamp
  }

  /** When the list is newest first, as the provider sends it, the first
      match is the latest one. */
  lemma LastSolvedIsLatest(problems: seq<Problem>, subs: seq<Submission>, i: int)
    requires subs != [] && 0 <= i < |problems| && NewestFirst(subs)
    ensures var q := Reconcile(problems, subs)[i];
      q.lastSolved.Some? ==> forall k :: 0 <= k < |subs| && subs[k].link == q.link ==> subs[k].timestamp <= q.lastSolved.value
  {
    LastSolvedIsFirstMatch(problems, subs, i);
  }

  /** With an oldest-first list the first match is the earliest: two
      submissions of one problem at `t1 < t2` give a count of 2 and a
      last-solved time of `t1`. */
  lemma FirstMatchOfOldestFirst(p: Problem, t1: int, t2: int)
    requires t1 < t2
    ensures var q := Reconcile([p], [Submission("", p.link, t1), Submission("", p.link, t2)])[0];
      q.solvedCount == 2 && q.lastSolved == Some(t1)
  {
    var subs := [Submission("", p.link, t1), Submission("", p.link, t2)];
    Seqs.FilterAll(subs, ForLink(p.link));
  }

  /** Reconciling again with the same submissions changes nothing. */
  lemma ReconcileIdempotent(problems: seq<Problem>, subs: seq<Submission>)
    ensures Reconcile(Reconcile(problems, subs), subs) == Reconcile(problems, subs)
  {
    var once := Reconcile(problems, subs);
    var twice := Reconcile(once, subs);
    if subs != [] {
      forall i | 0 <= i < |problems| ensures twice[i] == once[i] {
        assert once[i].link == problems[i].link;
      }
    }
  }

  // ---------------------------------------------------------------------
  // Difficulty tabs

  /** The tab bar: everything, or one difficulty. */
  datatype Tab = AllTab | DifficultyTab(difficulty: Difficulty)

  /** The tabs the page offers, in order. */
  const Tabs: seq<Tab> := [AllTab, DifficultyTab(Easy), DifficultyTab(Medium), DifficultyTab(Hard)]

  /** The tab bar offers All first and then a tab for exactly the three
      listed difficulties, none twice. */
  lemma TabsOffered()
    ensures |Tabs| == 4 && Tabs[0] == AllTab && Seqs.NoDuplicates(Tabs)
    ensures forall d :: DifficultyTab(d) in Tabs <==> Listed(d)
  {
    forall d ensures DifficultyTab(d) in Tabs <==> Listed(d) {
      if DifficultyTab(d) in Tabs {
        var i :| 0 <= i < |Tabs| && Tabs[i] == DifficultyTab(d);
        assert i == 1 || i == 2 || i == 3;
      }
    }
  }

  /** The problems shown under a tab, in catalog order. */
  function TabFilter(problems: seq<Problem>, tab: Tab): (r: seq<Problem>)
    ensures tab.AllTab? ==> r == problems
    ensures tab.DifficultyTab? ==> forall p | p in r :: p in problems && p.difficulty == tab.difficulty
    ensures tab.DifficultyTab? ==> forall p | p in problems && p.difficulty == tab.difficulty :: p in r
    ensures tab.DifficultyTab? ==> |r| == |set i | 0 <= i < |problems| && problems[i].difficulty == tab.difficulty|
    ensures Seqs.IsSubsequence(r, problems)
  {
    match tab
    case AllTab =>
      Seqs.FilterAll(problems, (_: Problem) => true);
      Seqs.FilterIsSubsequence(problems, (_: Problem) => true);
      problems
    case DifficultyTab(d) =>
      var keep := (p: Problem) => p.difficulty == d;
      Seqs.FilterIsSubsequence(problems, keep);
      Seqs.FilterLengthCountsPositions(problems, keep);
      assert Seqs.Positions(problems, keep) == set i | 0 <= i < |problems| && problems[i].difficulty == d;
      Seqs.Filter(problems, keep)
  }

  // ---------------------------------------------------------------------
  // Statistics

  datatype Stats = Stats(easy: nat, medium: nat, hard: nat, solved: nat)

  predicate IsSolved(p: Problem)
  {
    p.solvedCount > 0
  }

  /** The test "solved, and of difficulty `d`". */
  function SolvedAt(d: Difficulty): Problem -> bool
  {
    (p: Problem) => p.difficulty == d && p.solvedCount > 0
  }

  /** The solved problems of each difficulty, and of all of them. */
  function ComputeStats(problems: seq<Problem>): (st: Stats)
    ensures st.solved == |set i | 0 <= i < |problems| && problems[i].solvedCount > 0|
    ensures st.easy == |set i | 0 <= i < |problems| && problems[i].difficulty == Easy && problems[i].solvedCount > 0|
    ensures st.medium == |set i | 0 <= i < |problems| && problems[i].difficulty == Medium && problems[i].solvedCount > 0|
    ensures st.hard == |set i | 0 <= i < |problems| && problems[i].difficulty == Hard && problems[i].solvedCount > 0|
    ensures st.solved <= |problems|
    ensures st.easy + st.medium + st.hard <= st.solved
  {
    var st := Stats(|Seqs.Filter(problems, SolvedAt(Easy))|, |Seqs.Filter(problems, SolvedAt(Medium))|,
                    |Seqs.Filter(problems, SolvedAt(Hard))|, |Seqs.Filter(problems, IsSolved)|);
    SolvedCounts(problems);
    SolvedAtCounts(problems, Easy);
    SolvedAtCounts(problems, Medium);
    SolvedAtCounts(problems, Hard);
    StatsSplit(problems);
    Seqs.FilterMonotone(problems, SolvedListed, IsSolved);
    st
  }

  /** The solved filter has one element per solved position. */
  lemma SolvedCounts(problems: seq<Problem>)
    ensures |Seqs.Filter(problems, IsSolved)| == |set i | 0 <= i < |problems| && problems[i].solvedCount > 0|
  {
    Seqs.FilterLengthCountsPositions(problems, IsSolved);
    assert Seqs.Positions(problems, IsSolved) == set i | 0 <= i < |problems| && problems[i].solvedCount > 0;
  }

  /** The filter for one difficulty has one element per solved position of
      that difficulty. */
  lemma SolvedAtCounts(problems: seq<Problem>, d: Difficulty)
    ensures |Seqs.Filter(problems, SolvedAt(d))|
            == |set i | 0 <= i < |problems| && problems[i].difficulty == d && problems[i].solvedCount > 0|
  {
    Seqs.FilterLengthCountsPositions(problems, SolvedAt(d));
    assert Seqs.Positions(problems, SolvedAt(d))
        == set i | 0 <= i < |problems| && problems[i].difficulty == d && problems[i].solvedCount > 0;
  }

  /** The test "solved, and of one of the three listed difficulties". */
  function SolvedListed(p: Problem): bool
  {
    Listed(p.difficulty) && p.solvedCount > 0
  }

  /** The three difficulty counts split the solved problems of listed
      difficulty. */
  lemma StatsSplit(problems: seq<Problem>)
    ensures |Seqs.Filter(problems, SolvedAt(Easy))| + |Seqs.Filter(problems, SolvedAt(Medium))|
            + |Seqs.Filter(problems, SolvedAt(Hard))| == |Seqs.Filter(problems, SolvedListed)|
  {
    var easyOrMedium := (p: Problem) => (p.difficulty == Easy || p.difficulty == Medium) && p.solvedCount > 0;
    Seqs.FilterPartition(problems, SolvedAt(Easy), SolvedAt(Medium), easyOrMedium);
    Seqs.FilterPartition(problems, easyOrMedium, SolvedAt(Hard), SolvedListed);
  }

  /** When every difficulty is one of the three, the three counts add up to
      the solved count. */
  lemma StatsAddUp(problems: seq<Problem>)
    requires forall p | p in problems :: Listed(p.difficulty)
    ensures var st := ComputeStats(problems); st.easy + st.medium + st.hard == st.solved
  {
    StatsSplit(problems);
    Seqs.FilterMonotone(problems, IsSolved, SolvedListed);
  }

  // ---------------------------------------------------------------------
  // The page's state

  class Dashboard {
    var problems: seq<Problem>
    var recentSubmissions: seq<Submission>
    var lastUpdated: Option<int>
    var isLoading: bool
    var activeTab: Tab
    /** The session store the fetch layer writes to. */
    const store: Api.SessionStore
    /** The instant the fetch layer was loaded; earlier submissions do not count. */
    const trackingStart: int

    constructor (store: Api.SessionStore, trackingStart: int)
      ensures this.store == store && this.trackingStart == trackingStart
      ensures problems == [] && recentSubmissions == [] && lastUpdated == None
      ensures isLoading && activeTab == AllTab
    {
      this.store := store;
      this.trackingStart := trackingStart;
      problems, recentSubmissions, lastUpdated := [], [], None;
      isLoading, activeTab := true, AllTab;
    }

    /** `loadInitialData`: the catalog and the stored submissions. */
    method LoadInitialData(catalog: Option<seq<Api.CatalogRow>>)
      modifies this
      ensures problems == Api.FetchProblems(catalog)
      ensures recentSubmissions == store.Stored()
      ensures !isLoading && lastUpdated == old(lastUpdated) && activeTab == old(activeTab)
    {
      isLoading := true;
      var stored := store.LoadStoredSubmissions();
      problems := Api.FetchProblems(catalog);
      recentSubmissions := stored;
      isLoading := false;
    }

    /** `updateSubmissions`: fetch, replace the in-memory list with what was
        fetched, append that same list to the store, and stamp the time. */
    method UpdateSubmissions(reply: Api.ProxyReply, now: int)
      modifies this, store
      ensures recentSubmissions == Api.FetchRecentSubmissions(reply, trackingStart)
      ensures store.Stored() == old(store.Stored()) + recentSubmissions
      ensures lastUpdated == Some(now) && !isLoading
      ensures problems == old(problems) && activeTab == old(activeTab)
    {
      isLoading := true;
      var submissions := Api.FetchRecentSubmissions(reply, trackingStart);
      recentSubmissions := submissions;
      store.StoreSubmissions(submissions);
      lastUpdated := Some(now);
      isLoading := false;
    }

    /** The effect that runs when the submissions change. */
    method ReconcileProblems()
      modifies this`problems
      ensures problems == Reconcile(old(problems), recentSubmissions)
    {
      problems := Reconcile(problems, recentSubmissions);
    }

    /** One polling cycle: update, then reconcile with what was fetched. */
    method PollCycle(reply: Api.ProxyReply, now: int)
      modifies this, store
      ensures recentSubmissions == Api.FetchRecentSubmissions(reply, trackingStart)
      ensures store.Stored() == old(store.Stored()) + recentSubmissions
      ensures problems == Reconcile(old(problems), recentSubmissions)
      ensures lastUpdated == Some(now) && !isLoading && activeTab == old(activeTab)
    {
      UpdateSubmissions(reply, now);
      ReconcileProblems();
    }

    method SelectTab(tab: Tab)
      modifies this`activeTab
      ensures activeTab == tab
    {
      activeTab := tab;
    }

    /** The problems the list shows: all of them on the All tab, otherwise
        exactly those of the active difficulty, in catalog order. */
    function FilteredProblems(): (r: seq<Problem>)
      reads this
      ensures activeTab.AllTab? ==> r == problems
      ensures activeTab.DifficultyTab? ==> forall p | p in r :: p.difficulty == activeTab.difficulty
      ensures activeTab.DifficultyTab? ==>
        forall p | p in problems && p.difficulty == activeTab.difficulty :: p in r
      ensures activeTab.DifficultyTab? ==>
        |r| == |set i | 0 <= i < |problems| && problems[i].difficulty == activeTab.difficulty|
      ensures Seqs.IsSubsequence(r, problems)
    {
      TabFilter(problems, activeTab)
    }

    /** The counters in the header: the solved problems, and those of each
        listed difficulty. */
    function Statistics(): (st: Stats)
      reads this
      ensures st.solved == |set i | 0 <= i < |problems| && problems[i].solvedCount > 0|
      ensures st.easy == |set i | 0 <= i < |problems| && problems[i].difficulty == Easy && problems[i].solvedCount > 0|
      ensures st.medium == |set i | 0 <= i < |problems| && problems[i].difficulty == Medium && problems[i].solvedCount > 0|
      ensures st.hard == |set i | 0 <= i < |problems| && problems[i].difficulty == Hard && problems[i].solvedCount > 0|
    {
      ComputeStats(problems)
    }
  }
}

// The fetch layer of the dashboard (src/app/utils/api.ts): the catalog rows
// become problems, the proxy's reply becomes the submissions made since
// tracking started, and a session-storage slot accumulates submissions.

module Api {
  import opened Types
  import Seqs
  import JsNumbers

  /** Where a problem's page lives; a slug is appended, then a slash. */
  const ProblemUrlPrefix: string := "https://leetcode.com/problems/"

  /** The largest magnitude of a valid Date, in milliseconds. */
  const MaxTimeValue: int := 8_640_000_000_000_000

  // ---------------------------------------------------------------------
  // The problem catalog

  /** One row of the catalog table, by its column names. */
  datatype CatalogRow = CatalogRow(name: string, category: string, difficulty: string, link: string)

  /** The difficulty a column value names; other values are kept verbatim. */
  function ParseDifficulty(text: string): Difficulty
  {
    if text == "Easy" then Easy
    else if text == "Medium" then Medium
    else if text == "Hard" then Hard
    else Unlisted(text)
  }

  /** The column value of a difficulty. */
  function DifficultyText(d: Difficulty): string
  {
    match d
    case Easy => "Easy"
    case Medium => "Medium"
    case Hard => "Hard"
    case Unlisted(text) => text
  }

  /** The difficulty column survives the mapping unchanged. */
  lemma DifficultyTextRoundTrip(text: string)
    ensures DifficultyText(ParseDifficulty(text)) == text
  {
  }

  /** A difficulty whose text is not one of the three listed names. */
  predicate Canonical(d: Difficulty)
  {
    d.Unlisted? ==> d.text != "Easy" && d.text != "Medium" && d.text != "Hard"
  }

  /** A catalog row as a problem not yet solved. */
  function ToProblem(row: CatalogRow): Problem
  {
    Problem(row.name, row.category, ParseDifficulty(row.difficulty), row.link, 0, None)
  }

  /** The catalog row a problem's descriptive fields come from. */
  function RowOf(p: Problem): CatalogRow
  {
    CatalogRow(p.name, p.category, DifficultyText(p.difficulty), p.link)
  }

  /** Mapping a row loses nothing: the row can be read back. */
  lemma RowOfToProblem(row: CatalogRow)
    ensures RowOf(ToProblem(row)) == row
    ensures Canonical(ToProblem(row).difficulty)
  {
  }

  /** An unsolved problem with a canonical difficulty is the image of its row. */
  lemma ToProblemRowOf(p: Problem)
    requires Canonical(p.difficulty) && p.solvedCount == 0 && p.lastSolved == None
    ensures ToProblem(RowOf(p)) == p
  {
  }

  /** `fetchProblems`: `None` stands for a catalog that could not be read or
      parsed, which yields no problems; otherwise every row becomes a problem
      with no solves. */
  function FetchProblems(rows: Option<seq<CatalogRow>>): (r: seq<Problem>)
    ensures rows.None? ==> r == []
    ensures rows.Some? ==> |r| == |rows.value|
    ensures rows.Some? ==> forall i :: 0 <= i < |r| ==>
      RowOf(r[i]) == rows.value[i] && r[i].solvedCount == 0 && r[i].lastSolved == None
    ensures rows.Some? ==> forall i :: 0 <= i < |r| ==> Canonical(r[i].difficulty)
  {
    match rows
    case None => []
    case Some(rs) =>
      forall i | 0 <= i < |rs|
        ensures RowOf(ToProblem(rs[i])) == rs[i] && Canonical(ToProblem(rs[i]).difficulty)
      {
        RowOfToProblem(rs[i]);
      }
      seq(|rs|, i requires 0 <= i < |rs| => ToProblem(rs[i]))
  }

  // ---------------------------------------------------------------------
  // Recent submissions

  /** One entry of `recentAcSubmissionList`; `timestamp` is seconds since
      the epoch, written as a string. */
  datatype RawSubmission = RawSubmission(title: string, titleSlug: string, timestamp: string)

  /** The `data` member of the GraphQL envelope. */
  datatype Payload = Payload(recentAcSubmissionList: Option<seq<RawSubmission>>)

  /** The JSON body of the proxy's reply. */
  datatype Envelope = Envelope(data: Option<Payload>)

  /** What the request to the proxy produced: no response at all, or a
      response with its `ok` flag and its body (`None` if not JSON). */
  datatype ProxyReply = NetworkFailure | Reply(ok: bool, body: Option<Envelope>)

  /** The canonical link of a problem with the given slug. */
  function ProblemLink(slug: string): (link: string)
    ensures |link| == |ProblemUrlPrefix| + |slug| + 1 && link[|link| - 1] == '/'
    ensures link[..|ProblemUrlPrefix|] == ProblemUrlPrefix
    ensures link[|ProblemUrlPrefix|..|link| - 1] == slug
  {
    ProblemUrlPrefix + slug + "/"
  }

  /** The time value of `new Date(ms)`: `None` (an invalid Date) beyond the
      representable range. */
  function DateValue(ms: int): (t: Option<int>)
    ensures t.Some? <==> -MaxTimeValue <= ms <= MaxTimeValue
    ensures t.Some? ==> t.value == ms
  {
    if -MaxTimeValue <= ms <= MaxTimeValue then Some(ms) else None
  }

  /** The instant of a seconds field: parsed, times 1000, as a Date. An
      unparsable field gives NaN and so an invalid Date. */
  function Instant(timestamp: string): (t: Option<int>)
    ensures JsNumbers.ParseInt(timestamp).None? ==> t.None?
    ensures t.Some? ==> -MaxTimeValue <= t.value <= MaxTimeValue
  {
    match JsNumbers.ParseInt(timestamp)
    case None => None
    case Some(seconds) => DateValue(seconds * 1000)
  }

  /** A seconds field written as an integer denotes that many thousand
      milliseconds, as long as the Date is representable. */
  lemma InstantOfSeconds(seconds: int)
    ensures -MaxTimeValue <= seconds * 1000 <= MaxTimeValue ==>
      Instant(JsNumbers.DecimalString(seconds)) == Some(seconds * 1000)
    ensures !(-MaxTimeValue <= seconds * 1000 <= MaxTimeValue) ==>
      Instant(JsNumbers.DecimalString(seconds)) == None
  {
    JsNumbers.ParseIntDecimalString(seconds);
  }

  /** A submission as first mapped: its Date may be invalid. */
  datatype Mapped = Mapped(title: string, link: string, date: Option<int>)

  function MapRecord(raw: RawSubmission): Mapped
  {
    Mapped(raw.title, ProblemLink(raw.titleSlug), Instant(raw.timestamp))
  }

  function MapRecords(raws: seq<RawSubmission>): (ms: seq<Mapped>)
    ensures |ms| == |raws|
    ensures forall i :: 0 <= i < |raws| ==> ms[i] == MapRecord(raws[i])
  {
    seq(|raws|, i requires 0 <= i < |raws| => MapRecord(raws[i]))
  }

  /** The filter's test: a valid Date no earlier than the tracking start
      (an invalid Date compares false). */
  predicate Tracked(m: Mapped, trackingStart: int)
  {
    m.date.Some? && m.date.value >= trackingStart
  }

  /** The filter's test as a function value. */
  function TrackedSince(trackingStart: int): Mapped -> bool
  {
    m => Tracked(m, trackingStart)
  }

  /** A submission seen as the mapped record it was made from. */
  function AsMapped(s: Submission): Mapped
  {
    Mapped(s.title, s.link, Some(s.timestamp))
  }

  function MappedAll(r: seq<Submission>): (ms: seq<Mapped>)
    ensures |ms| == |r|
    ensures forall i :: 0 <= i < |r| ==> ms[i] == AsMapped(r[i])
  {
    seq(|r|, i requires 0 <= i < |r| => AsMapped(r[i]))
  }

  /** `s` was made from `raw`: the title copied, the link built from the
      slug, the instant read from the seconds field. */
  predicate FromRaw(s: Submission, raw: RawSubmission)
  {
    s.title == raw.title && s.link == ProblemLink(raw.titleSlug) && Instant(raw.timestamp) == Some(s.timestamp)
  }

  /** The submission made from a raw record whose instant is valid. */
  function SubmissionOf(raw: RawSubmission): (s: Submission)
    requires Instant(raw.timestamp).Some?
    ensures FromRaw(s, raw)
  {
    Submission(raw.title, ProblemLink(raw.titleSlug), Instant(raw.timestamp).value)
  }

  /** The submissions of the tracked records, with their Dates read off. */
  function Stamped(kept: seq<Mapped>): (r: seq<Submission>)
    requires forall i :: 0 <= i < |kept| ==> kept[i].date.Some?
    ensures |r| == |kept|
    ensures forall i :: 0 <= i < |kept| ==> AsMapped(r[i]) == kept[i]
  {
    seq(|kept|, i requires 0 <= i < |kept| => Submission(kept[i].title, kept[i].link, kept[i].date.value))
  }

  /** Map every raw record, then keep the tracked ones. */
  function AdmitSubmissions(raws: seq<RawSubmission>, trackingStart: int): (r: seq<Submission>)
    ensures |r| <= |raws|
    ensures forall s | s in r :: s.timestamp >= trackingStart
    ensures forall s | s in r :: exists raw | raw in raws :: FromRaw(s, raw)
    ensures forall raw | raw in raws && Tracked(MapRecord(raw), trackingStart) :: SubmissionOf(raw) in r
    ensures Seqs.IsSubsequence(MappedAll(r), MapRecords(raws))
  {
    var kept := Seqs.Filter(MapRecords(raws), TrackedSince(trackingStart));
    Seqs.FilterKeeps(MapRecords(raws), TrackedSince(trackingStart));
    var r := Stamped(kept);
    AdmitFacts(raws, trackingStart, kept, r);
    r
  }

  /** Every tracked record is kept as often as it occurs: the result has one
      submission per position whose record is tracked. */
  lemma AdmitCount(raws: seq<RawSubmission>, trackingStart: int)
    ensures |AdmitSubmissions(raws, trackingStart)|
            == |set i | 0 <= i < |raws| && Tracked(MapRecord(raws[i]), trackingStart)|
  {
    var mapped := MapRecords(raws);
    var keep := TrackedSince(trackingStart);
    Seqs.FilterLengthCountsPositions(mapped, keep);
    assert Seqs.Positions(mapped, keep)
        == set i | 0 <= i < |raws| && Tracked(MapRecord(raws[i]), trackingStart);
  }

  /** The contract of `AdmitSubmissions`, from the tracked records `kept`
      and the submissions `r` read off them. */
  lemma AdmitFacts(raws: seq<RawSubmission>, trackingStart: int, kept: seq<Mapped>, r: seq<Submission>)
    requires kept == Seqs.Filter(MapRecords(raws), TrackedSince(trackingStart))
    requires |r| == |kept| && forall i :: 0 <= i < |kept| ==> AsMapped(r[i]) == kept[i]
    ensures |r| <= |raws|
    ensures forall s | s in r :: s.timestamp >= trackingStart
    ensures forall s | s in r :: exists raw | raw in raws :: FromRaw(s, raw)
    ensures forall raw | raw in raws && Tracked(MapRecord(raw), trackingStart) :: SubmissionOf(raw) in r
    ensures Seqs.IsSubsequence(MappedAll(r), MapRecords(raws))
  {
    AdmittedAreTracked(raws, trackingStart, MapRecords(raws), kept, r);
    TrackedAreAdmitted(raws, trackingStart, MapRecords(raws), kept, r);
    AdmitOrder(raws, trackingStart, kept, r);
  }

  /** The admitted submissions are the tracked records, in input order. */
  lemma AdmitOrder(raws: seq<RawSubmission>, trackingStart: int, kept: seq<Mapped>, r: seq<Submission>)
    requires kept == Seqs.Filter(MapRecords(raws), TrackedSince(trackingStart))
    requires |r| == |kept| && forall i :: 0 <= i < |kept| ==> AsMapped(r[i]) == kept[i]
    ensures Seqs.IsSubsequence(MappedAll(r), MapRecords(raws))
  {
    assert MappedAll(r) == kept;
    Seqs.FilterIsSubsequence(MapRecords(raws), TrackedSince(trackingStart));
  }

  lemma AdmittedAreTracked(raws: seq<RawSubmission>, trackingStart: int, mapped: seq<Mapped>, kept: seq<Mapped>, r: seq<Submission>)
    requires mapped == MapRecords(raws)
    requires forall m | m in kept :: m in mapped && Tracked(m, trackingStart)
    requires |r| == |kept| && forall i :: 0 <= i < |kept| ==> AsMapped(r[i]) == kept[i]
    ensures forall s | s in r :: s.timestamp >= trackingStart
    ensures forall s | s in r :: exists raw | raw in raws :: FromRaw(s, raw)
  {
    forall s | s in r
      ensures s.timestamp >= trackingStart
      ensures exists raw | raw in raws :: FromRaw(s, raw)
    {
      var i :| 0 <= i < |r| && r[i] == s;
      assert kept[i] in kept;
      var j :| 0 <= j < |mapped| && mapped[j] == kept[i];
      assert raws[j] in raws && FromRaw(s, raws[j]);
    }
  }

  lemma TrackedAreAdmitted(raws: seq<RawSubmission>, trackingStart: int, mapped: seq<Mapped>, kept: seq<Mapped>, r: seq<Submission>)
    requires mapped == MapRecords(raws)
    requires forall m | m in mapped && Tracked(m, trackingStart) :: m in kept
    requires |r| == |kept| && forall i :: 0 <= i < |kept| ==> AsMapped(r[i]) == kept[i]
    ensures forall raw | raw in raws && Tracked(MapRecord(raw), trackingStart) :: SubmissionOf(raw) in r
  {
    forall raw | raw in raws && Tracked(MapRecord(raw), trackingStart)
      ensures SubmissionOf(raw) in r
    {
      var j :| 0 <= j < |raws| && raws[j] == raw;
      assert mapped[j] == MapRecord(raw);
      assert mapped[j] in mapped;
      assert MapRecord(raw) in kept;
      var i :| 0 <= i < |kept| && kept[i] == MapRecord(raw);
      assert AsMapped(r[i]) == MapRecord(raw);
    }
  }

  /** `fetchRecentSubmissions`: every failure (no response, a response that
      is not ok, a body that is not JSON, a missing list) yields no
      submissions; otherwise the list is mapped and filtered. */
  function FetchRecentSubmissions(reply: ProxyReply, trackingStart: int): (r: seq<Submission>)
    ensures reply.NetworkFailure? ==> r == []
    ensures reply.Reply? && !reply.ok ==> r == []
    ensures reply.Reply? && reply.body.None? ==> r == []
    ensures reply.Reply? && reply.body.Some? && ListOf(reply.body.value).None? ==> r == []
    ensures reply.Reply? && reply.ok && reply.body.Some? && ListOf(reply.body.value).Some? ==>
      r == AdmitSubmissions(ListOf(reply.body.value).value, trackingStart)
    ensures forall s | s in r :: s.timestamp >= trackingStart
  {
    match reply
    case NetworkFailure => []
    case Reply(ok, body) =>
      if !ok || body.None? then []
      else match ListOf(body.value)
        case None => []
        case Some(raws) => AdmitSubmissions(raws, trackingStart)
  }

  /** `data.data?.recentAcSubmissionList`, `None` when either level is absent. */
  function ListOf(envelope: Envelope): (list: Option<seq<RawSubmission>>)
    ensures envelope.data.None? ==> list.None?
    ensures envelope.data.Some? ==> list == envelope.data.value.recentAcSubmissionList
  {
    match envelope.data
    case None => None
    case Some(payload) => payload.recentAcSubmissionList
  }

  // ---------------------------------------------------------------------
  // The session-storage slot `leetcode_submissions`

  class SessionStore {
    /** The slot's content; `None` when nothing was ever stored. */
    var slot: Option<seq<Submission>>

    constructor ()
      ensures slot == None
    {
      slot := None;
    }

    /** What `loadStoredSubmissions` finds in the slot: the stored list, or
        no submissions when the slot is absent. */
    function Stored(): seq<Submission>
      reads this
    {
      if slot.Some? then slot.value else []
    }

    /** `loadStoredSubmissions`. */
    method LoadStoredSubmissions() returns (r: seq<Submission>)
      ensures r == Stored()
    {
      r := if slot.Some? then slot.value else [];
    }

    /** `storeSubmissions`: read the slot, append, write it back. */
    method StoreSubmissions(submissions: seq<Submission>)
      modifies this
      ensures slot == Some(old(Stored()) + submissions)
      ensures |Stored()| == |old(Stored())| + |submissions|
      ensures Stored()[..|old(Stored())|] == old(Stored())
      ensures Stored()[|old(Stored())|..] == submissions
    {
      var existing := LoadStoredSubmissions();
      slot := Some(existing + submissions);
    }
  }
}

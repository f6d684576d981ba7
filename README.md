# LeetCode tracker: the submission pipeline and the problem lists

This project models the logic of a small Next.js dashboard that tracks
solved LeetCode problems, and proves properties of that model.

- **Fetch layer.** The catalog table becomes problems with zeroed
  statistics. The proxy's reply becomes the accepted submissions made
  since the app loaded. A session-storage slot accumulates every fetched
  batch.
- **Dashboard page.** Each problem's solved count and last-solved time are
  recomputed from the latest batch ("reconciliation"). The problems are
  filtered by a difficulty tab and counted per difficulty. One polling
  cycle fetches, replaces the in-memory list, appends to the slot and
  reconciles.
- **Problem list.** It derives the category pills, filters by a
  case-insensitive search and by the active category, sorts a copy of the
  result under five orders, and toggles the active category.
- **Older table view.** It sorts a copy of the problems under six orders
  and labels the solved count "time" or "times".

Modules:

| module | what it holds |
|---|---|
| `Types` | `Option`, `Difficulty`, `Problem`, `Submission` |
| `Seqs` | `Array.prototype.filter`, subsequences, first-occurrence dedup (`new Set`) |
| `Strings` | the stand-ins for `localeCompare` (code-point lexicographic order), `toLowerCase` (ASCII) and `includes` |
| `Sorting` | `Array.prototype.sort` with a comparator, as a stable insertion sort: permutation, sortedness, stability |
| `JsNumbers` | `parseInt` without a radix, and `String(n)` for integers |
| `Api` | `src/app/utils/api.ts` |
| `Page` | `src/app/page.tsx` |
| `Comparators` | the comparators both lists build from `-`, `localeCompare` and `\|\|` |
| `ProblemList` | `src/app/components/ProblemList.tsx` |
| `LegacyProblemList` | `src/components/ProblemList.tsx` |

State follows the source's form:
- `Api.SessionStore` is a class whose `slot` field is the session-storage
  entry. `StoreSubmissions` is the read-modify-write append.
- `Page.Dashboard` is a class holding the page's React state.
  `UpdateSubmissions`, `ReconcileProblems` and `PollCycle` are its steps.
- Everything else is a pure function, as it is in the source. Both lists
  sort a fresh copy, so a sort is a function returning a sorted
  permutation, and the input sequence is a value that cannot change.

Behaviours of the code that a reader might expect otherwise. Each is
modelled as written:

- **Input to reconciliation.** Reconciliation reads the latest fetched
  batch (`recentSubmissions`, page.tsx:73-88), not the accumulated session
  store. The store reaches the problems only through the initial load.
- **`lastSolved`.** It is the timestamp of the first matching submission in
  list order (page.tsx:83), not the latest matching timestamp.
  `Page.LastSolvedIsLatest` shows the two agree when the list is newest
  first, which is the order the provider sends. `Page.FirstMatchOfOldestFirst`
  shows they differ on an oldest-first list.
- **Empty submission list.** The problems are left as they are
  (page.tsx:74). Their counts are not reset to zero.
- **Difficulty values.** The catalog mapping copies the difficulty column
  unchecked (api.ts:27). The model keeps any label other than Easy, Medium
  and Hard as `Unlisted`.
- **Session store.** The code only appends to the slot and reads it; there
  is no operation that replaces or clears it. The tracking start is fixed
  once, when the fetch layer loads (api.ts:5).

## Model

| member | source | states |
|---|---|---|
| Api.FetchProblems | src/app/utils/api.ts:14-36 | an unreadable catalog yields no problems; otherwise one problem per row, in row order, whose row can be read back, whose difficulty is Easy, Medium or Hard exactly when the column says so, with solved count 0 and no last-solved time |
| Api.ToProblem | src/app/utils/api.ts:24-31 | one catalog row becomes a problem with its four columns, no solves and no last-solved time |
| Api.RowOfToProblem | src/app/utils/api.ts:24-31 | mapping a row loses nothing: name, category, difficulty text and link are read back unchanged |
| Api.ToProblemRowOf | src/app/utils/api.ts:24-31 | every unsolved problem with a canonical difficulty is the image of its own row (the inverse direction) |
| Api.DifficultyTextRoundTrip | src/app/utils/api.ts:27 | the difficulty column survives verbatim, including labels other than Easy/Medium/Hard |
| Api.ProblemLink | src/app/utils/api.ts:59 | the link is exactly `https://leetcode.com/problems/`, then the slug, then `/` |
| Api.DateValue | src/app/utils/api.ts:60 | a Date is valid exactly when its millisecond value is within ±8.64e15, and then it keeps that value |
| Api.InstantOfSeconds | src/app/utils/api.ts:60 | a seconds field written as an integer becomes that many seconds times 1000 milliseconds, or an invalid Date beyond the range |
| Api.MapRecord | src/app/utils/api.ts:57-61 | one raw record becomes a title copied as it is, the link built from the slug, and the instant of the seconds field |
| Api.MapRecords | src/app/utils/api.ts:56-61 | one mapped record per raw record, position by position |
| Api.AdmitSubmissions | src/app/utils/api.ts:56-62 | every result is no earlier than the tracking start and comes from a raw record (title copied, link from the slug, time from the seconds field); every tracked record is kept; the result is an order-preserving subsequence of the mapped input, so it is no longer than the input |
| Api.AdmitCount | src/app/utils/api.ts:62 | the result has exactly one submission per input position whose record is tracked, so a repeated record is kept as often as it occurs |
| Api.Tracked | src/app/utils/api.ts:62 | the filter test: a valid Date no earlier than the tracking start; an invalid Date fails it |
| Api.Instant | src/app/utils/api.ts:60 | an unparsable seconds field gives an invalid Date; a valid Date lies within ±8.64e15 ms |
| Api.ListOf | src/app/utils/api.ts:51 | `data.data?.recentAcSubmissionList`: absent when `data` is absent, otherwise the list field as it is |
| Api.FetchRecentSubmissions | src/app/utils/api.ts:38-69 | no response, a non-ok response, a body that is not JSON, or a missing `data.recentAcSubmissionList` each yield the empty list; an ok reply with a list yields that list mapped and filtered; every returned submission is no earlier than the tracking start |
| Api.SessionStore.LoadStoredSubmissions | src/app/utils/api.ts:79-82 | an absent slot reads as no submissions; otherwise the stored list |
| Api.SessionStore.StoreSubmissions | src/app/utils/api.ts:72-76 | the slot becomes the old contents followed by the new batch: the lengths add, the old contents are a prefix, the batch is the suffix |
| JsNumbers.ParseInt | src/app/utils/api.ts:60 | `parseInt` of a blank string, or of text whose first non-blank character is neither a sign nor a digit, is NaN |
| JsNumbers.ParseIntDecimalString | src/app/utils/api.ts:60 | `parseInt` reads back every integer written in decimal, negative ones included |
| JsNumbers.ParseIntMinus | src/app/utils/api.ts:60 | a minus sign before a digit negates the number that follows |
| JsNumbers.ParseUnsignedDigits | src/app/utils/api.ts:60 | a run of decimal digits reads as its value, leading zeros included ("0123" reads as 123) |
| JsNumbers.DigitsValue | src/app/utils/api.ts:60 | the decimal digits of `n` are digits and have the value `n` |
| Page.WithStats | src/app/page.tsx:76-85 | a reconciled problem keeps its name, category, difficulty and link |
| Page.Matching | src/app/page.tsx:77-79 | the submissions whose link equals the problem's link, in list order |
| Page.Reconcile | src/app/page.tsx:73-88 | the list keeps its length, order and descriptive fields; with no submissions it is unchanged |
| Page.SolvedCountCountsMatches | src/app/page.tsx:76-82 | each solved count equals the number of submissions whose link equals the problem's link |
| Page.LastSolvedIsFirstMatch | src/app/page.tsx:83 | the last-solved time is the timestamp of the first matching submission in list order, and is absent exactly when the count is 0 |
| Page.LastSolvedIsLatest | src/app/page.tsx:83 | for a newest-first list, the last-solved time is no earlier than any matching submission |
| Page.FirstMatchOfOldestFirst | src/app/page.tsx:83 | for an oldest-first list, two matches at t1 < t2 give count 2 and last-solved t1, not t2 |
| Page.ReconcileIdempotent | src/app/page.tsx:73-88 | reconciling the result again with the same submissions gives the same values: the values are a fixed point of the effect |
| Page.TabFilter | src/app/page.tsx:91-94 | the All tab shows every problem; a difficulty tab shows exactly the problems of that difficulty, one entry per catalog position of that difficulty; in both cases catalog order is kept |
| Page.TabsOffered | src/app/page.tsx:10 | the tab bar offers All first and then one tab for each of Easy, Medium and Hard, and no other |
| Page.ComputeStats | src/app/page.tsx:97-102 | solved is the number of positions whose count is positive; easy, medium and hard are the numbers of such positions of that difficulty; solved is at most the number of problems and at least easy + medium + hard |
| Page.StatsSplit | src/app/page.tsx:97-102 | the Easy, Medium and Hard counts add up to the number of solved problems of a listed difficulty |
| Page.StatsAddUp | src/app/page.tsx:97-102 | when every difficulty is Easy, Medium or Hard, easy + medium + hard equals solved |
| Page.Dashboard.constructor | src/app/page.tsx:13-18 | the page starts with no problems, no submissions, no update time, loading, on the All tab |
| Page.Dashboard.LoadInitialData | src/app/page.tsx:21-40 | the problems become the fetched catalog and the submissions become the stored ones; loading ends |
| Page.Dashboard.UpdateSubmissions | src/app/page.tsx:44-59 | the in-memory list becomes the fetched batch, the slot gains that same batch at its end, and the update time is set |
| Page.Dashboard.ReconcileProblems | src/app/page.tsx:73-88 | the problems become their reconciliation with the current submissions |
| Page.Dashboard.PollCycle | src/app/page.tsx:44-88 | one cycle: fetch, replace the list, append to the slot, stamp the time, end loading, and reconcile the problems with the fetched batch |
| Page.Dashboard.SelectTab | src/app/page.tsx:159 | clicking a tab makes it the active one |
| Page.Dashboard.FilteredProblems | src/app/page.tsx:91-94 | the shown problems are all of them on the All tab, otherwise exactly those of the active difficulty, one entry per catalog position of that difficulty, in catalog order |
| Page.Dashboard.Statistics | src/app/page.tsx:97-102 | the header counters count the solved problems, overall and per listed difficulty |
| Seqs.Filter | src/app/utils/api.ts:62 | a filter keeps exactly the elements that pass, takes no element twice, and is no longer than its input |
| Seqs.FilterIsSubsequence | src/app/utils/api.ts:62 | filtering never reorders |
| Seqs.FilterPartition | src/app/page.tsx:97-102 | counts under two disjoint tests add up to the count under their union |
| Seqs.Distinct | src/app/components/ProblemList.tsx:16 | `new Set` keeps each value once, and keeps exactly the values present |
| Seqs.PermutationNoDuplicates | src/app/components/ProblemList.tsx:16 | sorting a duplicate-free list cannot create a duplicate |
| Sorting.SortBy | src/app/components/ProblemList.tsx:25 | the sorted copy is a permutation of its input |
| Sorting.SortBySorted | src/app/components/ProblemList.tsx:25 | under a consistent comparator, no element comes after a later one |
| Sorting.SortByStable | src/app/components/ProblemList.tsx:25 | elements the comparator ties keep their input order |
| Strings.Compare | src/app/components/ProblemList.tsx:28 | the string comparison is -1, 0 or 1, and 0 exactly for equal strings |
| Strings.CompareAntisymmetric | src/app/components/ProblemList.tsx:28 | swapping the operands negates the result |
| Strings.CompareTransitive | src/app/components/ProblemList.tsx:28 | "not after" is transitive |
| Strings.Lower | src/app/components/ProblemList.tsx:19-20 | lowercasing keeps the length, turns each capital A-Z into its small letter, and changes nothing else |
| Strings.IndexOf | src/app/components/ProblemList.tsx:19-20 | the result is the first position where the needle occurs, or -1 when it occurs nowhere |
| Strings.IncludesEmpty | src/app/components/ProblemList.tsx:19-20 | every string includes the empty query |
| Comparators.Rank | src/app/components/ProblemList.tsx:30 | the difficulty table has an entry exactly for Easy, Medium and Hard |
| Comparators.Or | src/app/components/ProblemList.tsx:28 | `x \|\| y` on numbers: `x` unless it is 0, then `y` |
| Comparators.Then | src/app/components/ProblemList.tsx:28 | `c1(a, b) \|\| c2(a, b)`: the second comparator breaks the first one's ties |
| Comparators.DifficultyOrder | src/app/components/ProblemList.tsx:30-31 | the rank difference Easy 0, Medium 1, Hard 2; an unlisted label reads as NaN, which `\|\|` treats like 0 |
| Comparators.CategoryThenNameMeaning | src/app/components/ProblemList.tsx:28 | the category comparator says "not after" exactly when the category is smaller, or equal with a name that is not larger |
| Comparators.DifficultyThenNameMeaning | src/app/components/ProblemList.tsx:30-31 | for listed difficulties: "not after" exactly when Easy < Medium < Hard puts it first, or the difficulty is equal and the name is not larger; with an unlisted label the comparison falls through to the names |
| Comparators.LastSolvedOrder | src/app/components/ProblemList.tsx:36-40 | a solved problem comes before a never-solved one; of two solved ones the newer comes first; the result is 0 exactly when both last-solved values are equal or both absent |
| Comparators.LastSolvedMeaning | src/app/components/ProblemList.tsx:36-40 | "not after" exactly when the other is never solved, or both are solved and this one is no older |
| Comparators.SolvedMeaning | src/components/ProblemList.tsx:17-28 | the subtraction comparators order by solved count, ascending or descending, with name as the tie-break where `\|\|` adds it |
| Comparators.ThenConsistent | src/app/components/ProblemList.tsx:28 | breaking the ties of one consistent order with another consistent order gives a consistent order |
| Comparators.NameOrderConsistent | src/app/components/ProblemList.tsx:28 | comparing names is a consistent order |
| Comparators.CategoryOrderConsistent | src/app/components/ProblemList.tsx:28 | comparing categories is a consistent order |
| Comparators.DifficultyOrderConsistent | src/app/components/ProblemList.tsx:30-31 | the difficulty difference is a consistent order on listed difficulties |
| Comparators.LastSolvedOrderConsistent | src/app/components/ProblemList.tsx:36-40 | the last-solved comparator is a consistent order |
| Comparators.AscendingConsistent | src/app/components/ProblemList.tsx:32-33 | a key difference is a consistent order |
| Comparators.DescendingConsistent | src/app/components/ProblemList.tsx:34-35 | a reversed key difference is a consistent order |
| Comparators.DifficultyOrderNotConsistentWithUnlisted | src/app/components/ProblemList.tsx:30-31 | with an unlisted label, difficulty-then-name is not an order: Hard ties the unlisted label, which ties Easy, yet Hard comes after Easy |
| ProblemList.CategoryColumn | src/app/components/ProblemList.tsx:16 | one category per problem, position by position |
| ProblemList.Categories | src/app/components/ProblemList.tsx:16 | the pills hold exactly the values of the category column |
| ProblemList.CategoriesExact | src/app/components/ProblemList.tsx:16 | every problem's category is a pill, and every pill is some problem's category |
| ProblemList.CategoriesStrictlySorted | src/app/components/ProblemList.tsx:16 | the pills are strictly increasing, so none repeats |
| ProblemList.FilterProblems | src/app/components/ProblemList.tsx:18-23 | a problem is shown exactly when the lowercased query occurs in its lowercased name or category and (no category is active, the active category is the empty string, which is falsy, or its category is the active one); one entry per passing catalog position; catalog order is kept |
| ProblemList.MatchesSearch | src/app/components/ProblemList.tsx:19-20 | the lowercased query occurs in the lowercased name or in the lowercased category |
| ProblemList.MatchesCategory | src/app/components/ProblemList.tsx:21 | no active category, or the empty string (falsy), lets every problem through; otherwise the category must equal the active one |
| ProblemList.SearchIgnoresQueryCase | src/app/components/ProblemList.tsx:19-20 | lowercasing the query first does not change which problems match |
| ProblemList.FilterNothing | src/app/components/ProblemList.tsx:18-23 | an empty query with no active category shows the whole list in order |
| ProblemList.SortProblems | src/app/components/ProblemList.tsx:25 | the sorted copy is a permutation of the filtered list |
| ProblemList.Visible | src/app/components/ProblemList.tsx:18-44 | the shown list is a permutation of the filtered problems |
| ProblemList.Comparator | src/app/components/ProblemList.tsx:25-44 | the comparator each of the five options hands to the sort; `ProblemList.ComparatorMeaning` gives its meaning |
| ProblemList.ComparatorMeaning | src/app/components/ProblemList.tsx:25-44 | each of the five comparators says "not after" exactly when its field relation holds |
| ProblemList.ComparatorConsistent | src/app/components/ProblemList.tsx:25-44 | each of the five comparators is a consistent order (the difficulty one when all difficulties are listed) |
| ProblemList.SortProblemsOrdered | src/app/components/ProblemList.tsx:25-44 | last-solved: solved before never solved, newest first; category: by category then name; difficulty: Easy < Medium < Hard then name; solved-asc / solved-desc: counts non-decreasing / non-increasing |
| ProblemList.SortProblemsStable | src/app/components/ProblemList.tsx:25-44 | problems the option ties (equal counts, or both never solved) keep their catalog order |
| ProblemList.ToggleCategory | src/app/components/ProblemList.tsx:103 | clicking the active pill clears it; clicking any other pill makes it active |
| ProblemList.ToggleTwice | src/app/components/ProblemList.tsx:103 | clicking the same pill twice returns to no category, or to that pill when it was the active one |
| LegacyProblemList.SortProblems | src/components/ProblemList.tsx:14 | the sorted copy is a permutation of the problems |
| LegacyProblemList.Comparator | src/components/ProblemList.tsx:14-32 | the comparator each of the six options hands to the sort; `LegacyProblemList.ComparatorMeaning` gives its meaning |
| LegacyProblemList.ComparatorMeaning | src/components/ProblemList.tsx:14-32 | each of the six comparators says "not after" exactly when its field relation holds |
| LegacyProblemList.ComparatorConsistent | src/components/ProblemList.tsx:14-32 | each of the six comparators is a consistent order (the difficulty one when all difficulties are listed) |
| LegacyProblemList.SortProblemsOrdered | src/components/ProblemList.tsx:14-32 | default-asc: count ascending then name; default-desc: count descending then name ascending; type: category then name; difficulty: Easy < Medium < Hard then name; solved-asc / solved-desc: counts non-decreasing / non-increasing |
| LegacyProblemList.SortProblemsStable | src/components/ProblemList.tsx:14-32 | rows the option ties keep their input order |
| LegacyProblemList.SolvedLabel | src/components/ProblemList.tsx:111 | the label is "time" exactly when the count is 1, and "times" otherwise |

## Left out

- The catalog's CSV parsing (a foreign library) is not modelled. `Api.FetchProblems` takes the parsed rows, or `None` when the table could not be read or parsed.
- HTTP, `fetch` and the proxy route are not modelled. `Api.FetchRecentSubmissions` takes the reply as a value: no response, or an `ok` flag and a body. The thin wrapper in `src/utils/api.ts` and the proxy in `src/app/api/submissions/route.ts` are not part of this model.
- The tracking start (`new Date().getTime()` at load) and the update time (`new Date()`) are parameters, since they come from the clock.
- The records' field types are not represented: the model's records hold strings. The code copies `title` as it is, writes `titleSlug` into the link whatever it holds (a missing slug gives `.../problems/undefined/`), and passes `String(timestamp)` to `parseInt`, where NaN gives an invalid Date that the filter drops (api.ts:57-62). Only a list without `.map`, or a null or undefined element, throws; that error is caught and gives the empty list (api.ts:65-67). The model does not represent a list of that kind.
- JSON serialisation of the slot is not modelled: the slot holds the sequence itself. A corrupt slot would make `loadStoredSubmissions` throw (api.ts:81). The model does not claim that read fails soft.
- After a round trip through JSON, timestamps come back from the slot as strings, not Dates. The model keeps them as instants.
- The page's `error` state and `console` logging are not modelled: with typed inputs, no modelled step throws.
- The reconciliation effect does not settle. It depends on `problems` (page.tsx:88) and always stores a fresh array (page.tsx:76, 87), which React compares by identity, so while `recentSubmissions` is non-empty every run schedules another. The model proves the values reach a fixed point (`Page.ReconcileIdempotent`), not that the effect stops re-running.
- Timers, effect scheduling and teardown are not modelled: `setInterval`, the 30-second period and `clearInterval` (page.tsx:62-69). One polling cycle is the state step `Page.Dashboard.PollCycle`.
- Overlap between a polling cycle and the initial load, and between cycles, is not modelled. Each step runs to completion.
- Strings.Compare: stands in for `localeCompare` by code-point lexicographic order. Locale collation is not modelled, and neither is the default sort's UTF-16 code-unit order for the category pills.
- Strings.Lower: lowercases ASCII letters only, where `toLowerCase` applies Unicode case mapping.
- Date display is not modelled: `toLocaleDateString`, `toLocaleTimeString`, the "Never" placeholder, and the older view's `parseInt(lastSolved) * 1000`.
- All markup, styling and layout are not modelled.
- JsNumbers.DecimalString: writes every integer in plain decimal, where `String` switches to exponent form from 1e21. Valid Dates are far below that.
- JsNumbers.ParseInt: works on unbounded integers, where `parseInt` returns a double that loses precision beyond 2^53.
- The `default: return 0` branch of each comparator is not modelled. The option types have exactly the listed cases.
- Sorting.SortBy: a stable insertion sort. JavaScript fixes the result only when the comparator is consistent. The difficulty comparator with an unlisted label is not consistent (`Comparators.DifficultyOrderNotConsistentWithUnlisted`), so there the engine's order is implementation-defined. The ordering lemmas require listed difficulties for that option.
- Duplicate submissions are kept. The slot appends every batch without de-duplication, and overlapping "recent" windows can store the same submission twice. The model keeps the code's behaviour.

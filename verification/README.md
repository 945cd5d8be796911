# Retention decisions of delete-workflows-run

This project models, in Dafny, the part of the `delete-workflows-run` GitHub
Action (`src/main.js`) that decides which workflow runs of a repository are
deleted:

- the check of the `owner/repo` input;
- the orphan filter, which picks the runs whose workflow no longer exists;
- the catalog filters, which narrow the workflows by a name/file-name
  substring and by lifecycle state;
- `filterRuns`, which sorts one workflow's runs into `del_runs` and
  `skip_runs` and then applies the `keep_minimum_runs` floor.

Values that the action reads through the API are plain datatypes (`Workflow`,
`Run`). The options `filterRuns` receives form one record, `RunOptions`.
The pure helpers (`filterWorkflowsByPattern`, `filterWorkflowsByState`, the
orphan filter, the repository split) are functions. `filterRuns` is a method
with a loop that appends to two local sequences, followed by the sort and the
splice. The method is proved equal to the specification function
`RunFilter.Retention`, and the properties of `filterRuns` are lemmas about
that function.

The JavaScript string operations the logic depends on are modelled in
`JsStrings`: `includes`, `replace` of a literal string, `split` on one
character, `trim` and `toUpperCase() === "ALL"`. `JsStrings.IndexOf` (the
search behind `includes`, `replace` and `split`) and `JsStrings.Join` (the
inverse of `split`) are helpers that state what those operations compute.
`Seqs.Filter` is `Array.prototype.filter`. `RetentionGuard.SortById` is the sort by
ascending id, and `RetentionGuard.SpliceStart` is the start index that
`splice` computes.

Two behaviours of the code are kept as written:

- The file name used by the name filter is the path with the FIRST
  occurrence of `.github/workflows/` cut out, wherever it occurs. The code
  does not strip a leading directory.
- With `keep_minimum_runs = 0`, `del_runs.splice(-0)` is `splice(0)`, so
  every deletion candidate is moved to `skip_runs`. Apart from orphans,
  nothing is deleted. `RunFilter.KeepZeroDeletesNothing` states this.

Time is abstracted to integer milliseconds. `now` is a parameter, and the
age test is `now - createdAt >= retainDays * 86400000`. That is the code's
`elapsed_days >= retain_days` without the floating-point division.

## Model

| member | source | states |
|---|---|---|
| `Repository.ParseRepository` | src/main.js:20-23 | On success the owner and name are non-empty and free of `/`. The input begins with `owner/name`, followed by its end or by another `/`. On failure the error names the input. |
| `Repository.ParseOwnerName` | src/main.js:20-23 | Any non-empty `owner` and `name` without `/`, followed by nothing or by further `/`-parts, parse as exactly that owner and name. Together with the contract above: accepted iff both parts are non-empty, and extra parts are ignored. |
| `Repository.NoSlashRejected` | src/main.js:20-23 | An input without `/` is rejected. |
| `Orphans.OrphanRuns` | src/main.js:58 | A run is an orphan iff no workflow of the catalog has its `workflow_id`. Each orphan occurs as often as in all runs, and the result is an order-preserving subsequence of all runs. |
| `Orphans.SelectedRunsAreNotOrphans` | src/main.js:58-73 | A run of a workflow that survives the catalog filters is never an orphan. Orphans are computed against the unfiltered catalog. |
| `Orphans.NoWorkflowsAllOrphans` | src/main.js:58 | With no workflows, every run is an orphan, in the listed order. |
| `Seqs.Filter` | src/main.js:124 | `filter` keeps exactly the elements satisfying the predicate, each as often as in the input, in input order. |
| `Seqs.FilterSplits` | src/main.js:140-158 | Filtering by a predicate and by its negation splits the input: the two multisets add up to the input's. |
| `Seqs.FilterFilter` | src/main.js:67-73 | Two filters in sequence equal one filter by the conjunction. |
| `Seqs.FilterAgreeing` | src/main.js:67-73 | Predicates that agree on the input give the same filter result. |
| `Seqs.FilterKeepsAll` | src/main.js:67-73 | A filter that every element passes returns its input unchanged. |
| `Seqs.DistinctOccursOnce` | src/main.js:137-166 | In a sequence without repeated elements every element occurs at most once (used for runs with distinct ids). |
| `JsStrings.IndexOf` | src/main.js:126 | The result is the first index where the pattern occurs, or none when it occurs nowhere. |
| `JsStrings.Contains` | src/main.js:126 | `includes` holds iff the pattern occurs at some index. |
| `JsStrings.RemoveFirst` | src/main.js:125 | `replace(pat, "")` changes nothing without an occurrence. Otherwise it drops `|pat|` characters, and re-inserting `pat` at the first occurrence gives the input back. |
| `JsStrings.Split` | src/main.js:131 | `split` on one character gives at least one part, no part holds the separator, and joining the parts gives the input back. |
| `JsStrings.SplitJoin` | src/main.js:131 | Splitting a join of separator-free parts gives the parts back (the other round trip). |
| `JsStrings.TrimStart` | src/main.js:131 | The result is the suffix left after dropping all leading ECMAScript white space. It is empty or starts with another character. |
| `JsStrings.TrimEnd` | src/main.js:131 | The result is the prefix left after dropping all trailing white space. It is empty or ends with another character. |
| `JsStrings.Trim` | src/main.js:131 | `trim` gives no longer a string, neither starting nor ending with white space. |
| `JsStrings.TrimPadded` | src/main.js:131 | Trimming a text padded on both sides with white space gives exactly the text. |
| `JsStrings.TrimIdempotent` | src/main.js:131 | Trimming twice is trimming once. |
| `JsStrings.TrimNoWhiteSpace` | src/main.js:131 | A string without white space is its own trim. |
| `JsStrings.TrimAll` | src/main.js:131 | `map(x => x.trim())` keeps the number of parts, and each entry is the trim of the part at the same index. |
| `JsStrings.EntryIndex` | src/main.js:131 | Every entry of a comma-separated list is the trim of some part of its `split(",")`. |
| `JsStrings.EntryOfPart` | src/main.js:131 | Conversely, the trim of every part of `split(",")` is an entry. |
| `JsStrings.TrimAllNoWhiteSpace` | src/main.js:131 | Trimming parts that hold no white space leaves them unchanged. |
| `JsStrings.EntriesOfJoinedWords` | src/main.js:144 | A list written as comma-joined words without commas or white space has exactly those words as entries. |
| `JsStrings.IsAllIgnoringCase` | src/main.js:71 | `toUpperCase() === "ALL"` iff the pattern is three letters `a`/`A`, `l`/`L`, `l`/`L`. |
| `Catalog.FileName` | src/main.js:125 | When the path contains `.github/workflows/`, the file name is the path with the first occurrence of the directory cut out: the text before that occurrence followed by the text after it. Otherwise it is the path itself. |
| `Catalog.FileNameInWorkflowsDirectory` | src/main.js:125 | A path `.github/workflows/<file>` yields `<file>`. |
| `Catalog.FilterByPattern` | src/main.js:123-128 | Keeps a workflow iff the pattern occurs in its name or in its file name. A kept workflow occurs as often as in the input, and the result is an order-preserving subsequence. |
| `Catalog.EmptyNamePatternKeepsAll` | src/main.js:123-128 | The name filter with an empty pattern keeps every workflow. |
| `Catalog.FilterByState` | src/main.js:130-133 | Keeps a workflow iff its state equals some trimmed comma-separated entry of the pattern. A kept workflow occurs as often as in the input, and the result is an order-preserving subsequence. |
| `Catalog.SelectWorkflows` | src/main.js:67-73 | The two conditional filter steps equal a single filter by "name pattern empty or matched, and state filter inactive or state listed". This is the intersection of the two filters, and an absent pattern is a no-op. |
| `Catalog.SelectedBySteps` | src/main.js:67-73 | The same equality, case by case over which patterns are given. |
| `Catalog.NoPatternsSelectAll` | src/main.js:67-73 | No name pattern and a state pattern that is empty or "ALL": every workflow is processed. |
| `Classifier.ClassifySplits` | src/main.js:140-158 | The provisional `del_runs` and `skip_runs` together hold every input run exactly as often as the input, each list in input order. |
| `Classifier.AgeBoundary` | src/main.js:149-157 | A run passing the four skip tests is a candidate iff it is at least `retain_days` days old. Exactly `retain_days` days is a candidate; one millisecond younger is skipped. |
| `Classifier.FailureCancelledEntries` | src/main.js:144 | The entries of "failure,cancelled" are "failure" and "cancelled". |
| `Classifier.SuccessNotListed` | src/main.js:141-144 | With the allow-list "failure,cancelled", a run with conclusion "success" is skipped. |
| `RetentionGuard.InsertById` | src/main.js:162 | Inserting into a list sorted by id keeps it sorted and adds exactly that run. |
| `RetentionGuard.SortById` | src/main.js:162 | The sort returns a permutation of its input in ascending id order. |
| `RetentionGuard.SpliceStart` | src/main.js:163 | `splice(start)` removes from the returned index. For a negative start it removes the last `-start` elements (all, if fewer); otherwise it removes from `start` (nothing, if past the end). |
| `RetentionGuard.Floor` | src/main.js:161-164 | The floor loses and adds no run. The classified `skip_runs` stay a prefix of the final ones, and the final `del_runs` are among the candidates. |
| `RetentionGuard.FloorNotReached` | src/main.js:161 | At most `keep_minimum_runs` candidates: both lists stay as classified. |
| `RetentionGuard.FloorKeepsNewest` | src/main.js:161-164 | More candidates than a positive floor: exactly the excess is deleted, sorted by id. The `keep_minimum_runs` moved to `skip_runs` are the candidates with the largest ids. |
| `RetentionGuard.FloorZeroDeletesNothing` | src/main.js:163 | A floor of 0 empties `del_runs` and moves all candidates, sorted by id, to `skip_runs`. |
| `RunFilter.FilterRuns` | src/main.js:135-167 | The loop and the sort-and-splice compute exactly `Retention`. |
| `RunFilter.RetentionPartitions` | src/main.js:137-166 | The final `del_runs` and `skip_runs` together hold every input run exactly as often as the input does. |
| `RunFilter.DeletedAndKeptDisjoint` | src/main.js:137-166 | When run ids are distinct, no run is in both the final `del_runs` and `skip_runs`. |
| `RunFilter.DeletedAreCandidates` | src/main.js:146-157 | A deleted run is an input run that passed all four skip tests and is old enough. |
| `RunFilter.SkippedRunsAreKept` | src/main.js:141-147 | A run that is not completed, has a pull request (when checked), is on a live branch (when checked) or has a conclusion off a non-empty allow-list goes to `skip_runs`, never to `del_runs`. |
| `RunFilter.YoungRunsAreKept` | src/main.js:149-157 | A run younger than `retain_days` days goes to `skip_runs`, never to `del_runs`. |
| `RunFilter.SuccessfulRunsKept` | src/main.js:144 | With the allow-list "failure,cancelled", a successful run is kept whatever its age. |
| `RunFilter.FloorOnlySpares` | src/main.js:146-164 | The floor never moves a run from skip to delete: the classified `skip_runs` are a prefix of the final ones, and the final `del_runs` are a sub-multiset of the candidates. |
| `RunFilter.FloorNotReachedKeepsOrder` | src/main.js:161-166 | With at most `keep_minimum_runs` candidates, all candidates are deleted in input order. |
| `RunFilter.FloorCount` | src/main.js:161-164 | With more candidates than a positive floor, `candidates - keep_minimum_runs` runs are deleted. Exactly `keep_minimum_runs` are appended to `skip_runs`, and each has an id no smaller than any deleted run's. |
| `RunFilter.KeepZeroDeletesNothing` | src/main.js:163 | With `keep_minimum_runs = 0`, `filterRuns` deletes nothing and appends every candidate, sorted by id, to `skip_runs`. |

## Left out

- Octokit client construction, the throttling callbacks, `paginate` and `deleteWorkflowRun` (src/main.js:26-55, 76-88, 118): network I/O and foreign library calls. The lists they return are parameters of the model.
- The per-workflow driver loop and the orphan deletion loop in `run` (src/main.js:62-64, 83-108): they only feed the modelled functions and call the deletion API.
- `deleteRun`, its dry-run branch and all logging and `core.setFailed` output (src/main.js:59, 106, 109-121): side effects only. Dry run does not affect classification, so no modelled function takes it.
- `core.getInput`, `Number(...)` and `=== 'true'` parsing (src/main.js:7-17): environment I/O. The options are an already-typed record with `retainDays` and `keepMinimumRuns` as naturals, so fractional, negative or `NaN` values are not modelled.
- `new Date()`, date parsing and the fractional-day division (src/main.js:149-151): clock access and floating point. One `now` in milliseconds is used for all runs; the code reads the clock again for each run.
- `RetentionGuard.SortById`: stated as sorted by id and a permutation. That it is stable, as `Array.prototype.sort` is, is not stated; run ids are unique within a repository.
- `JsStrings.IsAllIgnoringCase`: only ASCII letters are upper-cased. Full Unicode `toUpperCase` is not modelled; the comparison with "ALL" does not depend on it.
- Strings are sequences of Unicode scalar values, not UTF-16 code units.

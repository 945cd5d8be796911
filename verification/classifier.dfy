/**
 * The per-run test of `filterRuns`: the four reasons to keep a run, then
 * the age threshold. Time is abstracted to integer milliseconds, with the
 * current time supplied as `now`.
 */
module Classifier {
  import Wrappers
  import opened Seqs
  import opened JsStrings
  import opened Entities

  const Completed := "completed"

  /** `1000 * 3600 * 24`: the length of a day in milliseconds. */
  const MillisecondsPerDay := 1000 * 3600 * 24

  /** The run's conclusion is one of the trimmed entries of the comma-separated pattern. */
  predicate ConclusionListed(run: Run, pattern: string) {
    run.conclusion.Some? && run.conclusion.value in ListEntries(pattern)
  }

  /** `shouldSkip`: any one of the four conditions keeps the run whatever its age. */
  predicate ShouldSkip(run: Run, options: RunOptions) {
    || run.status != Completed
    || (options.checkPullRequestExist && |run.pullRequests| > 0)
    || (options.checkBranchExistence && run.headBranch.Some? && run.headBranch.value in options.branchNames)
    || (options.conclusionPattern != "" && !ConclusionListed(run, options.conclusionPattern))
  }

  /** `elapsed_days >= retain_days`, on whole milliseconds: the boundary is inclusive. */
  predicate OldEnough(run: Run, retainDays: nat, now: int) {
    now - run.createdAt >= retainDays * MillisecondsPerDay
  }

  /** The run goes to the provisional `del_runs`. */
  predicate IsCandidate(run: Run, options: RunOptions, now: int) {
    !ShouldSkip(run, options) && OldEnough(run, options.retainDays, now)
  }

  /** The provisional `del_runs`: the candidates, in input order. */
  function Candidates(runs: seq<Run>, options: RunOptions, now: int): seq<Run> {
    Filter(runs, (run: Run) => IsCandidate(run, options, now))
  }

  /** The provisional `skip_runs`: every other run, in input order. */
  function Held(runs: seq<Run>, options: RunOptions, now: int): seq<Run> {
    Filter(runs, (run: Run) => !IsCandidate(run, options, now))
  }

  /** The provisional lists partition the input and keep its order. */
  lemma ClassifySplits(runs: seq<Run>, options: RunOptions, now: int)
    ensures multiset(Candidates(runs, options, now)) + multiset(Held(runs, options, now)) == multiset(runs)
    ensures IsSubsequence(Candidates(runs, options, now), runs)
    ensures IsSubsequence(Held(runs, options, now), runs)
  {
    FilterSplits(runs, (run: Run) => IsCandidate(run, options, now), (run: Run) => !IsCandidate(run, options, now));
  }

  /** A run that passes the four tests is a candidate exactly when it is at least `retainDays` days old. */
  lemma AgeBoundary(runs: seq<Run>, options: RunOptions, now: int, run: Run)
    requires run in runs && !ShouldSkip(run, options)
    ensures run in Candidates(runs, options, now) <==> now - run.createdAt >= options.retainDays * MillisecondsPerDay
    ensures now - run.createdAt == options.retainDays * MillisecondsPerDay ==> run in Candidates(runs, options, now)
    ensures now - run.createdAt == options.retainDays * MillisecondsPerDay - 1 ==>
              run !in Candidates(runs, options, now) && run in Held(runs, options, now)
  {
  }

  /** The entries of "failure,cancelled" are "failure" and "cancelled". */
  lemma FailureCancelledEntries()
    ensures ListEntries("failure,cancelled") == ["failure", "cancelled"]
  {
    var words := ["failure", "cancelled"];
    assert Join(words, ',') == "failure,cancelled";
    EntriesOfJoinedWords(words);
  }

  /** With the allow-list "failure,cancelled", a successful run is always kept, whatever its age. */
  lemma SuccessNotListed(run: Run, options: RunOptions)
    requires options.conclusionPattern == "failure,cancelled"
    requires run.conclusion == Wrappers.Some("success")
    ensures ShouldSkip(run, options)
  {
    FailureCancelledEntries();
  }
}

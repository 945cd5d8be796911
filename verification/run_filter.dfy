/**
 * `filterRuns`: classify one workflow's runs into `del_runs` and
 * `skip_runs`, then apply the minimum-retention floor.
 */
module RunFilter {
  import opened Seqs
  import opened Entities
  import opened Classifier
  import opened RetentionGuard

  /** What `filterRuns` returns for `runs`: the floor applied to the provisional lists. */
  function Retention(runs: seq<Run>, options: RunOptions, now: int): Partition {
    Floor(Candidates(runs, options, now), Held(runs, options, now), options.keepMinimumRuns)
  }

  /** `filterRuns`: a loop that appends each run to one of two lists, then the sort and splice. */
  method FilterRuns(runs: seq<Run>, options: RunOptions, now: int) returns (delRuns: seq<Run>, skipRuns: seq<Run>)
    ensures Partition(delRuns, skipRuns) == Retention(runs, options, now)
  {
    delRuns, skipRuns := [], [];
    for i := 0 to |runs|
      invariant delRuns == Candidates(runs[..i], options, now)
      invariant skipRuns == Held(runs[..i], options, now)
    {
      var run := runs[i];
      assert runs[..i + 1][..i] == runs[..i];
      var shouldSkip := ShouldSkip(run, options);
      if shouldSkip {
        skipRuns := skipRuns + [run];
      } else {
        var elapsed := now - run.createdAt;
        if elapsed >= options.retainDays * MillisecondsPerDay {
          delRuns := delRuns + [run];
        } else {
          skipRuns := skipRuns + [run];
        }
      }
    }
    assert runs[..|runs|] == runs;
    if |delRuns| > options.keepMinimumRuns {
      delRuns := SortById(delRuns);
      var start := SpliceStart(|delRuns|, -(options.keepMinimumRuns as int));
      skipRuns := skipRuns + delRuns[start..];
      delRuns := delRuns[..start];
    }
  }

  /** Every run ends up in exactly one of the two lists, as often as it occurs in the input. */
  lemma RetentionPartitions(runs: seq<Run>, options: RunOptions, now: int)
    ensures var p := Retention(runs, options, now);
            multiset(p.del) + multiset(p.skip) == multiset(runs)
  {
    ClassifySplits(runs, options, now);
  }

  /** When the run ids are distinct, no run is both deleted and kept. */
  lemma DeletedAndKeptDisjoint(runs: seq<Run>, options: RunOptions, now: int)
    requires forall i, j :: 0 <= i < j < |runs| ==> runs[i].id != runs[j].id
    ensures var p := Retention(runs, options, now);
            forall run :: !(run in p.del && run in p.skip)
  {
    var p := Retention(runs, options, now);
    DistinctOccursOnce(runs);
    RetentionPartitions(runs, options, now);
    forall run ensures !(run in p.del && run in p.skip) {
      assert multiset(p.del)[run] + multiset(p.skip)[run] == multiset(runs)[run];
    }
  }

  /** Only candidates are deleted: a deleted run passed all four tests and is old enough. */
  lemma DeletedAreCandidates(runs: seq<Run>, options: RunOptions, now: int, run: Run)
    requires run in Retention(runs, options, now).del
    ensures run in runs && !ShouldSkip(run, options)
    ensures now - run.createdAt >= options.retainDays * MillisecondsPerDay
  {
    var p := Retention(runs, options, now);
    assert run in multiset(p.del);
    assert run in multiset(Candidates(runs, options, now));
  }

  /**
   * A run that is in progress, linked to a pull request (when checked), on a
   * live branch (when checked) or with a conclusion not on the allow-list is
   * kept and never deleted.
   */
  lemma SkippedRunsAreKept(runs: seq<Run>, options: RunOptions, now: int, run: Run)
    requires run in runs && ShouldSkip(run, options)
    ensures run in Retention(runs, options, now).skip
    ensures run !in Retention(runs, options, now).del
  {
    var p := Retention(runs, options, now);
    if run in p.del {
      DeletedAreCandidates(runs, options, now, run);
    }
    RetentionPartitions(runs, options, now);
    assert run in multiset(runs);
    assert run in multiset(p.skip);
  }

  /** A run younger than `retainDays` days by even one millisecond is kept. */
  lemma YoungRunsAreKept(runs: seq<Run>, options: RunOptions, now: int, run: Run)
    requires run in runs
    requires now - run.createdAt < options.retainDays * MillisecondsPerDay
    ensures run in Retention(runs, options, now).skip
    ensures run !in Retention(runs, options, now).del
  {
    var p := Retention(runs, options, now);
    if run in p.del {
      DeletedAreCandidates(runs, options, now, run);
    }
    RetentionPartitions(runs, options, now);
    assert run in multiset(runs);
    assert run in multiset(p.skip);
  }

  /** With the allow-list "failure,cancelled", a successful run is kept whatever its age. */
  lemma SuccessfulRunsKept(runs: seq<Run>, options: RunOptions, now: int, run: Run)
    requires run in runs
    requires options.conclusionPattern == "failure,cancelled"
    requires run.conclusion == Wrappers.Some("success")
    ensures run in Retention(runs, options, now).skip
    ensures run !in Retention(runs, options, now).del
  {
    SuccessNotListed(run, options);
    SkippedRunsAreKept(runs, options, now, run);
  }

  /**
   * The floor only moves runs from deletion to keeping: the classified
   * `skip_runs` are a prefix of the final ones, and the final `del_runs`
   * are among the candidates.
   */
  lemma FloorOnlySpares(runs: seq<Run>, options: RunOptions, now: int)
    ensures var p := Retention(runs, options, now);
            var held := Held(runs, options, now);
            && |held| <= |p.skip| && p.skip[..|held|] == held
            && multiset(p.del) <= multiset(Candidates(runs, options, now))
  {
  }

  /** Few enough candidates: they are all deleted, in input order. */
  lemma FloorNotReachedKeepsOrder(runs: seq<Run>, options: RunOptions, now: int)
    requires |Candidates(runs, options, now)| <= options.keepMinimumRuns
    ensures Retention(runs, options, now).del == Candidates(runs, options, now)
    ensures IsSubsequence(Retention(runs, options, now).del, runs)
  {
    ClassifySplits(runs, options, now);
  }

  /** More candidates than a positive floor: exactly the excess is deleted, the newest `keepMinimumRuns` kept. */
  lemma FloorCount(runs: seq<Run>, options: RunOptions, now: int)
    requires |Candidates(runs, options, now)| > options.keepMinimumRuns > 0
    ensures var p := Retention(runs, options, now);
            var held := Held(runs, options, now);
            && |p.del| == |Candidates(runs, options, now)| - options.keepMinimumRuns
            && |p.skip| == |held| + options.keepMinimumRuns
            && (forall i, j :: 0 <= i < |p.del| && |held| <= j < |p.skip| ==> p.del[i].id <= p.skip[j].id)
  {
    var p := Retention(runs, options, now);
    var held := Held(runs, options, now);
    FloorKeepsNewest(Candidates(runs, options, now), held, options.keepMinimumRuns);
    forall i, j | 0 <= i < |p.del| && |held| <= j < |p.skip| ensures p.del[i].id <= p.skip[j].id {
      assert p.skip[j] == p.skip[|held|..][j - |held|];
    }
  }

  /** `keep_minimum_runs = 0`: the code deletes no run of any workflow (only orphans are ever deleted). */
  lemma KeepZeroDeletesNothing(runs: seq<Run>, options: RunOptions, now: int)
    requires options.keepMinimumRuns == 0
    ensures Retention(runs, options, now).del == []
    ensures Retention(runs, options, now).skip ==
              Held(runs, options, now) + SortById(Candidates(runs, options, now))
  {
    FloorZeroDeletesNothing(Candidates(runs, options, now), Held(runs, options, now));
    if Candidates(runs, options, now) == [] {
      assert SortById([]) == [];
    }
  }
}

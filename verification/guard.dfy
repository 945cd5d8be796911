/**
 * The minimum-retention floor at the end of `filterRuns`: when there are
 * more deletion candidates than `keep_minimum_runs`, the candidates are
 * sorted by id and `splice(-keep_minimum_runs)` moves the tail to the kept
 * runs.
 */
module RetentionGuard {
  import opened Entities

  /** The two lists `filterRuns` returns. */
  datatype Partition = Partition(del: seq<Run>, skip: seq<Run>)

  predicate SortedById(s: seq<Run>) {
    forall i, j :: 0 <= i < j < |s| ==> s[i].id <= s[j].id
  }

  /** Puts `x` before the first run whose id is not smaller. */
  function InsertById(x: Run, s: seq<Run>): (r: seq<Run>)
    requires SortedById(s)
    ensures SortedById(r)
    ensures multiset(r) == multiset(s) + multiset{x}
    decreases |s|
  {
    if s == [] || x.id <= s[0].id then [x] + s
    else
      var rest := InsertById(x, s[1..]);
      assert s == [s[0]] + s[1..];
      assert forall k :: 0 <= k < |rest| ==> s[0].id <= rest[k].id by {
        forall k | 0 <= k < |rest| ensures s[0].id <= rest[k].id {
          var y := rest[k];
          assert y in multiset(rest);
          if y != x {
            assert y in multiset(s[1..]);
            assert y in s[1..];
          }
        }
      }
      [s[0]] + rest
  }

  /**
   * `runs.sort((a, b) => a.id - b.id)`: a stable sort by ascending id
   * (insertion sort; the library's own algorithm is not modelled).
   */
  function SortById(s: seq<Run>): (r: seq<Run>)
    ensures SortedById(r)
    ensures multiset(r) == multiset(s)
    decreases |s|
  {
    if s == [] then []
    else
      assert s == [s[0]] + s[1..];
      InsertById(s[0], SortById(s[1..]))
  }

  /** The index `Array.prototype.splice(start)` starts removing at, for an array of length `len`. */
  function SpliceStart(len: nat, start: int): (i: nat)
    ensures i <= len
    ensures start < 0 ==> len - i == (if -start < len then -start else len)
    ensures start >= 0 ==> i == (if start < len then start else len)
  {
    if start < 0 then (if len + start < 0 then 0 else len + start)
    else if start < len then start
    else len
  }

  /**
   * The floor step at the end of `filterRuns`, given the provisional lists. The sorted
   * candidates from the splice index on are appended to `skip`; the rest
   * stay in `del`.
   */
  function Floor(candidates: seq<Run>, held: seq<Run>, keepMinimumRuns: nat): (p: Partition)
    ensures multiset(p.del) + multiset(p.skip) == multiset(candidates) + multiset(held)
    ensures |held| <= |p.skip| && p.skip[..|held|] == held
    ensures multiset(p.del) <= multiset(candidates)
  {
    if |candidates| > keepMinimumRuns then
      var sorted := SortById(candidates);
      var start := SpliceStart(|sorted|, -(keepMinimumRuns as int));
      assert sorted == sorted[..start] + sorted[start..];
      Partition(sorted[..start], held + sorted[start..])
    else
      Partition(candidates, held)
  }

  /** At most `keepMinimumRuns` candidates: both lists are left exactly as classified. */
  lemma FloorNotReached(candidates: seq<Run>, held: seq<Run>, keepMinimumRuns: nat)
    requires |candidates| <= keepMinimumRuns
    ensures Floor(candidates, held, keepMinimumRuns) == Partition(candidates, held)
  {
  }

  /**
   * More candidates than a positive floor: exactly `keepMinimumRuns` are
   * kept, those with the largest ids, and the rest are deleted in id order.
   */
  lemma FloorKeepsNewest(candidates: seq<Run>, held: seq<Run>, keepMinimumRuns: nat)
    requires |candidates| > keepMinimumRuns > 0
    ensures var p := Floor(candidates, held, keepMinimumRuns);
            var spared := p.skip[|held|..];
            && |p.del| == |candidates| - keepMinimumRuns
            && |spared| == keepMinimumRuns
            && SortedById(p.del)
            && multiset(p.del) + multiset(spared) == multiset(candidates)
            && (forall i, j :: 0 <= i < |p.del| && 0 <= j < |spared| ==> p.del[i].id <= spared[j].id)
  {
    var p := Floor(candidates, held, keepMinimumRuns);
    var sorted := SortById(candidates);
    var start := |sorted| - keepMinimumRuns;
    assert p.del == sorted[..start];
    assert p.skip[|held|..] == sorted[start..];
    assert sorted == sorted[..start] + sorted[start..];
    forall i, j | 0 <= i < start && 0 <= j < keepMinimumRuns
      ensures p.del[i].id <= p.skip[|held|..][j].id
    {
      assert p.del[i] == sorted[i] && p.skip[|held|..][j] == sorted[start + j];
    }
  }

  /**
   * A floor of zero: `splice(-0)` is `splice(0)`, which empties the
   * candidate list, so every candidate is kept and nothing is deleted.
   */
  lemma FloorZeroDeletesNothing(candidates: seq<Run>, held: seq<Run>)
    ensures Floor(candidates, held, 0).del == []
    ensures candidates != [] ==> Floor(candidates, held, 0).skip == held + SortById(candidates)
  {
  }
}

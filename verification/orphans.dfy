/**
 * Runs whose workflow no longer exists. They are found against the whole
 * catalog, before any catalog filtering, and are deleted without the
 * minimum-retention floor.
 */
module Orphans {
  import opened Seqs
  import opened Entities
  import Catalog

  /** `workflows.map(w => w.id)`. */
  function WorkflowIds(workflows: seq<Workflow>): (ids: seq<int>)
    ensures |ids| == |workflows|
    ensures forall k :: 0 <= k < |workflows| ==> ids[k] == workflows[k].id
  {
    seq(|workflows|, k requires 0 <= k < |workflows| => workflows[k].id)
  }

  /** `all_runs.filter(run => !workflow_ids.includes(run.workflow_id))`. */
  function OrphanRuns(allRuns: seq<Run>, workflows: seq<Workflow>): (orphans: seq<Run>)
    ensures forall run :: run in orphans <==>
              (run in allRuns && forall w :: w in workflows ==> w.id != run.workflowId)
    ensures forall run :: multiset(orphans)[run] ==
              if forall w :: w in workflows ==> w.id != run.workflowId then multiset(allRuns)[run] else 0
    ensures IsSubsequence(orphans, allRuns)
  {
    var ids := WorkflowIds(workflows);
    assert forall id :: id in ids <==> exists w :: w in workflows && w.id == id by {
      forall id | id in ids ensures exists w :: w in workflows && w.id == id {
        var k :| 0 <= k < |ids| && ids[k] == id;
        assert workflows[k] in workflows;
      }
      forall id | exists w :: w in workflows && w.id == id ensures id in ids {
        var w :| w in workflows && w.id == id;
        var k :| 0 <= k < |workflows| && workflows[k] == w;
        assert ids[k] == id;
      }
    }
    Filter(allRuns, (run: Run) => run.workflowId !in ids)
  }

  /** Every run of a workflow that survives the catalog filters is not an orphan: the two deletions never overlap. */
  lemma SelectedRunsAreNotOrphans(allRuns: seq<Run>, workflows: seq<Workflow>,
                                  namePattern: string, statePattern: string, w: Workflow, run: Run)
    requires w in Catalog.SelectWorkflows(workflows, namePattern, statePattern)
    requires run.workflowId == w.id
    ensures run !in OrphanRuns(allRuns, workflows)
  {
  }

  /** With an empty catalog every run is an orphan, in the order listed. */
  lemma {:induction false} NoWorkflowsAllOrphans(allRuns: seq<Run>)
    ensures OrphanRuns(allRuns, []) == allRuns
  {
    FilterKeepsAll(allRuns, (run: Run) => run.workflowId !in WorkflowIds([]));
  }
}

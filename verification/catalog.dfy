/**
 * Narrowing the repository's workflows to those the run retention applies
 * to: by a substring of the name or file name, then by lifecycle state.
 */
module Catalog {
  import opened Wrappers
  import opened Seqs
  import opened JsStrings
  import opened Entities

  const WorkflowsDirectory := ".github/workflows/"

  /** `path.replace(".github/workflows/", "")`: the first occurrence of the directory is cut out. */
  function FileName(path: string): (f: string)
    ensures Contains(path, WorkflowsDirectory) ==> |f| + |WorkflowsDirectory| == |path|
    ensures Contains(path, WorkflowsDirectory) ==>
              var i := IndexOf(path, WorkflowsDirectory).value;
              f == path[..i] + path[i + |WorkflowsDirectory|..]
    ensures !Contains(path, WorkflowsDirectory) ==> f == path
  {
    RemoveFirst(path, WorkflowsDirectory)
  }

  /** The name filter's test: the name or the file name contains `pattern`. */
  predicate MatchesName(w: Workflow, pattern: string) {
    Contains(w.name, pattern) || Contains(FileName(w.path), pattern)
  }

  /** The state filter's test: `state` is one of the trimmed comma-separated entries. */
  predicate StateListed(w: Workflow, statePattern: string) {
    w.state in ListEntries(statePattern)
  }

  /** `filterWorkflowsByPattern`. */
  function FilterByPattern(workflows: seq<Workflow>, pattern: string): (r: seq<Workflow>)
    ensures forall w :: w in r <==>
              (w in workflows &&
               ((exists j :: OccursAt(w.name, pattern, j)) || (exists j :: OccursAt(FileName(w.path), pattern, j))))
    ensures forall w :: multiset(r)[w] == if MatchesName(w, pattern) then multiset(workflows)[w] else 0
    ensures IsSubsequence(r, workflows)
  {
    Filter(workflows, w => MatchesName(w, pattern))
  }

  /** `filterWorkflowsByState`. */
  function FilterByState(workflows: seq<Workflow>, statePattern: string): (r: seq<Workflow>)
    ensures forall w :: w in r <==> w in workflows && w.state in ListEntries(statePattern)
    ensures forall w :: multiset(r)[w] == if StateListed(w, statePattern) then multiset(workflows)[w] else 0
    ensures IsSubsequence(r, workflows)
  {
    Filter(workflows, w => StateListed(w, statePattern))
  }

  /** The state filter runs only for a non-empty pattern other than "ALL" in any letter case. */
  predicate StateFilterActive(statePattern: string) {
    statePattern != "" && !IsAllIgnoringCase(statePattern)
  }

  /** Whether `w` survives both filters as `run` applies them. */
  predicate Selected(w: Workflow, namePattern: string, statePattern: string) {
    (namePattern == "" || MatchesName(w, namePattern))
    && (!StateFilterActive(statePattern) || StateListed(w, statePattern))
  }

  /** The catalog narrowing in `run`: the name filter when a name pattern is given, then the state filter. */
  function SelectWorkflows(workflows: seq<Workflow>, namePattern: string, statePattern: string): (r: seq<Workflow>)
    ensures r == Filter(workflows, w => Selected(w, namePattern, statePattern))
  {
    var byName := if namePattern != "" then FilterByPattern(workflows, namePattern) else workflows;
    var byState := if StateFilterActive(statePattern) then FilterByState(byName, statePattern) else byName;
    SelectedBySteps(workflows, namePattern, statePattern);
    byState
  }

  /** The two conditional filter steps equal one filter by `Selected`. */
  lemma SelectedBySteps(workflows: seq<Workflow>, namePattern: string, statePattern: string)
    ensures (var byName := if namePattern != "" then FilterByPattern(workflows, namePattern) else workflows;
             var byState := if StateFilterActive(statePattern) then FilterByState(byName, statePattern) else byName;
             byState == Filter(workflows, w => Selected(w, namePattern, statePattern)))
  {
    var sel := w => Selected(w, namePattern, statePattern);
    var name := w => MatchesName(w, namePattern);
    var state := w => StateListed(w, statePattern);
    if namePattern != "" && StateFilterActive(statePattern) {
      FilterFilter(workflows, name, state, sel);
    } else if namePattern != "" {
      FilterAgreeing(workflows, name, sel);
    } else if StateFilterActive(statePattern) {
      FilterAgreeing(workflows, state, sel);
    } else {
      FilterKeepsAll(workflows, sel);
    }
  }

  /** With no name pattern and a state pattern that is empty or "ALL", every workflow is processed. */
  lemma NoPatternsSelectAll(workflows: seq<Workflow>, statePattern: string)
    requires !StateFilterActive(statePattern)
    ensures SelectWorkflows(workflows, "", statePattern) == workflows
  {
    FilterKeepsAll(workflows, w => Selected(w, "", statePattern));
  }

  /** An empty pattern is contained in every string, so the name filter alone keeps everything for it. */
  lemma EmptyNamePatternKeepsAll(workflows: seq<Workflow>)
    ensures FilterByPattern(workflows, "") == workflows
  {
    forall w | w in workflows ensures MatchesName(w, "") {
      assert OccursAt(w.name, "", 0);
    }
    FilterKeepsAll(workflows, w => MatchesName(w, ""));
  }

  /** A workflow file stored directly in the workflows directory is matched by its bare file name. */
  lemma FileNameInWorkflowsDirectory(file: string)
    ensures FileName(WorkflowsDirectory + file) == file
  {
    var path := WorkflowsDirectory + file;
    assert path[..|WorkflowsDirectory|] == WorkflowsDirectory;
    assert IndexOf(path, WorkflowsDirectory) == Some(0);
  }
}

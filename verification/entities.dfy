/**
 * The records the retention logic reads: workflows, workflow runs and the
 * per-workflow run options. They are read-only snapshots of what the
 * record-management API returned.
 */
module Entities {
  import opened Wrappers

  /** A CI pipeline definition. */
  datatype Workflow = Workflow(id: int, name: string, path: string, state: string)

  /**
   * One execution of a workflow. `createdAt` is the creation time in
   * milliseconds; `conclusion` and `headBranch` are `None` where the API
   * gives `null`; only the number of `pullRequests` matters.
   */
  datatype Run = Run(
    id: int,
    workflowId: int,
    status: string,
    conclusion: Option<string>,
    createdAt: int,
    headBranch: Option<string>,
    pullRequests: seq<int>)

  /** The options `filterRuns` receives for one workflow. */
  datatype RunOptions = RunOptions(
    retainDays: nat,
    keepMinimumRuns: nat,
    conclusionPattern: string,
    checkBranchExistence: bool,
    checkPullRequestExist: bool,
    branchNames: seq<string>)
}

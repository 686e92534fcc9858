/**
  The selection and de-duplication pass of `run()`: on a pull-request event,
  list the check suites of the head commit, keep those created by GitHub
  Actions for exactly this pull request, and for each kept suite collect its
  queued and in-progress workflow runs into one list without repeated ids.

  The platform's two list queries are parameters (`listSuitesForRef`,
  `listWorkflowRunsForRepo`): total functions from the query's arguments to the
  full, already paginated, result. What the pass observably produces is the
  sequence of queries it issues and, per check suite, the run list it logs.
 */
module Main {
  import opened Wrappers
  import opened RunMerge

  /** The app name a check suite must carry to be considered. */
  const GitHubActionsAppName := "github-actions"

  const Queued := "queued"
  const InProgress := "in_progress"

  /** The statuses queried for each accepted suite, in the order they are queried. */
  const WorkflowRunStatusesToFind: seq<string> := [Queued, InProgress]

  /** The `pull_request` object of the triggering event's payload. */
  datatype PullRequest = PullRequest(number: int, headSha: string)

  /** A check suite of the head commit. `appName` is `app?.name`, absent when the
      suite has no app; `pullRequests` lists the numbers of the suite's linked
      pull requests and is absent when the field is. */
  datatype CheckSuite = CheckSuite(id: int, appName: Option<string>, pullRequests: Option<seq<int>>)

  /** A query to the platform, in the order the pass issues them. */
  datatype Query =
    | ListSuitesForRef(ref: string)
    | ListWorkflowRunsForRepo(checkSuiteId: int, status: string)

  /** The result of one pass: either the event carried no pull request, or for
      each listed check suite, in order, `None` when it was skipped and the
      collected run list when it was accepted. */
  datatype Outcome =
    | NotPullRequestEvent
    | Scanned(suiteRuns: seq<Option<seq<WorkflowRun>>>)

  // ---------------------------------------------------------------------------
  // Specification
  // ---------------------------------------------------------------------------

  /** The suite condition of the loop, as the negation of its `continue` guard:
      skipped when the app name is not `github-actions`, when the pull-request
      list is absent or does not have length 1, or when its one entry is not the
      event's pull request. */
  predicate IsAccepted(suite: CheckSuite, prNumber: int) {
    !(suite.appName != Some(GitHubActionsAppName)
      || suite.pullRequests.None? || |suite.pullRequests.value| != 1
      || suite.pullRequests.value[0] != prNumber)
  }

  /** The runs returned by the status queries for `statuses`, concatenated in
      query order. */
  function FetchedRuns(listRuns: (int, string) -> seq<WorkflowRun>, suiteId: int, statuses: seq<string>): (fetched: seq<WorkflowRun>)
  {
    if statuses == [] then []
    else FetchedRuns(listRuns, suiteId, statuses[..|statuses| - 1]) + listRuns(suiteId, statuses[|statuses| - 1])
  }

  /** The run list of an accepted suite: starting from the empty list, every
      fetched run whose id is not yet present is appended. */
  function CollectRuns(listRuns: (int, string) -> seq<WorkflowRun>, suiteId: int): (workflowRuns: seq<WorkflowRun>)
  {
    AppendAbsent([], FetchedRuns(listRuns, suiteId, WorkflowRunStatusesToFind))
  }

  /** The status queries issued for an accepted suite. */
  function StatusQueries(suiteId: int): (queries: seq<Query>) {
    [ListWorkflowRunsForRepo(suiteId, Queued), ListWorkflowRunsForRepo(suiteId, InProgress)]
  }

  /** The queries issued for one suite of the loop. */
  function SuiteQueries(suite: CheckSuite, prNumber: int): (queries: seq<Query>) {
    if IsAccepted(suite, prNumber) then StatusQueries(suite.id) else []
  }

  /** The queries issued while walking `suites`, in order. */
  function SuitesQueries(suites: seq<CheckSuite>, prNumber: int): (queries: seq<Query>) {
    if suites == [] then []
    else SuitesQueries(suites[..|suites| - 1], prNumber) + SuiteQueries(suites[|suites| - 1], prNumber)
  }

  /** What the loop records for one suite. */
  function SuiteRuns(suite: CheckSuite, prNumber: int, listRuns: (int, string) -> seq<WorkflowRun>): (recorded: Option<seq<WorkflowRun>>) {
    if IsAccepted(suite, prNumber) then Some(CollectRuns(listRuns, suite.id)) else None
  }

  // ---------------------------------------------------------------------------
  // The pass
  // ---------------------------------------------------------------------------

  /** The body of the suite loop for an accepted suite: a fresh list, one runs
      query per status in `WorkflowRunStatusesToFind`, each result merged in. */
  method CollectSuiteRuns(suiteId: int, listWorkflowRunsForRepo: (int, string) -> seq<WorkflowRun>)
    returns (workflowRuns: seq<WorkflowRun>, queries: seq<Query>)
    ensures workflowRuns == CollectRuns(listWorkflowRunsForRepo, suiteId)
    ensures queries == [ListWorkflowRunsForRepo(suiteId, Queued), ListWorkflowRunsForRepo(suiteId, InProgress)]
  {
    workflowRuns := [];
    queries := [];
    var k := 0;
    while k < |WorkflowRunStatusesToFind|
      invariant 0 <= k <= |WorkflowRunStatusesToFind|
      invariant workflowRuns == AppendAbsent([], FetchedRuns(listWorkflowRunsForRepo, suiteId, WorkflowRunStatusesToFind[..k]))
      invariant |queries| == k
      invariant forall j | 0 <= j < k :: queries[j] == ListWorkflowRunsForRepo(suiteId, WorkflowRunStatusesToFind[j])
    {
      var status := WorkflowRunStatusesToFind[k];
      var currentRuns := listWorkflowRunsForRepo(suiteId, status);
      queries := queries + [ListWorkflowRunsForRepo(suiteId, status)];
      ghost var before := FetchedRuns(listWorkflowRunsForRepo, suiteId, WorkflowRunStatusesToFind[..k]);
      AppendAbsentConcat([], before, currentRuns);
      workflowRuns := PushAbsent(workflowRuns, currentRuns);
      assert WorkflowRunStatusesToFind[..k + 1][..k] == WorkflowRunStatusesToFind[..k];
      k := k + 1;
    }
    assert WorkflowRunStatusesToFind[..k] == WorkflowRunStatusesToFind;
  }

  /** `run()`: returns at once when the event carries no pull request;
      otherwise lists the head commit's check suites and walks them in order. */
  method Run(
    event: Option<PullRequest>,
    listSuitesForRef: string -> seq<CheckSuite>,
    listWorkflowRunsForRepo: (int, string) -> seq<WorkflowRun>)
    returns (outcome: Outcome, queries: seq<Query>)
    ensures event.None? <==> outcome == NotPullRequestEvent
    ensures event.None? ==> queries == []
    ensures event.Some? ==>
      var pullRequest := event.value;
      var checkSuites := listSuitesForRef(pullRequest.headSha);
      && outcome.Scanned?
      && |outcome.suiteRuns| == |checkSuites|
      && (forall k | 0 <= k < |checkSuites| ::
            outcome.suiteRuns[k] == SuiteRuns(checkSuites[k], pullRequest.number, listWorkflowRunsForRepo))
      && queries == [ListSuitesForRef(pullRequest.headSha)] + SuitesQueries(checkSuites, pullRequest.number)
  {
    if event.None? {
      return NotPullRequestEvent, [];
    }
    var pullRequest := event.value;
    var checkSuites := listSuitesForRef(pullRequest.headSha);
    queries := [ListSuitesForRef(pullRequest.headSha)];
    var suiteRuns: seq<Option<seq<WorkflowRun>>> := [];
    var k := 0;
    while k < |checkSuites|
      invariant 0 <= k <= |checkSuites|
      invariant |suiteRuns| == k
      invariant forall j | 0 <= j < k ::
        suiteRuns[j] == SuiteRuns(checkSuites[j], pullRequest.number, listWorkflowRunsForRepo)
      invariant queries == [ListSuitesForRef(pullRequest.headSha)] + SuitesQueries(checkSuites[..k], pullRequest.number)
    {
      var checkSuite := checkSuites[k];
      assert checkSuites[..k + 1][..k] == checkSuites[..k];
      if !IsAccepted(checkSuite, pullRequest.number) {
        suiteRuns := suiteRuns + [None];
      } else {
        var workflowRuns, runQueries := CollectSuiteRuns(checkSuite.id, listWorkflowRunsForRepo);
        suiteRuns := suiteRuns + [Some(workflowRuns)];
        queries := queries + runQueries;
      }
      k := k + 1;
    }
    assert checkSuites[..k] == checkSuites;
    outcome := Scanned(suiteRuns);
  }

  // ---------------------------------------------------------------------------
  // Properties
  // ---------------------------------------------------------------------------

  /** A suite is accepted exactly when its app is `github-actions` and it is
      linked to exactly one pull request, the event's. */
  lemma SuiteFilter(suite: CheckSuite, prNumber: int)
    ensures IsAccepted(suite, prNumber) <==>
      suite.appName == Some(GitHubActionsAppName) && suite.pullRequests == Some([prNumber])
  {
    if suite.pullRequests.Some? && |suite.pullRequests.value| == 1 {
      assert suite.pullRequests.value == [suite.pullRequests.value[0]];
    }
  }

  /** The runs of an accepted suite are the queued runs followed by the
      in-progress runs. */
  lemma FetchedQueuedThenInProgress(listRuns: (int, string) -> seq<WorkflowRun>, suiteId: int)
    ensures FetchedRuns(listRuns, suiteId, WorkflowRunStatusesToFind) == listRuns(suiteId, Queued) + listRuns(suiteId, InProgress)
  {
    assert WorkflowRunStatusesToFind[..1] == [Queued];
    assert [Queued][..0] == [];
    assert FetchedRuns(listRuns, suiteId, [Queued]) == [] + listRuns(suiteId, Queued);
    assert [] + listRuns(suiteId, Queued) == listRuns(suiteId, Queued);
  }

  /** A suite's run list has no two entries with the same id. */
  lemma CollectRunsIdsUnique(listRuns: (int, string) -> seq<WorkflowRun>, suiteId: int)
    ensures UniqueIds(CollectRuns(listRuns, suiteId))
  {
    AppendAbsentKeepsIdsUnique([], FetchedRuns(listRuns, suiteId, WorkflowRunStatusesToFind));
  }

  /** Nothing is lost and no id is made up: an id is in a suite's run list
      exactly when one of the two status queries returned a run with it. */
  lemma CollectRunsIds(listRuns: (int, string) -> seq<WorkflowRun>, suiteId: int)
    ensures forall id :: HasId(CollectRuns(listRuns, suiteId), id) <==>
      HasId(listRuns(suiteId, Queued), id) || HasId(listRuns(suiteId, InProgress), id)
  {
    FetchedQueuedThenInProgress(listRuns, suiteId);
    AppendAbsentIds([], FetchedRuns(listRuns, suiteId, WorkflowRunStatusesToFind));
    HasIdConcat(listRuns(suiteId, Queued), listRuns(suiteId, InProgress));
  }

  /** Every entry of a suite's run list is a run one of its status queries
      returned; in particular no run of another suite's queries enters it. */
  lemma CollectRunsInventsNothing(listRuns: (int, string) -> seq<WorkflowRun>, suiteId: int)
    ensures forall run | run in CollectRuns(listRuns, suiteId) ::
      run in listRuns(suiteId, Queued) || run in listRuns(suiteId, InProgress)
  {
    var fetched := FetchedRuns(listRuns, suiteId, WorkflowRunStatusesToFind);
    FetchedQueuedThenInProgress(listRuns, suiteId);
    AppendAbsentInventsNothing([], fetched);
  }

  /** For an id returned more than once, the suite's run list holds the first
      run seen, queued results before in-progress ones. */
  lemma CollectRunsKeepsFirstSeen(listRuns: (int, string) -> seq<WorkflowRun>, suiteId: int)
    ensures var runs := CollectRuns(listRuns, suiteId);
      var fetched := listRuns(suiteId, Queued) + listRuns(suiteId, InProgress);
      forall k | 0 <= k < |runs| :: HasId(fetched, runs[k].id) && runs[k] == FirstWithId(fetched, runs[k].id)
  {
    var fetched := FetchedRuns(listRuns, suiteId, WorkflowRunStatusesToFind);
    FetchedQueuedThenInProgress(listRuns, suiteId);
    AppendAbsentKeepsFirstSeen([], fetched);
    assert [] + fetched == fetched;
    assert CollectRuns(listRuns, suiteId) == AppendAbsent([], fetched);
  }

  /** Runs are queried only for accepted suites, and only with the statuses to
      find: a skipped suite causes no runs query. */
  lemma {:induction false} SuitesQueriesOnlyAccepted(suites: seq<CheckSuite>, prNumber: int)
    ensures forall q | q in SuitesQueries(suites, prNumber) ::
      && q.ListWorkflowRunsForRepo?
      && q.status in WorkflowRunStatusesToFind
      && exists k | 0 <= k < |suites| :: suites[k].id == q.checkSuiteId && IsAccepted(suites[k], prNumber)
  {
    if suites != [] {
      var init := suites[..|suites| - 1];
      var last := suites[|suites| - 1];
      SuitesQueriesOnlyAccepted(init, prNumber);
      forall q | q in SuitesQueries(suites, prNumber)
        ensures && q.ListWorkflowRunsForRepo?
                && q.status in WorkflowRunStatusesToFind
                && exists k | 0 <= k < |suites| :: suites[k].id == q.checkSuiteId && IsAccepted(suites[k], prNumber)
      {
        if q in SuitesQueries(init, prNumber) {
          var k :| 0 <= k < |init| && init[k].id == q.checkSuiteId && IsAccepted(init[k], prNumber);
          assert suites[k] == init[k];
        } else {
          assert q in SuiteQueries(last, prNumber);
        }
      }
    }
  }

  /** Every accepted suite is queried for both statuses. */
  lemma {:induction false} SuitesQueriesCoverAccepted(suites: seq<CheckSuite>, prNumber: int)
    ensures forall k | 0 <= k < |suites| && IsAccepted(suites[k], prNumber) ::
      && ListWorkflowRunsForRepo(suites[k].id, Queued) in SuitesQueries(suites, prNumber)
      && ListWorkflowRunsForRepo(suites[k].id, InProgress) in SuitesQueries(suites, prNumber)
  {
    if suites != [] {
      var init := suites[..|suites| - 1];
      SuitesQueriesCoverAccepted(init, prNumber);
      forall k | 0 <= k < |suites| && IsAccepted(suites[k], prNumber)
        ensures && ListWorkflowRunsForRepo(suites[k].id, Queued) in SuitesQueries(suites, prNumber)
                && ListWorkflowRunsForRepo(suites[k].id, InProgress) in SuitesQueries(suites, prNumber)
      {
        if k < |init| {
          assert init[k] == suites[k];
        }
      }
    }
  }
}

# cancel-pr-actions: suite selection and run de-duplication

This project models the selection logic of the `cancel-pr-actions` GitHub
Action: its entry point `run()`, which runs once per pull-request event, and
proves properties of that model.

- When the event carries no pull request, `run()` returns before it issues any query.
- Otherwise it lists the check suites of the pull request's head commit.
- A suite is kept only when three things hold. Its app is named
  `github-actions`. It is linked to exactly one pull request. That pull
  request is the event's own.
- For each kept suite, `run()` starts a fresh list of workflow runs. It
  queries the suite's runs with status `queued`, then with status
  `in_progress`. It appends every returned run whose id is not yet in the list.

The platform's two list queries are inputs to the model. `listSuitesForRef`
and `listWorkflowRunsForRepo` are total functions from a query's arguments to
its full, already paginated result. A pass produces two observable things:

- the sequence of queries it issues (`Main.Query`);
- for each listed suite, the run list it collects and logs, or `None` for a
  skipped suite (`Main.Outcome`).

The de-duplicating merge has a specification function,
`RunMerge.AppendAbsent`. The source's loops are methods proved against it:
the `some` scan is `ContainsRunWithId`, the `forEach`/`push` is `PushAbsent`,
the status loop is `CollectSuiteRuns` and the suite loop is `Run`. Lemmas about
`AppendAbsent` and `CollectRuns` state the merge's guarantees. Ids stay unique.
No id is lost and none is invented. Entries already in the list keep their
place. For a repeated id, the first run seen is kept.

Files: `wrappers.dfy` (an `Option` type), `run_merge.dfy` (module `RunMerge`),
`main.dfy` (module `Main`).

## Model

| member | source | states |
|---|---|---|
| `RunMerge.ContainsRunWithId` | src/main.ts:61 | the `some` scan answers true exactly when some entry of the list has the given id |
| `RunMerge.PushAbsent` | src/main.ts:60-64 | the `forEach`/`push` loop yields `AppendAbsent`, which takes the incoming runs in order and pushes each one whose id is absent from the list; it keeps unique ids unique and leaves the list it started from as a prefix of the result |
| `RunMerge.AppendAbsentExtends` | src/main.ts:60-64 | the merge only appends: the starting list is a prefix of the result, so entries already present keep their position and value |
| `RunMerge.AppendAbsentKeepsIdsUnique` | src/main.ts:60-64 | merging into a list with unique ids leaves a list with unique ids |
| `RunMerge.AppendAbsentIds` | src/main.ts:60-64 | an id is in the result exactly when it was in the starting list or among the incoming runs: nothing lost, no id made up |
| `RunMerge.AppendAbsentInventsNothing` | src/main.ts:60-63 | every entry of the result is an unchanged entry of the starting list or an incoming run |
| `RunMerge.AppendAbsentKeepsFirstSeen` | src/main.ts:61-62 | from a list with unique ids, every entry of the result is the first run with its id in the starting list followed by the incoming runs; later runs with a repeated id are dropped |
| `RunMerge.AppendAbsentConcat` | src/main.ts:52-65 | merging one query's runs and then the next query's equals merging their concatenation at once |
| `Main.SuiteFilter` | src/main.ts:40-45 | `IsAccepted`, the negation of the `continue` guard, holds exactly when the suite's app name is present and equal to `github-actions` and its pull-request list is present and is exactly the event's pull-request number; an absent name, an absent list, a list of length other than 1, or a different number makes it skipped |
| `Main.FetchedQueuedThenInProgress` | src/main.ts:48-59 | unfolds `FetchedRuns` on the fixed status list: the runs fetched for a suite are the `queued` results followed by the `in_progress` results; the `CollectRuns` lemmas rest on it, and the query order itself is stated by `CollectSuiteRuns` |
| `Main.CollectSuiteRuns` | src/main.ts:47-65 | starting from an empty list, it issues the `queued` query and then the `in_progress` query for the suite, and returns the merge of all fetched runs |
| `Main.Run` | src/main.ts:24-68 | without a pull request: no query and no suite processed; otherwise one suite listing for the head SHA, then in suite order the status queries of accepted suites only, and per suite `None` when skipped or that suite's own collected runs when accepted |
| `Main.CollectRunsIdsUnique` | src/main.ts:47-65 | a suite's collected list has no two entries with the same id |
| `Main.CollectRunsIds` | src/main.ts:47-65 | an id is in a suite's list exactly when the `queued` or the `in_progress` query for that suite returned a run with it |
| `Main.CollectRunsInventsNothing` | src/main.ts:47-63 | every entry of a suite's list is a run returned by that suite's own status queries, so no run leaks in from another suite |
| `Main.CollectRunsKeepsFirstSeen` | src/main.ts:48-62 | for a repeated id, the entry kept is the first one seen, with `queued` results before `in_progress` ones |
| `Main.SuitesQueriesOnlyAccepted` | src/main.ts:40-59 | every runs query issued names an accepted suite and one of the two statuses to find; a skipped suite causes no runs query |
| `Main.SuitesQueriesCoverAccepted` | src/main.ts:47-59 | every accepted suite is queried with both `queued` and `in_progress` |

## Left out

- API calls (`octokit.paginate`, `checks.listSuitesForRef`, `actions.listWorkflowRunsForRepo`, src/main.ts:33-37, 53-59): network I/O and pagination through a library that is not part of this model. Their complete results are function parameters. A query that fails, or that returns different results for the same arguments, is not modelled.
- Token handling and client construction (`newOctokitInstance`, src/main.ts:4, 11, 14): credentials and a foreign client.
- Logging (`dump`, `core.info`, `core.warning`, `core.setFailed`, and the replacer that drops `repository`, src/main.ts:16-22, 27, 29, 39, 67, 71): output formatting through an external library. The run list that `dump` logs at line 67 is the per-suite result of `Main.Run`.
- The `dryRun` input (src/main.ts:12): it is read and never used, so it has no behaviour.
- Exceptions rethrown from the `try/catch`, and the unawaited top-level call (src/main.ts:70-73, 77): error plumbing and asynchronous execution.
- `pull_request.head.sha` is optional in the source (src/main.ts:36). The model's `PullRequest` always has a head SHA, so a listing query without a ref is not represented.
- `Main.PullRequest` and `Main.CheckSuite` keep only the fields the code reads. `WorkflowRun` keeps `id` and, so that two runs sharing an id can differ, `status` and `htmlUrl`.
- The list that `push` grows in place is a local value (`seq`) reassigned by the model's methods. The array is local to one suite iteration and never aliased, so nothing is lost by this.
- Cancellation, retry, escalation, dry-run suppression and output counts: none of these exists in `src/main.ts`.

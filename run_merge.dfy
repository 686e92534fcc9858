/**
  The de-duplicating merge that `run()` performs for each accepted check suite:
  every workflow run returned by a status query is pushed onto the suite's list
  unless a run with the same id is already in it.

  `AppendAbsent` is the specification of that merge; the methods
  `ContainsRunWithId` (the `some` scan) and `PushAbsent` (the `forEach` with its
  guarded `push`) are the loops the source runs, proved against it.
 */
module RunMerge {

  /** A workflow run as the runs query returns it. Only `id` is examined by the
      merge; `status` and `htmlUrl` are carried along, so two runs sharing an id
      may still differ (the same run seen by two queries at different times). */
  datatype WorkflowRun = WorkflowRun(id: int, status: string, htmlUrl: string)

  /** Some entry of `runs` has id `id`. */
  predicate HasId(runs: seq<WorkflowRun>, id: int) {
    exists k | 0 <= k < |runs| :: runs[k].id == id
  }

  /** No two entries of `runs` share an id. */
  predicate UniqueIds(runs: seq<WorkflowRun>) {
    forall j, k | 0 <= j < k < |runs| :: runs[j].id != runs[k].id
  }

  /** The earliest entry of `runs` whose id is `id`. */
  function FirstWithId(runs: seq<WorkflowRun>, id: int): (run: WorkflowRun)
    requires HasId(runs, id)
    ensures run in runs && run.id == id
  {
    if runs[0].id == id then runs[0]
    else
      assert HasId(runs[1..], id) by {
        var k :| 0 <= k < |runs| && runs[k].id == id;
        assert runs[1..][k - 1].id == id;
      }
      FirstWithId(runs[1..], id)
  }

  /** The list obtained from `acc` by taking the runs of `incoming` in order and
      pushing each one whose id is not yet in the list. */
  function AppendAbsent(acc: seq<WorkflowRun>, incoming: seq<WorkflowRun>): (merged: seq<WorkflowRun>)
    decreases |incoming|
  {
    if incoming == [] then acc
    else
      var run := incoming[0];
      AppendAbsent(if HasId(acc, run.id) then acc else acc + [run], incoming[1..])
  }

  // ---------------------------------------------------------------------------
  // The loops of the source
  // ---------------------------------------------------------------------------

  /** Whether some entry of `workflowRuns` has id `id`: a left-to-right scan
      that stops at the first match. */
  method ContainsRunWithId(workflowRuns: seq<WorkflowRun>, id: int) returns (found: bool)
    ensures found <==> HasId(workflowRuns, id)
  {
    var k := 0;
    while k < |workflowRuns|
      invariant 0 <= k <= |workflowRuns|
      invariant forall j | 0 <= j < k :: workflowRuns[j].id != id
    {
      if workflowRuns[k].id == id {
        return true;
      }
      k := k + 1;
    }
    return false;
  }

  /** For each run of `currentRuns`, in order, push it onto the list unless a
      run with its id is already present. The array the source grows in place
      is the local list `merged` here. */
  method PushAbsent(workflowRuns: seq<WorkflowRun>, currentRuns: seq<WorkflowRun>)
    returns (merged: seq<WorkflowRun>)
    ensures merged == AppendAbsent(workflowRuns, currentRuns)
    ensures UniqueIds(workflowRuns) ==> UniqueIds(merged)
    ensures |workflowRuns| <= |merged| && merged[..|workflowRuns|] == workflowRuns
  {
    merged := workflowRuns;
    var k := 0;
    while k < |currentRuns|
      invariant 0 <= k <= |currentRuns|
      invariant AppendAbsent(merged, currentRuns[k..]) == AppendAbsent(workflowRuns, currentRuns)
    {
      var present := ContainsRunWithId(merged, currentRuns[k].id);
      if !present {
        merged := merged + [currentRuns[k]];
      }
      assert currentRuns[k..][1..] == currentRuns[k + 1..];
      k := k + 1;
    }
    if UniqueIds(workflowRuns) {
      AppendAbsentKeepsIdsUnique(workflowRuns, currentRuns);
    }
    AppendAbsentExtends(workflowRuns, currentRuns);
  }

  // ---------------------------------------------------------------------------
  // Facts about ids
  // ---------------------------------------------------------------------------

  /** An id occurs in a concatenation exactly when it occurs in one of the parts. */
  lemma HasIdConcat(a: seq<WorkflowRun>, b: seq<WorkflowRun>)
    ensures forall id :: HasId(a + b, id) <==> HasId(a, id) || HasId(b, id)
  {
    forall id ensures HasId(a + b, id) <==> HasId(a, id) || HasId(b, id) {
      if HasId(a, id) {
        var k :| 0 <= k < |a| && a[k].id == id;
        assert (a + b)[k].id == id;
      }
      if HasId(b, id) {
        var k :| 0 <= k < |b| && b[k].id == id;
        assert (a + b)[|a| + k].id == id;
      }
      if HasId(a + b, id) {
        var k :| 0 <= k < |a + b| && (a + b)[k].id == id;
        if k < |a| {
          assert a[k].id == id;
        } else {
          assert b[k - |a|].id == id;
        }
      }
    }
  }

  /** Pushing a run whose id is absent keeps the ids unique. */
  lemma PushKeepsIdsUnique(acc: seq<WorkflowRun>, run: WorkflowRun)
    requires UniqueIds(acc) && !HasId(acc, run.id)
    ensures UniqueIds(acc + [run])
  {
  }

  /** An entry preceded by no entry with the same id is the first with its id. */
  lemma {:induction false} FirstWithIdAt(runs: seq<WorkflowRun>, p: nat)
    requires p < |runs|
    requires forall j | 0 <= j < p :: runs[j].id != runs[p].id
    ensures HasId(runs, runs[p].id) && FirstWithId(runs, runs[p].id) == runs[p]
  {
    if p > 0 {
      var rest := runs[1..];
      assert rest[p - 1] == runs[p];
      FirstWithIdAt(rest, p - 1);
    }
  }

  /** In `a + b`, an id that occurs in `a` is first found in `a`. */
  lemma {:induction false} FirstWithIdInLeft(a: seq<WorkflowRun>, b: seq<WorkflowRun>, id: int)
    requires HasId(a, id)
    ensures HasId(a + b, id) && FirstWithId(a + b, id) == FirstWithId(a, id)
    decreases |a|
  {
    HasIdConcat(a, b);
    if a[0].id != id {
      assert HasId(a[1..], id) by {
        var k :| 0 <= k < |a| && a[k].id == id;
        assert a[1..][k - 1].id == id;
      }
      assert (a + b)[1..] == a[1..] + b;
      FirstWithIdInLeft(a[1..], b, id);
    }
  }

  /** In `a + b`, an id that does not occur in `a` is first found in `b`. */
  lemma {:induction false} FirstWithIdInRight(a: seq<WorkflowRun>, b: seq<WorkflowRun>, id: int)
    requires !HasId(a, id) && HasId(b, id)
    ensures HasId(a + b, id) && FirstWithId(a + b, id) == FirstWithId(b, id)
    decreases |a|
  {
    HasIdConcat(a, b);
    if a == [] {
      assert a + b == b;
    } else {
      assert a[0].id != id;
      forall k | 0 <= k < |a[1..]| ensures a[1..][k].id != id {
        assert a[1..][k] == a[k + 1];
      }
      assert (a + b)[1..] == a[1..] + b;
      FirstWithIdInRight(a[1..], b, id);
    }
  }

  // ---------------------------------------------------------------------------
  // What the merge guarantees
  // ---------------------------------------------------------------------------

  /** The merge only appends: the list it starts from is a prefix of its result,
      so no entry already present moves or changes. */
  lemma {:induction false} AppendAbsentExtends(acc: seq<WorkflowRun>, incoming: seq<WorkflowRun>)
    ensures |acc| <= |AppendAbsent(acc, incoming)|
    ensures AppendAbsent(acc, incoming)[..|acc|] == acc
    decreases |incoming|
  {
    if incoming != [] {
      var run := incoming[0];
      var next := if HasId(acc, run.id) then acc else acc + [run];
      AppendAbsentExtends(next, incoming[1..]);
      var r := AppendAbsent(acc, incoming);
      assert next[..|acc|] == acc;
      assert r[..|acc|] == r[..|next|][..|acc|];
    }
  }

  /** Merging into a list with unique ids leaves a list with unique ids. */
  lemma {:induction false} AppendAbsentKeepsIdsUnique(acc: seq<WorkflowRun>, incoming: seq<WorkflowRun>)
    requires UniqueIds(acc)
    ensures UniqueIds(AppendAbsent(acc, incoming))
    decreases |incoming|
  {
    if incoming != [] {
      var run := incoming[0];
      if HasId(acc, run.id) {
        AppendAbsentKeepsIdsUnique(acc, incoming[1..]);
      } else {
        PushKeepsIdsUnique(acc, run);
        AppendAbsentKeepsIdsUnique(acc + [run], incoming[1..]);
      }
    }
  }

  /** The ids of the result are exactly the ids of the starting list and of the
      incoming runs: no id is lost and none is made up. */
  lemma {:induction false} AppendAbsentIds(acc: seq<WorkflowRun>, incoming: seq<WorkflowRun>)
    ensures forall id :: HasId(AppendAbsent(acc, incoming), id) <==> HasId(acc, id) || HasId(incoming, id)
    decreases |incoming|
  {
    if incoming != [] {
      var run := incoming[0];
      var next := if HasId(acc, run.id) then acc else acc + [run];
      AppendAbsentIds(next, incoming[1..]);
      HasIdConcat(acc, [run]);
      HasIdConcat([run], incoming[1..]);
      assert incoming == [run] + incoming[1..];
      assert HasId([run], run.id) by { assert [run][0].id == run.id; }
    }
  }

  /** Every entry of the result is an entry of the starting list or one of the
      incoming runs, as it was: no run is invented or altered. */
  lemma {:induction false} AppendAbsentInventsNothing(acc: seq<WorkflowRun>, incoming: seq<WorkflowRun>)
    ensures forall run | run in AppendAbsent(acc, incoming) :: run in acc || run in incoming
    decreases |incoming|
  {
    if incoming != [] {
      var run := incoming[0];
      var next := if HasId(acc, run.id) then acc else acc + [run];
      AppendAbsentInventsNothing(next, incoming[1..]);
      assert forall x | x in incoming[1..] :: x in incoming;
    }
  }

  /** Starting from a list with unique ids, every entry of the result is the
      first run with its id in the starting list followed by the incoming runs:
      for a repeated id the first-seen run is kept and later ones are dropped. */
  lemma {:induction false} AppendAbsentKeepsFirstSeen(acc: seq<WorkflowRun>, incoming: seq<WorkflowRun>)
    requires UniqueIds(acc)
    ensures var r := AppendAbsent(acc, incoming);
      forall k | 0 <= k < |r| :: HasId(acc + incoming, r[k].id) && r[k] == FirstWithId(acc + incoming, r[k].id)
    decreases |incoming|
  {
    var r := AppendAbsent(acc, incoming);
    if incoming == [] {
      assert acc + incoming == acc;
      forall k | 0 <= k < |r|
        ensures HasId(acc + incoming, r[k].id) && r[k] == FirstWithId(acc + incoming, r[k].id)
      {
        FirstWithIdAt(acc, k);
      }
    } else {
      var run := incoming[0];
      var tail := incoming[1..];
      assert incoming == [run] + tail;
      if HasId(acc, run.id) {
        AppendAbsentKeepsFirstSeen(acc, tail);
        assert r == AppendAbsent(acc, tail);
        forall k | 0 <= k < |r|
          ensures HasId(acc + incoming, r[k].id) && r[k] == FirstWithId(acc + incoming, r[k].id)
        {
          var id := r[k].id;
          assert HasId(acc + tail, id);
          HasIdConcat(acc, tail);
          HasIdConcat(acc, incoming);
          if HasId(acc, id) {
            FirstWithIdInLeft(acc, tail, id);
            FirstWithIdInLeft(acc, incoming, id);
          } else {
            assert HasId(tail, id);
            HasIdConcat([run], tail);
            FirstWithIdInRight(acc, tail, id);
            FirstWithIdInRight(acc, incoming, id);
            assert run.id != id;
            assert incoming[1..] == tail;
          }
        }
      } else {
        PushKeepsIdsUnique(acc, run);
        AppendAbsentKeepsFirstSeen(acc + [run], tail);
        assert r == AppendAbsent(acc + [run], tail);
        assert (acc + [run]) + tail == acc + incoming;
      }
    }
  }

  /** Merging `xs` and then `ys` is merging `xs + ys` in one go; this is why the
      per-status merges of one suite add up to one merge of all fetched runs. */
  lemma {:induction false} AppendAbsentConcat(acc: seq<WorkflowRun>, xs: seq<WorkflowRun>, ys: seq<WorkflowRun>)
    ensures AppendAbsent(AppendAbsent(acc, xs), ys) == AppendAbsent(acc, xs + ys)
    decreases |xs|
  {
    if xs == [] {
      assert xs + ys == ys;
    } else {
      var run := xs[0];
      var next := if HasId(acc, run.id) then acc else acc + [run];
      AppendAbsentConcat(next, xs[1..], ys);
      assert (xs + ys)[0] == run;
      assert (xs + ys)[1..] == xs[1..] + ys;
    }
  }
}

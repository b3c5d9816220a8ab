/** Properties of scheduling as a whole: generation followed by the insert. */
module SchedulingProperties {
  import opened OrionTypes
  import opened RunGeneration
  import opened RunInsertion
  import opened StateLinking
  import opened ScheduleWindow

  /** Fresh, distinct run ids give generated candidates that the insert accepts. */
  lemma GeneratedInsertable(runs: map<Id, FlowRun>, states: map<Id, FlowRunState>,
                            deployments: map<Id, Deployment>, deploymentId: Id,
                            dates: seq<Timestamp>, runIds: seq<Id>, stateIds: seq<Id>)
    requires |runIds| >= |dates| && |stateIds| >= |dates|
    requires forall i, j :: 0 <= i < j < |runIds| ==> runIds[i] != runIds[j]
    requires forall id :: id in runIds ==> id !in runs
    requires FreshStateIds(states, stateIds)
    ensures Insertable(runs, states, GeneratedRuns(deployments, deploymentId, dates, runIds), stateIds)
  {
    var gen := GeneratedRuns(deployments, deploymentId, dates, runIds);
    forall r | r in gen ensures r.id !in runs {
      var i :| 0 <= i < |gen| && gen[i] == r;
      assert r.id == runIds[i] && runIds[i] in runIds;
    }
  }

  /** With distinct dates, scheduling creates exactly the generated runs whose
      key the flow-run table does not hold yet. */
  lemma CreatedAreTheUnkeyedRuns(table: map<Id, FlowRun>, deployments: map<Id, Deployment>,
                                 deploymentId: Id, dates: seq<Timestamp>, runIds: seq<Id>)
    requires |runIds| >= |dates|
    requires forall i, j :: 0 <= i < j < |dates| ==> dates[i] != dates[j]
    requires FreshFor(table, GeneratedRuns(deployments, deploymentId, dates, runIds))
    ensures var gen := GeneratedRuns(deployments, deploymentId, dates, runIds);
      forall r :: r in Admitted(table, gen) <==> r in gen && !HasConflict(table, r)
  {
    GeneratedKeysDistinct(deployments, deploymentId, dates, runIds);
    AdmittedExactlyUnkeyed(table, GeneratedRuns(deployments, deploymentId, dates, runIds));
  }

  /** Once the runs for some dates are in the table, generating again for any
      of those dates, with new fresh ids, creates nothing and changes nothing. */
  lemma RepeatedWindowCreatesNothing(table: map<Id, FlowRun>, deployments: map<Id, Deployment>,
                                     deploymentId: Id, dates1: seq<Timestamp>, ids1: seq<Id>,
                                     dates2: seq<Timestamp>, ids2: seq<Id>)
    requires |ids1| >= |dates1| && |ids2| >= |dates2|
    requires Covers(table, GeneratedRuns(deployments, deploymentId, dates1, ids1))
    requires forall t :: t in dates2 ==> t in dates1
    ensures var gen := GeneratedRuns(deployments, deploymentId, dates2, ids2);
      Admitted(table, gen) == [] && BatchInsert(table, gen) == table
  {
    var gen1 := GeneratedRuns(deployments, deploymentId, dates1, ids1);
    var gen2 := GeneratedRuns(deployments, deploymentId, dates2, ids2);
    forall r | r in gen2 ensures HasConflict(table, r) {
      var j :| 0 <= j < |gen2| && gen2[j] == r;
      assert dates2[j] in dates2;
      var i :| 0 <= i < |dates1| && dates1[i] == dates2[j];
      SameDateSameKey(deployments, deploymentId, dates1, ids1, i, dates2, ids2, j);
      assert gen1[i] in gen1;
      var k :| k in table && SameUniqueKey(table[k], gen1[i]);
      assert SameUniqueKey(table[k], r);
    }
    CoveredBatchWritesNothing(table, gen2);
  }

  /** Scheduling is idempotent over a repeated window: once the runs for some
      dates are in the table, scheduling any of those dates again creates no
      run and leaves both tables exactly as they were. */
  lemma RepeatedScheduleChangesNothing(table: map<Id, FlowRun>, states: map<Id, FlowRunState>,
                                       deployments: map<Id, Deployment>, deploymentId: Id,
                                       dates1: seq<Timestamp>, ids1: seq<Id>,
                                       dates2: seq<Timestamp>, ids2: seq<Id>, stateIds: seq<Id>)
    requires |ids1| >= |dates1| && |ids2| >= |dates2|
    requires Covers(table, GeneratedRuns(deployments, deploymentId, dates1, ids1))
    requires forall t :: t in dates2 ==> t in dates1
    requires Insertable(table, states, GeneratedRuns(deployments, deploymentId, dates2, ids2), stateIds)
    ensures var gen := GeneratedRuns(deployments, deploymentId, dates2, ids2);
      && Admitted(table, gen) == []
      && RunsAfterInsert(table, states, gen, stateIds) == table
      && StatesAfterInsert(table, states, gen, stateIds) == states
  {
    var gen := GeneratedRuns(deployments, deploymentId, dates2, ids2);
    RepeatedWindowCreatesNothing(table, deployments, deploymentId, dates1, ids1, dates2, ids2);
    LinkSteps(table, states, gen, stateIds, table, []);
  }

  /** Every created run is auto-scheduled inside the window, in a Scheduled
      state for its own date, and there are no more of them than the cap. */
  lemma CreatedWithinWindow(table: map<Id, FlowRun>, deployments: map<Id, Deployment>,
                            deploymentId: Id, dates: seq<Timestamp>, runIds: seq<Id>, w: Window)
    requires |runIds| >= |dates|
    requires ScheduleDates(dates, w)
    ensures var created := Admitted(table, GeneratedRuns(deployments, deploymentId, dates, runIds));
      && |created| <= w.maxRuns
      && forall r :: r in created ==>
           && r.expectedStartTime.Some?
           && w.start <= r.expectedStartTime.value < w.end
           && r.nextScheduledStartTime == r.expectedStartTime
           && r.state == Some(ScheduledState(r.expectedStartTime.value))
           && r.autoScheduled && r.tags[0] == AutoScheduledTag
  {
    var gen := GeneratedRuns(deployments, deploymentId, dates, runIds);
    forall r | r in Admitted(table, gen)
      ensures r.expectedStartTime.Some? && w.start <= r.expectedStartTime.value < w.end
    {
      var i :| 0 <= i < |gen| && gen[i] == r;
    }
  }
}

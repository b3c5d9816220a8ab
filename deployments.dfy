/** The deployment operations over an in-memory store of three tables:
    deployments, flow runs and flow-run states. */
module Deployments {
  import opened OrionTypes
  import opened RunGeneration
  import opened RunInsertion
  import opened StateLinking
  import opened ScheduleWindow
  import opened DeploymentTable
  import opened SchedulingProperties

  class Store {
    var deployments: map<Id, Deployment>
    var flowRuns: map<Id, FlowRun>
    var flowRunStates: map<Id, FlowRunState>

    ghost predicate Valid()
      reads this
    {
      DeploymentTable.DeploymentRowsConsistent(deployments) && StateLinking.RunTablesConsistent(flowRuns, flowRunStates)
    }

    constructor ()
      ensures Valid()
      ensures deployments == map[] && flowRuns == map[] && flowRunStates == map[]
    {
      deployments, flowRuns, flowRunStates := map[], map[], map[];
    }

    /** Upserts a deployment on its flow and name, then reads back the row
        with that flow and name. */
    method CreateDeployment(deployment: Deployment, now: Timestamp) returns (result: Result<Deployment>)
      requires Valid()
      modifies this
      ensures Valid()
      ensures Upsert(old(deployments), deployment, now).Ok? ==>
        && deployments == Upsert(old(deployments), deployment, now).value
        && result.Ok? && SameName(result.value, deployment)
        && result.value.id in deployments && deployments[result.value.id] == result.value
      ensures Upsert(old(deployments), deployment, now).Err? ==>
        deployments == old(deployments) && result == Err(UniqueViolation(deployment.id))
      ensures flowRuns == old(flowRuns) && flowRunStates == old(flowRunStates)
    {
      var upserted := Upsert(deployments, deployment, now);
      if upserted.Err? {
        return Err(upserted.error);
      }
      UpsertLeavesOneRow(deployments, deployment, now);
      deployments := upserted.value;
      var k :| k in deployments && SameName(deployments[k], deployment);
      result := Ok(deployments[k]);
    }

    /** Deletes a deployment by id, telling whether a row was removed. */
    method DeleteDeployment(deploymentId: Id) returns (deleted: bool)
      requires Valid()
      modifies this
      ensures Valid()
      ensures deleted <==> deploymentId in old(deployments)
      ensures deployments == old(deployments) - {deploymentId}
      ensures flowRuns == old(flowRuns) && flowRunStates == old(flowRunStates)
    {
      deleted := deploymentId in deployments;
      DeleteKeepsConsistent(deployments, deploymentId);
      deployments := deployments - {deploymentId};
    }

    /** Resolves the window, generates the candidates for the dates the
        deployment's schedule yields in it, and inserts them; returns the runs
        that were created. */
    method ScheduleRuns(deploymentId: Id, startTime: Option<Timestamp>, endTime: Option<Timestamp>,
                        maxRuns: Option<nat>, now: Timestamp, settings: Settings,
                        dates: seq<Timestamp>, runIds: seq<Id>, stateIds: seq<Id>)
      returns (created: seq<FlowRun>)
      requires Valid()
      requires ScheduleDates(dates, ResolveWindow(startTime, endTime, maxRuns, now, settings))
      requires |runIds| >= |dates| && |stateIds| >= |dates|
      requires forall i, j :: 0 <= i < j < |runIds| ==> runIds[i] != runIds[j]
      requires forall id :: id in runIds ==> id !in flowRuns
      requires FreshStateIds(flowRunStates, stateIds)
      modifies this
      ensures Valid()
      ensures var candidates := GeneratedRuns(old(deployments), deploymentId, dates, runIds);
        && created == Admitted(old(flowRuns), candidates)
        && Insertable(old(flowRuns), old(flowRunStates), candidates, stateIds)
        && flowRuns == RunsAfterInsert(old(flowRuns), old(flowRunStates), candidates, stateIds)
        && flowRunStates == StatesAfterInsert(old(flowRuns), old(flowRunStates), candidates, stateIds)
        && Covers(flowRuns, candidates)
      ensures var window := ResolveWindow(startTime, endTime, maxRuns, now, settings);
        && |created| <= window.maxRuns
        && forall r :: r in created ==>
             r.expectedStartTime.Some? && window.start <= r.expectedStartTime.value < window.end
      ensures !Schedulable(old(deployments), deploymentId) ==>
        created == [] && flowRuns == old(flowRuns) && flowRunStates == old(flowRunStates)
      ensures deployments == old(deployments)
    {
      var window := ResolveWindow(startTime, endTime, maxRuns, now, settings);
      var candidates := GenerateScheduledFlowRuns(deploymentId, dates, runIds);
      GeneratedInsertable(flowRuns, flowRunStates, deployments, deploymentId, dates, runIds, stateIds);
      CreatedWithinWindow(flowRuns, deployments, deploymentId, dates, runIds, window);
      if !Schedulable(deployments, deploymentId) {
        EmptyInsertChangesNothing(flowRuns, flowRunStates, stateIds);
      }
      created := InsertScheduledFlowRuns(candidates, stateIds);
    }

    /** The candidates for the given dates: none unless the deployment exists
        and has an active schedule, otherwise one per date, in date order. */
    method GenerateScheduledFlowRuns(deploymentId: Id, dates: seq<Timestamp>, runIds: seq<Id>)
      returns (candidates: seq<FlowRun>)
      requires |runIds| >= |dates|
      ensures candidates == GeneratedRuns(deployments, deploymentId, dates, runIds)
    {
      if !Schedulable(deployments, deploymentId) {
        return [];
      }
      var deployment := deployments[deploymentId];
      candidates := [];
      for i := 0 to |dates|
        invariant |candidates| == i
        invariant forall j :: 0 <= j < i ==> candidates[j] == BuildRun(deployment, deploymentId, dates[j], runIds[j])
      {
        candidates := candidates + [BuildRun(deployment, deploymentId, dates[i], runIds[i])];
      }
      GeneratedRunsAre(deployments, deploymentId, dates, runIds, candidates);
    }

    /** Inserts the candidates, skipping those whose key is taken, gives each
        inserted run its state row and points the run at it; returns the
        inserted candidates in input order. An empty batch touches nothing. */
    method InsertScheduledFlowRuns(candidates: seq<FlowRun>, stateIds: seq<Id>) returns (created: seq<FlowRun>)
      requires Valid()
      requires Insertable(flowRuns, flowRunStates, candidates, stateIds)
      modifies this
      ensures Valid()
      ensures created == Admitted(old(flowRuns), candidates)
      ensures flowRuns == RunsAfterInsert(old(flowRuns), old(flowRunStates), candidates, stateIds)
      ensures flowRunStates == StatesAfterInsert(old(flowRuns), old(flowRunStates), candidates, stateIds)
      ensures Covers(flowRuns, candidates)
      ensures deployments == old(deployments)
    {
      if candidates == [] {
        EmptyInsertChangesNothing(flowRuns, flowRunStates, stateIds);
        return [];
      }
      created := InsertBatch(candidates, stateIds);
    }

    /** The insert of a non-empty batch: insert ignoring conflicts, probe for
        the inserted runs (those without a state row), insert their state rows
        and link each run to its row. */
    method InsertBatch(candidates: seq<FlowRun>, stateIds: seq<Id>) returns (created: seq<FlowRun>)
      requires Valid()
      requires Insertable(flowRuns, flowRunStates, candidates, stateIds)
      modifies this
      ensures Valid()
      ensures created == Admitted(old(flowRuns), candidates)
      ensures flowRuns == RunsAfterInsert(old(flowRuns), old(flowRunStates), candidates, stateIds)
      ensures flowRunStates == StatesAfterInsert(old(flowRuns), old(flowRunStates), candidates, stateIds)
      ensures Covers(flowRuns, candidates)
      ensures deployments == old(deployments)
    {
      ghost var table, states := flowRuns, flowRunStates;
      flowRuns := BatchInsert(flowRuns, candidates);
      var insertedIds := Unstated(flowRuns, flowRunStates, IdsOf(candidates));
      ProbeSteps(table, states, candidates, stateIds, flowRuns, insertedIds);
      created := Filter(candidates, insertedIds);
      var rows := StateRows(created, stateIds);
      LinkSteps(table, states, candidates, stateIds, flowRuns, rows);
      if rows != [] {
        flowRunStates := InsertStates(flowRunStates, rows);
        flowRuns := LinkStates(flowRuns, rows);
      }
      AfterInsertConsistent(table, states, candidates, stateIds, flowRuns, flowRunStates);
    }
  }
}

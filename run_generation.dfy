/** Turning the dates a deployment's schedule yields into flow-run candidates.
    Each candidate is keyed by its deployment and date, tagged as
    auto-scheduled, and carries a Scheduled state for its date. */
module RunGeneration {
  import opened OrionTypes
  import IdempotencyKey

  const AutoScheduledTag: string := "auto-scheduled"
  const ScheduledMessage: string := "Flow run scheduled"

  /** The state a generated run starts in. */
  function ScheduledState(date: Timestamp): StatePayload {
    StatePayload(Scheduled, ScheduledMessage, Some(date))
  }

  /** Runs are generated only for a deployment that exists, has a schedule
      and whose schedule is active. */
  predicate Schedulable(deployments: map<Id, Deployment>, deploymentId: Id) {
    && deploymentId in deployments
    && deployments[deploymentId].schedule.Some?
    && deployments[deploymentId].isScheduleActive
  }

  /** The candidate for deployment `d` at `date`, with the fresh id `id`. */
  function BuildRun(d: Deployment, deploymentId: Id, date: Timestamp, id: Id): FlowRun {
    FlowRun(
      id, d.flowId, Some(deploymentId), d.parameters,
      Some(IdempotencyKey.Key(d.id, date)),
      [AutoScheduledTag] + d.tags,
      true,
      Some(ScheduledState(date)),
      Some(Scheduled),
      None,
      Some(date),
      Some(date))
  }

  /** The candidates generated for `deploymentId` from `dates`, the i-th taking
      the fresh id `ids[i]`. */
  function GeneratedRuns(deployments: map<Id, Deployment>, deploymentId: Id,
                         dates: seq<Timestamp>, ids: seq<Id>): (runs: seq<FlowRun>)
    requires |ids| >= |dates|
    ensures Schedulable(deployments, deploymentId) ==> |runs| == |dates|
    ensures !Schedulable(deployments, deploymentId) ==> runs == []
  {
    if !Schedulable(deployments, deploymentId) then []
    else
      var d := deployments[deploymentId];
      seq(|dates|, i requires 0 <= i < |dates| => BuildRun(d, deploymentId, dates[i], ids[i]))
  }

  /** A list built run by run from the dates is the generated list. */
  lemma GeneratedRunsAre(deployments: map<Id, Deployment>, deploymentId: Id,
                         dates: seq<Timestamp>, ids: seq<Id>, runs: seq<FlowRun>)
    requires |ids| >= |dates|
    requires Schedulable(deployments, deploymentId)
    requires |runs| == |dates|
    requires forall j :: 0 <= j < |dates| ==> runs[j] == BuildRun(deployments[deploymentId], deploymentId, dates[j], ids[j])
    ensures runs == GeneratedRuns(deployments, deploymentId, dates, ids)
  {
  }

  /** The i-th generated candidate is for the deployment's flow, carries its
      parameters, the key of its deployment and date, the auto-scheduled tag
      ahead of the deployment's tags, and a Scheduled state for the date, which
      is also its expected and next scheduled start. */
  lemma GeneratedRunFields(deployments: map<Id, Deployment>, deploymentId: Id,
                           dates: seq<Timestamp>, ids: seq<Id>, i: nat)
    requires |ids| >= |dates|
    requires Schedulable(deployments, deploymentId)
    requires i < |dates|
    ensures var d := deployments[deploymentId];
      var r := GeneratedRuns(deployments, deploymentId, dates, ids)[i];
      && r.id == ids[i]
      && r.flowId == d.flowId
      && r.deploymentId == Some(deploymentId)
      && r.parameters == d.parameters
      && r.idempotencyKey == Some(IdempotencyKey.Key(d.id, dates[i]))
      && r.tags == [AutoScheduledTag] + d.tags
      && r.autoScheduled
      && r.state == Some(StatePayload(Scheduled, ScheduledMessage, Some(dates[i])))
      && r.stateType == Some(Scheduled)
      && r.stateId == None
      && r.nextScheduledStartTime == Some(dates[i])
      && r.expectedStartTime == Some(dates[i])
  {
  }

  /** Distinct dates give candidates that do not collide on the flow-run
      table's unique key. */
  lemma GeneratedKeysDistinct(deployments: map<Id, Deployment>, deploymentId: Id,
                              dates: seq<Timestamp>, ids: seq<Id>)
    requires |ids| >= |dates|
    requires forall i, j :: 0 <= i < j < |dates| ==> dates[i] != dates[j]
    ensures var runs := GeneratedRuns(deployments, deploymentId, dates, ids);
      forall i, j :: 0 <= i < |runs| && 0 <= j < |runs| && i != j ==> !SameUniqueKey(runs[i], runs[j])
  {
    var runs := GeneratedRuns(deployments, deploymentId, dates, ids);
    forall i, j | 0 <= i < |runs| && 0 <= j < |runs| && i != j
      ensures !SameUniqueKey(runs[i], runs[j])
    {
      var d := deployments[deploymentId];
      IdempotencyKey.KeyInjective(d.id, dates[i], d.id, dates[j]);
    }
  }

  /** Two generations for the same deployment produce, for the same date, runs
      that collide on the unique key, whatever fresh ids they were given. */
  lemma SameDateSameKey(deployments: map<Id, Deployment>, deploymentId: Id,
                        dates1: seq<Timestamp>, ids1: seq<Id>, i: nat,
                        dates2: seq<Timestamp>, ids2: seq<Id>, j: nat)
    requires |ids1| >= |dates1| && |ids2| >= |dates2|
    requires Schedulable(deployments, deploymentId)
    requires i < |dates1| && j < |dates2|
    ensures var r1 := GeneratedRuns(deployments, deploymentId, dates1, ids1)[i];
            var r2 := GeneratedRuns(deployments, deploymentId, dates2, ids2)[j];
            SameUniqueKey(r1, r2) <==> dates1[i] == dates2[j]
  {
    var d := deployments[deploymentId];
    IdempotencyKey.KeyInjective(d.id, dates1[i], d.id, dates2[j]);
  }
}

/** Rows and payloads of the Orion tables that scheduling touches: deployments,
    flow runs and flow-run states. */
module OrionTypes {

  /** A UUID, as the 128-bit number it stands for. */
  type Id = nat

  /** A point in time, in whole seconds. */
  type Timestamp = int

  datatype Option<+T> = None | Some(value: T)

  /** The lifecycle kinds a flow-run state can have, mirroring the server's
      state-type enum; scheduling only ever produces Scheduled. */
  datatype StateType = Scheduled | Pending | Running | Completed | Failed | Cancelled

  /** The state carried by a flow run before it is stored in the state table. */
  datatype StatePayload = StatePayload(
    stateType: StateType,
    message: string,
    scheduledTime: Option<Timestamp>)

  /** A flow run: an in-memory candidate, and also a row of the flow-run table.
      `state` is the payload a candidate carries; the row points to its state
      through `stateId`. */
  datatype FlowRun = FlowRun(
    id: Id,
    flowId: Id,
    deploymentId: Option<Id>,
    parameters: map<string, string>,
    idempotencyKey: Option<string>,
    tags: seq<string>,
    autoScheduled: bool,
    state: Option<StatePayload>,
    stateType: Option<StateType>,
    stateId: Option<Id>,
    nextScheduledStartTime: Option<Timestamp>,
    expectedStartTime: Option<Timestamp>)

  /** The unique constraint of the flow-run table, on (flow id, idempotency key).
      A run without a key never conflicts, as SQL NULLs never compare equal. */
  predicate SameUniqueKey(a: FlowRun, b: FlowRun) {
    a.flowId == b.flowId && a.idempotencyKey.Some? && a.idempotencyKey == b.idempotencyKey
  }

  /** A row of the flow-run state table. */
  datatype FlowRunState = FlowRunState(id: Id, flowRunId: Id, payload: StatePayload)

  /** A schedule object; how it enumerates dates is not part of this model. */
  datatype Schedule = Schedule(description: string)

  /** A row of the deployment table. */
  datatype Deployment = Deployment(
    id: Id,
    name: string,
    flowId: Id,
    schedule: Option<Schedule>,
    isScheduleActive: bool,
    parameters: map<string, string>,
    tags: seq<string>,
    flowData: string,
    updated: Timestamp)

  /** Errors the modelled operations report instead of a result. */
  datatype Error = UniqueViolation(id: Id)

  datatype Result<+T> = Ok(value: T) | Err(error: Error)
}

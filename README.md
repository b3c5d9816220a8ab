# Scheduled flow runs of Orion deployments, in Dafny

This project models the deployment operations of Prefect's Orion server
(`src/prefect/orion/models/deployments.py`). The database is replaced by an
in-memory store with three tables: deployments, flow runs and flow-run states.

The main operation is `schedule_runs`. It does three things:

- It fills in the defaults for the scheduling window.
- It generates one flow-run candidate per date the deployment's schedule
  yields in that window (`_generate_scheduled_flow_runs`).
- It inserts the candidates (`_insert_scheduled_flow_runs`).

The insert has three steps:

1. A batch "insert, ignore on conflict" against the flow-run unique key
   (flow id, idempotency key).
2. A probe for the candidate ids that now have no state row.
3. For each run the probe found, one Scheduled state row, with the run's
   `state_id` pointed at it.

The secondary operations are the deployment upsert (`create_deployment`) and
the delete by id (`delete_deployment`).

Layout:

- `types.dfy` (`OrionTypes`): the rows of the three tables, and the
  flow-run unique key with SQL NULL semantics. A run without an idempotency
  key never conflicts.
- `idempotency_key.dfy` (`IdempotencyKey`): the key
  `"scheduled <deployment id> <date>"` and its injectivity.
- `run_generation.dfy` (`RunGeneration`): the candidates generated for a
  list of dates.
- `run_insertion.dfy` (`RunInsertion`): the batch insert with ignore on
  conflict, the probe, and selecting the created runs.
  - Candidates are written one after another, so a candidate also conflicts
    with an earlier candidate of the same batch.
- `state_linking.dfy` (`StateLinking`): the state rows of the created runs,
  the linking of runs to them, and the store invariant.
- `schedule_window.dfy` (`ScheduleWindow`): the window defaults.
- `deployment_table.dfy` (`DeploymentTable`): the upsert keyed by
  (flow id, name), and the delete.
- `schedule_properties.dfy` (`SchedulingProperties`): properties of
  generation followed by the insert.
- `deployments.dfy` (`Deployments`): the store, as class `Store` with one
  `map` field per table.
  - Its methods are the source's functions. Each is proved against the
    specification functions above.
  - `Valid()` is the store invariant:
    - rows are stored under their ids;
    - flow-run keys are unique;
    - every state row names an existing run;
    - every run has a state row;
    - a run's `state_id` names one of its own state rows;
    - no two deployments share a flow and name.

How the probe can tell inserted runs from skipped ones:

- A skipped candidate's fresh id never enters the table.
- Every state row names an existing run, so no state row can name a fresh id.

Together these make the probe exact (`RunInsertion.ProbeFindsAdmitted`).
"Every run has a state row" is kept as an invariant, but the proof of the
probe does not need it.

Inputs the source gets from outside are parameters of the model:

- the current time and the scheduler settings;
- the dates the schedule yields;
- the fresh ids `uuid4()` would produce.

## Model

| member | source | states |
|---|---|---|
| Deployments.Store.ScheduleRuns | src/prefect/orion/models/deployments.py:275-302 | creates exactly the admitted generated runs and leaves the tables as RunsAfterInsert/StatesAfterInsert; every generated key is held afterwards; the created runs lie in the resolved window and are no more than its cap; a missing, unscheduled or inactive deployment creates nothing and changes nothing; the store invariant is kept and deployments are untouched |
| ScheduleWindow.ResolveWindow | src/prefect/orion/models/deployments.py:284-293 | a given cap, start or end is used unchanged; a missing cap comes from the settings, a missing start is the current time, a missing end is the start plus the configured horizon |
| Deployments.Store.GenerateScheduledFlowRuns | src/prefect/orion/models/deployments.py:305-350 | the append loop returns exactly the generated candidates: none for a missing, unscheduled or inactive deployment, otherwise one per date in date order |
| RunGeneration.GeneratedRuns | src/prefect/orion/models/deployments.py:325-348 | one candidate per date when the deployment exists with an active schedule, none otherwise |
| RunGeneration.GeneratedRunFields | src/prefect/orion/models/deployments.py:333-347 | the i-th candidate takes the i-th fresh id, the deployment's flow and parameters, the deployment id, the key of the deployment and its date, the auto-scheduled tag ahead of the deployment's tags, and a Scheduled state at its date; its expected and next start are that date and it has no state id yet |
| IdempotencyKey.KeyInjective | src/prefect/orion/models/deployments.py:337 | two keys are equal exactly when they come from the same deployment id and date |
| IdempotencyKey.NatTextInjective | src/prefect/orion/models/deployments.py:337 | distinct ids render to distinct decimal texts |
| IdempotencyKey.IntTextInjective | src/prefect/orion/models/deployments.py:337 | distinct dates render to distinct texts |
| IdempotencyKey.IntText | src/prefect/orion/models/deployments.py:337 | a rendered date is non-empty, has no space, and starts with '-' exactly when the date is negative |
| RunGeneration.GeneratedKeysDistinct | src/prefect/orion/models/deployments.py:332-348 | distinct dates give candidates that never collide on the flow-run unique key |
| RunGeneration.SameDateSameKey | src/prefect/orion/models/deployments.py:337 | two generations for one deployment collide on the unique key exactly for equal dates, whatever fresh ids they use |
| Deployments.Store.InsertScheduledFlowRuns | src/prefect/orion/models/deployments.py:353-418 | returns the admitted candidates and leaves the tables as RunsAfterInsert/StatesAfterInsert; an empty batch changes nothing; every candidate's key is held afterwards; the store invariant is kept |
| Deployments.Store.InsertBatch | src/prefect/orion/models/deployments.py:370-418 | the same for a non-empty batch, performed as batch insert, probe, state-row insert and link |
| StateLinking.EmptyInsertChangesNothing | src/prefect/orion/models/deployments.py:367-368 | an empty batch admits nothing and leaves both tables unchanged |
| RunInsertion.Admitted | src/prefect/orion/models/deployments.py:374-379 | the written candidates are input candidates, and there are at most as many of them as candidates |
| RunInsertion.BatchInsertEffect | src/prefect/orion/models/deployments.py:374-379 | the batch insert never changes or removes an existing row, and adds exactly the admitted candidates under their ids |
| RunInsertion.BatchInsertKeepsKeysUnique | src/prefect/orion/models/deployments.py:374-379 | after the batch insert no two runs share a unique key |
| RunInsertion.BatchInsertCovers | src/prefect/orion/models/deployments.py:374-379 | after the batch insert every keyed candidate's key is held by some run, whether the candidate was written or skipped |
| RunInsertion.AdmittedExactlyUnkeyed | src/prefect/orion/models/deployments.py:374-379 | when the candidates' keys are pairwise distinct, a candidate is written exactly when its key is not already in the table |
| RunInsertion.CoveredBatchWritesNothing | src/prefect/orion/models/deployments.py:374-379 | a batch whose every candidate conflicts writes nothing and leaves the table as it was |
| RunInsertion.AdmittedDistinct | src/prefect/orion/models/deployments.py:374-379 | candidates with distinct ids are written with distinct ids |
| RunInsertion.ProbeFindsAdmitted | src/prefect/orion/models/deployments.py:383-395 | with fresh candidate ids and state rows that name existing runs, the probe returns exactly the ids of the written candidates |
| RunInsertion.Filter | src/prefect/orion/models/deployments.py:418 | a candidate is selected exactly when it is in the input and its id is kept |
| RunInsertion.AdmittedIsFilter | src/prefect/orion/models/deployments.py:398-418 | selecting the input by the written ids gives back the written candidates in input order |
| StateLinking.ProbeSteps | src/prefect/orion/models/deployments.py:383-402 | the runs the probe selects are the admitted ones, and they can be given distinct fresh state rows |
| StateLinking.InsertStatesEffect | src/prefect/orion/models/deployments.py:398-408 | the state insert keeps every existing state row, adds one row per created run under its fresh id with the run's payload, and nothing else |
| StateLinking.InsertStatesRows | src/prefect/orion/models/deployments.py:398-408 | inserting state rows with distinct fresh ids keeps every existing row, stores each row under its id, and adds nothing else |
| StateLinking.LinkStatesRows | src/prefect/orion/models/deployments.py:410-416 | updating runs from rows that name distinct runs keeps the table's keys, points each named run at its row and leaves every other run as it was |
| StateLinking.LinkStatesEffect | src/prefect/orion/models/deployments.py:410-416 | linking points each created run at its new state row and changes no other run |
| StateLinking.InsertFacts | src/prefect/orion/models/deployments.py:374-416 | row by row: old runs and states are unchanged, the new runs are exactly the created ones pointing at their state ids, and the new states are exactly one per created run |
| StateLinking.LinkedInsertKeepsKeysUnique | src/prefect/orion/models/deployments.py:374-416 | insert and link keep the flow-run keys unique |
| StateLinking.LinkedInsertEffect | src/prefect/orion/models/deployments.py:398-416 | each created run has exactly one state row, the new one it points to; runs not created get no new state; the store invariant, including "every run has a state", is kept |
| StateLinking.OutcomeConsistent | src/prefect/orion/models/deployments.py:398-416 | an insert with this outcome keeps the store invariant, provided the keys stay unique |
| StateLinking.OutcomeLinksCreated | src/prefect/orion/models/deployments.py:398-416 | after such an insert a created run's only state row is its new one, and every new state row belongs to a created run |
| StateLinking.LinkedInsertCovers | src/prefect/orion/models/deployments.py:374-416 | after the whole insert every keyed candidate's key is held by some run |
| StateLinking.AfterInsertConsistent | src/prefect/orion/models/deployments.py:374-416 | the tables after the insert satisfy the store invariant and hold every candidate's key |
| SchedulingProperties.GeneratedInsertable | src/prefect/orion/models/deployments.py:332-348 | candidates generated with distinct fresh ids meet the insert's precondition |
| SchedulingProperties.CreatedAreTheUnkeyedRuns | src/prefect/orion/models/deployments.py:332-379 | with distinct dates, the created runs are exactly the generated runs whose key the table does not hold yet |
| SchedulingProperties.RepeatedWindowCreatesNothing | src/prefect/orion/models/deployments.py:337-379 | once a window's runs are keyed in the table, generating again for any of its dates, with new ids, writes nothing |
| SchedulingProperties.RepeatedScheduleChangesNothing | src/prefect/orion/models/deployments.py:295-302 | repeating scheduling over dates already scheduled creates no run and leaves both tables exactly as they were |
| SchedulingProperties.CreatedWithinWindow | src/prefect/orion/models/deployments.py:328-348 | created runs are no more than the cap; each is auto-scheduled with the auto-scheduled tag first, in a Scheduled state at a date inside the window that is also its expected and next start |
| Deployments.Store.CreateDeployment | src/prefect/orion/models/deployments.py:19-75 | the table becomes the upsert's result and the row read back by flow and name is the stored one; a new flow and name whose id is taken fails and leaves the table unchanged; flow runs and states are untouched |
| DeploymentTable.UpsertLeavesOneRow | src/prefect/orion/models/deployments.py:41-73 | after an upsert exactly one deployment has the given flow and name, and the table stays consistent |
| DeploymentTable.UpsertOnConflict | src/prefect/orion/models/deployments.py:44-56 | on conflict only schedule, active flag, tags, parameters, flow data and update time take the new values; the row keeps its id, name and flow, and every other row is unchanged |
| DeploymentTable.UpsertWithoutConflict | src/prefect/orion/models/deployments.py:41-43 | without a conflict the deployment is added under its own id, unless that id is taken, which is an error |
| Deployments.Store.DeleteDeployment | src/prefect/orion/models/deployments.py:254-272 | returns true exactly when a row with that id existed, and that row is gone afterwards; nothing else changes |

## Left out

- `_apply_deployment_filters`, `read_deployments`, `count_deployments`, `read_deployment` and `read_deployment_by_name`: these compose SQL queries over filter schemas that are not part of this model. Deployment reads are map lookups.
- `deployment.schedule.get_dates`: the schedule library is not part of this model. The dates are a parameter of `ScheduleRuns`. What the model requires of them is a precondition (`ScheduleWindow.ScheduleDates`): strictly ascending, inside `[start, end)`, and at most the cap.
- `pendulum.now` and `prefect.settings`: the current time and the two scheduler settings are parameters. Timestamps and durations are integers (seconds). Time-zone normalisation (`pendulum.instance`) is not modelled.
- `uuid4()`: run ids and state ids come from supplies passed in. A precondition makes them distinct and unused.
- Ids are natural numbers (a UUID as its 128-bit value).
- IdempotencyKey.Key: renders the id and the date in decimal, not as a hyphenated UUID and an ISO timestamp. The model relies only on the id rendering having no space and on both renderings being injective; a date rendering that contains a space, as `str()` of a plain `datetime` does, would leave the key injective.
- The flow-run unique columns (`flow_run_unique_upsert_columns`) are configured outside the module. They are taken as (flow id, idempotency key).
- The deployment unique upsert columns are taken as (flow id, name). These are the columns the read-back uses.
- `set_state_id_on_inserted_flow_runs_statement`: its dialect-specific SQL is not part of this model. Only its effect is modelled: each inserted run's `state_id` is set to its new state row.
- The SQLAlchemy session, the dialect dispatch and async execution are not modelled. Each call is one atomic step on the store. Concurrent scheduler replicas are not modelled: an interleaving of two calls is taken to be the two calls one after the other.
- Database defaults that `exclude_unset` would leave to the table on insert are not modelled. A new deployment is stored as given.
- Deployments.Store.CreateDeployment: the update time is an input, `now`; its exact value is not modelled.
- Columns that no modelled operation reads or writes are not modelled: creation times, state names and timestamps, and the flow's other fields.
- Deleting a deployment leaves its flow runs as they are. The database's foreign-key action on `deployment_id` is not part of this model.
- Flow runs are inserted only by scheduling here. The store invariant "every run has a state row" is taken to hold between calls.

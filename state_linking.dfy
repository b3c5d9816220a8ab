/** Giving each newly inserted flow run its Scheduled state: one state row per
    run, then the run's `stateId` set to that row. Also the consistency the
    flow-run and state tables keep between scheduling calls. */
module StateLinking {
  import opened OrionTypes
  import opened RunInsertion

  /** The state rows for the selected runs, the i-th taking the fresh id
      `stateIds[i]` and the payload its run carries. */
  function StateRows(selected: seq<FlowRun>, stateIds: seq<Id>): (rows: seq<FlowRunState>)
    requires |stateIds| >= |selected|
    requires forall r :: r in selected ==> r.state.Some?
    ensures |rows| == |selected|
  {
    seq(|selected|, i requires 0 <= i < |selected| =>
      FlowRunState(stateIds[i], selected[i].id, selected[i].state.value))
  }

  predicate DistinctStateIds(rows: seq<FlowRunState>) {
    forall i, j :: 0 <= i < j < |rows| ==> rows[i].id != rows[j].id
  }

  predicate DistinctRunRefs(rows: seq<FlowRunState>) {
    forall i, j :: 0 <= i < j < |rows| ==> rows[i].flowRunId != rows[j].flowRunId
  }

  /** The state ids are distinct and unused by the state table. */
  predicate FreshStateIds(states: map<Id, FlowRunState>, stateIds: seq<Id>) {
    && (forall i, j :: 0 <= i < j < |stateIds| ==> stateIds[i] != stateIds[j])
    && (forall s :: s in stateIds ==> s !in states)
  }

  /** The state table after inserting `rows`. */
  function InsertStates(states: map<Id, FlowRunState>, rows: seq<FlowRunState>): map<Id, FlowRunState>
    decreases |rows|
  {
    if rows == [] then states else InsertStates(states[rows[0].id := rows[0]], rows[1..])
  }

  /** Inserting rows with distinct fresh ids keeps every existing row, adds
      each row under its id, and adds nothing else. */
  lemma {:induction false} InsertStatesRows(states: map<Id, FlowRunState>, rows: seq<FlowRunState>)
    requires DistinctStateIds(rows)
    requires forall i :: 0 <= i < |rows| ==> rows[i].id !in states
    ensures var after := InsertStates(states, rows);
      && (forall s :: s in states ==> s in after && after[s] == states[s])
      && (forall i :: 0 <= i < |rows| ==> rows[i].id in after && after[rows[i].id] == rows[i])
      && (forall s :: s in after && s !in states ==> exists i :: 0 <= i < |rows| && rows[i].id == s)
    decreases |rows|
  {
    if rows != [] {
      var next := states[rows[0].id := rows[0]];
      var tail := rows[1..];
      forall i, j | 0 <= i < j < |tail| ensures tail[i].id != tail[j].id {
        assert tail[i] == rows[i + 1] && tail[j] == rows[j + 1];
      }
      forall i | 0 <= i < |tail| ensures tail[i].id !in next {
        assert tail[i] == rows[i + 1];
      }
      InsertStatesRows(next, tail);
      var after := InsertStates(states, rows);
      forall i | 0 <= i < |rows| ensures rows[i].id in after && after[rows[i].id] == rows[i] {
        if i > 0 {
          assert rows[i] == tail[i - 1];
        }
      }
      forall s | s in after && s !in states ensures exists i :: 0 <= i < |rows| && rows[i].id == s {
        if s != rows[0].id {
          var j :| 0 <= j < |tail| && tail[j].id == s;
          assert rows[j + 1].id == s;
        }
      }
    }
  }

  /** The flow-run table after pointing each run that `rows` names at its row,
      one row at a time; a row whose run is not in the table changes nothing. */
  function LinkStates(table: map<Id, FlowRun>, rows: seq<FlowRunState>): map<Id, FlowRun>
    decreases |rows|
  {
    if rows == [] then table
    else
      var k := rows[0].flowRunId;
      var next := if k in table then table[k := table[k].(stateId := Some(rows[0].id))] else table;
      LinkStates(next, rows[1..])
  }

  /** Linking rows that name distinct runs keeps the table's keys, leaves the
      runs no row names alone, and points every named run at its row. */
  lemma {:induction false} LinkStatesRows(table: map<Id, FlowRun>, rows: seq<FlowRunState>)
    requires DistinctRunRefs(rows)
    ensures var after := LinkStates(table, rows);
      && after.Keys == table.Keys
      && (forall k :: k in table && (forall i :: 0 <= i < |rows| ==> rows[i].flowRunId != k) ==> after[k] == table[k])
      && (forall i :: 0 <= i < |rows| && rows[i].flowRunId in table ==>
            after[rows[i].flowRunId] == table[rows[i].flowRunId].(stateId := Some(rows[i].id)))
    decreases |rows|
  {
    if rows != [] {
      var k0 := rows[0].flowRunId;
      var next := if k0 in table then table[k0 := table[k0].(stateId := Some(rows[0].id))] else table;
      var tail := rows[1..];
      forall i, j | 0 <= i < j < |tail| ensures tail[i].flowRunId != tail[j].flowRunId {
        assert tail[i] == rows[i + 1] && tail[j] == rows[j + 1];
      }
      LinkStatesRows(next, tail);
      var after := LinkStates(table, rows);
      assert after == LinkStates(next, tail);
      forall k | k in table && (forall i :: 0 <= i < |rows| ==> rows[i].flowRunId != k)
        ensures after[k] == table[k]
      {
        assert rows[0].flowRunId != k;
        forall i | 0 <= i < |tail| ensures tail[i].flowRunId != k {
          assert tail[i] == rows[i + 1];
        }
      }
      forall i | 0 <= i < |rows| && rows[i].flowRunId in table
        ensures after[rows[i].flowRunId] == table[rows[i].flowRunId].(stateId := Some(rows[i].id))
      {
        if i == 0 {
          forall j | 0 <= j < |tail| ensures tail[j].flowRunId != k0 {
            assert tail[j] == rows[j + 1];
          }
        } else {
          assert rows[i] == tail[i - 1];
          assert rows[i].flowRunId != k0;
        }
      }
    }
  }

  /** What holds of the two tables between scheduling calls: rows are stored
      under their ids, run keys are unique, every state row names an existing
      run, every run has a state row, and a run's `stateId` names one of its
      own state rows. */
  predicate RunTablesConsistent(runs: map<Id, FlowRun>, states: map<Id, FlowRunState>) {
    && (forall k :: k in runs ==> runs[k].id == k)
    && (forall s :: s in states ==> states[s].id == s)
    && UniqueKeys(runs)
    && (forall s :: s in states ==> states[s].flowRunId in runs)
    && (forall k :: k in runs ==> HasState(states, k))
    && (forall k :: k in runs && runs[k].stateId.Some? ==>
          runs[k].stateId.value in states && states[runs[k].stateId.value].flowRunId == k)
  }

  /** Runs that may be given state rows: distinct ids, each carrying a
      payload, and enough distinct fresh state ids for them. */
  predicate Linkable(states: map<Id, FlowRunState>, created: seq<FlowRun>, stateIds: seq<Id>) {
    && DistinctIds(created)
    && (forall r :: r in created ==> r.state.Some?)
    && FreshStateIds(states, stateIds)
    && |stateIds| >= |created|
  }

  /** Inserting the state rows adds one row per run under its fresh id and
      touches no existing row. */
  lemma InsertStatesEffect(states: map<Id, FlowRunState>, created: seq<FlowRun>, stateIds: seq<Id>)
    requires Linkable(states, created, stateIds)
    ensures var rows := StateRows(created, stateIds);
      && DistinctStateIds(rows)
      && var after := InsertStates(states, rows);
         && (forall s :: s in states ==> s in after && after[s] == states[s])
         && (forall i :: 0 <= i < |created| ==>
               stateIds[i] in after && after[stateIds[i]] == FlowRunState(stateIds[i], created[i].id, created[i].state.value))
         && (forall s :: s in after && s !in states ==> exists i :: 0 <= i < |created| && s == stateIds[i])
  {
    var rows := StateRows(created, stateIds);
    forall i, j | 0 <= i < j < |rows| ensures rows[i].id != rows[j].id {
      assert rows[i].id == stateIds[i] && rows[j].id == stateIds[j];
    }
    forall i | 0 <= i < |rows| ensures rows[i].id !in states {
      assert rows[i].id == stateIds[i] && stateIds[i] in stateIds;
    }
    InsertStatesRows(states, rows);
    forall i | 0 <= i < |created|
      ensures rows[i] == FlowRunState(stateIds[i], created[i].id, created[i].state.value)
    {
    }
  }

  /** Linking touches only the runs that got a state row, and points each of
      them at its row. */
  lemma LinkStatesEffect(table: map<Id, FlowRun>, states: map<Id, FlowRunState>,
                         created: seq<FlowRun>, stateIds: seq<Id>)
    requires Linkable(states, created, stateIds)
    ensures var rows := StateRows(created, stateIds);
      && DistinctRunRefs(rows)
      && var after := LinkStates(table, rows);
         && after.Keys == table.Keys
         && (forall k :: k in table && k !in IdSet(created) ==> after[k] == table[k])
         && (forall i :: 0 <= i < |created| && created[i].id in table ==>
               after[created[i].id] == table[created[i].id].(stateId := Some(stateIds[i])))
  {
    var rows := StateRows(created, stateIds);
    forall i, j | 0 <= i < j < |rows| ensures rows[i].flowRunId != rows[j].flowRunId {
      assert rows[i].flowRunId == created[i].id && rows[j].flowRunId == created[j].id;
    }
    LinkStatesRows(table, rows);
    forall k | k in table && k !in IdSet(created)
      ensures forall i :: 0 <= i < |rows| ==> rows[i].flowRunId != k
    {
      forall i | 0 <= i < |rows| ensures rows[i].flowRunId != k {
        assert rows[i].flowRunId == created[i].id && created[i] in created;
      }
    }
    forall i | 0 <= i < |created| && created[i].id in table
      ensures LinkStates(table, rows)[created[i].id] == table[created[i].id].(stateId := Some(stateIds[i]))
    {
      assert rows[i].flowRunId == created[i].id && rows[i].id == stateIds[i];
    }
  }

  /** The preconditions of scheduling's insert: fresh distinct run ids, fresh
      distinct state ids, and candidates that carry a payload and no state yet. */
  predicate Insertable(table: map<Id, FlowRun>, states: map<Id, FlowRunState>, rs: seq<FlowRun>, stateIds: seq<Id>) {
    && FreshFor(table, rs)
    && FreshStateIds(states, stateIds)
    && |stateIds| >= |rs|
    && (forall r :: r in rs ==> r.state.Some? && r.stateId.None?)
  }

  /** The flow-run table after the batch insert and the linking of states. */
  function RunsAfterInsert(table: map<Id, FlowRun>, states: map<Id, FlowRunState>,
                           rs: seq<FlowRun>, stateIds: seq<Id>): map<Id, FlowRun>
    requires Insertable(table, states, rs, stateIds)
  {
    AdmittedDistinct(table, rs);
    LinkStates(BatchInsert(table, rs), StateRows(Admitted(table, rs), stateIds))
  }

  /** The state table after the state rows of the admitted runs are inserted. */
  function StatesAfterInsert(table: map<Id, FlowRun>, states: map<Id, FlowRunState>,
                             rs: seq<FlowRun>, stateIds: seq<Id>): map<Id, FlowRunState>
    requires Insertable(table, states, rs, stateIds)
  {
    AdmittedDistinct(table, rs);
    InsertStatesEffect(states, Admitted(table, rs), stateIds);
    InsertStates(states, StateRows(Admitted(table, rs), stateIds))
  }

  /** What the insert does to the two tables, row by row: `runs'` and
      `states'` are the tables after it, `created` the runs it inserted. */
  predicate InsertOutcome(table: map<Id, FlowRun>, states: map<Id, FlowRunState>,
                          created: seq<FlowRun>, stateIds: seq<Id>,
                          runs': map<Id, FlowRun>, states': map<Id, FlowRunState>)
  {
    && DistinctIds(created)
    && |stateIds| >= |created|
    && (forall r :: r in created ==> r.state.Some?)
    && RunsOutcome(table, created, stateIds, runs')
    && StatesOutcome(states, created, stateIds, states')
  }

  /** The flow-run table keeps its rows and gains exactly the created runs,
      each pointing at its state id. */
  predicate RunsOutcome(table: map<Id, FlowRun>, created: seq<FlowRun>, stateIds: seq<Id>, runs': map<Id, FlowRun>)
    requires |stateIds| >= |created|
  {
    && runs'.Keys == table.Keys + IdSet(created)
    && (forall k :: k in table ==> runs'[k] == table[k])
    && (forall i :: 0 <= i < |created| ==>
          && created[i].id !in table && created[i].id in runs'
          && runs'[created[i].id] == created[i].(stateId := Some(stateIds[i])))
    && (forall k :: k in runs' && k !in table ==> exists i :: 0 <= i < |created| && created[i].id == k)
  }

  /** The state table keeps its rows and gains exactly one row per created
      run, under that run's state id, carrying its payload. */
  predicate StatesOutcome(states: map<Id, FlowRunState>, created: seq<FlowRun>, stateIds: seq<Id>,
                          states': map<Id, FlowRunState>)
    requires |stateIds| >= |created|
    requires forall r :: r in created ==> r.state.Some?
  {
    && (forall s :: s in states ==> s in states' && states'[s] == states[s])
    && (forall i :: 0 <= i < |created| ==>
          && stateIds[i] !in states && stateIds[i] in states'
          && states'[stateIds[i]] == FlowRunState(stateIds[i], created[i].id, created[i].state.value))
    && (forall s :: s in states' && s !in states ==> exists i :: 0 <= i < |created| && s == stateIds[i])
  }

  lemma InsertRunsFacts(table: map<Id, FlowRun>, states: map<Id, FlowRunState>,
                        rs: seq<FlowRun>, stateIds: seq<Id>)
    requires Insertable(table, states, rs, stateIds)
    ensures |stateIds| >= |Admitted(table, rs)|
    ensures RunsOutcome(table, Admitted(table, rs), stateIds, RunsAfterInsert(table, states, rs, stateIds))
  {
    var created := Admitted(table, rs);
    var inserted := BatchInsert(table, rs);
    var runs' := RunsAfterInsert(table, states, rs, stateIds);
    AdmittedDistinct(table, rs);
    BatchInsertEffect(table, rs);
    LinkStatesEffect(inserted, states, created, stateIds);
    assert runs'.Keys == table.Keys + IdSet(created);
    forall k | k in table ensures runs'[k] == table[k] {
      assert k !in IdSet(created);
    }
    forall i | 0 <= i < |created|
      ensures created[i].id !in table && created[i].id in runs'
      ensures runs'[created[i].id] == created[i].(stateId := Some(stateIds[i]))
    {
      assert created[i] in created;
    }
    forall k | k in runs' && k !in table
      ensures exists i :: 0 <= i < |created| && created[i].id == k
    {
      var r :| r in created && r.id == k;
      var i :| 0 <= i < |created| && created[i] == r;
    }
  }

  lemma InsertStatesFacts(table: map<Id, FlowRun>, states: map<Id, FlowRunState>,
                          rs: seq<FlowRun>, stateIds: seq<Id>)
    requires Insertable(table, states, rs, stateIds)
    ensures |stateIds| >= |Admitted(table, rs)|
    ensures forall r :: r in Admitted(table, rs) ==> r.state.Some?
    ensures StatesOutcome(states, Admitted(table, rs), stateIds, StatesAfterInsert(table, states, rs, stateIds))
  {
    var created := Admitted(table, rs);
    AdmittedDistinct(table, rs);
    InsertStatesEffect(states, created, stateIds);
    forall i | 0 <= i < |created| ensures stateIds[i] !in states {
      assert stateIds[i] in stateIds;
    }
  }

  lemma InsertFacts(table: map<Id, FlowRun>, states: map<Id, FlowRunState>,
                    rs: seq<FlowRun>, stateIds: seq<Id>)
    requires Insertable(table, states, rs, stateIds)
    ensures InsertOutcome(table, states, Admitted(table, rs), stateIds,
                          RunsAfterInsert(table, states, rs, stateIds), StatesAfterInsert(table, states, rs, stateIds))
  {
    AdmittedDistinct(table, rs);
    InsertRunsFacts(table, states, rs, stateIds);
    InsertStatesFacts(table, states, rs, stateIds);
  }

  /** After an insert with this outcome, every inserted run has exactly one
      state row, the new row it points to, and no other run got a new row. */
  lemma OutcomeLinksCreated(table: map<Id, FlowRun>, states: map<Id, FlowRunState>,
                            created: seq<FlowRun>, stateIds: seq<Id>,
                            runs': map<Id, FlowRun>, states': map<Id, FlowRunState>)
    requires RunTablesConsistent(table, states)
    requires InsertOutcome(table, states, created, stateIds, runs', states')
    ensures forall i, s :: 0 <= i < |created| && s in states' && states'[s].flowRunId == created[i].id ==> s == stateIds[i]
    ensures forall s :: s in states' && s !in states ==> states'[s].flowRunId in IdSet(created)
  {
    forall i, s | 0 <= i < |created| && s in states' && states'[s].flowRunId == created[i].id
      ensures s == stateIds[i]
    {
      if s !in states {
        var j :| 0 <= j < |created| && s == stateIds[j];
        assert created[j].id == created[i].id;
      }
    }
    forall s | s in states' && s !in states ensures states'[s].flowRunId in IdSet(created) {
      var j :| 0 <= j < |created| && s == stateIds[j];
      assert created[j] in created;
    }
  }

  /** An insert with this outcome keeps the two tables consistent, provided
      the new runs keep the keys unique. */
  lemma OutcomeConsistent(table: map<Id, FlowRun>, states: map<Id, FlowRunState>,
                          created: seq<FlowRun>, stateIds: seq<Id>,
                          runs': map<Id, FlowRun>, states': map<Id, FlowRunState>)
    requires RunTablesConsistent(table, states)
    requires InsertOutcome(table, states, created, stateIds, runs', states')
    requires UniqueKeys(runs')
    ensures RunTablesConsistent(runs', states')
  {
    forall k | k in runs' ensures runs'[k].id == k && HasState(states', k) {
      if k in table {
        var s :| s in states && states[s].flowRunId == k;
        assert s in states';
      } else {
        var i :| 0 <= i < |created| && created[i].id == k;
        assert states'[stateIds[i]].flowRunId == k;
      }
    }
    forall k | k in runs' && runs'[k].stateId.Some?
      ensures runs'[k].stateId.value in states' && states'[runs'[k].stateId.value].flowRunId == k
    {
      if k !in table {
        var i :| 0 <= i < |created| && created[i].id == k;
      }
    }
    forall s | s in states' ensures states'[s].id == s && states'[s].flowRunId in runs' {
      if s !in states {
        var j :| 0 <= j < |created| && s == stateIds[j];
      }
    }
  }

  lemma LinkedInsertKeepsKeysUnique(table: map<Id, FlowRun>, states: map<Id, FlowRunState>,
                                    rs: seq<FlowRun>, stateIds: seq<Id>)
    requires UniqueKeys(table)
    requires Insertable(table, states, rs, stateIds)
    ensures UniqueKeys(RunsAfterInsert(table, states, rs, stateIds))
  {
    var created := Admitted(table, rs);
    var inserted := BatchInsert(table, rs);
    var runs' := RunsAfterInsert(table, states, rs, stateIds);
    AdmittedDistinct(table, rs);
    BatchInsertKeepsKeysUnique(table, rs);
    LinkStatesEffect(inserted, states, created, stateIds);
    forall a, b | a in runs' && b in runs' && a != b ensures !SameUniqueKey(runs'[a], runs'[b]) {
      assert runs'[a].flowId == inserted[a].flowId && runs'[a].idempotencyKey == inserted[a].idempotencyKey;
      assert runs'[b].flowId == inserted[b].flowId && runs'[b].idempotencyKey == inserted[b].idempotencyKey;
    }
  }

  /** The whole effect of the insert: nothing that existed changes, every
      admitted run points to exactly one new state row carrying its payload,
      no other run gets a state row, and the tables stay consistent. */
  lemma LinkedInsertEffect(table: map<Id, FlowRun>, states: map<Id, FlowRunState>,
                           rs: seq<FlowRun>, stateIds: seq<Id>)
    requires RunTablesConsistent(table, states)
    requires Insertable(table, states, rs, stateIds)
    ensures var created := Admitted(table, rs);
      var runs' := RunsAfterInsert(table, states, rs, stateIds);
      var states' := StatesAfterInsert(table, states, rs, stateIds);
      && InsertOutcome(table, states, created, stateIds, runs', states')
      && RunTablesConsistent(runs', states')
      && (forall i, s :: 0 <= i < |created| && s in states' && states'[s].flowRunId == created[i].id ==> s == stateIds[i])
      && (forall s :: s in states' && s !in states ==> states'[s].flowRunId in IdSet(created))
  {
    var created := Admitted(table, rs);
    var runs' := RunsAfterInsert(table, states, rs, stateIds);
    var states' := StatesAfterInsert(table, states, rs, stateIds);
    InsertFacts(table, states, rs, stateIds);
    LinkedInsertKeepsKeysUnique(table, states, rs, stateIds);
    OutcomeConsistent(table, states, created, stateIds, runs', states');
    OutcomeLinksCreated(table, states, created, stateIds, runs', states');
  }

  /** After the insert every keyed candidate's key is held by some run, so the
      same candidates offered again are all skipped. */
  lemma LinkedInsertCovers(table: map<Id, FlowRun>, states: map<Id, FlowRunState>,
                           rs: seq<FlowRun>, stateIds: seq<Id>)
    requires Insertable(table, states, rs, stateIds)
    ensures Covers(RunsAfterInsert(table, states, rs, stateIds), rs)
  {
    var created := Admitted(table, rs);
    var inserted := BatchInsert(table, rs);
    var runs' := RunsAfterInsert(table, states, rs, stateIds);
    AdmittedDistinct(table, rs);
    BatchInsertCovers(table, rs);
    LinkStatesEffect(inserted, states, created, stateIds);
    forall r | r in rs && r.idempotencyKey.Some? ensures HasConflict(runs', r) {
      var k :| k in inserted && SameUniqueKey(inserted[k], r);
      assert runs'[k].flowId == inserted[k].flowId && runs'[k].idempotencyKey == inserted[k].idempotencyKey;
    }
  }

  /** The insert as the store performs it, step by step: after the batch
      insert, the probe for runs without a state finds the admitted runs, and
      their state rows can be inserted and linked. */
  lemma ProbeSteps(table: map<Id, FlowRun>, states: map<Id, FlowRunState>, rs: seq<FlowRun>, stateIds: seq<Id>,
                   inserted: map<Id, FlowRun>, probedIds: set<Id>)
    requires RunTablesConsistent(table, states)
    requires Insertable(table, states, rs, stateIds)
    requires inserted == BatchInsert(table, rs)
    requires probedIds == Unstated(inserted, states, IdsOf(rs))
    ensures Filter(rs, probedIds) == Admitted(table, rs)
    ensures |stateIds| >= |Admitted(table, rs)|
    ensures forall r :: r in Admitted(table, rs) ==> r.state.Some?
    ensures var rows := StateRows(Admitted(table, rs), stateIds);
      DistinctStateIds(rows) && DistinctRunRefs(rows)
  {
    ProbeFindsAdmitted(table, states, rs);
    AdmittedIsFilter(table, rs);
    AdmittedDistinct(table, rs);
    InsertStatesEffect(states, Admitted(table, rs), stateIds);
    LinkStatesEffect(inserted, states, Admitted(table, rs), stateIds);
  }

  /** Inserting and linking the state rows of the admitted runs (or nothing,
      when there are none) ends in the tables RunsAfterInsert and
      StatesAfterInsert describe. */
  lemma LinkSteps(table: map<Id, FlowRun>, states: map<Id, FlowRunState>, rs: seq<FlowRun>, stateIds: seq<Id>,
                  inserted: map<Id, FlowRun>, rows: seq<FlowRunState>)
    requires Insertable(table, states, rs, stateIds)
    requires inserted == BatchInsert(table, rs)
    requires AdmittedRows(table, rs, stateIds, rows)
    ensures rows == [] ==> RunsAfterInsert(table, states, rs, stateIds) == inserted
    ensures rows == [] ==> StatesAfterInsert(table, states, rs, stateIds) == states
    ensures rows != [] ==> RunsAfterInsert(table, states, rs, stateIds) == LinkStates(inserted, rows)
    ensures rows != [] ==> StatesAfterInsert(table, states, rs, stateIds) == InsertStates(states, rows)
  {
    if rows == [] {
      assert LinkStates(inserted, rows) == inserted;
      assert InsertStates(states, rows) == states;
    }
  }

  /** `rows` are the state rows of the admitted candidates. */
  predicate AdmittedRows(table: map<Id, FlowRun>, rs: seq<FlowRun>, stateIds: seq<Id>, rows: seq<FlowRunState>) {
    && |stateIds| >= |Admitted(table, rs)|
    && (forall r :: r in Admitted(table, rs) ==> r.state.Some?)
    && rows == StateRows(Admitted(table, rs), stateIds)
    && DistinctStateIds(rows) && DistinctRunRefs(rows)
  }

  /** Inserting no candidates admits nothing and changes neither table. */
  lemma EmptyInsertChangesNothing(table: map<Id, FlowRun>, states: map<Id, FlowRunState>, stateIds: seq<Id>)
    requires FreshStateIds(states, stateIds)
    ensures Admitted(table, []) == []
    ensures RunsAfterInsert(table, states, [], stateIds) == table
    ensures StatesAfterInsert(table, states, [], stateIds) == states
  {
    LinkSteps(table, states, [], stateIds, table, []);
  }

  /** After the insert the tables are still consistent, and every keyed
      candidate's key is held by some run. */
  lemma AfterInsertConsistent(table: map<Id, FlowRun>, states: map<Id, FlowRunState>, rs: seq<FlowRun>, stateIds: seq<Id>,
                              runs': map<Id, FlowRun>, states': map<Id, FlowRunState>)
    requires RunTablesConsistent(table, states)
    requires Insertable(table, states, rs, stateIds)
    requires runs' == RunsAfterInsert(table, states, rs, stateIds)
    requires states' == StatesAfterInsert(table, states, rs, stateIds)
    ensures RunTablesConsistent(runs', states') && Covers(runs', rs)
  {
    LinkedInsertEffect(table, states, rs, stateIds);
    LinkedInsertCovers(table, states, rs, stateIds);
  }
}

/** The batch "insert, ignore on conflict" of flow-run candidates against the
    flow-run table's unique key, and the probe that recovers which candidates
    were really inserted. Candidates are written one after another, so a
    candidate also conflicts with an earlier one of the same batch. */
module RunInsertion {
  import opened OrionTypes

  /** Some row of `table` already holds the unique key of `r`. */
  predicate HasConflict(table: map<Id, FlowRun>, r: FlowRun) {
    exists k :: k in table && SameUniqueKey(table[k], r)
  }

  /** The table after offering it one candidate. */
  function NextTable(table: map<Id, FlowRun>, r: FlowRun): map<Id, FlowRun> {
    if HasConflict(table, r) then table else table[r.id := r]
  }

  /** The table after the batch insert. */
  function BatchInsert(table: map<Id, FlowRun>, rs: seq<FlowRun>): map<Id, FlowRun>
    decreases |rs|
  {
    if rs == [] then table else BatchInsert(NextTable(table, rs[0]), rs[1..])
  }

  /** The candidates the batch insert actually writes, in input order. */
  function Admitted(table: map<Id, FlowRun>, rs: seq<FlowRun>): (ins: seq<FlowRun>)
    ensures |ins| <= |rs|
    ensures forall r :: r in ins ==> r in rs
    decreases |rs|
  {
    if rs == [] then []
    else (if HasConflict(table, rs[0]) then [] else [rs[0]]) + Admitted(NextTable(table, rs[0]), rs[1..])
  }

  function IdSet(rs: seq<FlowRun>): set<Id> {
    set r | r in rs :: r.id
  }

  function IdsOf(rs: seq<FlowRun>): (ids: seq<Id>)
    ensures |ids| == |rs|
  {
    seq(|rs|, i requires 0 <= i < |rs| => rs[i].id)
  }

  predicate DistinctIds(rs: seq<FlowRun>) {
    forall i, j :: 0 <= i < j < |rs| ==> rs[i].id != rs[j].id
  }

  /** The candidates carry distinct ids that the table does not use. */
  predicate FreshFor(table: map<Id, FlowRun>, rs: seq<FlowRun>) {
    DistinctIds(rs) && forall r :: r in rs ==> r.id !in table
  }

  /** No two rows share a unique key. */
  predicate UniqueKeys(table: map<Id, FlowRun>) {
    forall a, b :: a in table && b in table && a != b ==> !SameUniqueKey(table[a], table[b])
  }

  /** Every keyed candidate's key is held by some row of `table`. */
  predicate Covers(table: map<Id, FlowRun>, rs: seq<FlowRun>) {
    forall r :: r in rs && r.idempotencyKey.Some? ==> HasConflict(table, r)
  }

  /** The candidates whose id is in `keep`, in input order. */
  function Filter(rs: seq<FlowRun>, keep: set<Id>): (out: seq<FlowRun>)
    ensures forall r :: r in out <==> r in rs && r.id in keep
  {
    if rs == [] then [] else (if rs[0].id in keep then [rs[0]] else []) + Filter(rs[1..], keep)
  }

  /** Some state row belongs to the run `runId`. */
  predicate HasState(states: map<Id, FlowRunState>, runId: Id) {
    exists s :: s in states && states[s].flowRunId == runId
  }

  /** The probe: the ids among `ids` that name a flow run without any state row. */
  function Unstated(table: map<Id, FlowRun>, states: map<Id, FlowRunState>, ids: seq<Id>): set<Id> {
    set id | id in ids && id in table && !HasState(states, id)
  }

  lemma FreshStep(table: map<Id, FlowRun>, rs: seq<FlowRun>)
    requires FreshFor(table, rs) && rs != []
    ensures FreshFor(NextTable(table, rs[0]), rs[1..])
  {
    forall r | r in rs[1..] ensures r.id != rs[0].id {
      var j :| 1 <= j < |rs| && rs[j] == r;
    }
  }

  /** What the batch insert does to the table: existing rows stay as they were,
      and the new rows are exactly the admitted candidates. */
  lemma {:induction false} BatchInsertEffect(table: map<Id, FlowRun>, rs: seq<FlowRun>)
    requires FreshFor(table, rs)
    ensures var after := BatchInsert(table, rs);
      && (forall k :: k in table ==> k in after && after[k] == table[k])
      && after.Keys == table.Keys + IdSet(Admitted(table, rs))
      && (forall r :: r in Admitted(table, rs) ==> after[r.id] == r)
    decreases |rs|
  {
    if rs != [] {
      var next := NextTable(table, rs[0]);
      FreshStep(table, rs);
      BatchInsertEffect(next, rs[1..]);
      AdmittedStep(table, rs);
    }
  }

  /** Unfolding Admitted by one candidate, on the ids it admits. */
  lemma AdmittedStep(table: map<Id, FlowRun>, rs: seq<FlowRun>)
    requires rs != []
    ensures IdSet(Admitted(table, rs))
         == (if HasConflict(table, rs[0]) then {} else {rs[0].id}) + IdSet(Admitted(NextTable(table, rs[0]), rs[1..]))
    ensures forall r :: r in Admitted(table, rs) <==>
      (r == rs[0] && !HasConflict(table, rs[0])) || r in Admitted(NextTable(table, rs[0]), rs[1..])
  {
    var rest := Admitted(NextTable(table, rs[0]), rs[1..]);
    assert Admitted(table, rs) == (if HasConflict(table, rs[0]) then [] else [rs[0]]) + rest;
  }

  /** The batch insert keeps the unique constraint. */
  lemma {:induction false} BatchInsertKeepsKeysUnique(table: map<Id, FlowRun>, rs: seq<FlowRun>)
    requires FreshFor(table, rs) && UniqueKeys(table)
    ensures UniqueKeys(BatchInsert(table, rs))
    decreases |rs|
  {
    if rs != [] {
      FreshStep(table, rs);
      BatchInsertKeepsKeysUnique(NextTable(table, rs[0]), rs[1..]);
    }
  }

  /** After the batch insert every keyed candidate's key is in the table,
      whether it was written or skipped. */
  lemma {:induction false} BatchInsertCovers(table: map<Id, FlowRun>, rs: seq<FlowRun>)
    requires FreshFor(table, rs)
    ensures Covers(BatchInsert(table, rs), rs)
    decreases |rs|
  {
    if rs != [] {
      var next := NextTable(table, rs[0]);
      var after := BatchInsert(table, rs);
      FreshStep(table, rs);
      BatchInsertCovers(next, rs[1..]);
      BatchInsertEffect(next, rs[1..]);
      if rs[0].idempotencyKey.Some? {
        if HasConflict(table, rs[0]) {
          var k :| k in table && SameUniqueKey(table[k], rs[0]);
          assert k in after && SameUniqueKey(after[k], rs[0]);
        } else {
          assert rs[0].id in next && SameUniqueKey(after[rs[0].id], rs[0]);
        }
      }
    }
  }

  /** Candidates with distinct ids are admitted with distinct ids. */
  lemma {:induction false} AdmittedDistinct(table: map<Id, FlowRun>, rs: seq<FlowRun>)
    requires DistinctIds(rs)
    ensures DistinctIds(Admitted(table, rs))
    decreases |rs|
  {
    if rs != [] {
      var next := NextTable(table, rs[0]);
      var rest := Admitted(next, rs[1..]);
      AdmittedDistinct(next, rs[1..]);
      var ins := Admitted(table, rs);
      if !HasConflict(table, rs[0]) {
        assert ins == [rs[0]] + rest;
        forall i, j | 0 <= i < j < |ins| ensures ins[i].id != ins[j].id {
          if i == 0 {
            assert ins[j] in rs[1..];
            var m :| 0 <= m < |rs[1..]| && rs[1..][m] == ins[j];
            assert rs[m + 1] == ins[j];
          } else {
            assert ins[i] == rest[i - 1] && ins[j] == rest[j - 1];
          }
        }
      }
    }
  }

  lemma FilterSkipsAbsent(rs: seq<FlowRun>, keep: set<Id>, x: Id)
    requires forall r :: r in rs ==> r.id != x
    ensures Filter(rs, keep + {x}) == Filter(rs, keep)
  {
    if rs != [] {
      FilterSkipsAbsent(rs[1..], keep, x);
    }
  }

  /** Selecting the input candidates by the ids that were admitted gives back
      the admitted candidates themselves, in input order. */
  lemma {:induction false} AdmittedIsFilter(table: map<Id, FlowRun>, rs: seq<FlowRun>)
    requires DistinctIds(rs)
    ensures Filter(rs, IdSet(Admitted(table, rs))) == Admitted(table, rs)
    decreases |rs|
  {
    if rs != [] {
      var next := NextTable(table, rs[0]);
      var rest := Admitted(next, rs[1..]);
      AdmittedIsFilter(next, rs[1..]);
      forall r | r in rs[1..] ensures r.id != rs[0].id {
        var j :| 1 <= j < |rs| && rs[j] == r;
      }
      assert rs[0].id !in IdSet(rest);
      if HasConflict(table, rs[0]) {
        assert Admitted(table, rs) == rest;
      } else {
        assert Admitted(table, rs) == [rs[0]] + rest;
        assert IdSet(Admitted(table, rs)) == IdSet(rest) + {rs[0].id};
        FilterSkipsAbsent(rs[1..], IdSet(rest), rs[0].id);
      }
    }
  }

  /** The probe finds exactly the admitted candidates: a skipped candidate's
      fresh id never reaches the table, and no state row can name a fresh id
      as long as every state row names an existing run. */
  lemma ProbeFindsAdmitted(table: map<Id, FlowRun>, states: map<Id, FlowRunState>, rs: seq<FlowRun>)
    requires FreshFor(table, rs)
    requires forall s :: s in states ==> states[s].flowRunId in table
    ensures Unstated(BatchInsert(table, rs), states, IdsOf(rs)) == IdSet(Admitted(table, rs))
  {
    var after := BatchInsert(table, rs);
    var ids := IdsOf(rs);
    BatchInsertEffect(table, rs);
    forall id | id in IdSet(Admitted(table, rs))
      ensures id in Unstated(after, states, ids)
    {
      var r :| r in Admitted(table, rs) && r.id == id;
      var i :| 0 <= i < |rs| && rs[i] == r;
      assert ids[i] == id;
    }
    forall id | id in Unstated(after, states, ids)
      ensures id in IdSet(Admitted(table, rs))
    {
      var i :| 0 <= i < |ids| && ids[i] == id;
      assert rs[i] in rs;
    }
  }

  /** When no two candidates share a unique key, a candidate is written
      exactly when its key is not already in the table. */
  lemma {:induction false} AdmittedExactlyUnkeyed(table: map<Id, FlowRun>, rs: seq<FlowRun>)
    requires FreshFor(table, rs)
    requires forall i, j :: 0 <= i < |rs| && 0 <= j < |rs| && i != j ==> !SameUniqueKey(rs[i], rs[j])
    ensures forall r :: r in Admitted(table, rs) <==> r in rs && !HasConflict(table, r)
    decreases |rs|
  {
    if rs != [] {
      var next := NextTable(table, rs[0]);
      FreshStep(table, rs);
      var tail := rs[1..];
      assert forall i, j :: 0 <= i < |tail| && 0 <= j < |tail| && i != j ==> !SameUniqueKey(tail[i], tail[j]) by {
        forall i, j | 0 <= i < |tail| && 0 <= j < |tail| && i != j ensures !SameUniqueKey(tail[i], tail[j]) {
          assert tail[i] == rs[i + 1] && tail[j] == rs[j + 1];
        }
      }
      AdmittedExactlyUnkeyed(next, tail);
      forall r | r in tail ensures HasConflict(next, r) == HasConflict(table, r) && r != rs[0] {
        var j :| 0 <= j < |tail| && tail[j] == r;
        assert r == rs[j + 1];
        assert !SameUniqueKey(rs[0], r);
        if HasConflict(next, r) {
          var k :| k in next && SameUniqueKey(next[k], r);
          assert k in table && SameUniqueKey(table[k], r);
        }
        if HasConflict(table, r) {
          var k :| k in table && SameUniqueKey(table[k], r);
          assert k in next && SameUniqueKey(next[k], r);
        }
      }
    }
  }

  /** A batch whose every candidate is already keyed in the table writes
      nothing and leaves the table as it was. */
  lemma {:induction false} CoveredBatchWritesNothing(table: map<Id, FlowRun>, rs: seq<FlowRun>)
    requires forall r :: r in rs ==> HasConflict(table, r)
    ensures Admitted(table, rs) == [] && BatchInsert(table, rs) == table
    decreases |rs|
  {
    if rs != [] {
      CoveredBatchWritesNothing(table, rs[1..]);
    }
  }
}

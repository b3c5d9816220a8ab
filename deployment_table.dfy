/** The deployment table: an upsert keyed by (flow id, name) and a delete by id. */
module DeploymentTable {
  import opened OrionTypes

  /** The deployment table's unique upsert columns: the flow and the name. */
  predicate SameName(a: Deployment, b: Deployment) {
    a.flowId == b.flowId && a.name == b.name
  }

  /** Rows are stored under their ids and no two rows share a flow and name. */
  predicate DeploymentRowsConsistent(table: map<Id, Deployment>) {
    && (forall k :: k in table ==> table[k].id == k)
    && (forall a, b :: a in table && b in table && SameName(table[a], table[b]) ==> a == b)
  }

  /** The row after an upsert hits it: only the schedule, its active flag, the
      tags, the parameters, the flow data and the update time are replaced. */
  function Overwrite(row: Deployment, d: Deployment, now: Timestamp): Deployment {
    row.(schedule := d.schedule, isScheduleActive := d.isScheduleActive, tags := d.tags,
         parameters := d.parameters, flowData := d.flowData, updated := now)
  }

  /** The table after upserting `d` at time `now`. A new row whose id is
      already taken violates the primary key. */
  function Upsert(table: map<Id, Deployment>, d: Deployment, now: Timestamp): Result<map<Id, Deployment>> {
    if exists k :: k in table && SameName(table[k], d) then
      Ok(map k | k in table :: if SameName(table[k], d) then Overwrite(table[k], d, now) else table[k])
    else if d.id in table then
      Err(UniqueViolation(d.id))
    else
      Ok(table[d.id := d.(updated := now)])
  }

  /** Upsert keeps the table consistent, and afterwards exactly one row has
      the deployment's flow and name. */
  lemma UpsertLeavesOneRow(table: map<Id, Deployment>, d: Deployment, now: Timestamp)
    requires DeploymentRowsConsistent(table)
    ensures Upsert(table, d, now).Ok? ==>
      var after := Upsert(table, d, now).value;
      && DeploymentRowsConsistent(after)
      && (exists k :: k in after && SameName(after[k], d))
      && (forall a, b :: a in after && b in after && SameName(after[a], d) && SameName(after[b], d) ==> a == b)
  {
    if Upsert(table, d, now).Ok? {
      var after := Upsert(table, d, now).value;
      if exists k :: k in table && SameName(table[k], d) {
        var k :| k in table && SameName(table[k], d);
        assert after.Keys == table.Keys;
        forall j | j in after
          ensures after[j].id == table[j].id && SameName(after[j], table[j])
        {
        }
        assert k in after && SameName(after[k], d);
      } else {
        assert after == table[d.id := d.(updated := now)];
        forall a, b | a in after && b in after && SameName(after[a], after[b]) ensures a == b {
          if a != d.id && b != d.id {
            assert after[a] == table[a] && after[b] == table[b];
          }
        }
        assert SameName(after[d.id], d);
      }
    }
  }

  /** When a row has the deployment's flow and name, upsert replaces only the
      listed fields of that row: its id and every other row stay as they were. */
  lemma UpsertOnConflict(table: map<Id, Deployment>, d: Deployment, now: Timestamp, k: Id)
    requires DeploymentRowsConsistent(table)
    requires k in table && SameName(table[k], d)
    ensures Upsert(table, d, now).Ok?
    ensures var after := Upsert(table, d, now).value;
      && after.Keys == table.Keys
      && after[k].id == table[k].id && after[k].name == table[k].name && after[k].flowId == table[k].flowId
      && after[k].schedule == d.schedule && after[k].isScheduleActive == d.isScheduleActive
      && after[k].tags == d.tags && after[k].parameters == d.parameters
      && after[k].flowData == d.flowData && after[k].updated == now
      && (forall j :: j in table && j != k ==> after[j] == table[j])
  {
    var after := Upsert(table, d, now).value;
    forall j | j in table && j != k ensures after[j] == table[j] {
      assert !SameName(table[j], table[k]);
    }
  }

  /** When no row has the deployment's flow and name, upsert adds it under its
      own id if that id is free, and fails otherwise. */
  lemma UpsertWithoutConflict(table: map<Id, Deployment>, d: Deployment, now: Timestamp)
    requires forall k :: k in table ==> !SameName(table[k], d)
    ensures d.id in table <==> Upsert(table, d, now).Err?
    ensures d.id !in table ==>
      var after := Upsert(table, d, now).value;
      && after.Keys == table.Keys + {d.id}
      && after[d.id] == d.(updated := now)
      && (forall j :: j in table ==> after[j] == table[j])
  {
  }

  /** Deleting by id keeps the table consistent. */
  lemma DeleteKeepsConsistent(table: map<Id, Deployment>, id: Id)
    requires DeploymentRowsConsistent(table)
    ensures DeploymentRowsConsistent(table - {id})
  {
  }
}

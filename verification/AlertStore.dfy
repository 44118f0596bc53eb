/** The alerts table. `ok` tells whether the database accepts a statement; a refused one has no effect. */
module AlertStore {
  import opened Common
  import opened AlertModel

  class Store {
    var rows: map<int, AlertRow>
    var nextID: int

    constructor ()
      ensures rows == map[] && nextID == 1
    {
      rows, nextID := map[], 1;
    }

    method OpenAlert(a: AlertRow, ok: bool) returns (r: Result<int>)
      modifies this
      ensures r == if ok then Ok(old(nextID)) else Failed
      ensures nextID == if ok then old(nextID) + 1 else old(nextID)
      ensures rows == if ok
        then old(rows)[old(nextID) := AlertRow(
          old(nextID), a.rule, a.target, a.targetName, a.severity, a.message, Firing, a.firedAt, 0, 0, 0)]
        else old(rows)
    {
      if !ok { return Failed; }
      var id := nextID;
      rows := rows[id := a.(id := id, state := Firing, resolvedAt := 0, notifiedAt := 0, ackedAt := 0)];
      nextID := nextID + 1;
      return Ok(id);
    }

    method ResolveAlert(id: int, at: Time, ok: bool) returns (done: bool)
      modifies this`rows
      ensures done == ok
      ensures rows == if ok then ResolveRow(old(rows), id, Unix(at)) else old(rows)
      ensures rows == if ok && id in old(rows) && old(rows)[id].state.Firing?
        then old(rows)[id := old(rows)[id].(state := Resolved, resolvedAt := at / SECOND)] else old(rows)
    {
      if !ok { return false; }
      if id in rows && rows[id].state.Firing? {
        rows := rows[id := rows[id].(state := Resolved, resolvedAt := Unix(at))];
      }
      return true;
    }

    method AckAlert(id: int, at: Time) returns (changed: bool)
      modifies this`rows
      ensures rows == AckRow(old(rows), id, Unix(at))
      ensures changed <==> id in old(rows) && old(rows)[id].ackedAt == 0
      ensures rows == if changed then old(rows)[id := old(rows)[id].(ackedAt := at / SECOND)] else old(rows)
    {
      changed := id in rows && rows[id].ackedAt == 0;
      if changed {
        rows := rows[id := rows[id].(ackedAt := Unix(at))];
      }
    }

    method MarkAlertNotified(id: int, at: Time)
      modifies this`rows
      ensures rows == NotifiedRow(old(rows), id, Unix(at))
      ensures rows == if id in old(rows) then old(rows)[id := old(rows)[id].(notifiedAt := at / SECOND)] else old(rows)
    {
      if id in rows {
        rows := rows[id := rows[id].(notifiedAt := Unix(at))];
      }
    }

    /** The statement of Rollup on this table. */
    method PruneAlerts(cutoff: int)
      modifies this`rows
      ensures rows == PruneRows(old(rows), cutoff)
      ensures forall id :: id in rows <==>
        id in old(rows) && (old(rows)[id].state.Resolved? ==> old(rows)[id].resolvedAt >= cutoff)
      ensures forall id | id in rows :: rows[id] == old(rows)[id]
    {
      rows := map id | id in rows && !(rows[id].state.Resolved? && rows[id].resolvedAt < cutoff) :: rows[id];
    }

    /** Every firing row once; the order is left open. */
    method FiringAlerts() returns (out: seq<AlertRow>, ghost ids: seq<int>)
      ensures |ids| == |out| && NoDup(ids)
      ensures forall i | 0 <= i < |out| :: ids[i] in rows && rows[ids[i]] == out[i] && out[i].state.Firing?
      ensures forall id | id in rows && rows[id].state.Firing? :: rows[id] in out
    {
      out, ids := [], [];
      var todo := rows.Keys;
      while todo != {}
        invariant todo <= rows.Keys
        invariant |ids| == |out| && NoDup(ids)
        invariant forall id | id in todo :: id !in ids
        invariant forall i | 0 <= i < |out| :: ids[i] in rows && rows[ids[i]] == out[i] && out[i].state.Firing?
        invariant forall id | id in rows && id !in todo && rows[id].state.Firing? :: rows[id] in out
      {
        ghost var some := SomeElement(todo);
        var id :| id in todo;
        if rows[id].state.Firing? {
          out, ids := out + [rows[id]], ids + [id];
        }
        todo := todo - {id};
      }
    }
  }
}

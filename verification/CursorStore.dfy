/** `CursorStore.get_cursor` and `update_cursor`
    (backend/app/services/cursor_store.py): the durable checkpoint of each
    (tenant, source). */
module CursorStore {

  type ScopeKey = (string, string)

  /** A row; an absent cursor is "". */
  datatype CursorRow = CursorRow(cursor: string, lastSyncAt: int)

  class Store {
    var rows: map<ScopeKey, CursorRow>

    constructor ()
      ensures rows == map[] && forall t, s :: GetCursor(t, s) == ""
    {
      rows := map[];
    }

    function GetCursor(tenant: string, sourceType: string): string
      reads this
    {
      if (tenant, sourceType) in rows then rows[(tenant, sourceType)].cursor else ""
    }

    /** Creates or overwrites the row; writing "" clears the resume token. */
    method UpdateCursor(tenant: string, sourceType: string, cursor: string, now: int)
      modifies this
      ensures rows == old(rows)[(tenant, sourceType) := CursorRow(cursor, now)]
      ensures GetCursor(tenant, sourceType) == cursor
      ensures forall t, s :: (t, s) !in rows ==> GetCursor(t, s) == ""
      ensures forall t, s :: (t, s) != (tenant, sourceType) ==> GetCursor(t, s) == old(GetCursor(t, s))
    {
      rows := rows[(tenant, sourceType) := CursorRow(cursor, now)];
    }
  }
}

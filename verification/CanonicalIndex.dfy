/** The search index under external versioning: strictly newer wins, an equal replay is acknowledged. */
module CanonicalIndex {
  import opened Prelude
  import opened StableIds

  datatype Entry<D> = Entry(version: int, source: D)

  datatype Write<D> = Write(tenant: string, chunk: string, version: int, document: D)

  type Rows<D> = map<string, Entry<D>>

  predicate Identified<D>(w: Write<D>) {
    w.tenant != "" && w.chunk != "" && w.version >= 1
  }

  function Row<D>(w: Write<D>): string {
    RowId(w.tenant, w.chunk)
  }

  // The backend stores a write only above the version it holds.
  predicate Newer<D>(rows: Rows<D>, w: Write<D>) {
    Row(w) !in rows || rows[Row(w)].version < w.version
  }

  predicate EqualReplay<D(==)>(rows: Rows<D>, w: Write<D>) {
    Row(w) in rows && rows[Row(w)] == Entry(w.version, w.document)
  }

  // The write is acknowledged; otherwise the caller sees a ValueError.
  predicate Accepted<D(==)>(rows: Rows<D>, w: Write<D>) {
    Identified(w) && (Newer(rows, w) || EqualReplay(rows, w))
  }

  function Written<D(==)>(rows: Rows<D>, w: Write<D>): Rows<D> {
    if Accepted(rows, w) then rows[Row(w) := Entry(w.version, w.document)] else rows
  }

  // Three facts that make an unacknowledged write safe to send again.
  lemma RetryIsIdempotent<D>(rows: Rows<D>, w: Write<D>)
    ensures Written(Written(rows, w), w) == Written(rows, w)
    ensures Accepted(Written(rows, w), w) <==> Accepted(rows, w)
    ensures Written(rows, w) != rows <==> Identified(w) && Newer(rows, w)
  {
    if EqualReplay(rows, w) {
      assert rows[Row(w) := Entry(w.version, w.document)] == rows;
    }
  }

  class OpenSearchIndex<D(==)> {
    var rows: Rows<D>

    constructor ()
      ensures rows == map[]
    {
      rows := map[];
    }

    // The client call: refused (a 409) at or below the stored version.
    method ExternalPut(w: Write<D>) returns (stored: bool)
      modifies this
      ensures stored == Newer(old(rows), w)
      ensures rows == if stored then old(rows)[Row(w) := Entry(w.version, w.document)] else old(rows)
    {
      stored := Row(w) !in rows || w.version > rows[Row(w)].version;
      if stored {
        rows := rows[Row(w) := Entry(w.version, w.document)];
      }
    }

    method CanonicalWrite(w: Write<D>) returns (r: Result<()>)
      modifies this
      ensures rows == Written(old(rows), w)
      ensures r == if Accepted(old(rows), w) then Ok(()) else Raise(ValueError)
    {
      if w.tenant == "" || w.chunk == "" || w.version < 1 {
        return Raise(ValueError);
      }
      var stored := ExternalPut(w);
      if stored {
        return Ok(());
      }
      var current := rows[Row(w)];
      if current.version == w.version && current.source == w.document {
        assert rows[Row(w) := Entry(w.version, w.document)] == rows;
        return Ok(());
      }
      return Raise(ValueError);
    }
  }
}

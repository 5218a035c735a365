/** The documents table: guarded statements and how the repository reads their row counts. */
module Documents {
  import opened Base

  type Key = string

  datatype Status = Pending | Processing | Ready | Failed

  datatype Row = Row(
    owner: int,
    size: int,
    key: Key,
    checksum: Option<Bytes>,
    status: Status,
    failure: Option<Bytes>,
    deletedAt: Option<int>)

  type Table = map<int, Row>

  datatype RepositoryError = DatabaseError | NotFound | NotProcessing

  // ----- The statements, as functions on the table -----

  predicate Live(rows: Table, id: int) {
    id in rows && rows[id].deletedAt.None?
  }

  predicate Claimable(rows: Table, id: int) {
    Live(rows, id) && (rows[id].status == Pending || rows[id].status == Failed)
  }

  predicate Markable(rows: Table, id: int) {
    Live(rows, id) && rows[id].status == Processing
  }

  function Insert(rows: Table, id: int, owner: int, size: int, key: Key): Table {
    rows[id := Row(owner, size, key, None, Pending, None, None)]
  }

  function Claim(rows: Table, id: int): Table {
    if Claimable(rows, id) then rows[id := rows[id].(status := Processing, failure := None)] else rows
  }

  function MarkReady(rows: Table, id: int, checksum: Bytes, size: int): Table {
    if Markable(rows, id)
    then rows[id := rows[id].(status := Ready, checksum := Some(checksum), size := size, failure := None)]
    else rows
  }

  function MarkFailed(rows: Table, id: int, message: Bytes): Table {
    if Markable(rows, id) then rows[id := rows[id].(status := Failed, failure := Some(message))] else rows
  }

  /** `COALESCE(deleted_at, NOW())`: the first deletion time is kept. */
  function SoftDelete(rows: Table, id: int, now: int): Table {
    if Live(rows, id) then rows[id := rows[id].(deletedAt := Some(now))] else rows
  }

  lemma FreshIdExists(ids: set<int>)
    ensures exists id :: id > 0 && id !in ids
  {
    var bound := UpperBound(ids);
    assert bound + 1 > 0 && bound + 1 !in ids;
  }

  lemma UpperBound(ids: set<int>) returns (bound: int)
    ensures bound >= 0 && forall id :: id in ids ==> id <= bound
  {
    bound := 0;
    if id :| id in ids {
      var rest := UpperBound(ids - {id});
      bound := if id > rest then id else rest;
      forall other | other in ids ensures other <= bound {
        assert other == id || other in ids - {id};
      }
    }
  }

  // ----- The table object -----

  /**
   * Every method takes `ok`: whether the database call goes through. A call that
   * returns an error has no effect. Row counts become results as in the repository.
   */
  class DocumentRepository {
    var rows: Table

    constructor ()
      ensures rows == map[]
    {
      rows := map[];
    }

    /** The next value of the id sequence. */
    method NextId() returns (id: int)
      ensures id > 0 && id !in rows
    {
      FreshIdExists(rows.Keys);
      id :| id > 0 && id !in rows;
    }

    method Create(id: int, owner: int, size: int, key: Key, ok: bool) returns (r: Result<int, RepositoryError>)
      requires id !in rows
      modifies this
      ensures r == if ok then Ok(id) else Err(DatabaseError)
      ensures rows == if ok then Insert(old(rows), id, owner, size, key) else old(rows)
    {
      if !ok {
        return Err(DatabaseError);
      }
      rows := rows[id := Row(owner, size, key, None, Pending, None, None)];
      r := Ok(id);
    }

    method GetByID(id: int, ok: bool) returns (r: Result<Row, RepositoryError>)
      ensures r.Ok? <==> ok && Live(rows, id)
      ensures r.Ok? ==> r.value == rows[id]
      ensures r.Err? ==> r.error == if ok then NotFound else DatabaseError
    {
      if !ok {
        return Err(DatabaseError);
      }
      if id !in rows || rows[id].deletedAt.Some? {
        return Err(NotFound);
      }
      r := Ok(rows[id]);
    }

    method ClaimDocumentProcessing(id: int) returns (affected: int)
      modifies this
      ensures rows == Claim(old(rows), id)
      ensures affected == if Claimable(old(rows), id) then 1 else 0
    {
      affected := 0;
      if id in rows && rows[id].deletedAt.None? {
        var row := rows[id];
        if row.status == Pending || row.status == Failed {
          rows, affected := rows[id := row.(status := Processing, failure := None)], 1;
        }
      }
    }

    method MarkDocumentReady(id: int, checksum: Bytes, size: int) returns (affected: int)
      modifies this
      ensures rows == MarkReady(old(rows), id, checksum, size)
      ensures affected == if Markable(old(rows), id) then 1 else 0
    {
      affected := 0;
      if id in rows && rows[id].deletedAt.None? && rows[id].status == Processing {
        var row := rows[id].(status := Ready, checksum := Some(checksum), size := size, failure := None);
        rows, affected := rows[id := row], 1;
      }
    }

    method MarkDocumentFailed(id: int, message: Bytes) returns (affected: int)
      modifies this
      ensures rows == MarkFailed(old(rows), id, message)
      ensures affected == if Markable(old(rows), id) then 1 else 0
    {
      affected := 0;
      if id in rows && rows[id].deletedAt.None? && rows[id].status == Processing {
        rows, affected := rows[id := rows[id].(status := Failed, failure := Some(message))], 1;
      }
    }

    method SoftDeleteDocument(id: int, now: int) returns (affected: int)
      modifies this
      ensures rows == SoftDelete(old(rows), id, now)
      ensures affected == if id in old(rows) then 1 else 0
    {
      affected := 0;
      if id in rows {
        var first := if rows[id].deletedAt.Some? then rows[id].deletedAt.value else now;
        rows, affected := rows[id := rows[id].(deletedAt := Some(first))], 1;
        assert rows == SoftDelete(old(rows), id, now);
      }
    }

    method ClaimProcessing(id: int, ok: bool) returns (r: Result<bool, RepositoryError>)
      modifies this
      ensures r == if ok then Ok(Claimable(old(rows), id)) else Err(DatabaseError)
      ensures rows == if ok then Claim(old(rows), id) else old(rows)
    {
      if !ok {
        return Err(DatabaseError);
      }
      var affected := ClaimDocumentProcessing(id);
      r := Ok(affected == 1);
    }

    method MarkReadyOrError(id: int, checksum: Bytes, size: int, ok: bool) returns (failure: Option<RepositoryError>)
      modifies this
      ensures failure ==
        if !ok then Some(DatabaseError) else if Markable(old(rows), id) then None else Some(NotProcessing)
      ensures rows == if ok then MarkReady(old(rows), id, checksum, size) else old(rows)
    {
      if !ok {
        return Some(DatabaseError);
      }
      var affected := MarkDocumentReady(id, checksum, size);
      failure := if affected != 1 then Some(NotProcessing) else None;
    }

    method MarkFailedOrError(id: int, message: Bytes, ok: bool) returns (failure: Option<RepositoryError>)
      modifies this
      ensures failure ==
        if !ok then Some(DatabaseError) else if Markable(old(rows), id) then None else Some(NotProcessing)
      ensures rows == if ok then MarkFailed(old(rows), id, message) else old(rows)
    {
      if !ok {
        return Some(DatabaseError);
      }
      var affected := MarkDocumentFailed(id, message);
      failure := if affected != 1 then Some(NotProcessing) else None;
    }

    method SoftDeleteOrError(id: int, now: int, ok: bool) returns (failure: Option<RepositoryError>)
      modifies this
      ensures failure == if !ok then Some(DatabaseError) else if id in old(rows) then None else Some(NotFound)
      ensures rows == if ok then SoftDelete(old(rows), id, now) else old(rows)
    {
      if !ok {
        return Some(DatabaseError);
      }
      var affected := SoftDeleteDocument(id, now);
      failure := if affected == 0 then Some(NotFound) else None;
    }
  }
}

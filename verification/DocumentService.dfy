/** Uploads, downloads and deletes as the service runs them, among steps of everyone else. */
module DocumentService {
  import opened Base
  import opened Documents
  import opened JobQueue
  import opened Pipeline
  import opened Storage
  import opened Runtime
  import Guarantees
  import Integrity
  import Keys
  import Listing
  import Upload

  datatype User = User(id: int, isAdmin: bool)

  /** An upload request; `accepted` is the verdict on its file name and media type. */
  datatype Request = Request(accepted: bool, declaredSize: int, body: Upload.Source)

  /** `prefix` as configured; the service trims it. */
  datatype Settings = Settings(maxUploadBytes: int, prefix: string)

  /** `published`: the last part of Put goes through; `put.ok`: its first part does. */
  datatype SagaCalls =
    SagaCalls(begin: seq<Step>, put: Call, published: bool, insert: Call, cleanup: Call, enqueue: Call)

  datatype ServiceError =
    | Unauthorized
    | Forbidden
    | InvalidRequest
    | StorageFailed
    | PersistFailed
    | PersistAndCleanupFailed
    | QueueFailed
    | LookupFailed(error: RepositoryError)
    | NotReady
    | DeleteFailed(deleteError: RepositoryError)

  // ----- The calls of `Create` -----

  ghost predicate At(system: System, i: nat, pc: CreatePc)
    reads system
  {
    i < |system.state.creates| && system.state.creates[i] == pc
  }

  /** No row has the key. */
  predicate Rowless(s: State, key: Key) {
    forall id :: id in s.rows ==> s.rows[id].key != key
  }

  lemma UploadIsRowless(system: System, i: nat)
    requires system.Valid() && i < |system.state.creates| && Integrity.Uploading(system.state.creates[i])
    ensures Rowless(system.state, system.state.creates[i].key)
    ensures system.state.creates[i].key in system.state.objects <==> !system.state.creates[i].Generated?
  {
    Integrity.SoundAlways(system.config, system.trace);
    assert Integrity.CreateSound(system.state, system.state.creates[i]);
  }

  lemma UnusedIsRowless(system: System, key: Key)
    requires system.Valid() && key !in system.state.used
    ensures Rowless(system.state, key) && key !in system.state.objects
  {
    Integrity.SoundAlways(system.config, system.trace);
    forall id | id in system.state.rows ensures system.state.rows[id].key != key {
      assert Integrity.RowSound(system.config, system.state, system.state.rows[id]);
    }
  }

  /** Only the progress of uploads changed. */
  predicate SameStores(s: State, s': State) {
    s'.rows == s.rows && s'.objects == s.objects && s'.lists == s.lists
  }

  method Begin(system: System, owner: int, key: Key, env: seq<Step>) returns (i: nat)
    requires system.Valid() && owner > 0 && key !in system.state.used
    modifies system, system.Stores()
    ensures system.Valid() && old(system.trace) <= system.trace
    ensures At(system, i, Generated(owner, key))
    ensures env == [] ==> SameStores(old(system.state), system.state)
  {
    system.Interfere(Starting(key), env);
    i := |system.state.creates|;
    system.Commit(BeginCreate(owner, key));
  }

  method PutBody(system: System, i: nat, owner: int, key: Key, counter: Upload.CountingReader, call: Call,
                 published: bool)
    returns (failure: Option<StorageError>)
    requires system.Valid() && At(system, i, Generated(owner, key))
    requires counter.count == 0 && counter.reader.InStep() && counter.reader.reader.position == 0
    modifies system, system.Stores(), counter, counter.reader, counter.reader.reader
    ensures system.Valid() && old(system.trace) <= system.trace
    ensures
      var stream, limit := counter.reader.reader, counter.reader.limit;
      && (failure.None? <==>
            Keys.ValidKey(key) && call.ok && |stream.data| <= limit && stream.ending == Upload.EndOfFile && published)
      && (failure == Some(UploadTooLarge) <==> Keys.ValidKey(key) && call.ok && |stream.data| > limit)
      && At(system, i, if failure.None? then Stored(owner, key, |stream.data|) else Finished)
      && (failure.None? ==> counter.count == |stream.data| && key in system.state.objects
                            && system.state.objects[key] == stream.data)
      && (failure.Some? ==> Rowless(system.state, key) && key !in system.state.objects)
    ensures call.env == [] ==>
      var s, s' := old(system.state), system.state;
      && s'.rows == s.rows && s'.lists == s.lists && key !in s.objects
      && s'.objects == if failure.None? then s.objects[key := counter.reader.reader.data] else s.objects
  {
    system.Interfere(Uploader(i), call.env);
    UploadIsRowless(system, i);
    failure := system.storage.Put(key, counter, call.ok, published);
    system.Commit(PutObject(i, counter.reader.reader.data, failure.None?));
  }

  method InsertDocument(system: System, i: nat, owner: int, key: Key, size: int, call: Call)
    returns (r: Result<int, RepositoryError>)
    requires system.Valid() && At(system, i, Stored(owner, key, size)) && key in system.state.objects
    modifies system, system.Stores()
    ensures system.Valid() && old(system.trace) <= system.trace
    ensures r.Ok? <==> call.ok
    ensures r.Err? ==> At(system, i, Compensating(key))
    ensures r.Ok? ==>
      At(system, i, Inserted(r.value)) && r.value > 0 &&
      r.value in system.state.rows && system.state.rows[r.value] == Row(owner, size, key, None, Pending, None, None) &&
      key in system.state.objects && system.state.objects[key] == old(system.state.objects[key])
    ensures call.env == [] ==>
      var s, s' := old(system.state), system.state;
      && s'.objects == s.objects && s'.lists == s.lists
      && (r.Ok? ==>
            && r.value !in s.rows
            && s'.rows == s.rows[r.value := Row(owner, size, key, None, Pending, None, None)])
      && (r.Err? ==> s'.rows == s.rows)
  {
    system.Interfere(Uploader(i), call.env);
    var id := system.repository.NextId();
    r := system.repository.Create(id, owner, size, key, call.ok);
    system.Commit(InsertRow(i, id, call.ok));
  }

  method CleanUp(system: System, i: nat, key: Key, call: Call) returns (failure: Option<StorageError>)
    requires system.Valid() && At(system, i, Compensating(key))
    modifies system, system.Stores()
    ensures system.Valid() && old(system.trace) <= system.trace
    ensures At(system, i, Finished) && (failure.None? <==> call.ok)
    ensures Rowless(system.state, key)
    ensures failure.None? ==> key !in system.state.objects
    ensures failure.Some? ==> key in system.state.history.undeleted
    ensures call.env == [] ==>
      var s, s' := old(system.state), system.state;
      && s'.rows == s.rows && s'.lists == s.lists
      && s'.objects == if failure.None? then s.objects - {key} else s.objects
  {
    system.Interfere(Uploader(i), call.env);
    UploadIsRowless(system, i);
    failure := system.storage.Delete(key, call.ok);
    system.Commit(Compensate(i, call.ok));
  }

  method EnqueueDocument(system: System, i: nat, id: int, call: Call) returns (failure: Option<QueueError>)
    requires system.Valid() && At(system, i, Inserted(id)) && id > 0
    modifies system, system.Stores()
    ensures system.Valid() && old(system.trace) <= system.trace
    ensures At(system, i, Finished) && (failure.None? <==> call.ok)
    ensures failure.None? ==> system.state.history.enqueued[id] > 0
    ensures call.env == [] ==>
      var s, s' := old(system.state), system.state;
      && s'.rows == s.rows && s'.objects == s.objects
      && s'.lists == if failure.None? then s.lists.(main := [Job(id, 1)] + s.lists.main) else s.lists
  {
    system.Interfere(Uploader(i), call.env);
    failure := system.queue.Enqueue(Job(id, 1), call.ok);
    system.Commit(EnqueueJob(i, call.ok));
  }

  /** What every later state says of a row that was there before. */
  lemma RowsEvolveTo(system: System, before: seq<Step>)
    requires system.Valid() && before <= system.trace
    ensures Integrity.Evolves(After(system.config, Initial(), before), system.state)
  {
    assert before + system.trace[|before|..] == system.trace;
    Guarantees.RowsEvolve(system.config, before, system.trace[|before|..]);
  }

  function KeyFor(settings: Settings, user: User, objectId: string): Key
    requires user.id > 0
  {
    Keys.BuiltKey(settings.prefix, user.id, objectId)
  }

  /** The row of an upload, and its object. */
  predicate Persisted(s: State, id: int, owner: int, key: Key, content: Bytes) {
    && id in s.rows && s.rows[id].owner == owner && s.rows[id].key == key && s.rows[id].size == |content|
    && key in s.objects && s.objects[key] == content
  }

  /** An upload that failed has no row, and an object only if it says that the clean-up failed. */
  predicate LeavesNothing(s: State, key: Key, failure: Option<ServiceError>) {
    && Rowless(s, key)
    && (key in s.objects ==> failure == Some(PersistAndCleanupFailed) && key in s.history.undeleted)
  }

  /** A new pending row for the object, and its job unless the queue failed. */
  predicate Handed(
    s: State, s': State, id: int, owner: int, key: Key, content: Bytes, failure: Option<ServiceError>)
  {
    && id !in s.rows && s'.rows == s.rows[id := Row(owner, |content|, key, None, Pending, None, None)]
    && s'.objects == s.objects
    && s'.lists == if failure.None? then s.lists.(main := [Job(id, 1)] + s.lists.main) else s.lists
  }

  /** Nobody else does anything during the upload. */
  predicate Calm(calls: SagaCalls) {
    calls.begin == [] && calls.put.env == calls.insert.env == calls.cleanup.env == calls.enqueue.env == []
  }

  /** From the stored object on: insert, and then enqueue or clean up. */
  method Persist(system: System, i: nat, owner: int, key: Key, ghost content: Bytes, size: int, calls: SagaCalls)
    returns (document: Option<int>, failure: Option<ServiceError>)
    requires system.Valid() && At(system, i, Stored(owner, key, size)) && size == |content|
    requires key in system.state.objects && system.state.objects[key] == content
    modifies system, system.Stores()
    ensures system.Valid() && old(system.trace) <= system.trace
    ensures At(system, i, Finished)
    ensures failure.None? <==> calls.insert.ok && calls.enqueue.ok
    ensures document.Some? <==> calls.insert.ok
    ensures document.Some? ==> failure.None? || failure == Some(QueueFailed)
    ensures document.None? ==> failure == Some(if calls.cleanup.ok then PersistFailed else PersistAndCleanupFailed)
    ensures calls.insert.env == calls.cleanup.env == calls.enqueue.env == [] ==>
      var s, s' := old(system.state), system.state;
      if document.Some? then Handed(s, s', document.value, owner, key, content, failure)
      else
        && s'.rows == s.rows && s'.lists == s.lists
        && s'.objects == if failure == Some(PersistFailed) then s.objects - {key} else s.objects
    ensures document.None? ==> LeavesNothing(system.state, key, failure)
    ensures failure.None? ==> system.state.history.enqueued[document.value] > 0
    ensures document.Some? ==> Persisted(system.state, document.value, owner, key, content)
  {
    document := None;
    var inserted := InsertDocument(system, i, owner, key, size, calls.insert);
    if inserted.Err? {
      var cleanup := CleanUp(system, i, key, calls.cleanup);
      failure := Some(if cleanup.Some? then PersistAndCleanupFailed else PersistFailed);
      return;
    }
    document := Some(inserted.value);
    ghost var before := system.trace;
    var queueFailure := EnqueueDocument(system, i, inserted.value, calls.enqueue);
    RowsEvolveTo(system, before);
    failure := if queueFailure.Some? then Some(QueueFailed) else None;
  }

  /** An accepted upload, under a fresh key. */
  method UploadBody(system: System, owner: int, key: Key, limit: int, body: Upload.Source, calls: SagaCalls)
    returns (document: Option<int>, failure: Option<ServiceError>)
    requires system.Valid() && owner > 0 && limit > 0 && body.position == 0 && key !in system.state.used
    modifies system, system.Stores(), body
    ensures system.Valid() && old(system.trace) <= system.trace
    ensures
      failure.None? <==>
        && Keys.ValidKey(key) && |body.data| <= limit && body.ending == Upload.EndOfFile
        && calls.put.ok && calls.published && calls.insert.ok && calls.enqueue.ok
    ensures document.Some? <==> failure.None? || failure == Some(QueueFailed)
    ensures document.None? ==> LeavesNothing(system.state, key, failure)
    ensures failure == Some(InvalidRequest) <==> Keys.ValidKey(key) && calls.put.ok && |body.data| > limit
    ensures failure == Some(StorageFailed) <==>
      || !Keys.ValidKey(key) || !calls.put.ok
      || (|body.data| <= limit && (body.ending != Upload.EndOfFile || !calls.published))
    ensures failure != Some(Unauthorized)
    ensures Calm(calls) ==>
      var s, s' := old(system.state), system.state;
      if document.Some?
      then Handed(s.(objects := s.objects[key := body.data]), s', document.value, owner, key, body.data, failure)
      else
        && s'.rows == s.rows && s'.lists == s.lists
        && s'.objects == if failure == Some(PersistAndCleanupFailed) then s.objects[key := body.data] else s.objects
    ensures failure.None? ==> system.state.history.enqueued[document.value] > 0
    ensures document.Some? ==> |body.data| <= limit && Persisted(system.state, document.value, owner, key, body.data)
  {
    hide Pipeline.Run, After, Enabled, Keys.ValidKey, Persisted;
    document := None;
    var i := Begin(system, owner, key, calls.begin);
    var limiter := new Upload.MaxBytesReader(body, limit);
    var counter := new Upload.CountingReader(limiter);
    var putFailure := PutBody(system, i, owner, key, counter, calls.put, calls.published);
    if putFailure.Some? {
      failure := Some(if putFailure.value == UploadTooLarge then InvalidRequest else StorageFailed);
      return;
    }
    document, failure := Persist(system, i, owner, key, body.data, counter.count, calls);
  }

  /**
   * The upload saga. It succeeds exactly when the request is acceptable, the key is valid,
   * the whole stream fits the limit and every call goes through. A document that it hands
   * out is in the table, also when only the queue failed; its recorded size is the length
   * of the stream and its object is the stream. Without a document there is no row, and an
   * object only if the failure says that the clean-up failed.
   */
  method Create(system: System, settings: Settings, user: User, request: Request, objectId: string, calls: SagaCalls)
    returns (document: Option<int>, failure: Option<ServiceError>)
    requires system.Valid() && settings.maxUploadBytes > 0 && request.body.position == 0
    // The generated id is fresh.
    requires user.id > 0 ==> KeyFor(settings, user, objectId) !in system.state.used
    modifies system, system.Stores(), request.body
    ensures system.Valid() && old(system.trace) <= system.trace
    ensures
      failure.None? <==>
        && user.id > 0 && request.accepted && 0 < request.declaredSize <= settings.maxUploadBytes
        && Keys.ValidKey(KeyFor(settings, user, objectId))
        && |request.body.data| <= settings.maxUploadBytes && request.body.ending == Upload.EndOfFile
        && calls.put.ok && calls.published && calls.insert.ok && calls.enqueue.ok
    ensures document.Some? <==> failure.None? || failure == Some(QueueFailed)
    ensures user.id <= 0 ==> failure == Some(Unauthorized) && system.state == old(system.state)
    ensures document.None? && user.id > 0 ==> LeavesNothing(system.state, KeyFor(settings, user, objectId), failure)
    ensures
      failure == Some(InvalidRequest) <==>
        user.id > 0 &&
        (request.accepted && 0 < request.declaredSize <= settings.maxUploadBytes ==>
           && Keys.ValidKey(KeyFor(settings, user, objectId)) && calls.put.ok
           && |request.body.data| > settings.maxUploadBytes)
    ensures
      user.id > 0 && request.accepted && 0 < request.declaredSize <= settings.maxUploadBytes ==>
        (failure == Some(StorageFailed) <==>
           || !Keys.ValidKey(KeyFor(settings, user, objectId)) || !calls.put.ok
           || (|request.body.data| <= settings.maxUploadBytes &&
               (request.body.ending != Upload.EndOfFile || !calls.published)))
    ensures Calm(calls) && document.None? ==>
      var s, s' := old(system.state), system.state;
      && s'.rows == s.rows && s'.lists == s.lists
      && s'.objects == if failure == Some(PersistAndCleanupFailed)
                       then s.objects[KeyFor(settings, user, objectId) := request.body.data] else s.objects
    ensures Calm(calls) && document.Some? ==>
      var s, s', id := old(system.state), system.state, document.value;
      var key := KeyFor(settings, user, objectId);
      && id !in s.rows
      && s'.rows == s.rows[id := Row(user.id, |request.body.data|, key, None, Pending, None, None)]
      && s'.objects == s.objects[key := request.body.data]
      && s'.lists == if failure.None? then s.lists.(main := [Job(id, 1)] + s.lists.main) else s.lists
    ensures failure.None? ==> system.state.history.enqueued[document.value] > 0
    ensures document.Some? ==>
      && user.id > 0 && |request.body.data| <= settings.maxUploadBytes
      && Persisted(system.state, document.value, user.id, KeyFor(settings, user, objectId), request.body.data)
  {
    document := None;
    if user.id <= 0 {
      failure := Some(Unauthorized);
      return;
    }
    UnusedIsRowless(system, KeyFor(settings, user, objectId));
    if !request.accepted || request.declaredSize <= 0 || request.declaredSize > settings.maxUploadBytes {
      failure := Some(InvalidRequest);
      return;
    }
    document, failure := UploadBody(system, user.id, KeyFor(settings, user, objectId), settings.maxUploadBytes,
                                    request.body, calls);
  }

  // ----- Get, Download, Delete -----

  function Authorize(user: User, row: Row): Option<ServiceError> {
    if user.id <= 0 then Some(Unauthorized)
    else if !user.isAdmin && row.owner != user.id then Some(Forbidden)
    else None
  }

  /** A user with an id may see the own documents, an administrator all. */
  predicate Permitted(user: User, row: Row) {
    user.id > 0 && (user.isAdmin || row.owner == user.id)
  }

  method Get(system: System, user: User, id: int, ok: bool) returns (r: Result<Row, ServiceError>)
    requires system.Valid()
    ensures
      var rows := system.state.rows;
      var found := ok && id in rows && rows[id].deletedAt.None?;
      && (r.Ok? <==> found && user.id > 0 && (user.isAdmin || rows[id].owner == user.id))
      && (r.Ok? ==> r.value == rows[id])
      && (r.Err? ==>
            r.error == if !ok then LookupFailed(DatabaseError)
                       else if !found then LookupFailed(NotFound)
                       else if user.id <= 0 then Unauthorized
                       else Forbidden)
  {
    var found := system.repository.GetByID(id, ok);
    if found.Err? {
      return Err(LookupFailed(found.error));
    }
    var refused := Authorize(user, found.value);
    r := if refused.Some? then Err(refused.value) else Ok(found.value);
  }

  function Filter(user: User): Option<int> {
    if user.isAdmin then None else Some(user.id)
  }

  /**
   * A page is cut from the listing of exactly the documents that Get would hand out to the
   * same user, newest first, and comes with their number: the requested page, at the
   * requested size or, out of range, at 20 or 100.
   */
  method List(system: System, user: User, page: int, pageSize: int, listOk: bool, countOk: bool)
    returns (r: Result<(seq<Row>, int), ServiceError>)
    requires system.Valid() && page <= Listing.MAX_INT64
    ensures user.id <= 0 ==> r == Err(Unauthorized)
    ensures user.id > 0 ==>
      var rows, listing := system.state.rows, Listing.ListingOf(system.state.rows, Filter(user));
      && Listing.Descending(listing)
      && (forall id :: id in listing <==> id in rows && rows[id].deletedAt.None? && Permitted(user, rows[id]))
      && (r.Ok? <==> listOk && countOk && Listing.PageOf(listing, page, pageSize).Some?)
      && var size := if pageSize < 1 then 20 else if pageSize > 100 then 100 else pageSize;
         var start := if page < 1 then 0 else (page - 1) * size;
         && (start <= Listing.MAX_INT32 ==> (r.Ok? <==> listOk && countOk))
         && (r.Ok? ==>
               && r.value.1 == |listing|
               && (start <= Listing.MAX_INT32 ==>
                     && |r.value.0| == (if start + size <= |listing| then size
                                        else if start < |listing| then |listing| - start
                                        else 0)
                     && Listing.RowsFrom(r.value.0, rows, listing, start)))
  {
    if user.id <= 0 {
      return Err(Unauthorized);
    }
    hide Listing.PageOf;
    forall id
      ensures id in Listing.ListingOf(system.state.rows, Filter(user)) <==>
        Live(system.state.rows, id) && Permitted(user, system.state.rows[id])
    {
      ListedIffPermitted(system.state.rows, user, id);
    }
    hide Listing.ListedIds, Permitted;
    var listed := Listing.List(system.repository, Filter(user), page, pageSize, listOk, countOk);
    r := if listed.Err? then Err(LookupFailed(listed.error)) else Ok(listed.value);
  }

  lemma ListedIffPermitted(rows: Table, user: User, id: int)
    requires user.id > 0
    ensures id in Listing.ListingOf(rows, Filter(user)) <==> Live(rows, id) && Permitted(user, rows[id])
  {
    hide Listing.ListingOf;
    assert id in Listing.ListingOf(rows, Filter(user)) <==> id in Listing.ListedIds(rows, Filter(user));
  }

  /**
   * A download, whatever happens between its two calls, hands out the content that the row's
   * checksum is of. It changes nothing itself.
   */
  method Download(system: System, user: User, id: int, lookup: bool, open: Call)
    returns (r: Result<(Bytes, Row), ServiceError>)
    requires system.Valid()
    modifies system, system.Stores()
    ensures system.Valid() && old(system.trace) <= system.trace
    ensures
      var rows := old(system.state.rows);
      var found := lookup && id in rows && rows[id].deletedAt.None? && Permitted(user, rows[id]);
      && (r.Ok? <==> found && rows[id].status == Ready && open.ok)
      && (found && rows[id].status != Ready ==> r == Err(NotReady))
      && (found && rows[id].status == Ready && !open.ok ==> r == Err(StorageFailed))
      && (!found || rows[id].status != Ready ==> system.state == old(system.state))
    ensures r.Ok? ==>
      && r.value.1 == old(system.state.rows)[id]
      && r.value.1.checksum == Some(system.config.sha(r.value.0))
      && r.value.1.size == |r.value.0|
    ensures open.env == [] ==> system.state == old(system.state)
  {
    var document := Get(system, user, id, lookup);
    if document.Err? {
      return Err(document.error);
    }
    if document.value.status != Ready {
      return Err(NotReady);
    }
    ghost var before := system.trace;
    Guarantees.ReadyRowsIntact(system.config, before, id);
    system.Interfere(Caller, open.env);
    RowsEvolveTo(system, before);
    var content := system.storage.Open(document.value.key, open.ok);
    r := if content.Err? then Err(StorageFailed) else Ok((content.value, document.value));
  }

  /**
   * A delete that succeeds leaves the row deleted; its object stays. A refused one changes
   * nothing at all, and an undisturbed one nothing but the deletion time of that row.
   */
  method Delete(system: System, user: User, id: int, now: int, lookup: bool, call: Call)
    returns (failure: Option<ServiceError>)
    requires system.Valid()
    modifies system, system.Stores()
    ensures system.Valid() && old(system.trace) <= system.trace
    ensures
      var rows := old(system.state.rows);
      var found := lookup && id in rows && rows[id].deletedAt.None?;
      && (failure.None? <==> found && Permitted(user, rows[id]) && call.ok)
      && (found && user.id <= 0 ==> failure == Some(Unauthorized))
      && (found && user.id > 0 && !Permitted(user, rows[id]) ==> failure == Some(Forbidden))
      && (!found || !Permitted(user, rows[id]) ==> system.state == old(system.state))
    ensures failure.None? ==>
      && id in system.state.rows && system.state.rows[id].deletedAt.Some?
      && system.state.rows[id].key in system.state.objects
    ensures call.env == [] ==>
      var s := old(system.state);
      if failure.Some? then system.state == s
      else id in s.rows && system.state == s.(rows := s.rows[id := s.rows[id].(deletedAt := Some(now))])
  {
    var document := Get(system, user, id, lookup);
    if document.Err? {
      return Some(document.error);
    }
    ghost var before := system.trace;
    system.Interfere(Caller, call.env);
    RowsEvolveTo(system, before);
    var missed := system.repository.SoftDeleteOrError(id, now, call.ok);
    if missed.Some? {
      return Some(DeleteFailed(missed.value));
    }
    system.Commit(DeleteRow(id, now));
    Guarantees.ReadyRowsIntact(system.config, system.trace, id);
    failure := None;
  }
}

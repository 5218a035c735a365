/** The object store: an object is published whole or not at all. */
module Storage {
  import opened Base
  import opened Documents
  import Keys
  import Upload

  datatype StorageError = StorageUnavailable | ObjectNotFound | UploadTooLarge | InvalidKey

  class ObjectStorage {
    var objects: map<Key, Bytes>

    constructor ()
      ensures objects == map[]
    {
      objects := map[];
    }

    /** Every object is stored under a key that the store accepts. */
    ghost predicate KeysAccepted()
      reads this
    {
      forall key :: key in objects ==> Keys.ValidKey(key)
    }

    /**
     * Copy the stream to a temporary object and publish it under `key` only if all of that
     * succeeds. `prepared`: the temporary object can be made; `published`: it can be closed
     * and renamed.
     */
    method Put(key: Key, source: Upload.CountingReader, prepared: bool, published: bool)
      returns (failure: Option<StorageError>)
      requires source.count == 0 && source.reader.InStep() && source.reader.reader.position == 0
      modifies this, source, source.reader, source.reader.reader
      ensures
        var stream := source.reader.reader;
        failure == if !Keys.ValidKey(key) then Some(InvalidKey)
                   else if !prepared then Some(StorageUnavailable)
                   else if |stream.data| > source.reader.limit then Some(UploadTooLarge)
                   else if stream.ending != Upload.EndOfFile || !published then Some(StorageUnavailable)
                   else None
      ensures
        objects == if failure.Some? then old(objects) else old(objects)[key := source.reader.reader.data]
      ensures failure.None? ==> source.count == |source.reader.reader.data| <= source.reader.limit
    {
      if !Keys.ValidKey(key) {
        return Some(InvalidKey);
      }
      if !prepared {
        return Some(StorageUnavailable);
      }
      var written, broken := Upload.Copy(source, 32768);
      if broken == Some(Upload.TooLarge) {
        return Some(UploadTooLarge);
      }
      if broken.Some? || !published {
        return Some(StorageUnavailable);
      }
      objects := objects[key := written];
      failure := None;
    }

    method Open(key: Key, ok: bool) returns (r: Result<Bytes, StorageError>)
      ensures r == if !ok then Err(StorageUnavailable)
                   else if !Keys.ValidKey(key) then Err(InvalidKey)
                   else if key in objects then Ok(objects[key])
                   else Err(ObjectNotFound)
    {
      if !ok {
        return Err(StorageUnavailable);
      }
      if !Keys.ValidKey(key) {
        return Err(InvalidKey);
      }
      if key !in objects {
        return Err(ObjectNotFound);
      }
      r := Ok(objects[key]);
    }

    /** Deleting an object that is not there succeeds. */
    method Delete(key: Key, ok: bool) returns (failure: Option<StorageError>)
      modifies this
      ensures failure ==
        if !ok then Some(StorageUnavailable) else if !Keys.ValidKey(key) then Some(InvalidKey) else None
      ensures objects == if failure.None? then old(objects) - {key} else old(objects)
    {
      if !ok {
        return Some(StorageUnavailable);
      }
      if !Keys.ValidKey(key) {
        return Some(InvalidKey);
      }
      objects := objects - {key};
      failure := None;
    }
  }
}

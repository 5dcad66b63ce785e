/** The one store interface the command handlers use. The Java handlers are
    typed against either `Storage` or `ServerStorage`; here a handler is bound
    to one of the two store revisions, and every operation goes to that
    revision. */
module StorageApi {
  import opened Wrappers
  import opened Protocol
  import opened StorageItems
  import DefaultStorage
  import DefaultServerStorage

  /** Which implementation a handler's store reference points at. */
  datatype Revision = DefaultStorageRevision | ServerStorageRevision

  function Put(rev: Revision, s: Store, key: Option<string>, ttl: Option<int>, data: Option<Bytes>, now: int): Result<Update, StoreError> {
    match rev
    case DefaultStorageRevision => DefaultStorage.Put(s, key, ttl, data, now)
    case ServerStorageRevision => DefaultServerStorage.Put(s, key, ttl, data, now)
  }

  function Get(rev: Revision, s: Store, key: Option<string>, now: int): Result<Bytes, StoreError> {
    match rev
    case DefaultStorageRevision => DefaultStorage.Get(s, key, now)
    case ServerStorageRevision => DefaultServerStorage.Get(s, key, now)
  }

  function Remove(rev: Revision, s: Store, key: Option<string>, now: int): Result<Update, StoreError> {
    match rev
    case DefaultStorageRevision => DefaultStorage.Remove(s, key, now)
    case ServerStorageRevision => DefaultServerStorage.Remove(s, key, now)
  }

  function Clear(rev: Revision, s: Store): Update {
    match rev
    case DefaultStorageRevision => DefaultStorage.Clear(s)
    case ServerStorageRevision => DefaultServerStorage.Clear(s)
  }

  /** The two revisions agree on `put`, `get` and `clear` for every input. */
  lemma RevisionsAgreeExceptRemove(s: Store, key: Option<string>, ttl: Option<int>, data: Option<Bytes>, now: int)
    ensures DefaultStorage.Put(s, key, ttl, data, now) == DefaultServerStorage.Put(s, key, ttl, data, now)
    ensures DefaultStorage.Get(s, key, now) == DefaultServerStorage.Get(s, key, now)
    ensures DefaultStorage.Clear(s) == DefaultServerStorage.Clear(s)
  {
  }

  /** On `remove` both revisions leave the same map behind, and their statuses
      differ exactly when the key maps to an expired item: `DefaultStorage`
      reports NOT_FOUND there, `DefaultServerStorage` REMOVED. */
  lemma RemoveDiffersOnlyOnExpired(s: Store, k: string, now: int)
    ensures DefaultStorage.Remove(s, Some(k), now).value.store == DefaultServerStorage.Remove(s, Some(k), now).value.store
    ensures DefaultStorage.Remove(s, Some(k), now).value.status != DefaultServerStorage.Remove(s, Some(k), now).value.status
        <==> k in s && IsExpired(s[k], now)
    ensures k in s && IsExpired(s[k], now) ==>
      DefaultStorage.Remove(s, Some(k), now).value.status == NotFound
      && DefaultServerStorage.Remove(s, Some(k), now).value.status == Removed
  {
  }
}

/** The `DefaultServerStorage` revision of the store: an `InnerStorage` map
    whose operations report the previous payload, public operations on top of
    it, and the `ExpiredDataCleaner` sweep. Unlike `DefaultStorage`, `remove`
    reports REMOVED for an expired but present item. That `get` hands out the
    stored array itself is modelled in `PayloadArrays`. */
module DefaultServerStorage {
  import opened Wrappers
  import opened Protocol
  import opened StorageItems

  /** An `InnerStorage` map after `put` or `remove`, with the payload the key
      was mapped to before, if any. */
  datatype InnerUpdate = InnerUpdate(store: Store, previous: Option<Bytes>)

  /** `InnerStorage.put`: maps the key to a new item and returns the old
      payload, expired or not. */
  function InnerPut(s: Store, key: string, ttl: Option<int>, data: Bytes, now: int): (r: InnerUpdate)
    ensures r.previous == (if key in s then Some(s[key].data) else None)
    ensures r.store.Keys == s.Keys + {key}
    ensures r.store[key] == NewItem(ttl, data, now)
    ensures forall k :: k in s && k != key ==> r.store[k] == s[k]
  {
    InnerUpdate(s[key := NewItem(ttl, data, now)], if key in s then Some(s[key].data) else None)
  }

  /** `InnerStorage.get`: the payload of a present item that is not expired. */
  function InnerGet(s: Store, key: string, now: int): (r: Option<Bytes>)
    ensures r.Some? <==> key in s && !IsExpired(s[key], now)
    ensures r.Some? ==> r.value == s[key].data
  {
    if key in s && !IsExpired(s[key], now) then Some(s[key].data) else None
  }

  /** `InnerStorage.remove`: unmaps the key, returns its payload even when the
      item has expired, and leaves every other entry as it was. */
  function InnerRemove(s: Store, key: string): (r: InnerUpdate)
    ensures r.previous == (if key in s then Some(s[key].data) else None)
    ensures r.store.Keys == s.Keys - {key}
    ensures forall k :: k in r.store ==> r.store[k] == s[k]
  {
    InnerUpdate(s - {key}, if key in s then Some(s[key].data) else None)
  }

  /** `InnerStorage.clear`. */
  function InnerClear(s: Store): (r: Store)
    ensures |r| == 0
  {
    map[]
  }

  /** `put(key, ttl, data)` and `put(key, data)`: ADDED when `InnerStorage.put`
      found no previous payload, REPLACED otherwise. */
  function Put(s: Store, key: Option<string>, ttl: Option<int>, data: Option<Bytes>, now: int): (r: Result<Update, StoreError>)
    ensures r.Failure? <==> CheckPutArguments(key, data).Some?
    ensures r.Failure? ==> r.error == CheckPutArguments(key, data).value
    ensures r.Success? ==> (r.value.status == Added <==> key.value !in s)
    ensures r.Success? ==> r.value.status in {Added, Replaced}
    ensures r.Success? ==> r.value.store.Keys == s.Keys + {key.value}
    ensures r.Success? ==> r.value.store[key.value] == NewItem(ttl, data.value, now)
    ensures r.Success? ==> forall k :: k in s && k != key.value ==> r.value.store[k] == s[k]
  {
    match CheckPutArguments(key, data)
    case Some(e) => Failure(e)
    case None =>
      var u := InnerPut(s, key.value, ttl, data.value, now);
      Success(Update(u.store, if u.previous.None? then Added else Replaced))
  }

  /** `get(key)`: the stored payload, or the empty array when `InnerStorage.get`
      found nothing. */
  function Get(s: Store, key: Option<string>, now: int): (r: Result<Bytes, StoreError>)
    ensures key.None? <==> r.Failure?
    ensures r.Failure? ==> r.error == NullArgument(KeyCanNotBeNull)
    ensures key.Some? && key.value in s && !IsExpired(s[key.value], now) ==> r == Success(s[key.value].data)
    ensures key.Some? && (key.value !in s || IsExpired(s[key.value], now)) ==> r == Success([])
  {
    if key.None? then Failure(NullArgument(KeyCanNotBeNull))
    else
      match InnerGet(s, key.value, now)
      case None => Success([])
      case Some(d) => Success(d)
  }

  /** `remove(key)`: REMOVED whenever an item was present, expired or not;
      NOT_FOUND only for an absent key. */
  function Remove(s: Store, key: Option<string>, now: int): (r: Result<Update, StoreError>)
    ensures key.None? <==> r.Failure?
    ensures r.Failure? ==> r.error == NullArgument(KeyCanNotBeNull)
    ensures r.Success? ==> r.value.store.Keys == s.Keys - {key.value}
    ensures r.Success? ==> forall k :: k in r.value.store ==> r.value.store[k] == s[k]
    ensures r.Success? ==> (r.value.status == Removed <==> key.value in s)
    ensures r.Success? ==> r.value.status in {Removed, NotFound}
  {
    if key.None? then Failure(NullArgument(KeyCanNotBeNull))
    else
      var u := InnerRemove(s, key.value);
      Success(Update(u.store, if u.previous.Some? then Removed else NotFound))
  }

  /** `clear()`: empties the store and reports CLEARED. */
  function Clear(s: Store): (r: Update)
    ensures |r.store| == 0
    ensures r.status == Cleared
  {
    Update(InnerClear(s), Cleared)
  }

  /** `ExpiredDataCleaner.clearExpiredItems`: iterates the items and removes
      each expired one through `InnerStorage.remove`. */
  method ClearExpiredItems(s: Store, now: int) returns (r: Store)
    ensures IsSweepOf(s, r, now)
  {
    r := s;
    var pending := s.Keys;
    while pending != {}
      invariant pending <= s.Keys
      invariant forall k :: k in r <==> k in s && (k in pending || !IsExpired(s[k], now))
      invariant forall k :: k in r ==> r[k] == s[k]
      decreases pending
    {
      var k :| k in pending;
      if IsExpired(r[k], now) {
        r := InnerRemove(r, k).store;
      }
      pending := pending - {k};
    }
  }

  /** `put` reports ADDED on a fresh key and REPLACED on an existing one, and
      a later `get` returns the newer payload only. */
  lemma PutTwiceThenGet(s: Store, k: string, d1: Bytes, d2: Bytes, now: int)
    requires k !in s && |d1| > 0 && |d2| > 0
    ensures var u1 := Put(s, Some(k), None, Some(d1), now).value;
            var u2 := Put(u1.store, Some(k), None, Some(d2), now).value;
            u1.status == Added && u2.status == Replaced && Get(u2.store, Some(k), now) == Success(d2)
  {
  }

  /** An item whose ttl has run out is still reported REMOVED, and the store
      forgets it. */
  lemma RemoveExpiredReportsRemoved(s: Store, k: string, d: Bytes, t: int, now: int, later: int)
    requires |d| > 0 && now + t < later
    ensures var u := Put(s, Some(k), Some(t), Some(d), now).value;
            Get(u.store, Some(k), later) == Success([])
            && Remove(u.store, Some(k), later).value.status == Removed
            && k !in Remove(u.store, Some(k), later).value.store
  {
  }
}

/** The `DefaultStorage` revision of the store: a map from key to item and a
    sweep that drops expired items. The clock is the explicit `now` argument.
    That `get` hands out a copy of the payload is modelled in
    `PayloadArrays`. */
module DefaultStorage {
  import opened Wrappers
  import opened Protocol
  import opened StorageItems

  /** `put(key, ttl, data)` and `put(key, data)`: `ttl` is `None` for the
      overload without one. */
  function Put(s: Store, key: Option<string>, ttl: Option<int>, data: Option<Bytes>, now: int): (r: Result<Update, StoreError>)
    ensures r.Failure? <==> CheckPutArguments(key, data).Some?
    ensures r.Failure? ==> r.error == CheckPutArguments(key, data).value
    ensures r.Success? ==> r.value.status == (if key.value in s then Replaced else Added)
    ensures r.Success? ==> r.value.store.Keys == s.Keys + {key.value}
    ensures r.Success? ==> r.value.store[key.value] == NewItem(ttl, data.value, now)
    ensures r.Success? ==> forall k :: k in s && k != key.value ==> r.value.store[k] == s[k]
  {
    match CheckPutArguments(key, data)
    case Some(e) => Failure(e)
    case None =>
      var oldItem := if key.value in s then Some(s[key.value]) else None;
      Success(Update(s[key.value := NewItem(ttl, data.value, now)], if oldItem.None? then Added else Replaced))
  }

  /** `get(key)`: the payload of a present, unexpired item, and otherwise the
      empty array that stands for "not found". */
  function Get(s: Store, key: Option<string>, now: int): (r: Result<Bytes, StoreError>)
    ensures key.None? <==> r.Failure?
    ensures r.Failure? ==> r.error == NullArgument(KeyCanNotBeNull)
    ensures key.Some? && key.value in s && !IsExpired(s[key.value], now) ==> r == Success(s[key.value].data)
    ensures key.Some? && (key.value !in s || IsExpired(s[key.value], now)) ==> r == Success([])
  {
    if key.None? then Failure(NullArgument(KeyCanNotBeNull))
    else
      var k := key.value;
      if k !in s || IsExpired(s[k], now) then Success([]) else Success(s[k].data)
  }

  /** `remove(key)`: the key is always unmapped; the status is REMOVED only
      for an item that was present and not expired. */
  function Remove(s: Store, key: Option<string>, now: int): (r: Result<Update, StoreError>)
    ensures key.None? <==> r.Failure?
    ensures r.Failure? ==> r.error == NullArgument(KeyCanNotBeNull)
    ensures r.Success? ==> r.value.store.Keys == s.Keys - {key.value}
    ensures r.Success? ==> forall k :: k in r.value.store ==> r.value.store[k] == s[k]
    ensures r.Success? ==> (r.value.status == Removed <==> key.value in s && !IsExpired(s[key.value], now))
    ensures r.Success? ==> r.value.status in {Removed, NotFound}
  {
    if key.None? then Failure(NullArgument(KeyCanNotBeNull))
    else
      var k := key.value;
      var removed := if k in s then Some(s[k]) else None;
      Success(Update(s - {k}, if removed.Some? && !IsExpired(removed.value, now) then Removed else NotFound))
  }

  /** `clear()`: drops every item and reports CLEARED, also on an empty store. */
  function Clear(s: Store): (r: Update)
    ensures |r.store| == 0
    ensures r.status == Cleared
  {
    Update(map[], Cleared)
  }

  /** `ClearExpiredDataJob.clearExpiredItems`: one pass over the entries that
      removes each expired one. */
  method ClearExpiredItems(s: Store, now: int) returns (r: Store)
    ensures IsSweepOf(s, r, now)
  {
    r := s;
    var pending := s.Keys;
    while pending != {}
      invariant pending <= s.Keys
      invariant forall k :: k in r <==> k in s && (k in pending || !IsExpired(s[k], now))
      invariant forall k :: k in r ==> r[k] == s[k]
      decreases pending
    {
      var k :| k in pending;
      if IsExpired(r[k], now) {
        r := r - {k};
      }
      pending := pending - {k};
    }
  }

  /** Round trip: data put without a ttl is returned by every later `get`. */
  lemma PutThenGet(s: Store, k: string, d: Bytes, now: int, later: int)
    requires |d| > 0
    ensures Put(s, Some(k), None, Some(d), now).Success?
    ensures Get(Put(s, Some(k), None, Some(d), now).value.store, Some(k), later) == Success(d)
  {
  }

  /** Data put with ttl `t` at `now` is visible up to and including `now + t`
      and "not found" afterwards, whether or not a sweep has run. */
  lemma PutWithTtlThenGet(s: Store, k: string, d: Bytes, t: int, now: int, later: int)
    requires |d| > 0
    ensures Put(s, Some(k), Some(t), Some(d), now).Success?
    ensures Get(Put(s, Some(k), Some(t), Some(d), now).value.store, Some(k), later)
         == (if later <= now + t then Success(d) else Success([]))
  {
  }

  /** In a store where every payload is non-empty, an empty `get` result means
      exactly that the key is absent or expired. */
  lemma EmptyMeansNotFound(s: Store, k: string, now: int)
    requires AllNonEmpty(s)
    ensures Get(s, Some(k), now) == Success([]) <==> k !in s || IsExpired(s[k], now)
  {
  }

  /** `put`, `remove` and `clear` keep every stored payload non-empty. */
  lemma OperationsKeepNonEmpty(s: Store, key: Option<string>, ttl: Option<int>, data: Option<Bytes>, now: int)
    requires AllNonEmpty(s)
    ensures Put(s, key, ttl, data, now).Success? ==> AllNonEmpty(Put(s, key, ttl, data, now).value.store)
    ensures Remove(s, key, now).Success? ==> AllNonEmpty(Remove(s, key, now).value.store)
    ensures AllNonEmpty(Clear(s).store)
  {
  }

  /** A sweep at `now` changes no `get` result at `now` or at any later time:
      expired items are already invisible to the read path. */
  lemma SweepInvisibleToGet(s: Store, r: Store, now: int, later: int, k: string)
    requires IsSweepOf(s, r, now)
    requires now <= later
    ensures Get(r, Some(k), later) == Get(s, Some(k), later)
  {
  }

  /** REMOVE of an unknown key reports NOT_FOUND; after a `put` it reports
      REMOVED, and a second REMOVE reports NOT_FOUND again. */
  lemma RemoveSequence(s: Store, k: string, d: Bytes, now: int)
    requires k !in s && |d| > 0
    ensures Remove(s, Some(k), now).value.status == NotFound
    ensures var u := Put(s, Some(k), None, Some(d), now).value;
            var r1 := Remove(u.store, Some(k), now).value;
            r1.status == Removed && Remove(r1.store, Some(k), now).value.status == NotFound
  {
  }

  /** After `clear` every key reads as "not found". */
  lemma ClearThenGet(s: Store, k: string, now: int)
    ensures Get(Clear(s).store, Some(k), now) == Success([])
  {
  }
}

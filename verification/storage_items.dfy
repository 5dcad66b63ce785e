/** What the two store revisions share: the stored item with its absolute
    expiry, the expiry test, and the argument checks of `put`, `get` and
    `remove`. */
module StorageItems {
  import opened Wrappers
  import opened Protocol

  /** One stored entry. `expiry` is an absolute time in milliseconds, or
      `None` for an entry that never expires. */
  datatype Item = Item(data: Bytes, expiry: Option<int>)

  /** The backing map of a store. */
  type Store = map<string, Item>

  /** A store after a mutating operation, with the status the operation
      reports. */
  datatype Update = Update(store: Store, status: Status)

  /** The exceptions the store operations throw on bad arguments. */
  datatype StoreError = NullArgument(message: string) | IllegalArgument(message: string)

  const KeyCanNotBeNull := "key can not be null"
  const DataCanNotBeNull := "data can not be null"
  const DataCanNotBeEmpty := "data can not be empty"

  /** The item a `put` at time `now` creates: the ttl is turned into an
      absolute expiry. Time is unbounded, so `ttl + now` never wraps. */
  function NewItem(ttl: Option<int>, data: Bytes, now: int): (r: Item)
    ensures r.data == data
    ensures r.expiry.None? <==> ttl.None?
    ensures ttl.Some? ==> r.expiry.value - now == ttl.value
  {
    Item(data, if ttl.Some? then Some(ttl.value + now) else None)
  }

  /** An item is expired when its expiry lies strictly before `now`. An item
      without expiry never expires; one with an expiry is still live at the
      expiry instant itself. */
  function IsExpired(item: Item, now: int): (r: bool)
    ensures item.expiry.None? ==> !r
    ensures item.expiry.Some? && now <= item.expiry.value ==> !r
    ensures item.expiry.Some? && item.expiry.value + 1 <= now ==> r
  {
    item.expiry.Some? && item.expiry.value < now
  }

  /** Once expired, an item stays expired at every later time. */
  lemma ExpiredStaysExpired(item: Item, now: int, later: int)
    requires IsExpired(item, now) && now <= later
    ensures IsExpired(item, later)
  {
  }

  /** An item made with ttl `t` at time `n` is expired at `later` exactly when
      `n + t < later`; an item made without a ttl is never expired. */
  lemma ExpiryOfNewItem(ttl: Option<int>, data: Bytes, n: int, later: int)
    ensures IsExpired(NewItem(ttl, data, n), later) <==> ttl.Some? && n + ttl.value < later
  {
  }

  /** A negative ttl gives an item that is already expired when it is made. */
  lemma NegativeTtlExpiresImmediately(ttl: int, data: Bytes, now: int)
    requires ttl < 0
    ensures IsExpired(NewItem(Some(ttl), data, now), now)
  {
  }

  /** The shared argument checks of `putInStorage`: null key, then null data,
      then empty data. `None` means the arguments are acceptable. */
  function CheckPutArguments(key: Option<string>, data: Option<Bytes>): (r: Option<StoreError>)
    ensures r.None? <==> key.Some? && data.Some? && |data.value| > 0
    ensures key.None? ==> r == Some(NullArgument(KeyCanNotBeNull))
    ensures key.Some? && data.None? ==> r == Some(NullArgument(DataCanNotBeNull))
    ensures key.Some? && data.Some? && |data.value| == 0 ==> r == Some(IllegalArgument(DataCanNotBeEmpty))
  {
    if key.None? then Some(NullArgument(KeyCanNotBeNull))
    else if data.None? then Some(NullArgument(DataCanNotBeNull))
    else if |data.value| == 0 then Some(IllegalArgument(DataCanNotBeEmpty))
    else None
  }

  /** Every stored payload is non-empty: `put` refuses empty data, so an empty
      array returned by `get` can only mean "not found". */
  ghost predicate AllNonEmpty(s: Store) {
    forall k :: k in s ==> |s[k].data| > 0
  }

  /** The result of a sweep: exactly the items of `s` not expired at `now`,
      unchanged. */
  ghost predicate IsSweepOf(s: Store, r: Store, now: int) {
    && (forall k :: k in r <==> k in s && !IsExpired(s[k], now))
    && (forall k :: k in r ==> r[k] == s[k])
  }

  /** A sweep keeps every stored payload non-empty. */
  lemma SweepKeepsNonEmpty(s: Store, r: Store, now: int)
    requires AllNonEmpty(s) && IsSweepOf(s, r, now)
    ensures AllNonEmpty(r)
  {
  }

  /** Sweeping twice at the same instant removes nothing the first sweep kept. */
  lemma SweepIdempotent(s: Store, r: Store, r2: Store, now: int)
    requires IsSweepOf(s, r, now) && IsSweepOf(r, r2, now)
    ensures r2 == r
  {
  }
}

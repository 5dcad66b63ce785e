/** Payloads as Java byte arrays with an identity. Both store revisions keep
    the very array the caller passed to `put`; `DefaultStorage.get` hands out
    a new array holding a copy, `DefaultServerStorage.get` the stored array
    itself. A table maps keys to entries that refer to arrays in a heap, and
    `View` turns table and heap into the value-level store the other modules
    work on. */
module PayloadArrays {
  import opened Wrappers
  import opened Protocol
  import opened StorageItems
  import DefaultStorage
  import DefaultServerStorage

  /** The identity of a byte array. */
  type Ref = nat

  /** The byte arrays the store and its callers reach, and the next
      reference the allocator hands out. */
  datatype Arrays = Arrays(arrays: map<Ref, Bytes>, next: Ref)

  /** A heap whose allocated arrays all lie below `next`, so `next` is fresh. */
  type Heap = h: Arrays | forall a :: a in h.arrays ==> a < h.next witness Arrays(map[], 0)

  /** A stored item as the Java `StorageItem` holds it: a reference to the
      payload array and the absolute expiry. */
  datatype Entry = Entry(payload: Ref, expiry: Option<int>)

  /** The backing map of a store, keyed as `Store` is. */
  type Table = map<string, Entry>

  /** An array returned by `get`, with the heap after the call. */
  datatype Got = Got(payload: Ref, heap: Heap)

  /** Every entry refers to an allocated array. */
  ghost predicate Valid(t: Table, h: Heap) {
    forall k :: k in t ==> t[k].payload in h.arrays
  }

  /** The bytes of array `a`; an unallocated reference reads as empty. */
  function Contents(h: Heap, a: Ref): Bytes {
    if a in h.arrays then h.arrays[a] else []
  }

  /** The value-level store that table `t` over heap `h` stands for. */
  function View(t: Table, h: Heap): (s: Store)
    ensures s.Keys == t.Keys
    ensures forall k :: k in t ==> s[k] == Item(Contents(h, t[k].payload), t[k].expiry)
  {
    map k | k in t :: Item(Contents(h, t[k].payload), t[k].expiry)
  }

  /** A new array holding `d`, as `new byte[0]` and `Arrays.copyOf` make. */
  function Allocate(h: Heap, d: Bytes): (r: Got)
    ensures r.payload !in h.arrays
    ensures Contents(r.heap, r.payload) == d
    ensures forall a :: a in h.arrays ==> a in r.heap.arrays && Contents(r.heap, a) == Contents(h, a)
    ensures forall a :: a in r.heap.arrays ==> a in h.arrays || a == r.payload
  {
    Got(h.next, Arrays(h.arrays[h.next := d], h.next + 1))
  }

  /** The caller writes byte `b` at index `i` of array `a`. */
  function Write(h: Heap, a: Ref, i: int, b: JByte): (r: Heap)
    requires a in h.arrays && 0 <= i < |h.arrays[a]|
    ensures r.arrays.Keys == h.arrays.Keys && r.next == h.next
    ensures Contents(r, a) == Contents(h, a)[i := b]
    ensures forall other :: other != a ==> Contents(r, other) == Contents(h, other)
  {
    h.(arrays := h.arrays[a := h.arrays[a][i := b]])
  }

  /** `put(key, ttl, data)` in either revision: the argument checks of
      `putInStorage`, then an entry that refers to the caller's own array
      `data`. */
  function Put(t: Table, h: Heap, key: Option<string>, ttl: Option<int>, data: Option<Ref>, now: int): (r: Result<Table, StoreError>)
    ensures r.Failure? <==> CheckPutArguments(key, if data.Some? then Some(Contents(h, data.value)) else None).Some?
    ensures r.Success? ==> r.value == t[key.value := Entry(data.value, NewItem(ttl, Contents(h, data.value), now).expiry)]
  {
    var bytes := if data.Some? then Some(Contents(h, data.value)) else None;
    match CheckPutArguments(key, bytes)
    case Some(e) => Failure(e)
    case None => Success(t[key.value := Entry(data.value, NewItem(ttl, bytes.value, now).expiry)])
  }

  /** Whether `get(k)` finds a present, unexpired item. */
  predicate Visible(t: Table, k: string, now: int) {
    k in t && !(t[k].expiry.Some? && t[k].expiry.value < now)
  }

  /** `DefaultStorage.get(key)`: a new array, empty for a missing or expired
      item and a copy of the stored payload otherwise (`getData`). */
  function DefaultGet(t: Table, h: Heap, key: Option<string>, now: int): (r: Result<Got, StoreError>)
    ensures key.None? <==> r.Failure?
    ensures r.Failure? ==> r.error == NullArgument(KeyCanNotBeNull)
    ensures r.Success? ==> r.value.payload !in h.arrays
  {
    if key.None? then Failure(NullArgument(KeyCanNotBeNull))
    else if !Visible(t, key.value, now) then Success(Allocate(h, []))
    else Success(Allocate(h, Contents(h, t[key.value].payload)))
  }

  /** `DefaultServerStorage.get(key)`: a new empty array when
      `InnerStorage.get` finds nothing, and the stored array itself
      otherwise. */
  function ServerGet(t: Table, h: Heap, key: Option<string>, now: int): (r: Result<Got, StoreError>)
    ensures key.None? <==> r.Failure?
    ensures r.Failure? ==> r.error == NullArgument(KeyCanNotBeNull)
    ensures key.Some? && Visible(t, key.value, now) ==> r.value == Got(t[key.value].payload, h)
  {
    if key.None? then Failure(NullArgument(KeyCanNotBeNull))
    else if !Visible(t, key.value, now) then Success(Allocate(h, []))
    else Success(Got(t[key.value].payload, h))
  }

  /** Writing an array no entry refers to leaves the view unchanged. */
  lemma {:induction false} WriteElsewhere(t: Table, h: Heap, a: Ref, i: int, b: JByte)
    requires a in h.arrays && 0 <= i < |h.arrays[a]|
    requires forall k :: k in t ==> t[k].payload != a
    ensures View(t, Write(h, a, i, b)) == View(t, h)
  {
    var h' := Write(h, a, i, b);
    forall k | k in t
      ensures View(t, h')[k] == View(t, h)[k]
    {
      assert t[k].payload != a;
    }
  }

  /** Allocating leaves the view of a valid table unchanged and keeps it
      valid. */
  lemma {:induction false} AllocateKeepsView(t: Table, h: Heap, d: Bytes)
    requires Valid(t, h)
    ensures View(t, Allocate(h, d).heap) == View(t, h)
    ensures Valid(t, Allocate(h, d).heap)
  {
    var g := Allocate(h, d);
    forall k | k in t
      ensures View(t, g.heap)[k] == View(t, h)[k]
    {
      assert t[k].payload in h.arrays;
    }
  }

  /** `put` in the heap model is `put` of both value-level revisions. */
  lemma PutRefines(t: Table, h: Heap, key: Option<string>, ttl: Option<int>, data: Option<Ref>, now: int)
    requires data.Some? ==> data.value in h.arrays
    ensures var bytes := if data.Some? then Some(Contents(h, data.value)) else None;
      var v := DefaultStorage.Put(View(t, h), key, ttl, bytes, now);
      && v == DefaultServerStorage.Put(View(t, h), key, ttl, bytes, now)
      && (Put(t, h, key, ttl, data, now).Failure? <==> v.Failure?)
      && (v.Success? ==> View(Put(t, h, key, ttl, data, now).value, h) == v.value.store)
    ensures Valid(t, h) && Put(t, h, key, ttl, data, now).Success? ==> Valid(Put(t, h, key, ttl, data, now).value, h)
  {
  }

  /** `DefaultStorage.get` in the heap model returns the bytes the
      value-level `get` returns, and changes no stored payload. */
  lemma {:induction false} DefaultGetRefines(t: Table, h: Heap, key: Option<string>, now: int)
    requires Valid(t, h)
    ensures var r := DefaultGet(t, h, key, now);
      && (r.Failure? <==> DefaultStorage.Get(View(t, h), key, now).Failure?)
      && (r.Success? ==> Contents(r.value.heap, r.value.payload) == DefaultStorage.Get(View(t, h), key, now).value)
      && (r.Success? ==> View(t, r.value.heap) == View(t, h) && Valid(t, r.value.heap))
  {
    if key.Some? {
      var d := if Visible(t, key.value, now) then Contents(h, t[key.value].payload) else [];
      AllocateKeepsView(t, h, d);
    }
  }

  /** `DefaultServerStorage.get` in the heap model returns the bytes the
      value-level `get` returns, and changes no stored payload. */
  lemma {:induction false} ServerGetRefines(t: Table, h: Heap, key: Option<string>, now: int)
    requires Valid(t, h)
    ensures var r := ServerGet(t, h, key, now);
      && (r.Failure? <==> DefaultServerStorage.Get(View(t, h), key, now).Failure?)
      && (r.Success? ==> Contents(r.value.heap, r.value.payload) == DefaultServerStorage.Get(View(t, h), key, now).value)
      && (r.Success? ==> View(t, r.value.heap) == View(t, h) && Valid(t, r.value.heap))
  {
    if key.Some? && !Visible(t, key.value, now) {
      AllocateKeepsView(t, h, []);
    }
  }

  /** Writing into the array `DefaultStorage.get` returned changes nothing
      in the store: every later `get` sees the bytes it saw before. */
  lemma {:induction false} DefaultGetReturnsCopy(t: Table, h: Heap, k: string, now: int, later: int, i: int, b: JByte)
    requires Valid(t, h)
    requires 0 <= i < |Contents(DefaultGet(t, h, Some(k), now).value.heap, DefaultGet(t, h, Some(k), now).value.payload)|
    ensures var g := DefaultGet(t, h, Some(k), now).value;
      var h' := Write(g.heap, g.payload, i, b);
      && View(t, h') == View(t, h)
      && DefaultStorage.Get(View(t, h'), Some(k), later) == DefaultStorage.Get(View(t, h), Some(k), later)
  {
    var g := DefaultGet(t, h, Some(k), now).value;
    DefaultGetRefines(t, h, Some(k), now);
    forall k' | k' in t
      ensures t[k'].payload != g.payload
    {
      assert t[k'].payload in h.arrays;
    }
    WriteElsewhere(t, g.heap, g.payload, i, b);
  }

  /** Writing into the array `DefaultServerStorage.get` returned for a
      visible item changes the stored payload: the next `get` sees the
      write. */
  lemma {:induction false} ServerGetReturnsStoredArray(t: Table, h: Heap, k: string, now: int, i: int, b: JByte)
    requires Valid(t, h)
    requires Visible(t, k, now)
    requires 0 <= i < |Contents(h, t[k].payload)|
    ensures var g := ServerGet(t, h, Some(k), now).value;
      var h' := Write(g.heap, g.payload, i, b);
      && g.payload == t[k].payload
      && DefaultServerStorage.Get(View(t, h'), Some(k), now)
         == Success(DefaultServerStorage.Get(View(t, h), Some(k), now).value[i := b])
  {
    var g := ServerGet(t, h, Some(k), now).value;
    var h' := Write(g.heap, g.payload, i, b);
    assert View(t, h')[k] == View(t, h)[k].(data := View(t, h)[k].data[i := b]);
  }

  /** In both revisions `put` keeps the caller's array: a write the caller
      makes to it afterwards shows in the next `get`. */
  lemma {:induction false} PutKeepsCallerArray(t: Table, h: Heap, k: string, a: Ref, now: int, i: int, b: JByte)
    requires a in h.arrays && 0 <= i < |h.arrays[a]|
    ensures var t' := Put(t, h, Some(k), None, Some(a), now).value;
      var h' := Write(h, a, i, b);
      && DefaultStorage.Get(View(t', h'), Some(k), now) == Success(h.arrays[a][i := b])
      && DefaultServerStorage.Get(View(t', h'), Some(k), now) == Success(h.arrays[a][i := b])
  {
    var t' := Put(t, h, Some(k), None, Some(a), now).value;
    var h' := Write(h, a, i, b);
    assert View(t', h')[k] == Item(h.arrays[a][i := b], None);
  }
}

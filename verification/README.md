# jmemcached server core in Dafny

A model of the sequential core of the jmemcached server, a memcached-style
key/value cache: the expiring store in its two revisions (`DefaultStorage`
and `DefaultServerStorage`) with their expired-item sweeps, the
chain-of-responsibility command dispatch (`AbstractCommandHandler` and the
Get, Put, Remove, Clear and Unsupported handlers), and the configuration
validation of `DefaultServerConfig`.

Modules, one per concept:

| file | module | models |
|---|---|---|
| wrappers.dfy | `Wrappers` | `Option` (Java null) and `Result` (a value or a thrown exception) |
| protocol.dfy | `Protocol` | commands, statuses, requests and responses; Java `byte` as `JByte` |
| storage_items.dfy | `StorageItems` | the stored item and its absolute expiry, shared by both revisions, and their common `put` argument checks |
| default_storage.dfy | `DefaultStorage` | `DefaultStorage` and `ClearExpiredDataJob.clearExpiredItems` |
| server_storage.dfy | `DefaultServerStorage` | `DefaultServerStorage`, `InnerStorage` and `ExpiredDataCleaner.clearExpiredItems` |
| payload_arrays.dfy | `PayloadArrays` | payloads as byte arrays with an identity: what `put` keeps and what each revision's `get` hands out |
| storage_api.dfy | `StorageApi` | the one store interface the handlers call, bound to either revision, and how the revisions differ |
| handlers.dfy | `CommandHandlers` | handler construction, `add`, each handler's `handle`, and dispatch along a chain |
| int_parse.dfy | `IntParse` | `Integer.parseInt` on decimal strings and the decimal form of an `int` |
| server_config.dfy | `ServerConfig` | property merge, the four bounded getters, the constructor, `buildHandlersChain` |

The clock is an explicit `now: int` argument instead of `DateTimeProvider`.
A store is a `map<string, Item>` where `Item(data, expiry)` holds the payload
and the optional absolute expiry `ttl + now`; an item is expired when its
expiry is strictly before `now`. Java `null` arguments are `None`, and the
exceptions the store and the configuration throw are `Failure` values. Each
handler call returns the outcome, the store afterwards and the list of store
calls it made, so "calls the store exactly once" and "does not touch the
store" are statements about that list.

The two Java `StorageItem` classes (`DefaultStorage.java:135-164` and
`DefaultServerStorage.java:167-192`) are identical apart from `getData`, so
the model defines the item once. The revisions differ in two observable ways.
On an expired but present item, `remove` reports NOT_FOUND in
`DefaultStorage` and REMOVED in `DefaultServerStorage` (`StorageApi`). And
`DefaultStorage.get` hands out a new array holding a copy of the payload,
while `DefaultServerStorage.get` hands out the stored array itself. The
value-level store cannot tell these apart, so `PayloadArrays` keeps payloads
as references into a heap of byte arrays. There, a caller's write to the
returned array reaches the store in one revision and not in the other, and
`View` connects the heap model back to the value-level store.

`DefaultServerConfig` checks each thread count only against 1 and never
compares the maximum with the initial count (`ServerConfig.MaxBelowInitAccepted`).
Only `DefaultStorage.get` copies the payload. Only `DefaultStorage.remove`
reports NOT_FOUND for an expired item.

## Model

| member | source | states |
|---|---|---|
| StorageItems.NewItem | src/main/java/com/revenat/jmemcached/server/domain/impl/DefaultStorage.java:141-146 | the item keeps the payload; it has no expiry exactly when no ttl is given, and otherwise its expiry lies ttl after the creation time |
| StorageItems.IsExpired | src/main/java/com/revenat/jmemcached/server/domain/impl/DefaultStorage.java:148-150 | an item without expiry is never expired; one with an expiry is live up to and including the expiry instant and expired from the next millisecond on |
| StorageItems.ExpiredStaysExpired | src/main/java/com/revenat/jmemcached/server/domain/impl/DefaultStorage.java:148-150 | an item expired at some time is expired at every later time |
| StorageItems.ExpiryOfNewItem | src/main/java/com/revenat/jmemcached/server/domain/impl/DefaultStorage.java:141-150 | an item made with ttl t at time n is expired at a later time exactly when n + t is strictly before it; an item made without a ttl never expires |
| StorageItems.NegativeTtlExpiresImmediately | src/test/java/com/revenat/jmemcached/server/domain/impl/StorageItemTest.java:50-55 | an item made with a negative ttl is already expired at its creation time |
| StorageItems.CheckPutArguments | src/main/java/com/revenat/jmemcached/server/domain/impl/DefaultStorage.java:71-86 | arguments are accepted exactly when key and data are present and data is non-empty; null key, null data and empty data give the null-argument, null-argument and illegal-argument errors with their messages, in that order of precedence |
| StorageItems.SweepKeepsNonEmpty | src/main/java/com/revenat/jmemcached/server/domain/impl/DefaultStorage.java:208-215 | a sweep keeps the invariant that every stored payload is non-empty |
| StorageItems.SweepIdempotent | src/main/java/com/revenat/jmemcached/server/domain/impl/DefaultStorage.java:208-215 | a second sweep at the same instant removes nothing more |
| DefaultStorage.Put | src/main/java/com/revenat/jmemcached/server/domain/impl/DefaultStorage.java:66-91 | fails exactly on bad arguments, with that error; otherwise the key maps to the new item, no other key changes, and the status is ADDED exactly when no item, expired or not, was mapped to the key before |
| DefaultStorage.Get | src/main/java/com/revenat/jmemcached/server/domain/impl/DefaultStorage.java:93-104 | fails exactly on a null key; returns the stored payload of a present, unexpired item and the empty array for an absent or expired one |
| DefaultStorage.Remove | src/main/java/com/revenat/jmemcached/server/domain/impl/DefaultStorage.java:106-114 | fails exactly on a null key; always unmaps the key and nothing else; REMOVED exactly when the item was present and unexpired, NOT_FOUND otherwise |
| DefaultStorage.Clear | src/main/java/com/revenat/jmemcached/server/domain/impl/DefaultStorage.java:116-121 | the store is empty afterwards and the status is CLEARED, also for an empty store |
| DefaultStorage.ClearExpiredItems | src/main/java/com/revenat/jmemcached/server/domain/impl/DefaultStorage.java:208-215 | the pass over the entries keeps exactly the items not expired at `now`, unchanged, and drops exactly the expired ones |
| DefaultStorage.PutThenGet | src/main/java/com/revenat/jmemcached/server/domain/impl/DefaultStorage.java:88-104 | round trip: after `put(k, d)` without ttl, `get(k)` returns `d` at any later time |
| DefaultStorage.PutWithTtlThenGet | src/test/java/com/revenat/jmemcached/server/domain/impl/DefaultServerStorageTest.java:133-146 | after `put(k, t, d)` at `now`, `get(k)` returns `d` up to time `now + t` and the empty array afterwards, without any sweep |
| DefaultStorage.EmptyMeansNotFound | src/main/java/com/revenat/jmemcached/server/domain/Storage.java:43-51 | when every stored payload is non-empty, `get` returns the empty array exactly when the key is absent or expired |
| DefaultStorage.OperationsKeepNonEmpty | src/main/java/com/revenat/jmemcached/server/domain/impl/DefaultStorage.java:82-86 | `put`, `remove` and `clear` keep every stored payload non-empty |
| DefaultStorage.SweepInvisibleToGet | src/main/java/com/revenat/jmemcached/server/domain/impl/DefaultStorage.java:97-101 | a sweep at `now` changes no `get` result at `now` or later, because `get` already treats expired items as absent |
| DefaultStorage.RemoveSequence | src/main/java/com/revenat/jmemcached/server/domain/impl/DefaultStorage.java:106-114 | remove of an unknown key is NOT_FOUND; put then remove is REMOVED; a second remove is NOT_FOUND |
| DefaultStorage.ClearThenGet | src/main/java/com/revenat/jmemcached/server/domain/impl/DefaultStorage.java:116-121 | after `clear` every key reads as not found |
| DefaultServerStorage.InnerPut | src/main/java/com/revenat/jmemcached/server/domain/impl/DefaultServerStorage.java:134-138 | returns the previous payload of the key, expired or not, or none; the key maps to the new item and no other key changes |
| DefaultServerStorage.InnerGet | src/main/java/com/revenat/jmemcached/server/domain/impl/DefaultServerStorage.java:140-143 | returns a payload exactly for a present, unexpired item, and then its stored payload |
| DefaultServerStorage.InnerRemove | src/main/java/com/revenat/jmemcached/server/domain/impl/DefaultServerStorage.java:145-148 | returns the removed payload, expired or not, or none; unmaps the key and leaves every other entry intact |
| DefaultServerStorage.InnerClear | src/main/java/com/revenat/jmemcached/server/domain/impl/DefaultServerStorage.java:150-152 | the map is empty afterwards |
| DefaultServerStorage.Put | src/main/java/com/revenat/jmemcached/server/domain/impl/DefaultServerStorage.java:56-81 | fails exactly on bad arguments; otherwise ADDED exactly when there was no previous payload, REPLACED otherwise, with the key mapped to the new item and other keys unchanged |
| DefaultServerStorage.Get | src/main/java/com/revenat/jmemcached/server/domain/impl/DefaultServerStorage.java:83-94 | fails exactly on a null key; the stored payload for a present, unexpired item, the empty array otherwise |
| DefaultServerStorage.Remove | src/main/java/com/revenat/jmemcached/server/domain/impl/DefaultServerStorage.java:96-104 | fails exactly on a null key; unmaps the key only; REMOVED exactly when an item was present, expired or not |
| DefaultServerStorage.Clear | src/main/java/com/revenat/jmemcached/server/domain/impl/DefaultServerStorage.java:106-111 | the store is empty afterwards and the status is CLEARED |
| DefaultServerStorage.ClearExpiredItems | src/main/java/com/revenat/jmemcached/server/domain/impl/DefaultServerStorage.java:232-239 | removing expired items through `InnerStorage.remove` while iterating keeps exactly the unexpired items, unchanged |
| DefaultServerStorage.PutTwiceThenGet | src/test/java/com/revenat/jmemcached/server/domain/impl/DefaultServerStorageTest.java:48-61 | first put of a key is ADDED, second is REPLACED, and `get` then returns only the second payload |
| DefaultServerStorage.RemoveExpiredReportsRemoved | src/main/java/com/revenat/jmemcached/server/domain/impl/DefaultServerStorage.java:100-101 | an item whose ttl ran out reads as not found, yet `remove` reports REMOVED and unmaps it |
| PayloadArrays.View | src/main/java/com/revenat/jmemcached/server/domain/impl/DefaultStorage.java:135-139 | the value-level store has the same keys as the table, and each item holds the current bytes of its entry's array and the entry's expiry |
| PayloadArrays.Allocate | src/main/java/com/revenat/jmemcached/server/domain/impl/DefaultStorage.java:100 | a new array is a reference not allocated before, holds the given bytes, and leaves every existing array as it was |
| PayloadArrays.Write | src/main/java/com/revenat/jmemcached/server/domain/impl/DefaultStorage.java:152-154 | a caller's write changes one byte of one array and no other array |
| PayloadArrays.Put | src/main/java/com/revenat/jmemcached/server/domain/impl/DefaultStorage.java:71-80 | fails exactly when the argument checks fail on the array's bytes; otherwise the key maps to an entry that refers to the caller's own array |
| PayloadArrays.DefaultGet | src/main/java/com/revenat/jmemcached/server/domain/impl/DefaultStorage.java:93-104 | fails exactly on a null key; every successful call returns an array that was not allocated before |
| PayloadArrays.ServerGet | src/main/java/com/revenat/jmemcached/server/domain/impl/DefaultServerStorage.java:83-94 | fails exactly on a null key; for a present, unexpired item returns the very array the item refers to, with the heap unchanged |
| PayloadArrays.PutRefines | src/main/java/com/revenat/jmemcached/server/domain/impl/DefaultServerStorage.java:56-81 | `put` on the heap model fails exactly when both value-level revisions fail, and otherwise its view is the store they produce; it keeps every entry referring to an allocated array |
| PayloadArrays.DefaultGetRefines | src/main/java/com/revenat/jmemcached/server/domain/impl/DefaultStorage.java:93-104 | the bytes of the array returned are what value-level `DefaultStorage.get` returns, and the call changes no stored payload |
| PayloadArrays.ServerGetRefines | src/main/java/com/revenat/jmemcached/server/domain/impl/DefaultServerStorage.java:83-94 | the bytes of the array returned are what value-level `DefaultServerStorage.get` returns, and the call changes no stored payload |
| PayloadArrays.DefaultGetReturnsCopy | src/main/java/com/revenat/jmemcached/server/domain/impl/DefaultStorage.java:152-154 | a caller's write into the array `DefaultStorage.get` returned leaves the store's view unchanged, so every later `get` returns what it returned before |
| PayloadArrays.ServerGetReturnsStoredArray | src/main/java/com/revenat/jmemcached/server/domain/impl/DefaultServerStorage.java:140-143 | for a visible item, `DefaultServerStorage.get` returns the item's own array, and a caller's write into it shows up in the next `get` of that key |
| PayloadArrays.PutKeepsCallerArray | src/main/java/com/revenat/jmemcached/server/domain/impl/DefaultServerStorage.java:134-138 | in both revisions, a write the caller makes to the array it passed to `put` shows up in the next `get` of that key |
| StorageApi.RevisionsAgreeExceptRemove | src/main/java/com/revenat/jmemcached/server/domain/impl/DefaultServerStorage.java:56-111 | the two revisions give identical results for `put` and `clear` on every input, and `get` returns the same bytes in both |
| StorageApi.RemoveDiffersOnlyOnExpired | src/main/java/com/revenat/jmemcached/server/domain/impl/DefaultServerStorage.java:96-104 | on `remove` the revisions leave the same map, and their statuses differ exactly on an expired but present item: NOT_FOUND in `DefaultStorage`, REMOVED in `DefaultServerStorage` |
| CommandHandlers.NewHandler | src/main/java/com/revenat/jmemcached/server/domain/impl/AbstractCommandHandler.java:18-20 | construction fails exactly for a null store, with "Storage can not be null"; otherwise the handler has no successor |
| CommandHandlers.Add | src/main/java/com/revenat/jmemcached/server/domain/impl/AbstractCommandHandler.java:25-31 | a handler without successor takes the argument as direct successor; one with a successor keeps it and passes the argument on; the chain becomes the old chain followed by the added one |
| CommandHandlers.AddAllAppends | src/main/java/com/revenat/jmemcached/server/domain/impl/AbstractCommandHandler.java:25-31 | after any number of `add` calls with fresh handlers, none already in the chain, the chain is the original handlers followed by the added ones in call order |
| CommandHandlers.GetStep | src/main/java/com/revenat/jmemcached/server/domain/impl/GetCommandHandler.java:23-34 | serves exactly GET, with one `get` call for the request key and no store change; GOTTEN with the payload of a present, unexpired, non-empty item, NOT_FOUND without payload otherwise; a null key propagates the store's error |
| CommandHandlers.PutStep | src/main/java/com/revenat/jmemcached/server/domain/impl/PutCommandHandler.java:23-35 | serves exactly PUT with one `put` call carrying the request's ttl when it has one; responds with ADDED or REPLACED and no payload, leaving the key mapped to the new item, or propagates the store's argument error with the store unchanged |
| CommandHandlers.RemoveStep | src/main/java/com/revenat/jmemcached/server/domain/impl/RemoveCommandHandler.java:23-30 | serves exactly REMOVE with one `remove` call for the request key; responds REMOVED or NOT_FOUND without payload, as the bound store revision decides, with only that key unmapped |
| CommandHandlers.ClearStep | src/main/java/com/revenat/jmemcached/server/domain/impl/ClearCommandHandler.java:23-30 | serves exactly CLEAR with one `clear` call; responds CLEARED without payload and leaves the store empty |
| CommandHandlers.UnsupportedStep | src/main/java/com/revenat/jmemcached/server/domain/impl/UnsupportedCommandHandler.java:23-25 | fails on every request, CLEAR included, with "Unsupported command: " and the command's name, with no store call and no store change |
| CommandHandlers.Step | src/main/java/com/revenat/jmemcached/server/domain/impl/GetCommandHandler.java:24-33 | a handler serves a request exactly when the command is its own, the unsupported handler serving every command, and otherwise it forwards; a serving handler makes at most one store call, and only a PUT, REMOVE or CLEAR call changes the store |
| CommandHandlers.Handle | src/main/java/com/revenat/jmemcached/server/domain/impl/AbstractCommandHandler.java:37-39 | dispatch along a chain makes at most one store call; the store changes only through a PUT, REMOVE or CLEAR call; forwarding past the last handler fails with no store call and no store change |
| CommandHandlers.HandleIsFirstServing | src/main/java/com/revenat/jmemcached/server/domain/impl/AbstractCommandHandler.java:37-39 | dispatch along any chain gives the result of the first handler that serves the command; the handlers before it only forward |
| CommandHandlers.HandleFallsOffEnd | src/main/java/com/revenat/jmemcached/server/domain/impl/GetCommandHandler.java:31-32 | if no handler in the chain serves the command, forwarding reaches a null successor, with no store call and no store change |
| CommandHandlers.EndingInUnsupportedNeverFallsOff | src/main/java/com/revenat/jmemcached/server/domain/impl/UnsupportedCommandHandler.java:10-25 | a chain ending in the unsupported handler never forwards past its end |
| IntParse.SignedDigits | src/main/java/com/revenat/jmemcached/server/domain/impl/DefaultServerConfig.java:140 | accepts exactly the non-empty strings of digits, optionally after a single `+` or `-`, and yields the sign and the digits after it |
| IntParse.ParseInt | src/main/java/com/revenat/jmemcached/server/domain/impl/DefaultServerConfig.java:140 | a string parses exactly when it has the accepted shape and its signed value lies in the 32-bit `int` range, and then it parses to that value |
| IntParse.IntToString | src/main/java/com/revenat/jmemcached/server/domain/impl/DefaultServerConfig.java:105 | the decimal form of an `int` as string concatenation prints it: a leading `-` exactly for negative numbers, then digits without a leading zero unless the number is 0 |
| IntParse.ParseIntToString | src/main/java/com/revenat/jmemcached/server/domain/impl/DefaultServerConfig.java:140 | round trip: the decimal form of every 32-bit integer parses back to that integer |
| IntParse.ParseIntShape | src/main/java/com/revenat/jmemcached/server/domain/impl/DefaultServerConfig.java:140 | a run of digits, leading zeros allowed, parses to its value when that fits in an `int`; a leading `+` changes nothing, and a leading `-` negates within the range |
| IntParse.ParseIntRejectsBareSign | src/main/java/com/revenat/jmemcached/server/domain/impl/DefaultServerConfig.java:140 | the empty string and a sign alone are rejected |
| IntParse.ParseIntOutOfRange | src/main/java/com/revenat/jmemcached/server/domain/impl/DefaultServerConfig.java:140 | the decimal form of an integer outside the 32-bit range is rejected |
| ServerConfig.BoundMessage | src/main/java/com/revenat/jmemcached/server/domain/impl/DefaultServerConfig.java:104-105 | a range message starts with the property name and ends with the rejected value |
| ServerConfig.NotANumberMessage | src/main/java/com/revenat/jmemcached/server/domain/impl/DefaultServerConfig.java:144 | a "should be a number" message starts with the property name and ends with the raw value, or "null" when the property is missing |
| ServerConfig.BoundMessagesAsPrinted | src/main/java/com/revenat/jmemcached/server/domain/impl/DefaultServerConfig.java:100-135 | the range messages of the four getters are exactly "… should be >= 1000 millis: ", "… should be between 0 and 65535: " and "… should be >= 1: " followed by the value |
| ServerConfig.ParsedValue | src/main/java/com/revenat/jmemcached/server/domain/impl/DefaultServerConfig.java:138-140 | a property has a parsed value exactly when it is present and parses, and then the value is the parse result |
| ServerConfig.MergeProperties | src/main/java/com/revenat/jmemcached/server/domain/impl/DefaultServerConfig.java:47-50 | overrides win over loaded values, loaded keys absent from the overrides keep their values, and no overrides leaves the loaded properties as they are |
| ServerConfig.GetProperty | src/main/java/com/revenat/jmemcached/server/domain/impl/DefaultServerConfig.java:137-146 | succeeds exactly when the value is present, parses and passes the range check, and then returns the parsed number; a missing or non-numeric value gives "should be a number", a failed range check the checker's message |
| ServerConfig.ClearDataInterval | src/main/java/com/revenat/jmemcached/server/domain/impl/DefaultServerConfig.java:100-108 | accepted exactly when the value parses and is at least 1000, then returns it |
| ServerConfig.ServerPort | src/main/java/com/revenat/jmemcached/server/domain/impl/DefaultServerConfig.java:110-117 | accepted exactly when the value parses and is in [0, 65535], then returns it |
| ServerConfig.InitThreadCount | src/main/java/com/revenat/jmemcached/server/domain/impl/DefaultServerConfig.java:119-126 | accepted exactly when the value parses and is at least 1, then returns it |
| ServerConfig.MaxThreadCount | src/main/java/com/revenat/jmemcached/server/domain/impl/DefaultServerConfig.java:128-135 | accepted exactly when the value parses and is at least 1, then returns it |
| ServerConfig.BuildHandlersChain | src/main/java/com/revenat/jmemcached/server/domain/impl/DefaultServerConfig.java:58-67 | the built chain is Get, Put, Remove, Clear, Unsupported, in that order, all over the same store |
| ServerConfig.BuiltChainDispatch | src/main/java/com/revenat/jmemcached/server/domain/impl/DefaultServerConfig.java:58-67 | the built chain sends GET, PUT, REMOVE and CLEAR each to its own handler's store operation and every other command to the unsupported-command failure |
| ServerConfig.NewServerConfig | src/main/java/com/revenat/jmemcached/server/domain/impl/DefaultServerConfig.java:45-71 | construction succeeds exactly when the merged clear-data interval is valid, keeps the merged properties and builds the five-handler chain over a `DefaultStorage` |
| ServerConfig.PortAcceptedIffInRange | src/main/java/com/revenat/jmemcached/server/domain/impl/DefaultServerConfig.java:111-117 | a port written in decimal is accepted exactly when in [0, 65535] and read back unchanged, and otherwise fails with "should be between 0 and 65535" and the value |
| ServerConfig.MaxBelowInitAccepted | src/main/java/com/revenat/jmemcached/server/domain/impl/DefaultServerConfig.java:119-135 | init and max thread counts are checked independently: max 2 with init 10 is accepted |
| ServerConfig.ValidPropertiesRead | src/test/java/com/revenat/jmemcached/server/domain/impl/DefaultServerConfigTest.java:87-122 | the test properties read back as port 5555, init 1, max 10, interval 10000, and a port override of 10000 wins |
| ServerConfig.NonNumericPortRejected | src/test/java/com/revenat/jmemcached/server/domain/impl/DefaultServerConfigTest.java:189-197 | a port of "kkk" fails with "jmemcached.server.port should be a number: kkk" |
| ServerConfig.MissingPortRejected | src/main/java/com/revenat/jmemcached/server/domain/impl/DefaultServerConfig.java:137-146 | a missing port fails with the "should be a number" message naming the value "null" |
| ServerConfig.ShortIntervalRejected | src/test/java/com/revenat/jmemcached/server/domain/impl/DefaultServerConfigTest.java:179-187 | an override interval of 10 makes construction fail with "jmemcached.storage.clear.data.interval should be >= 1000 millis: 10" |

## Left out

- The background threads: executor and thread-factory creation, daemon and priority settings, the sleep/interrupt loops of `ClearExpiredDataJob.run` and `ExpiredDataCleaner.run`, and `close()`. Only one sweep step, `clearExpiredItems`, is modelled; scheduling is concurrency, not sequential behaviour.
- Thread safety of `ConcurrentHashMap` and races between `clear` and concurrent `put`s: the model is sequential.
- Time is an unbounded integer, so `ttl + now` never wraps as a Java `long` would (`StorageItems.NewItem`); the wrap needs ttl values near 2^63 and is not part of the intended behaviour.
- Array identity lives only in `PayloadArrays`; the value-level stores, the handlers and the configuration work on payload contents. So the model does not follow a `GOTTEN` response's payload array back into a `DefaultServerStorage` store.
- CommandHandlers.AddAllAppends: assumes every handler passed to `add` is a new object that is not already in the chain. In Java, `add` on mutable references can link a handler to itself, e.g. `h.add(x); h.add(x)` makes `x` its own successor, and dispatch would then loop. `CommandHandlers.Add` rests on the same assumption, because a chain here is a finite value.
- The wire codec (`RequestConverter`, `ResponseConverter`) and the `Command` enum are not part of this model; `Command.Other` stands for any command other than the four served ones.
- `IntParse.ParseInt` accepts ASCII digits only; `Integer.parseInt` also accepts other Unicode decimal digits.
- `java.util.Properties` defaults tables are flattened into one map, and non-string property values are not modelled.
- `DefaultServer`, `ServerTask`, the connection and socket handlers, `DefaultRequestProcessor`, `DefaultServerConnectionManager`, their factories, `getWorkerThreadFactory`, `createWorkerThreadPool`, `buildServerConnectionManager` and `buildNewClientConnectionHandler`: socket I/O, thread pools and object wiring.
- `ClassPathResourceLoader`, `CLI`, `ServiceWrapper`, `JMemcachedServerFactory`, `DefaultServerContext`: resource loading, process entry points and wiring; loaded properties are an argument of `ServerConfig.NewServerConfig`.
- The older interfaces directly under `com/revenat/jmemcached/server/`: superseded revisions.
- `toString`, logging and `DateTimeProvider.getDateTimeFrom`: presentation only.
- `InnerStorage.iterator` and `AbstractCommandHandler.getStorage`: accessors; the sweep iterates the key set of the map instead.

/** The chain of responsibility that turns a request into a store call and a
    response: `AbstractCommandHandler` and the Get, Put, Remove, Clear and
    Unsupported handlers. Each handler either serves the request against its
    store or passes it, unchanged, to the next handler in the chain. */
module CommandHandlers {
  import opened Wrappers
  import opened Protocol
  import opened StorageItems
  import StorageApi

  datatype HandlerKind = GetHandler | PutHandler | RemoveHandler | ClearHandler | UnsupportedHandler

  /** A handler object: its class and the store it was constructed with. */
  datatype Handler = Handler(kind: HandlerKind, storage: StorageApi.Revision)

  /** A handler with its `nextInChain` link (`None` is Java null). */
  datatype Node = Node(handler: Handler, next: Option<Node>)

  /** The constructor's failure on a null store. */
  datatype HandlerError = NullStorage(message: string)

  const StorageCanNotBeNull := "Storage can not be null"

  /** Why handling a request produced no response. */
  datatype DispatchError =
    | StoreFailed(error: StoreError)      // the store threw on a bad argument
    | UnsupportedCommand(message: string) // `UnsupportedCommandHandler` threw
    | NoSuccessor                         // a handler forwarded to a null `nextInChain`

  datatype Outcome = Responded(response: Response) | Failed(error: DispatchError)

  /** A call made on the store. A `PutCall` without a ttl is the two-argument
      `put(key, data)`. */
  datatype StoreCall =
    | GetCall(key: Option<string>)
    | PutCall(key: Option<string>, ttl: Option<int>, data: Option<Bytes>)
    | RemoveCall(key: Option<string>)
    | ClearCall

  /** The result of handling a request: the outcome, the store afterwards and
      the store calls made, in order. */
  datatype Handled = Handled(outcome: Outcome, store: Store, calls: seq<StoreCall>)

  /** A handler constructor: refuses a null store, and makes a handler with no
      successor. */
  function NewHandler(kind: HandlerKind, storage: Option<StorageApi.Revision>): (r: Result<Node, HandlerError>)
    ensures r.Success? <==> storage.Some?
    ensures r.Failure? ==> r.error == NullStorage(StorageCanNotBeNull)
    ensures r.Success? ==> r.value.handler == Handler(kind, storage.value) && r.value.next.None?
  {
    if storage.None? then Failure(NullStorage(StorageCanNotBeNull))
    else Success(Node(Handler(kind, storage.value), None))
  }

  /** The handlers of a chain, starting with `n` and following the links. */
  function Handlers(n: Node): (r: seq<Handler>)
    decreases n
  {
    [n.handler] + (if n.next.None? then [] else Handlers(n.next.value))
  }

  /** `add(next)`: becomes the direct successor of a handler that has none, and
      is otherwise passed along to the existing successor. */
  function Add(n: Node, next: Node): (r: Node)
    decreases n
    ensures r.handler == n.handler
    ensures n.next.None? ==> r.next == Some(next)
    ensures n.next.Some? ==> r.next.Some? && r.next.value.handler == n.next.value.handler
    ensures Handlers(r) == Handlers(n) + Handlers(next)
  {
    match n.next
    case None => Node(n.handler, Some(next))
    case Some(successor) => Node(n.handler, Some(Add(successor, next)))
  }

  /** `add` called with each of `added`, in order. */
  function AddAll(n: Node, added: seq<Node>): Node
    decreases |added|
  {
    if |added| == 0 then n else AddAll(Add(n, added[0]), added[1..])
  }

  /** The handlers of several chains, one after another. */
  function ConcatHandlers(chains: seq<Node>): seq<Handler>
    decreases |chains|
  {
    if |chains| == 0 then [] else Handlers(chains[0]) + ConcatHandlers(chains[1..])
  }

  /** After a sequence of `add` calls the chain is the original handlers
      followed by the added ones in call order. */
  lemma {:induction false} AddAllAppends(n: Node, added: seq<Node>)
    ensures Handlers(AddAll(n, added)) == Handlers(n) + ConcatHandlers(added)
    decreases |added|
  {
    if |added| > 0 {
      AddAllAppends(Add(n, added[0]), added[1..]);
    }
  }

  /** Whether a handler of this kind serves a command instead of forwarding it;
      the unsupported handler takes every command. */
  predicate Serves(kind: HandlerKind, c: Command) {
    match kind
    case GetHandler => c == Get
    case PutHandler => c == Put
    case RemoveHandler => c == Remove
    case ClearHandler => c == Clear
    case UnsupportedHandler => true
  }

  /** `GetCommandHandler.handle`, `None` meaning "forward to the next handler". */
  function GetStep(rev: StorageApi.Revision, req: Request, s: Store, now: int): (r: Option<Handled>)
    ensures r.None? <==> req.command != Get
    ensures r.Some? ==> r.value.calls == [GetCall(req.key)] && r.value.store == s
    ensures r.Some? && req.key.None? ==> r.value.outcome == Failed(StoreFailed(NullArgument(KeyCanNotBeNull)))
    ensures r.Some? && req.key.Some? ==>
      var k := req.key.value;
      if k in s && !IsExpired(s[k], now) && |s[k].data| > 0
      then r.value.outcome == Responded(Response(Gotten, Some(s[k].data)))
      else r.value.outcome == Responded(EmptyResponse(NotFound))
  {
    if req.command != Get then None
    else
      var outcome :=
        match StorageApi.Get(rev, s, req.key, now)
        case Failure(e) => Failed(StoreFailed(e))
        case Success(data) =>
          if |data| == 0 then Responded(EmptyResponse(NotFound))
          else Responded(Response(Gotten, Some(data)));
      Some(Handled(outcome, s, [GetCall(req.key)]))
  }

  /** `PutCommandHandler.handle`: `put(key, ttl, data)` when the request has a
      ttl, `put(key, data)` otherwise; the response carries the store's status
      and no payload. */
  function PutStep(rev: StorageApi.Revision, req: Request, s: Store, now: int): (r: Option<Handled>)
    ensures r.None? <==> req.command != Put
    ensures r.Some? ==> r.value.calls == [PutCall(req.key, req.ttl, req.data)]
    ensures r.Some? && CheckPutArguments(req.key, req.data).Some? ==>
      r.value.outcome == Failed(StoreFailed(CheckPutArguments(req.key, req.data).value)) && r.value.store == s
    ensures r.Some? && CheckPutArguments(req.key, req.data).None? ==>
      && r.value.outcome == Responded(EmptyResponse(if req.key.value in s then Replaced else Added))
      && r.value.store.Keys == s.Keys + {req.key.value}
      && r.value.store[req.key.value] == NewItem(req.ttl, req.data.value, now)
      && (forall k :: k in s && k != req.key.value ==> r.value.store[k] == s[k])
  {
    if req.command != Put then None
    else
      var result :=
        if req.ttl.Some? then StorageApi.Put(rev, s, req.key, req.ttl, req.data, now)
        else StorageApi.Put(rev, s, req.key, None, req.data, now);
      match result
      case Failure(e) => Some(Handled(Failed(StoreFailed(e)), s, [PutCall(req.key, req.ttl, req.data)]))
      case Success(u) => Some(Handled(Responded(EmptyResponse(u.status)), u.store, [PutCall(req.key, req.ttl, req.data)]))
  }

  /** `RemoveCommandHandler.handle`: the response carries the store's status
      and no payload; which status an expired item gets depends on the store
      revision. */
  function RemoveStep(rev: StorageApi.Revision, req: Request, s: Store, now: int): (r: Option<Handled>)
    ensures r.None? <==> req.command != Remove
    ensures r.Some? ==> r.value.calls == [RemoveCall(req.key)]
    ensures r.Some? && req.key.None? ==>
      r.value.outcome == Failed(StoreFailed(NullArgument(KeyCanNotBeNull))) && r.value.store == s
    ensures r.Some? && req.key.Some? ==>
      var k := req.key.value;
      && r.value.store.Keys == s.Keys - {k}
      && (forall k' :: k' in r.value.store ==> r.value.store[k'] == s[k'])
      && r.value.outcome.Responded?
      && r.value.outcome.response.data.None?
      && r.value.outcome.response.status in {Removed, NotFound}
      && (rev.DefaultStorageRevision? ==>
            (r.value.outcome.response.status == Removed <==> k in s && !IsExpired(s[k], now)))
      && (rev.ServerStorageRevision? ==> (r.value.outcome.response.status == Removed <==> k in s))
  {
    if req.command != Remove then None
    else
      match StorageApi.Remove(rev, s, req.key, now)
      case Failure(e) => Some(Handled(Failed(StoreFailed(e)), s, [RemoveCall(req.key)]))
      case Success(u) => Some(Handled(Responded(EmptyResponse(u.status)), u.store, [RemoveCall(req.key)]))
  }

  /** `ClearCommandHandler.handle`: empties the store and responds CLEARED
      without a payload. */
  function ClearStep(rev: StorageApi.Revision, req: Request, s: Store): (r: Option<Handled>)
    ensures r.None? <==> req.command != Clear
    ensures r.Some? ==> r.value.calls == [ClearCall]
    ensures r.Some? ==> |r.value.store| == 0 && r.value.outcome == Responded(EmptyResponse(Cleared))
  {
    if req.command != Clear then None
    else
      var u := StorageApi.Clear(rev, s);
      Some(Handled(Responded(EmptyResponse(u.status)), u.store, [ClearCall]))
  }

  /** The message `UnsupportedCommandHandler` fails with. */
  function UnsupportedMessage(c: Command): string {
    "Unsupported command: " + CommandName(c)
  }

  /** `UnsupportedCommandHandler.handle`: fails on every request, touching
      neither the store nor a successor. */
  function UnsupportedStep(req: Request, s: Store): (r: Option<Handled>)
    ensures r.Some?
    ensures r.value.outcome.Failed? && r.value.outcome.error == UnsupportedCommand(UnsupportedMessage(req.command))
    ensures r.value.store == s && r.value.calls == []
  {
    Some(Handled(Failed(UnsupportedCommand(UnsupportedMessage(req.command))), s, []))
  }

  /** One handler's `handle`, `None` meaning it forwards the request. */
  function Step(h: Handler, req: Request, s: Store, now: int): (r: Option<Handled>)
    ensures r.Some? <==> Serves(h.kind, req.command)
    ensures r.Some? ==> |r.value.calls| <= 1
    ensures r.Some? && r.value.store != s ==> |r.value.calls| == 1 && !r.value.calls[0].GetCall?
  {
    match h.kind
    case GetHandler => GetStep(h.storage, req, s, now)
    case PutHandler => PutStep(h.storage, req, s, now)
    case RemoveHandler => RemoveStep(h.storage, req, s, now)
    case ClearHandler => ClearStep(h.storage, req, s)
    case UnsupportedHandler => UnsupportedStep(req, s)
  }

  /** `handle` on the first handler of a chain: each handler serves or calls
      `getNextInChain().handle(request)`; forwarding past the end of the chain
      dereferences null. A request makes at most one store call, and only a
      PUT, REMOVE or CLEAR call changes the store. */
  function Handle(n: Node, req: Request, s: Store, now: int): (r: Handled)
    ensures |r.calls| <= 1
    ensures r.store != s ==> |r.calls| == 1 && !r.calls[0].GetCall?
    ensures r.outcome == Failed(NoSuccessor) ==> r.store == s && r.calls == []
    decreases n
  {
    match Step(n.handler, req, s, now)
    case Some(h) => h
    case None =>
      match n.next
      case None => Handled(Failed(NoSuccessor), s, [])
      case Some(successor) => Handle(successor, req, s, now)
  }

  /** The first handler in the chain that serves the command decides the
      result; the handlers before it only forward. */
  lemma {:induction false} HandleIsFirstServing(n: Node, req: Request, s: Store, now: int, i: nat)
    requires i < |Handlers(n)|
    requires Serves(Handlers(n)[i].kind, req.command)
    requires forall j :: 0 <= j < i ==> !Serves(Handlers(n)[j].kind, req.command)
    ensures Step(Handlers(n)[i], req, s, now).Some?
    ensures Handle(n, req, s, now) == Step(Handlers(n)[i], req, s, now).value
    decreases n
  {
    if i == 0 {
    } else {
      assert !Serves(Handlers(n)[0].kind, req.command);
      var successor := n.next.value;
      assert Handlers(n)[1..] == Handlers(successor);
      forall j | 0 <= j < i - 1
        ensures !Serves(Handlers(successor)[j].kind, req.command)
      {
        assert Handlers(successor)[j] == Handlers(n)[j + 1];
      }
      HandleIsFirstServing(successor, req, s, now, i - 1);
    }
  }

  /** A chain with no handler serving the command fails with a null successor
      and makes no store call. */
  lemma {:induction false} HandleFallsOffEnd(n: Node, req: Request, s: Store, now: int)
    requires forall j :: 0 <= j < |Handlers(n)| ==> !Serves(Handlers(n)[j].kind, req.command)
    ensures Handle(n, req, s, now) == Handled(Failed(NoSuccessor), s, [])
    decreases n
  {
    assert !Serves(Handlers(n)[0].kind, req.command);
    if n.next.Some? {
      var successor := n.next.value;
      assert Handlers(n)[1..] == Handlers(successor);
      forall j | 0 <= j < |Handlers(successor)|
        ensures !Serves(Handlers(successor)[j].kind, req.command)
      {
        assert Handlers(successor)[j] == Handlers(n)[j + 1];
      }
      HandleFallsOffEnd(successor, req, s, now);
    }
  }

  /** A chain whose last handler is the unsupported handler never forwards
      past its end: every request gets a response or a handler's own failure. */
  lemma {:induction false} EndingInUnsupportedNeverFallsOff(n: Node, req: Request, s: Store, now: int)
    requires Handlers(n)[|Handlers(n)| - 1].kind == UnsupportedHandler
    ensures Handle(n, req, s, now).outcome != Failed(NoSuccessor)
    decreases n
  {
    match n.next
    case None =>
      assert Handlers(n) == [n.handler];
    case Some(successor) =>
      assert Handlers(n) == [n.handler] + Handlers(successor);
      if !Serves(n.handler.kind, req.command) {
        EndingInUnsupportedNeverFallsOff(successor, req, s, now);
      }
  }
}

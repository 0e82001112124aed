/**
 One WebSocket per server carries both the replies of synchronous requests and the Janus events.
 While a request waits, events that arrive are put aside; the pump dispatches them later, and a
 dispatched event's callbacks may themselves make requests.

 The socket is a script of poll outcomes.  `taken` and `dispatched` record what was read from it
 and what was handed to the callbacks.
 */
module WsMux {
  import opened Bytes

  // ---------------------------------------------------------------- frames and requests

  /** A parsed text frame: its `transaction` and `janus` members where they are strings. */
  datatype Msg = Msg(serial: nat, transaction: Option<bytes>, janus: Option<bytes>)

  /** A frame that is no text, or a text that is no JSON, is read and dropped. */
  datatype Frame = Parsed(msg: Msg) | Ignored

  /** What polling the socket finds: a frame to read, nothing, or a failure. */
  datatype Poll = Ready(frame: Frame) | Quiet | Broken

  /** A synchronous request: whether it could be written, and how many waits fit its deadline. */
  datatype Request = Request(transaction: bytes, written: bool, waits: nat)

  /** "success", "ack", "error" */
  const REPLY_TYPES: set<bytes> :=
    {[115, 117, 99, 99, 101, 115, 115], [97, 99, 107], [101, 114, 114, 111, 114]}

  predicate IsReply(m: Msg, transaction: bytes) {
    m.transaction == Some(transaction) && m.janus.Some? && m.janus.value in REPLY_TYPES
  }

  /** How a parsed frame was taken: as the reply in flight, straight to the callbacks, or aside. */
  datatype Read = Reply(msg: Msg, transaction: bytes) | Direct(msg: Msg) | Aside(msg: Msg)

  datatype Dispatch = Dispatch(msg: Msg, direct: bool)

  /** `inFlight` is the part of the list a flush has detached and not yet dispatched. */
  datatype Ws = Ws(
    transaction: Option<bytes>, result: Option<Msg>, deferred: seq<Msg>, inFlight: seq<Msg>,
    input: seq<Poll>, taken: seq<Read>, dispatched: seq<Dispatch>)

  // ---------------------------------------------------------------- requests

  function Pop(ws: Ws): (ws': Ws)
    requires ws.input != []
  {
    ws.(input := ws.input[1..])
  }

  /** One frame read while a request waits: `janus_ws_match_rpc_reply`, else set aside. */
  function TakeAside(ws: Ws, f: Frame): (ws': Ws)
  {
    match f
    case Ignored => ws
    case Parsed(m) =>
      if ws.transaction.Some? && IsReply(m, ws.transaction.value) then
        ws.(result := Some(m), taken := ws.taken + [Reply(m, ws.transaction.value)])
      else
        ws.(deferred := ws.deferred + [m], taken := ws.taken + [Aside(m)])
  }

  /** `janus_ws_drain` without callbacks: every frame available now, and whether the socket held. */
  function DrainAside(ws: Ws): (r: (Ws, bool))
    ensures |r.0.input| <= |ws.input|
    ensures ws.input != [] ==> |r.0.input| < |ws.input|
    ensures r.0 == ws.(result := r.0.result, deferred := r.0.deferred, input := r.0.input, taken := r.0.taken)
    decreases |ws.input|
  {
    if ws.input == [] then (ws, true)
    else
      match ws.input[0]
      case Quiet => (Pop(ws), true)
      case Broken => (Pop(ws), false)
      case Ready(f) => DrainAside(TakeAside(Pop(ws), f))
  }

  /** The wait loop of `janus_ws_rpc_json`. */
  function Wait(ws: Ws, waits: nat): (r: Ws)
    ensures |r.input| <= |ws.input|
    ensures r == ws.(result := r.result, deferred := r.deferred, input := r.input, taken := r.taken)
    decreases waits
  {
    if ws.result.Some? || waits == 0 then ws
    else if ws.input == [] then Wait(ws, waits - 1)
    else
      match ws.input[0]
      case Quiet => Wait(Pop(ws), waits - 1)
      case Broken => Pop(ws)
      case Ready(_) =>
        var (w, ok) := DrainAside(ws);
        if ok then Wait(w, waits - 1) else w
  }

  /** `janus_ws_rpc_json`: one request in flight at a time. */
  function Rpc(ws: Ws, q: Request): (r: (Ws, Option<Msg>))
    requires ws.transaction.None?
    ensures |r.0.input| <= |ws.input|
    ensures r.0 == ws.(result := r.0.result, deferred := r.0.deferred, input := r.0.input, taken := r.0.taken)
  {
    if !q.written then (ws, None)
    else
      var w := Wait(ws.(transaction := Some(q.transaction), result := None), q.waits);
      (w.(transaction := None, result := None), w.result)
  }

  function Rpcs(ws: Ws, qs: seq<Request>): (r: Ws)
    requires ws.transaction.None?
    ensures |r.input| <= |ws.input|
    ensures r == ws.(result := r.result, deferred := r.deferred, input := r.input, taken := r.taken)
    decreases |qs|
  {
    if qs == [] then ws else Rpcs(Rpc(ws, qs[0]).0, qs[1..])
  }

  // ---------------------------------------------------------------- the pump

  /** `janus_ws_dispatch_event`: the callbacks may make requests of their own. */
  function DispatchEvent(ws: Ws, d: Dispatch, handler: Msg -> seq<Request>): (r: Ws)
    requires ws.transaction.None?
    ensures |r.input| <= |ws.input| && r.transaction.None? && r.inFlight == ws.inFlight
    ensures r.dispatched == ws.dispatched + [d]
  {
    Rpcs(ws.(dispatched := ws.dispatched + [d]), handler(d.msg))
  }

  /** The rest of `janus_ws_flush_deferred`, after it has detached the list. */
  function FlushRest(ws: Ws, handler: Msg -> seq<Request>): (r: Ws)
    requires ws.transaction.None?
    ensures |r.input| <= |ws.input| && r.transaction.None? && r.inFlight == []
    decreases |ws.inFlight|
  {
    if ws.inFlight == [] then ws
    else
      FlushRest(DispatchEvent(ws.(inFlight := ws.inFlight[1..]), Dispatch(ws.inFlight[0], false), handler), handler)
  }

  function Flush(ws: Ws, handler: Msg -> seq<Request>): (r: Ws)
    requires ws.transaction.None? && ws.inFlight == []
    ensures |r.input| <= |ws.input| && r.transaction.None? && r.inFlight == []
  {
    FlushRest(ws.(inFlight := ws.deferred, deferred := []), handler)
  }

  /** One frame read by the pump; no request is in flight, so it cannot be a reply. */
  function TakeDirect(ws: Ws, f: Frame, handler: Msg -> seq<Request>): (r: Ws)
    requires ws.transaction.None?
    ensures |r.input| <= |ws.input| && r.transaction.None? && r.inFlight == ws.inFlight
  {
    match f
    case Ignored => ws
    case Parsed(m) => DispatchEvent(ws.(taken := ws.taken + [Direct(m)]), Dispatch(m, true), handler)
  }

  /** `janus_ws_drain` with callbacks. */
  function DrainDirect(ws: Ws, handler: Msg -> seq<Request>): (r: (Ws, bool))
    requires ws.transaction.None?
    ensures |r.0.input| <= |ws.input| && r.0.transaction.None? && r.0.inFlight == ws.inFlight
    decreases |ws.input|
  {
    if ws.input == [] then (ws, true)
    else
      match ws.input[0]
      case Quiet => (Pop(ws), true)
      case Broken => (Pop(ws), false)
      case Ready(f) => DrainDirect(TakeDirect(Pop(ws), f, handler), handler)
  }

  /** One slice of `janus_ws_pump_once` under the mutex; false when the transport failed. */
  function PumpSlice(ws: Ws, handler: Msg -> seq<Request>): (r: (Ws, bool))
    requires ws.transaction.None? && ws.inFlight == []
    ensures r.0.transaction.None? && r.0.inFlight == []
  {
    var w := Flush(ws, handler);
    if w.input == [] then (w, true)
    else
      match w.input[0]
      case Quiet => (Pop(w), true)
      case Broken => (Pop(w), false)
      case Ready(_) => DrainDirect(w, handler)
  }

  /** The slice finds something to read once it has flushed. */
  predicate Drains(ws: Ws, handler: Msg -> seq<Request>)
    requires ws.transaction.None? && ws.inFlight == []
  {
    var w := Flush(ws, handler);
    w.input != [] && w.input[0].Ready?
  }

  // ---------------------------------------------------------------- whole runs

  /** What the threads do to the socket, one holder of the mutex after the other: the pump's
      slices and the requests of everybody else. */
  datatype Action = Pump | Call(request: Request)

  function Opened(script: seq<Poll>): (ws: Ws)
  {
    Ws(None, None, [], [], script, [], [])
  }

  function Run(ws: Ws, actions: seq<Action>, handler: Msg -> seq<Request>): (r: Ws)
    requires ws.transaction.None? && ws.inFlight == []
    ensures r.transaction.None? && r.inFlight == []
    decreases |actions|
  {
    if actions == [] then ws
    else
      var w := match actions[0]
        case Pump => PumpSlice(ws, handler).0
        case Call(q) => Rpc(ws, q).0;
      Run(w, actions[1..], handler)
  }
}

/**
 Whole-run properties of the WebSocket multiplexer: no event is lost or dispatched twice, events
 set aside keep their order, replies belong to their request, and exactly when the dispatch order
 is the order of arrival.
 */
module WsLaws {
  import opened Bytes
  import opened WsMux

  // ---------------------------------------------------------------- what was read and dispatched

  /** The messages parsed from a stretch of the script. */
  function ParsedOf(polls: seq<Poll>): (ms: seq<Msg>)
  {
    if polls == [] then []
    else
      var p := polls[|polls| - 1];
      ParsedOf(polls[..|polls| - 1]) + if p.Ready? && p.frame.Parsed? then [p.frame.msg] else []
  }

  function Messages(ts: seq<Read>): (ms: seq<Msg>)
  {
    if ts == [] then [] else Messages(ts[..|ts| - 1]) + [ts[|ts| - 1].msg]
  }

  function Directs(ts: seq<Read>): (ms: seq<Msg>)
  {
    if ts == [] then []
    else
      var t := ts[|ts| - 1];
      Directs(ts[..|ts| - 1]) + if t.Direct? then [t.msg] else []
  }

  function Asides(ts: seq<Read>): (ms: seq<Msg>)
  {
    if ts == [] then []
    else
      var t := ts[|ts| - 1];
      Asides(ts[..|ts| - 1]) + if t.Aside? then [t.msg] else []
  }

  /** The events read, in order of arrival. */
  function Events(ts: seq<Read>): (ms: seq<Msg>)
  {
    if ts == [] then []
    else
      var t := ts[|ts| - 1];
      Events(ts[..|ts| - 1]) + if t.Reply? then [] else [t.msg]
  }

  function DispatchedAs(ds: seq<Dispatch>, direct: bool): (ms: seq<Msg>)
  {
    if ds == [] then []
    else
      var d := ds[|ds| - 1];
      DispatchedAs(ds[..|ds| - 1], direct) + if d.direct == direct then [d.msg] else []
  }

  function AllDispatched(ds: seq<Dispatch>): (ms: seq<Msg>)
  {
    if ds == [] then [] else AllDispatched(ds[..|ds| - 1]) + [ds[|ds| - 1].msg]
  }

  predicate RepliesMatch(ts: seq<Read>) {
    forall i :: 0 <= i < |ts| && ts[i].Reply? ==> IsReply(ts[i].msg, ts[i].transaction)
  }

  lemma Taking(ts: seq<Read>, t: Read)
    ensures Messages(ts + [t]) == Messages(ts) + [t.msg]
    ensures Directs(ts + [t]) == Directs(ts) + if t.Direct? then [t.msg] else []
    ensures Asides(ts + [t]) == Asides(ts) + if t.Aside? then [t.msg] else []
    ensures Events(ts + [t]) == Events(ts) + if t.Reply? then [] else [t.msg]
  {
    assert (ts + [t])[..|ts|] == ts;
  }

  lemma Dispatching(ds: seq<Dispatch>, d: Dispatch)
    ensures DispatchedAs(ds + [d], true) == DispatchedAs(ds, true) + if d.direct then [d.msg] else []
    ensures DispatchedAs(ds + [d], false) == DispatchedAs(ds, false) + if d.direct then [] else [d.msg]
    ensures AllDispatched(ds + [d]) == AllDispatched(ds) + [d.msg]
  {
    assert (ds + [d])[..|ds|] == ds;
  }

  // ---------------------------------------------------------------- conservation

  /** `ws.input` is what is left of the script, and every message of the part already read is
      accounted for: as the reply of a request, as dispatched on arrival, or among the ones set
      aside, which in order of arrival are dispatched, about to be, or still queued. */
  ghost predicate Conserved(ws: Ws, script: seq<Poll>) {
    && |ws.input| <= |script|
    && ws.input == script[|script| - |ws.input|..]
    && Messages(ws.taken) == ParsedOf(script[..|script| - |ws.input|])
    && RepliesMatch(ws.taken)
    && Directs(ws.taken) == DispatchedAs(ws.dispatched, true)
    && Asides(ws.taken) == DispatchedAs(ws.dispatched, false) + ws.inFlight + ws.deferred
  }

  /** Reading on in the script. */
  lemma Consuming(script: seq<Poll>, n: nat)
    requires n < |script|
    ensures var p := script[n];
            ParsedOf(script[..n + 1]) == ParsedOf(script[..n]) + if p.Ready? && p.frame.Parsed? then [p.frame.msg] else []
  {
    assert script[..n + 1][..n] == script[..n];
  }

  lemma PopKeeps(ws: Ws, script: seq<Poll>)
    requires Conserved(ws, script) && ws.input != []
    requires ws.input[0].Ready? ==> ws.input[0].frame.Ignored?
    ensures Conserved(Pop(ws), script)
  {
    hide Messages, Directs, Asides, DispatchedAs;
    var n := |script| - |ws.input|;
    assert script[n] == ws.input[0];
    Consuming(script, n);
  }

  lemma TakeAsideKeeps(ws: Ws, script: seq<Poll>)
    requires Conserved(ws, script) && ws.input != [] && ws.input[0].Ready?
    ensures Conserved(TakeAside(Pop(ws), ws.input[0].frame), script)
  {
    hide Messages, Directs, Asides, DispatchedAs, ParsedOf;
    var f := ws.input[0].frame;
    if f.Ignored? {
      PopKeeps(ws, script);
    } else {
      var n := |script| - |ws.input|;
      assert script[n] == ws.input[0];
      Consuming(script, n);
      var ws' := TakeAside(Pop(ws), f);
      Taking(ws.taken, ws'.taken[|ws.taken|]);
      if ws'.taken[|ws.taken|].Aside? {
        assert DispatchedAs(ws.dispatched, false) + ws.inFlight + ws'.deferred
            == DispatchedAs(ws.dispatched, false) + ws.inFlight + ws.deferred + [f.msg];
      }
    }
  }

  lemma {:induction false} DrainAsideKeeps(ws: Ws, script: seq<Poll>)
    requires Conserved(ws, script)
    ensures Conserved(DrainAside(ws).0, script)
    decreases |ws.input|
  {
    hide Conserved;
    if ws.input != [] {
      if ws.input[0].Ready? {
        TakeAsideKeeps(ws, script);
        DrainAsideKeeps(TakeAside(Pop(ws), ws.input[0].frame), script);
      } else {
        PopKeeps(ws, script);
      }
    }
  }

  lemma {:induction false} WaitKeeps(ws: Ws, waits: nat, script: seq<Poll>)
    requires Conserved(ws, script)
    ensures Conserved(Wait(ws, waits), script)
    decreases waits
  {
    hide Conserved, DrainAside;
    if ws.result.None? && waits > 0 {
      if ws.input == [] {
        WaitKeeps(ws, waits - 1, script);
      } else if ws.input[0].Ready? {
        DrainAsideKeeps(ws, script);
        WaitKeeps(DrainAside(ws).0, waits - 1, script);
      } else {
        PopKeeps(ws, script);
        WaitKeeps(Pop(ws), waits - 1, script);
      }
    }
  }

  lemma RpcKeeps(ws: Ws, q: Request, script: seq<Poll>)
    requires Conserved(ws, script) && ws.transaction.None?
    ensures Conserved(Rpc(ws, q).0, script)
  {
    hide Wait, Messages, Directs, Asides, DispatchedAs, ParsedOf, RepliesMatch;
    if q.written {
      var w := ws.(transaction := Some(q.transaction), result := None);
      WaitKeeps(w, q.waits, script);
    }
  }

  lemma {:induction false} RpcsKeep(ws: Ws, qs: seq<Request>, script: seq<Poll>)
    requires Conserved(ws, script) && ws.transaction.None?
    ensures Conserved(Rpcs(ws, qs), script)
    decreases |qs|
  {
    hide Conserved, Rpc;
    if qs != [] {
      RpcKeeps(ws, qs[0], script);
      RpcsKeep(Rpc(ws, qs[0]).0, qs[1..], script);
    }
  }

  lemma {:induction false} FlushRestKeeps(ws: Ws, handler: Msg -> seq<Request>, script: seq<Poll>)
    requires Conserved(ws, script) && ws.transaction.None?
    ensures Conserved(FlushRest(ws, handler), script)
    decreases |ws.inFlight|
  {
    if ws.inFlight != [] {
      var m := ws.inFlight[0];
      var ws1 := ws.(inFlight := ws.inFlight[1..], dispatched := ws.dispatched + [Dispatch(m, false)]);
      assert Conserved(ws1, script) by {
        hide Messages, Directs, Asides, DispatchedAs, ParsedOf, RepliesMatch;
        Dispatching(ws.dispatched, Dispatch(m, false));
        assert ws.inFlight == [m] + ws.inFlight[1..];
      }
      hide Conserved, Rpcs;
      RpcsKeep(ws1, handler(m), script);
      FlushRestKeeps(Rpcs(ws1, handler(m)), handler, script);
    }
  }

  lemma FlushKeeps(ws: Ws, handler: Msg -> seq<Request>, script: seq<Poll>)
    requires Conserved(ws, script) && ws.transaction.None? && ws.inFlight == []
    ensures Conserved(Flush(ws, handler), script)
  {
    hide FlushRest;
    var ws1 := ws.(inFlight := ws.deferred, deferred := []);
    assert Conserved(ws1, script) by {
      hide Messages, Directs, Asides, DispatchedAs, ParsedOf, RepliesMatch;
      assert DispatchedAs(ws.dispatched, false) + [] + ws.deferred == DispatchedAs(ws.dispatched, false) + ws.deferred + [];
    }
    FlushRestKeeps(ws1, handler, script);
  }

  lemma TakeDirectKeeps(ws: Ws, handler: Msg -> seq<Request>, script: seq<Poll>)
    requires Conserved(ws, script) && ws.transaction.None? && ws.input != [] && ws.input[0].Ready?
    ensures Conserved(TakeDirect(Pop(ws), ws.input[0].frame, handler), script)
  {
    var f := ws.input[0].frame;
    if f.Ignored? {
      PopKeeps(ws, script);
    } else {
      var d := Dispatch(f.msg, true);
      var ws1 := Pop(ws).(taken := ws.taken + [Direct(f.msg)], dispatched := ws.dispatched + [d]);
      assert Conserved(ws1, script) by {
        hide Messages, Directs, Asides, DispatchedAs, ParsedOf;
        var n := |script| - |ws.input|;
        assert script[n] == ws.input[0];
        Consuming(script, n);
        Taking(ws.taken, Direct(f.msg));
        Dispatching(ws.dispatched, d);
      }
      RpcsKeep(ws1, handler(f.msg), script);
    }
  }

  lemma {:induction false} DrainDirectKeeps(ws: Ws, handler: Msg -> seq<Request>, script: seq<Poll>)
    requires Conserved(ws, script) && ws.transaction.None?
    ensures Conserved(DrainDirect(ws, handler).0, script)
    decreases |ws.input|
  {
    hide Conserved, TakeDirect;
    if ws.input != [] {
      if ws.input[0].Ready? {
        TakeDirectKeeps(ws, handler, script);
        DrainDirectKeeps(TakeDirect(Pop(ws), ws.input[0].frame, handler), handler, script);
      } else {
        PopKeeps(ws, script);
      }
    }
  }

  lemma PumpKeeps(ws: Ws, handler: Msg -> seq<Request>, script: seq<Poll>)
    requires Conserved(ws, script) && ws.transaction.None? && ws.inFlight == []
    ensures Conserved(PumpSlice(ws, handler).0, script)
  {
    hide Conserved, Flush, DrainDirect;
    FlushKeeps(ws, handler, script);
    var w := Flush(ws, handler);
    if w.input != [] {
      if w.input[0].Ready? {
        DrainDirectKeeps(w, handler, script);
      } else {
        PopKeeps(w, script);
      }
    }
  }

  lemma {:induction false} RunKeeps(ws: Ws, actions: seq<Action>, handler: Msg -> seq<Request>, script: seq<Poll>)
    requires Conserved(ws, script) && ws.transaction.None? && ws.inFlight == []
    ensures Conserved(Run(ws, actions, handler), script)
    decreases |actions|
  {
    hide Conserved, PumpSlice, Rpc;
    if actions != [] {
      match actions[0]
      case Pump =>
        PumpKeeps(ws, handler, script);
        RunKeeps(PumpSlice(ws, handler).0, actions[1..], handler, script);
      case Call(q) =>
        RpcKeeps(ws, q, script);
        RunKeeps(Rpc(ws, q).0, actions[1..], handler, script);
    }
  }

  /** Over any run, whatever requests the callbacks make: every message read is the reply of a
      request, or is dispatched exactly once or still queued; the ones dispatched on arrival keep
      their order, and so do the ones set aside. */
  lemma EventsAreConserved(script: seq<Poll>, actions: seq<Action>, handler: Msg -> seq<Request>)
    ensures var ws := Run(Opened(script), actions, handler);
            && Conserved(ws, script)
            && ws.inFlight == []
            && Asides(ws.taken) == DispatchedAs(ws.dispatched, false) + ws.deferred
  {
    assert script[0..] == script && script[..0] == [];
    RunKeeps(Opened(script), actions, handler, script);
    var ws := Run(Opened(script), actions, handler);
    hide Run;
    assert DispatchedAs(ws.dispatched, false) + [] == DispatchedAs(ws.dispatched, false);
  }

  // ---------------------------------------------------------------- replies

  lemma {:induction false} DrainAsideReply(ws: Ws)
    requires ws.transaction.Some? && (ws.result.Some? ==> IsReply(ws.result.value, ws.transaction.value))
    ensures var r := DrainAside(ws).0.result; r.Some? ==> IsReply(r.value, ws.transaction.value)
    decreases |ws.input|
  {
    if ws.input != [] && ws.input[0].Ready? {
      DrainAsideReply(TakeAside(Pop(ws), ws.input[0].frame));
    }
  }

  lemma {:induction false} WaitReply(ws: Ws, waits: nat)
    requires ws.transaction.Some? && (ws.result.Some? ==> IsReply(ws.result.value, ws.transaction.value))
    ensures var r := Wait(ws, waits).result; r.Some? ==> IsReply(r.value, ws.transaction.value)
    decreases waits
  {
    if ws.result.None? && waits > 0 {
      if ws.input == [] {
        WaitReply(ws, waits - 1);
      } else if ws.input[0].Quiet? {
        WaitReply(Pop(ws), waits - 1);
      } else if ws.input[0].Ready? {
        DrainAsideReply(ws);
        WaitReply(DrainAside(ws).0, waits - 1);
      }
    }
  }

  /** A reply carries the transaction of its request and one of the three reply types. */
  lemma ReplyMatchesRequest(ws: Ws, q: Request)
    requires ws.transaction.None?
    ensures Rpc(ws, q).1.Some? ==> IsReply(Rpc(ws, q).1.value, q.transaction)
  {
    if q.written {
      WaitReply(ws.(transaction := Some(q.transaction), result := None), q.waits);
    }
  }

  // ---------------------------------------------------------------- order of arrival

  /** Dispatched, about to be dispatched and queued, in this order, are the events as they came. */
  predicate InOrder(ws: Ws) {
    Events(ws.taken) == AllDispatched(ws.dispatched) + ws.inFlight + ws.deferred
  }

  /** How often the requests of a callback may poll the socket. */
  function Waits(qs: seq<Request>): (n: nat)
  {
    if qs == [] then 0 else (if qs[0].written then qs[0].waits else 0) + Waits(qs[1..])
  }

  /** Requests that never wait leave the socket alone. */
  lemma {:induction false} RpcsIdle(ws: Ws, qs: seq<Request>)
    requires ws.transaction.None? && Waits(qs) == 0
    ensures Rpcs(ws, qs) == ws.(result := Rpcs(ws, qs).result)
    decreases |qs|
  {
    if qs != [] {
      RpcsIdle(Rpc(ws, qs[0]).0, qs[1..]);
    }
  }

  lemma TakeAsideInOrder(ws: Ws, f: Frame)
    requires InOrder(ws)
    ensures InOrder(TakeAside(ws, f))
  {
    hide Events, AllDispatched;
    if f.Parsed? {
      var ws' := TakeAside(ws, f);
      Taking(ws.taken, ws'.taken[|ws.taken|]);
    }
  }

  lemma {:induction false} DrainAsideInOrder(ws: Ws)
    requires InOrder(ws)
    ensures InOrder(DrainAside(ws).0)
    decreases |ws.input|
  {
    if ws.input != [] && ws.input[0].Ready? {
      TakeAsideInOrder(Pop(ws), ws.input[0].frame);
      DrainAsideInOrder(TakeAside(Pop(ws), ws.input[0].frame));
    }
  }

  lemma {:induction false} WaitInOrder(ws: Ws, waits: nat)
    requires InOrder(ws)
    ensures InOrder(Wait(ws, waits))
    decreases waits
  {
    if ws.result.None? && waits > 0 {
      if ws.input == [] {
        WaitInOrder(ws, waits - 1);
      } else if ws.input[0].Ready? {
        DrainAsideInOrder(ws);
        WaitInOrder(DrainAside(ws).0, waits - 1);
      } else {
        WaitInOrder(Pop(ws), waits - 1);
      }
    }
  }

  lemma {:induction false} FlushRestInOrder(ws: Ws, handler: Msg -> seq<Request>)
    requires InOrder(ws) && ws.transaction.None? && forall m :: Waits(handler(m)) == 0
    ensures InOrder(FlushRest(ws, handler)) && FlushRest(ws, handler).deferred == ws.deferred
    decreases |ws.inFlight|
  {
    hide Events, AllDispatched;
    if ws.inFlight != [] {
      var m := ws.inFlight[0];
      var d := Dispatch(m, false);
      Dispatching(ws.dispatched, d);
      var ws1 := ws.(inFlight := ws.inFlight[1..], dispatched := ws.dispatched + [d]);
      assert ws.inFlight == [m] + ws.inFlight[1..];
      assert InOrder(ws1);
      RpcsIdle(ws1, handler(m));
      FlushRestInOrder(Rpcs(ws1, handler(m)), handler);
    }
  }

  lemma {:induction false} DrainDirectInOrder(ws: Ws, handler: Msg -> seq<Request>)
    requires InOrder(ws) && ws.transaction.None? && forall m :: Waits(handler(m)) == 0
    requires ws.inFlight == [] && ws.deferred == []
    ensures InOrder(DrainDirect(ws, handler).0)
    decreases |ws.input|
  {
    hide Events, AllDispatched;
    if ws.input != [] && ws.input[0].Ready? {
      var f := ws.input[0].frame;
      if f.Parsed? {
        var d := Dispatch(f.msg, true);
        Taking(ws.taken, Direct(f.msg));
        Dispatching(ws.dispatched, d);
        RpcsIdle(Pop(ws).(taken := ws.taken + [Direct(f.msg)], dispatched := ws.dispatched + [d]), handler(f.msg));
      }
      DrainDirectInOrder(TakeDirect(Pop(ws), f, handler), handler);
    }
  }

  lemma PumpInOrder(ws: Ws, handler: Msg -> seq<Request>)
    requires InOrder(ws) && ws.transaction.None? && ws.inFlight == [] && forall m :: Waits(handler(m)) == 0
    ensures InOrder(PumpSlice(ws, handler).0)
  {
    hide Events, AllDispatched, FlushRest, DrainDirect;
    var ws1 := ws.(inFlight := ws.deferred, deferred := []);
    FlushRestInOrder(ws1, handler);
    DrainDirectInOrder(Flush(ws, handler), handler);
  }

  lemma {:induction false} RunInOrder(ws: Ws, actions: seq<Action>, handler: Msg -> seq<Request>)
    requires InOrder(ws) && ws.transaction.None? && ws.inFlight == [] && forall m :: Waits(handler(m)) == 0
    ensures InOrder(Run(ws, actions, handler))
    decreases |actions|
  {
    if actions != [] {
      match actions[0]
      case Pump =>
        hide InOrder, PumpSlice;
        PumpInOrder(ws, handler);
        RunInOrder(PumpSlice(ws, handler).0, actions[1..], handler);
      case Call(q) =>
        WaitInOrder(ws.(transaction := Some(q.transaction), result := None), q.waits);
        RunInOrder(Rpc(ws, q).0, actions[1..], handler);
    }
  }

  // a callback that waits lets a later event overtake an earlier one

  function Quiets(n: nat): (ps: seq<Poll>)
    ensures |ps| == n
    ensures forall i :: 0 <= i < n ==> ps[i] == Quiet
  {
    seq(n, _ => Quiet)
  }

  lemma {:induction false} WaitOnQuiets(ws: Ws, waits: nat, rest: seq<Poll>)
    requires ws.result.None? && ws.input == Quiets(waits) + rest
    ensures Wait(ws, waits) == ws.(input := rest)
    decreases waits
  {
    if waits > 0 {
      assert Pop(ws).input == Quiets(waits - 1) + rest;
      WaitOnQuiets(Pop(ws), waits - 1, rest);
    } else {
      assert Quiets(0) + rest == rest;
    }
  }

  lemma {:induction false} RpcsOnQuiets(ws: Ws, qs: seq<Request>, rest: seq<Poll>)
    requires ws.transaction.None? && ws.result.None? && ws.input == Quiets(Waits(qs)) + rest
    ensures Rpcs(ws, qs) == ws.(input := rest)
    decreases |qs|
  {
    if qs == [] {
      assert Quiets(0) + rest == rest;
    } else if qs[0].written {
      var n, k := qs[0].waits, Waits(qs[1..]);
      assert Quiets(n + k) + rest == Quiets(n) + (Quiets(k) + rest);
      WaitOnQuiets(ws.(transaction := Some(qs[0].transaction), result := None), n, Quiets(k) + rest);
      RpcsOnQuiets(ws.(input := Quiets(k) + rest), qs[1..], rest);
    } else {
      RpcsOnQuiets(ws, qs[1..], rest);
    }
  }

  /** Requests that wait read the next event `x`, which is no reply to any of them, aside. */
  lemma {:induction false} RpcsReadAhead(ws: Ws, qs: seq<Request>, x: Msg, rest: seq<Poll>)
    requires ws.transaction.None? && ws.result.None? && Waits(qs) > 0 && x.transaction.None?
    requires ws.input == [Ready(Parsed(x))] + (Quiets(Waits(qs)) + rest)
    ensures Rpcs(ws, qs) == ws.(input := rest, deferred := ws.deferred + [x], taken := ws.taken + [Aside(x)])
    decreases |qs|
  {
    var q := qs[0];
    if q.written && q.waits > 0 {
      var k := Waits(qs[1..]);
      var rest' := Quiets(k) + rest;
      assert Quiets(q.waits + k) + rest == [Quiet] + (Quiets(q.waits - 1) + rest');
      var w0 := ws.(transaction := Some(q.transaction), result := None);
      var w1 := w0.(input := [Quiet] + (Quiets(q.waits - 1) + rest'), deferred := ws.deferred + [x], taken := ws.taken + [Aside(x)]);
      assert TakeAside(Pop(w0), Parsed(x)) == w1;
      var w2 := w1.(input := Quiets(q.waits - 1) + rest');
      assert DrainAside(w1) == (w2, true);
      assert DrainAside(w0) == (w2, true);
      WaitOnQuiets(w2, q.waits - 1, rest');
      var w3 := ws.(input := rest', deferred := ws.deferred + [x], taken := ws.taken + [Aside(x)]);
      assert Rpc(ws, q).0 == w3;
      RpcsOnQuiets(w3, qs[1..], rest);
    } else {
      assert Rpc(ws, q).0 == ws;
      RpcsReadAhead(ws, qs[1..], x, rest);
    }
  }

  lemma {:induction false} RpcsOnNothing(ws: Ws, qs: seq<Request>)
    requires ws.transaction.None? && ws.result.None? && ws.input == []
    ensures Rpcs(ws, qs) == ws
    decreases |qs|
  {
    if qs != [] {
      if qs[0].written {
        WaitOnNothing(ws.(transaction := Some(qs[0].transaction), result := None), qs[0].waits);
      }
      RpcsOnNothing(ws, qs[1..]);
    }
  }

  lemma {:induction false} WaitOnNothing(ws: Ws, waits: nat)
    requires ws.result.None? && ws.input == []
    ensures Wait(ws, waits) == ws
    decreases waits
  {
    if waits > 0 {
      WaitOnNothing(ws, waits - 1);
    }
  }

  /** The script of an event `m`, an event `x` its callback waits long enough to read, and `y`. */
  function OvertakingScript(handler: Msg -> seq<Request>, m: Msg, x: Msg, y: Msg): (script: seq<Poll>)
  {
    [Ready(Parsed(m))] + ([Ready(Parsed(x))] + (Quiets(Waits(handler(m))) + [Ready(Parsed(y))]))
  }

  /** After the first slice `m` and `y` are dispatched and `x` is set aside. */
  function Overtaken(m: Msg, x: Msg, y: Msg): (ws: Ws)
  {
    Ws(None, None, [x], [], [], [Direct(m), Aside(x), Direct(y)], [Dispatch(m, true), Dispatch(y, true)])
  }

  lemma FirstSlice(handler: Msg -> seq<Request>, m: Msg, x: Msg, y: Msg)
    requires Waits(handler(m)) > 0 && x.transaction.None?
    ensures PumpSlice(Opened(OvertakingScript(handler, m, x, y)), handler) == (Overtaken(m, x, y), true)
  {
    hide Rpcs, Waits;
    var rest := [Ready(Parsed(y))];
    var tail := [Ready(Parsed(x))] + (Quiets(Waits(handler(m))) + rest);
    var ws := Opened(OvertakingScript(handler, m, x, y));
    var w1 := ws.(input := tail, taken := [Direct(m)], dispatched := [Dispatch(m, true)]);
    assert Pop(ws).(taken := ws.taken + [Direct(m)], dispatched := ws.dispatched + [Dispatch(m, true)]) == w1;
    RpcsReadAhead(w1, handler(m), x, rest);
    assert [] + [x] == [x] && [Direct(m)] + [Aside(x)] == [Direct(m), Aside(x)];
    var w2 := w1.(input := rest, deferred := [x], taken := [Direct(m), Aside(x)]);
    assert TakeDirect(Pop(ws), Parsed(m), handler) == w2;
    var w3 := Overtaken(m, x, y);
    assert Pop(w2).(taken := w2.taken + [Direct(y)], dispatched := w2.dispatched + [Dispatch(y, true)]) == w3;
    RpcsOnNothing(w3, handler(y));
    assert TakeDirect(Pop(w2), Parsed(y), handler) == w3;
    assert DrainDirect(w2, handler) == DrainDirect(w3, handler) == (w3, true);
    assert Flush(ws, handler) == ws;
  }

  lemma SecondSlice(handler: Msg -> seq<Request>, m: Msg, x: Msg, y: Msg)
    ensures PumpSlice(Overtaken(m, x, y), handler).0 ==
            Overtaken(m, x, y).(deferred := [], dispatched := [Dispatch(m, true), Dispatch(y, true), Dispatch(x, false)])
  {
    hide Rpcs;
    var w3 := Overtaken(m, x, y);
    var w4 := w3.(deferred := [], dispatched := [Dispatch(m, true), Dispatch(y, true), Dispatch(x, false)]);
    var w := w3.(inFlight := [x], deferred := []);
    assert w.inFlight[1..] == [];
    assert w.(inFlight := w.inFlight[1..], dispatched := w.dispatched + [Dispatch(x, false)]) == w4;
    RpcsOnNothing(w4, handler(x));
    assert FlushRest(w, handler) == FlushRest(w4, handler) == w4;
  }

  /** A run that dispatches `m`, whose callback waits, then `y` and only then `x`, although `x`
      came before `y`. */
  lemma Overtaking(handler: Msg -> seq<Request>, m: Msg) returns (script: seq<Poll>)
    requires Waits(handler(m)) > 0
    ensures !InOrder(Run(Opened(script), [Pump, Pump], handler))
  {
    hide PumpSlice, Events, AllDispatched;
    var x, y := Msg(0, None, None), Msg(1, None, None);
    script := OvertakingScript(handler, m, x, y);
    FirstSlice(handler, m, x, y);
    SecondSlice(handler, m, x, y);
    var w3 := Overtaken(m, x, y);
    var w4 := PumpSlice(w3, handler).0;
    assert [Pump, Pump][1..] == [Pump] && [Pump][1..] == [];
    assert Run(Opened(script), [Pump, Pump], handler) == Run(w3, [Pump], handler) == Run(w4, [], handler) == w4;
    OvertakenLogs(m, x, y);
    assert [m, x, y][1] != [m, y, x][1];
  }

  lemma NothingLogged()
    ensures Events([]) == [] && AllDispatched([]) == []
  {
  }

  lemma OvertakenLogs(m: Msg, x: Msg, y: Msg)
    ensures Events([Direct(m), Aside(x), Direct(y)]) == [m, x, y]
    ensures AllDispatched([Dispatch(m, true), Dispatch(y, true), Dispatch(x, false)]) == [m, y, x]
  {
    hide Events, AllDispatched;
    NothingLogged();
    Taking([Direct(m), Aside(x)], Direct(y));
    Taking([Direct(m)], Aside(x));
    Taking([], Direct(m));
    assert [] + [Direct(m)] == [Direct(m)] && [Direct(m)] + [Aside(x)] == [Direct(m), Aside(x)];
    assert [Direct(m), Aside(x)] + [Direct(y)] == [Direct(m), Aside(x), Direct(y)];
    var a, b, c := Dispatch(m, true), Dispatch(y, true), Dispatch(x, false);
    Dispatching([a, b], c);
    Dispatching([a], b);
    Dispatching([], a);
    assert [] + [a] == [a] && [a] + [b] == [a, b] && [a, b] + [c] == [a, b, c];
  }

  /** Events are dispatched in order of arrival on every run, with any requests of other threads
      in between, exactly if no callback ever waits for a reply. */
  lemma OrderIsArrivalOrderIff(handler: Msg -> seq<Request>)
    ensures (forall script, actions :: InOrder(Run(Opened(script), actions, handler))) <==>
            (forall m :: Waits(handler(m)) == 0)
  {
    if forall m :: Waits(handler(m)) == 0 {
      forall script, actions ensures InOrder(Run(Opened(script), actions, handler)) {
        RunInOrder(Opened(script), actions, handler);
      }
    } else {
      var m :| Waits(handler(m)) != 0;
      var script := Overtaking(handler, m);
      assert !InOrder(Run(Opened(script), [Pump, Pump], handler));
    }
  }
}

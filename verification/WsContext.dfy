/**
 The multiplexer as it runs: `janus_ws_ctx_t` with the request in flight and the list of events
 set aside, changed by the drain, flush, request and pump routines.
 */
module WsContext {
  import opened Bytes
  import opened WsMux
  import WsLaws
  import WsReplies

  /** The `i`-th action is a slice of the pump that found nothing to read and no failure. */
  ghost predicate LeavesOff(start: Ws, actions: seq<Action>, i: nat, callbacks: Msg -> seq<Request>)
    requires start.transaction.None? && start.inFlight == [] && i < |actions|
  {
    var ws := Run(start, actions[..i], callbacks);
    PumpSlice(ws, callbacks).1 && !Drains(ws, callbacks)
  }

  lemma OneSliceMore(start: Ws, actions: seq<Action>, callbacks: Msg -> seq<Request>)
    requires start.transaction.None? && start.inFlight == []
    ensures var more, ws := actions + [Pump], Run(start, actions, callbacks);
            && (forall i :: 0 <= i < |actions| ==> (LeavesOff(start, more, i, callbacks) <==> LeavesOff(start, actions, i, callbacks)))
            && (LeavesOff(start, more, |actions|, callbacks) <==> PumpSlice(ws, callbacks).1 && !Drains(ws, callbacks))
            && more[..|more| - 1] == actions
  {
    hide PumpSlice, Drains, Run;
    var more := actions + [Pump];
    assert more[..|actions|] == actions;
    assert forall i :: 0 <= i < |actions| ==> more[..i] == actions[..i];
  }

  class Context {
    var rpcTransaction: Option<bytes>
    var rpcResult: Option<Msg>
    var deferred: seq<Msg>
    var input: seq<Poll>
    ghost var inFlight: seq<Msg>
    ghost var taken: seq<Read>
    ghost var dispatched: seq<Dispatch>
    /** The requests the callbacks of an event make. */
    const callbacks: Msg -> seq<Request>

    ghost function Model(): (ws: Ws)
      reads this
    {
      Ws(rpcTransaction, rpcResult, deferred, inFlight, input, taken, dispatched)
    }

    constructor (script: seq<Poll>, callbacks: Msg -> seq<Request>)
      ensures Model() == Opened(script) && this.callbacks == callbacks
    {
      rpcTransaction, rpcResult, deferred, input := None, None, [], script;
      inFlight, taken, dispatched := [], [], [];
      this.callbacks := callbacks;
    }

    /** `janus_ws_match_rpc_reply` */
    method MatchRpcReply(m: Msg) returns (matched: bool)
      modifies this`rpcResult, this`taken
      ensures matched <==> rpcTransaction.Some? && IsReply(m, rpcTransaction.value)
      ensures matched ==> rpcResult == Some(m) && taken == old(taken) + [Reply(m, rpcTransaction.value)]
      ensures !matched ==> rpcResult == old(rpcResult) && taken == old(taken)
    {
      if rpcTransaction.None? {
        return false;
      }
      if m.transaction.None? || m.janus.None? {
        return false;
      }
      if m.transaction.value != rpcTransaction.value {
        return false;
      }
      if m.janus.value !in REPLY_TYPES {
        return false;
      }
      rpcResult := Some(m);
      taken := taken + [Reply(m, rpcTransaction.value)];
      matched := true;
    }

    /** `janus_ws_drain` with a null dispatch table. */
    method DrainToDeferred() returns (ok: bool)
      modifies this
      ensures (Model(), ok) == DrainAside(old(Model()))
      ensures rpcTransaction == old(rpcTransaction)
    {
      ghost var goal := DrainAside(Model());
      while input != []
        invariant DrainAside(Model()) == goal
        decreases |input|
      {
        var poll := input[0];
        input := input[1..];
        if poll.Broken? {
          return false;
        }
        if poll.Quiet? {
          return true;
        }
        if poll.frame.Ignored? {
          continue;
        }
        var matched := MatchRpcReply(poll.frame.msg);
        if !matched {
          deferred := deferred + [poll.frame.msg];
          taken := taken + [Aside(poll.frame.msg)];
        }
      }
      ok := true;
    }

    /** `janus_ws_rpc_json` */
    method RpcJson(q: Request) returns (reply: Option<Msg>)
      requires rpcTransaction.None?
      modifies this
      ensures (Model(), reply) == Rpc(old(Model()), q)
      ensures !q.written ==> reply.None? && Model() == old(Model())
      ensures q.written ==> WsReplies.Replied(old(input), q.transaction, q.waits, reply)
      ensures reply.Some? ==> IsReply(reply.value, q.transaction)
    {
      if !q.written {
        return None;
      }
      WsLaws.ReplyMatchesRequest(Model(), q);
      var read := WsReplies.RpcReplies(Model(), q);
      rpcTransaction := Some(q.transaction);
      rpcResult := None;
      ghost var goal := Wait(Model(), q.waits);
      var waits := q.waits;
      while rpcResult.None? && waits > 0
        invariant 0 <= waits && Wait(Model(), waits) == goal
        decreases waits
      {
        waits := waits - 1;
        if input != [] {
          if input[0].Broken? {
            input := input[1..];
            break;
          }
          if input[0].Ready? {
            var ok := DrainToDeferred();
            if !ok {
              break;
            }
          } else {
            input := input[1..];
          }
        }
      }
      reply := rpcResult;
      rpcTransaction := None;
      rpcResult := None;
    }

    /** `janus_ws_dispatch_event`: never while a request is in flight. */
    method DispatchEvent(d: Dispatch)
      requires rpcTransaction.None?
      modifies this
      ensures Model() == WsMux.DispatchEvent(old(Model()), d, callbacks)
    {
      dispatched := dispatched + [d];
      ghost var goal := Rpcs(Model(), callbacks(d.msg));
      var requests := callbacks(d.msg);
      while requests != []
        invariant rpcTransaction.None? && Rpcs(Model(), requests) == goal
        decreases |requests|
      {
        var reply := RpcJson(requests[0]);
        requests := requests[1..];
      }
    }

    /** `janus_ws_flush_deferred`: the list is detached first, so what the callbacks set aside
        waits for the next flush. */
    method FlushDeferred()
      requires rpcTransaction.None? && inFlight == []
      modifies this
      ensures Model() == Flush(old(Model()), callbacks)
    {
      var list := deferred;
      deferred := [];
      inFlight := list;
      ghost var goal := FlushRest(Model(), callbacks);
      while list != []
        invariant rpcTransaction.None? && inFlight == list
        invariant FlushRest(Model(), callbacks) == goal
        decreases |list|
      {
        var m := list[0];
        list := list[1..];
        inFlight := list;
        DispatchEvent(Dispatch(m, false));
      }
    }

    /** `janus_ws_drain` with callbacks. */
    method DrainToCallbacks() returns (ok: bool)
      requires rpcTransaction.None?
      modifies this
      ensures (Model(), ok) == DrainDirect(old(Model()), callbacks)
    {
      ghost var goal := DrainDirect(Model(), callbacks);
      while input != []
        invariant rpcTransaction.None? && DrainDirect(Model(), callbacks) == goal
        decreases |input|
      {
        var poll := input[0];
        input := input[1..];
        if poll.Broken? {
          return false;
        }
        if poll.Quiet? {
          return true;
        }
        if poll.frame.Ignored? {
          continue;
        }
        var m := poll.frame.msg;
        var matched := MatchRpcReply(m);
        assert !matched;
        taken := taken + [Direct(m)];
        DispatchEvent(Dispatch(m, true));
      }
      ok := true;
    }

    /** One slice of the pump, under the mutex. */
    method PumpOneSlice() returns (ok: bool, drained: bool)
      requires rpcTransaction.None? && inFlight == []
      modifies this
      ensures (Model(), ok) == PumpSlice(old(Model()), callbacks)
      ensures drained <==> Drains(old(Model()), callbacks)
    {
      FlushDeferred();
      drained := false;
      if input == [] {
        return true, false;
      }
      if input[0].Broken? {
        input := input[1..];
        return false, false;
      }
      if input[0].Quiet? {
        input := input[1..];
        return true, false;
      }
      ok := DrainToCallbacks();
      drained := true;
    }

    /** `janus_ws_pump_once`: a keepalive request if one is due, then slices until something was
        drained, the transport failed or the time is up. */
    method PumpOnce(keepalive: Option<Request>, slices: nat) returns (ok: bool, ghost actions: seq<Action>)
      requires rpcTransaction.None? && inFlight == []
      modifies this
      ensures rpcTransaction.None? && inFlight == []
      ensures Model() == Run(old(Model()), actions, callbacks)
      ensures keepalive.Some? ==> |actions| > 0 && actions[0] == Call(keepalive.value)
      ensures forall i :: (if keepalive.Some? then 1 else 0) <= i < |actions| ==> actions[i] == Pump
      ensures var first := if keepalive.Some? then 1 else 0;
              && first <= |actions| <= first + slices
              && (forall i :: first <= i < |actions| - 1 ==> LeavesOff(old(Model()), actions, i, callbacks))
              && (|actions| < first + slices ==>
                    |actions| > first && !LeavesOff(old(Model()), actions, |actions| - 1, callbacks))
              && (ok <==> |actions| == first || PumpSlice(Run(old(Model()), actions[..|actions| - 1], callbacks), callbacks).1)
    {
      hide PumpSlice, Rpc, Drains, LeavesOff;
      ghost var first := if keepalive.Some? then 1 else 0;
      ghost var start := Model();
      actions := [];
      if keepalive.Some? {
        var reply := RpcJson(keepalive.value);
        RunOn(start, [], Call(keepalive.value), callbacks);
        actions := [Call(keepalive.value)];
      }
      ok := true;
      var left := slices;
      while left > 0
        invariant ok && rpcTransaction.None? && inFlight == []
        invariant Model() == Run(start, actions, callbacks)
        invariant keepalive.Some? ==> |actions| > 0 && actions[0] == Call(keepalive.value)
        invariant forall i :: first <= i < |actions| ==> actions[i] == Pump
        invariant |actions| == first + slices - left
        invariant forall i :: first <= i < |actions| ==> LeavesOff(start, actions, i, callbacks)
        invariant |actions| > first ==> PumpSlice(Run(start, actions[..|actions| - 1], callbacks), callbacks).1
        decreases left
      {
        left := left - 1;
        var drained;
        ghost var before := actions;
        ok, drained := PumpOneSlice();
        RunOn(start, actions, Pump, callbacks);
        actions := actions + [Pump];
        OneSliceMore(start, before, callbacks);
        if !ok || drained {
          return;
        }
      }
    }
  }

  /** A run can be extended at its end. */
  lemma {:induction false} RunOn(ws: Ws, actions: seq<Action>, a: Action, handler: Msg -> seq<Request>)
    requires ws.transaction.None? && ws.inFlight == []
    ensures Run(ws, actions + [a], handler) == Run(Run(ws, actions, handler), [a], handler)
    decreases |actions|
  {
    hide PumpSlice, Rpc;
    if actions == [] {
      assert [] + [a] == [a];
    } else {
      assert (actions + [a])[0] == actions[0] && (actions + [a])[1..] == actions[1..] + [a];
      var w := match actions[0]
        case Pump => PumpSlice(ws, handler).0
        case Call(q) => Rpc(ws, q).0;
      RunOn(w, actions[1..], a, handler);
    }
  }
}

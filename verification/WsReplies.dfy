/**
 What a synchronous request gets for its wait, said over the polls of the socket and not through the
 wait loop: which frame is its reply, when there is none, how far it reads and what it sets aside;
 and what a slice of the pump hands to the callbacks.
 */
module WsReplies {
  import opened Bytes
  import opened WsMux
  import WsLaws

  // ---------------------------------------------------------------- the reply of a request

  /** A frame with the request's transaction and one of the three types of reply. */
  predicate Fits(p: Poll, transaction: bytes) {
    && p.Ready? && p.frame.Parsed?
    && p.frame.msg.transaction == Some(transaction)
    && (|| p.frame.msg.janus == Some(Ascii("success"))
        || p.frame.msg.janus == Some(Ascii("ack"))
        || p.frame.msg.janus == Some(Ascii("error")))
  }

  /** How often the socket went quiet. */
  function Pauses(polls: seq<Poll>): (n: nat)
  {
    if polls == [] then 0 else (if polls[0].Quiet? then 1 else 0) + Pauses(polls[1..])
  }

  /** The `k`-th poll brings a fitting frame before the socket fails and before the waits are used up. */
  predicate Reaches(polls: seq<Poll>, transaction: bytes, waits: nat, k: nat): (r: bool)
    ensures r ==> k < |polls|
  {
    && k < |polls| && Fits(polls[k], transaction)
    && (forall i :: 0 <= i < k ==> !polls[i].Broken?)
    && Pauses(polls[..k]) < waits
  }

  /** The frames from the `i`-th to the `k`-th came without a pause in between. */
  predicate Together(polls: seq<Poll>, i: nat, k: nat)
    requires k <= |polls|
  {
    forall j :: i <= j < k ==> polls[j].Ready?
  }

  /** The `k`-th poll brings the reply: fitting frames before it came in one go with it, and of those
      that came in one go it is the last. */
  predicate Brings(polls: seq<Poll>, transaction: bytes, waits: nat, k: nat): (r: bool)
    ensures r ==> k < |polls|
  {
    && Reaches(polls, transaction, waits, k)
    && (forall i :: 0 <= i < k && Fits(polls[i], transaction) ==> Together(polls, i, k))
    && (forall i :: k < i < |polls| && Fits(polls[i], transaction) ==> !Together(polls, k, i))
  }

  /** What `polls` give a request that was written. */
  ghost predicate Replied(polls: seq<Poll>, transaction: bytes, waits: nat, reply: Option<Msg>) {
    && (reply.Some? ==> exists k: nat :: Brings(polls, transaction, waits, k) && polls[k] == Ready(Parsed(reply.value)))
    && (reply.None? ==> forall k: nat :: !Reaches(polls, transaction, waits, k))
  }

  /** At most one frame is the reply. */
  lemma OneReply(polls: seq<Poll>, transaction: bytes, waits: nat, k: nat, l: nat)
    requires Brings(polls, transaction, waits, k) && Brings(polls, transaction, waits, l)
    ensures k == l
  {
  }

  /** The parsed frames of `polls` that are no reply. */
  function Others(polls: seq<Poll>, transaction: bytes): (ms: seq<Msg>)
  {
    if polls == [] then []
    else
      (if polls[0].Ready? && polls[0].frame.Parsed? && !Fits(polls[0], transaction) then [polls[0].frame.msg] else [])
      + Others(polls[1..], transaction)
  }

  /** The parsed frames of `polls`. */
  function Frames(polls: seq<Poll>): (ms: seq<Msg>)
  {
    if polls == [] then []
    else (if polls[0].Ready? && polls[0].frame.Parsed? then [polls[0].frame.msg] else []) + Frames(polls[1..])
  }

  /** One go of reading: `n` polls, all frames but the last, which ends it. */
  predicate OneGo(polls: seq<Poll>, n: nat): (r: bool)
    ensures r ==> n <= |polls|
  {
    n <= |polls| && (polls != [] ==> n > 0) && (n == |polls| || !polls[n - 1].Ready?)
    && forall i :: 0 <= i < n - 1 ==> polls[i].Ready?
  }

  /** The last fitting frame, or what was there before. */
  function LastFit(polls: seq<Poll>, transaction: bytes, before: Option<Msg>): (r: Option<Msg>)
  {
    if polls == [] then before
    else LastFit(polls[1..], transaction, if Fits(polls[0], transaction) then Some(polls[0].frame.msg) else before)
  }

  lemma FitsIsReply(m: Msg, transaction: bytes)
    ensures Fits(Ready(Parsed(m)), transaction) <==> IsReply(m, transaction)
  {
    assert Ascii("success") == [115, 117, 99, 99, 101, 115, 115];
    assert Ascii("ack") == [97, 99, 107];
    assert Ascii("error") == [101, 114, 114, 111, 114];
  }

  lemma NoFit(p: Poll, transaction: bytes)
    requires p.Ready? ==> p.frame.Ignored?
    ensures !Fits(p, transaction)
  {
  }

  lemma TakeAsideReads(ws: Ws, transaction: bytes, f: Frame)
    requires ws.transaction == Some(transaction)
    ensures var w := TakeAside(ws, f);
            && w.result == (if Fits(Ready(f), transaction) then Some(f.msg) else ws.result)
            && w.deferred == ws.deferred + (if f.Parsed? && !Fits(Ready(f), transaction) then [f.msg] else [])
            && w.input == ws.input && w.transaction == ws.transaction
  {
    hide Fits, IsReply;
    if f.Parsed? {
      FitsIsReply(f.msg, transaction);
    } else {
      NoFit(Ready(f), transaction);
    }
  }

  predicate Fails(polls: seq<Poll>, n: nat) {
    0 < n <= |polls| && polls[n - 1].Broken?
  }

  lemma GoOn(polls: seq<Poll>, n: nat)
    requires polls != [] && polls[0].Ready? && OneGo(polls[1..], n)
    ensures OneGo(polls, n + 1) && polls[n + 1..] == polls[1..][n..]
    ensures Fails(polls, n + 1) <==> Fails(polls[1..], n)
    ensures polls[..n + 1] == [polls[0]] + polls[1..][..n]
  {
  }

  lemma GoStops(polls: seq<Poll>)
    requires polls != [] && !polls[0].Ready?
    ensures OneGo(polls, 1) && polls[..1] == [polls[0]] && (Fails(polls, 1) <==> polls[0].Broken?)
  {
  }

  lemma FirstOf(p: Poll, polls: seq<Poll>, transaction: bytes, before: Option<Msg>)
    ensures LastFit([p] + polls, transaction, before) ==
            LastFit(polls, transaction, if Fits(p, transaction) then Some(p.frame.msg) else before)
    ensures Others([p] + polls, transaction) ==
            (if p.Ready? && p.frame.Parsed? && !Fits(p, transaction) then [p.frame.msg] else []) + Others(polls, transaction)
    ensures Frames([p] + polls) == (if p.Ready? && p.frame.Parsed? then [p.frame.msg] else []) + Frames(polls)
  {
    assert ([p] + polls)[1..] == polls;
  }

  lemma NothingRead(transaction: bytes, before: Option<Msg>)
    ensures OneGo([], 0) && !Fails([], 0)
    ensures LastFit([], transaction, before) == before && Others([], transaction) == [] && Frames([]) == []
  {
  }

  /** A go that does not end in a pause or a failure ends the polls. */
  lemma GoToTheEnd(polls: seq<Poll>, n: nat)
    requires OneGo(polls, n) && n > 0 && polls[n - 1].Ready?
    ensures n == |polls|
  {
  }

  lemma NoFrame(p: Poll, transaction: bytes, before: Option<Msg>)
    requires !p.Ready?
    ensures LastFit([p], transaction, before) == before && Others([p], transaction) == [] && Frames([p]) == []
  {
    assert [p][1..] == [];
  }

  /** What one drain reads, keeps and sets aside. */
  lemma {:induction false} DrainReads(ws: Ws, transaction: bytes) returns (n: nat)
    requires ws.transaction == Some(transaction)
    ensures OneGo(ws.input, n)
    ensures var (w, ok) := DrainAside(ws);
            && w.input == ws.input[n..] && w.transaction == ws.transaction
            && (ok <==> !Fails(ws.input, n))
            && w.result == LastFit(ws.input[..n], transaction, ws.result)
            && w.deferred == ws.deferred + Others(ws.input[..n], transaction)
    decreases |ws.input|
  {
    hide Fits, TakeAside, OneGo, Fails, LastFit, Others;
    if ws.input == [] {
      n := 0;
      NothingRead(transaction, ws.result);
    } else if ws.input[0].Ready? {
      var f := ws.input[0].frame;
      var next := TakeAside(Pop(ws), f);
      TakeAsideReads(Pop(ws), transaction, f);
      var n' := DrainReads(next, transaction);
      n := n' + 1;
      GoOn(ws.input, n');
      FirstOf(ws.input[0], next.input[..n'], transaction, ws.result);
    } else {
      n := 1;
      GoStops(ws.input);
      NoFrame(ws.input[0], transaction, ws.result);
    }
  }

  lemma {:induction false} LastFitIs(polls: seq<Poll>, transaction: bytes, before: Option<Msg>) returns (k: nat)
    ensures var r := LastFit(polls, transaction, before);
            if k < |polls| then
              Fits(polls[k], transaction) && r == Some(polls[k].frame.msg)
              && forall i :: k < i < |polls| ==> !Fits(polls[i], transaction)
            else
              r == before && forall i :: 0 <= i < |polls| ==> !Fits(polls[i], transaction)
    decreases |polls|
  {
    if polls == [] {
      k := 0;
    } else {
      var k' := LastFitIs(polls[1..], transaction, if Fits(polls[0], transaction) then Some(polls[0].frame.msg) else before);
      k := if k' < |polls[1..]| then k' + 1 else if Fits(polls[0], transaction) then 0 else |polls|;
    }
  }

  lemma {:induction false} PausesJoin(a: seq<Poll>, b: seq<Poll>)
    ensures Pauses(a + b) == Pauses(a) + Pauses(b)
    decreases |a|
  {
    if a == [] {
      assert a + b == b;
    } else {
      assert (a + b)[1..] == a[1..] + b;
      PausesJoin(a[1..], b);
    }
  }

  lemma {:induction false} NoPauses(a: seq<Poll>)
    requires forall i :: 0 <= i < |a| ==> a[i].Ready?
    ensures Pauses(a) == 0
    decreases |a|
  {
    if a != [] {
      NoPauses(a[1..]);
    }
  }

  lemma OnePause(p: Poll)
    requires p.Quiet?
    ensures Pauses([p]) == 1
  {
    assert [p][1..] == [];
  }

  lemma PausesWithin(polls: seq<Poll>, n: nat, k: nat)
    requires OneGo(polls, n) && k < n
    ensures Pauses(polls[..k]) == 0
  {
    NoPauses(polls[..k]);
  }

  lemma PausesBehind(polls: seq<Poll>, n: nat, k: nat)
    requires OneGo(polls, n) && n > 0 && polls[n - 1].Quiet? && n <= k <= |polls|
    ensures Pauses(polls[..k]) == 1 + Pauses(polls[n..][..k - n])
  {
    hide Pauses;
    PausesWithin(polls, n, n - 1);
    assert polls[..n] == polls[..n - 1] + [polls[n - 1]] && polls[..k] == polls[..n] + polls[n..][..k - n];
    PausesJoin(polls[..n - 1], [polls[n - 1]]);
    PausesJoin(polls[..n], polls[n..][..k - n]);
    OnePause(polls[n - 1]);
  }

  /** What comes behind a go without a fitting frame is reached with one wait less. */
  lemma ReachesBehind(polls: seq<Poll>, transaction: bytes, waits: nat, n: nat, k: nat)
    requires OneGo(polls, n) && waits > 0 && forall i :: 0 <= i < n ==> !Fits(polls[i], transaction)
    ensures Reaches(polls, transaction, waits, k) <==>
            k >= n && n > 0 && polls[n - 1].Quiet? && Reaches(polls[n..], transaction, waits - 1, k - n)
  {
    hide Fits, Pauses;
    if n > 0 && polls[n - 1].Quiet? && n <= k < |polls| {
      PausesBehind(polls, n, k);
      assert polls[k] == polls[n..][k - n];
      if Reaches(polls[n..], transaction, waits - 1, k - n) {
        forall i | 0 <= i < k ensures !polls[i].Broken? {
          assert i >= n ==> polls[i] == polls[n..][i - n];
        }
      }
    }
  }

  lemma BringsBehind(polls: seq<Poll>, transaction: bytes, waits: nat, n: nat, k: nat)
    requires OneGo(polls, n) && waits > 0 && forall i :: 0 <= i < n ==> !Fits(polls[i], transaction)
    requires n > 0 && polls[n - 1].Quiet? && Brings(polls[n..], transaction, waits - 1, k)
    ensures Brings(polls, transaction, waits, n + k)
  {
    hide Fits, Reaches;
    ReachesBehind(polls, transaction, waits, n, n + k);
    assert Reaches(polls[n..], transaction, waits - 1, k);
    forall i | 0 <= i < n + k && Fits(polls[i], transaction) ensures Together(polls, i, n + k) {
      assert polls[i] == polls[n..][i - n];
      assert Together(polls[n..], i - n, k);
      forall j | i <= j < n + k ensures polls[j].Ready? {
        assert polls[j] == polls[n..][j - n];
      }
    }
    forall i | n + k < i < |polls| && Fits(polls[i], transaction) ensures !Together(polls, n + k, i) {
      assert polls[i] == polls[n..][i - n];
      assert !Together(polls[n..], k, i - n);
      var j :| k <= j < i - n && !polls[n..][j].Ready?;
      assert polls[n + j] == polls[n..][j];
    }
  }

  /** A fitting frame in the first go. */
  lemma BringsAtOnce(polls: seq<Poll>, transaction: bytes, waits: nat, n: nat, k: nat)
    requires OneGo(polls, n) && waits > 0 && k < n && Fits(polls[k], transaction)
    requires forall i :: k < i < n ==> !Fits(polls[i], transaction)
    ensures Brings(polls, transaction, waits, k)
  {
    hide Pauses;
    PausesWithin(polls, n, k);
    forall i | k < i < |polls| && Fits(polls[i], transaction) ensures !Together(polls, k, i) {
      assert i >= n && !polls[n - 1].Ready?;
    }
  }

  lemma RepliedAt(polls: seq<Poll>, transaction: bytes, waits: nat, k: nat)
    requires Brings(polls, transaction, waits, k)
    ensures polls[k].Ready? && polls[k].frame.Parsed? && Replied(polls, transaction, waits, Some(polls[k].frame.msg))
  {
    hide Pauses;
    assert polls[k] == Ready(Parsed(polls[k].frame.msg));
  }

  lemma RepliedBehind(polls: seq<Poll>, transaction: bytes, waits: nat, n: nat, reply: Option<Msg>)
    requires OneGo(polls, n) && waits > 0 && forall i :: 0 <= i < n ==> !Fits(polls[i], transaction)
    requires n > 0 && polls[n - 1].Quiet? && Replied(polls[n..], transaction, waits - 1, reply)
    ensures Replied(polls, transaction, waits, reply)
  {
    hide Fits, Brings, Reaches;
    if reply.Some? {
      var k: nat :| Brings(polls[n..], transaction, waits - 1, k) && polls[n..][k] == Ready(Parsed(reply.value));
      BringsBehind(polls, transaction, waits, n, k);
      assert polls[n + k] == polls[n..][k];
    } else {
      forall k: nat ensures !Reaches(polls, transaction, waits, k) {
        ReachesBehind(polls, transaction, waits, n, k);
      }
    }
  }

  lemma NothingBehind(polls: seq<Poll>, transaction: bytes, waits: nat, n: nat)
    requires OneGo(polls, n) && waits > 0 && forall i :: 0 <= i < n ==> !Fits(polls[i], transaction)
    requires n > 0 ==> !polls[n - 1].Quiet?
    ensures Replied(polls, transaction, waits, None)
  {
    hide Fits, Reaches;
    forall k: nat ensures !Reaches(polls, transaction, waits, k) {
      ReachesBehind(polls, transaction, waits, n, k);
    }
  }

  lemma OthersJoin(a: seq<Poll>, b: seq<Poll>, transaction: bytes)
    ensures Others(a + b, transaction) == Others(a, transaction) + Others(b, transaction)
    decreases |a|
  {
    hide Fits;
    if a == [] {
      assert a + b == b;
    } else {
      assert (a + b)[1..] == a[1..] + b;
      OthersJoin(a[1..], b, transaction);
    }
  }

  /** One turn of the wait loop without a fitting frame, in front of the rest of the wait. */
  lemma JoinGo(ws: Ws, transaction: bytes, n: nat, deferred: seq<Msg>, m: nat)
    requires n <= |ws.input| && m <= |ws.input[n..]|
    requires deferred == ws.deferred + Others(ws.input[..n], transaction)
    ensures ws.input[n..][m..] == ws.input[n + m..]
    ensures deferred + Others(ws.input[n..][..m], transaction) == ws.deferred + Others(ws.input[..n + m], transaction)
  {
    hide Others;
    assert ws.input[..n + m] == ws.input[..n] + ws.input[n..][..m];
    OthersJoin(ws.input[..n], ws.input[n..][..m], transaction);
  }

  /** The first turn of the wait loop. */
  lemma TurnReads(ws: Ws, transaction: bytes, waits: nat) returns (n: nat, w: Ws)
    requires ws.transaction == Some(transaction) && ws.result.None? && waits > 0 && ws.input != []
    ensures OneGo(ws.input, n) && n > 0
    ensures w.input == ws.input[n..] && w.transaction == ws.transaction
    ensures w.deferred == ws.deferred + Others(ws.input[..n], transaction)
    ensures w.result == LastFit(ws.input[..n], transaction, None)
    ensures Wait(ws, waits) == if n > 0 && ws.input[n - 1].Broken? then w else Wait(w, waits - 1)
  {
    hide Fits, DrainAside;
    if ws.input[0].Ready? {
      n := DrainReads(ws, transaction);
      w := DrainAside(ws).0;
    } else {
      n, w := 1, Pop(ws);
      assert ws.input[..1][1..] == [];
      NoFit(ws.input[0], transaction);
    }
  }

  lemma NothingToRead(ws: Ws, transaction: bytes, waits: nat)
    requires ws.result.None? && (waits == 0 || ws.input == [])
    ensures Wait(ws, waits) == ws && ws.input[0..] == ws.input && Others(ws.input[..0], transaction) == []
    ensures Replied(ws.input, transaction, waits, None)
  {
    if waits > 0 {
      WsLaws.WaitOnNothing(ws, waits);
    }
  }

  lemma WaitIsOver(ws: Ws, waits: nat)
    requires ws.result.Some?
    ensures Wait(ws, waits) == ws
  {
  }

  /** The wait of a request: its outcome, how far it reads and what it sets aside. */
  lemma {:induction false} WaitReads(ws: Ws, transaction: bytes, waits: nat) returns (n: nat)
    requires ws.transaction == Some(transaction) && ws.result.None?
    ensures n <= |ws.input|
    ensures var w := Wait(ws, waits);
            && w.input == ws.input[n..] && w.deferred == ws.deferred + Others(ws.input[..n], transaction)
            && Replied(ws.input, transaction, waits, w.result)
    decreases waits
  {
    hide Fits, DrainAside, Brings, Others, LastFit, Replied, Reaches, OneGo, Wait;
    if waits == 0 || ws.input == [] {
      n := 0;
      NothingToRead(ws, transaction, waits);
    } else {
      var k, w;
      k, w := TurnReads(ws, transaction, waits);
      var polls := ws.input;
      n := k;
      var f := LastFitIs(polls[..k], transaction, None);
      if f < k {
        BringsAtOnce(polls, transaction, waits, k, f);
        RepliedAt(polls, transaction, waits, f);
        WaitIsOver(w, waits - 1);
      } else if polls[k - 1].Quiet? {
        var m := WaitReads(w, transaction, waits - 1);
        RepliedBehind(polls, transaction, waits, k, Wait(w, waits - 1).result);
        JoinGo(ws, transaction, k, w.deferred, m);
        n := k + m;
      } else {
        NothingBehind(polls, transaction, waits, k);
        if polls[k - 1].Ready? {
          GoToTheEnd(polls, k);
          WsLaws.WaitOnNothing(w, waits - 1);
        }
      }
    }
  }

  /** A request that could not be written gets nothing and reads nothing.  One that was written gets a
      reply exactly if a fitting frame comes before the socket fails and before its waits are used up;
      it is the last of the fitting frames that come in one go with the first.  Every other message it
      reads is set aside, in order. */
  lemma RpcReplies(ws: Ws, q: Request) returns (n: nat)
    requires ws.transaction.None?
    ensures var (w, reply) := Rpc(ws, q);
            && (!q.written ==> w == ws && reply.None?)
            && (q.written ==>
                  && Replied(ws.input, q.transaction, q.waits, reply)
                  && (reply.Some? <==> exists k: nat :: Reaches(ws.input, q.transaction, q.waits, k))
                  && n <= |ws.input| && w.input == ws.input[n..] && w.transaction.None?
                  && w.deferred == ws.deferred + Others(ws.input[..n], q.transaction))
  {
    hide Fits, Others, Reaches, Wait;
    n := 0;
    if q.written {
      var w := ws.(transaction := Some(q.transaction), result := None);
      n := WaitReads(w, q.transaction, q.waits);
      var reply := Wait(w, q.waits).result;
      if reply.Some? {
        var k: nat :| Brings(ws.input, q.transaction, q.waits, k) && ws.input[k] == Ready(Parsed(reply.value));
        assert Reaches(ws.input, q.transaction, q.waits, k);
      }
    }
  }

  // ---------------------------------------------------------------- what a slice dispatches

  function HandedOver(ms: seq<Msg>, direct: bool): (ds: seq<Dispatch>)
    ensures |ds| == |ms| && forall i :: 0 <= i < |ms| ==> ds[i] == Dispatch(ms[i], direct)
  {
    seq(|ms|, i requires 0 <= i < |ms| => Dispatch(ms[i], direct))
  }

  /** Whatever the callbacks request meanwhile, a flush hands over all that was set aside before it, in
      order. */
  lemma {:induction false} FlushRestDispatches(ws: Ws, handler: Msg -> seq<Request>)
    requires ws.transaction.None?
    ensures FlushRest(ws, handler).dispatched == ws.dispatched + HandedOver(ws.inFlight, false)
    decreases |ws.inFlight|
  {
    hide Rpcs;
    if ws.inFlight != [] {
      var d := Dispatch(ws.inFlight[0], false);
      var next := DispatchEvent(ws.(inFlight := ws.inFlight[1..]), d, handler);
      FlushRestDispatches(next, handler);
      assert HandedOver(ws.inFlight, false) == [d] + HandedOver(ws.inFlight[1..], false);
    }
  }

  lemma FlushDispatches(ws: Ws, handler: Msg -> seq<Request>)
    requires ws.transaction.None? && ws.inFlight == []
    ensures Flush(ws, handler).dispatched == ws.dispatched + HandedOver(ws.deferred, false)
  {
    FlushRestDispatches(ws.(inFlight := ws.deferred, deferred := []), handler);
  }

  lemma {:induction false} FlushRestIdle(ws: Ws, handler: Msg -> seq<Request>)
    requires ws.transaction.None? && forall m :: WsLaws.Waits(handler(m)) == 0
    ensures var w := FlushRest(ws, handler); w.input == ws.input && w.deferred == ws.deferred
    decreases |ws.inFlight|
  {
    hide Rpcs;
    if ws.inFlight != [] {
      var ws1 := ws.(inFlight := ws.inFlight[1..], dispatched := ws.dispatched + [Dispatch(ws.inFlight[0], false)]);
      WsLaws.RpcsIdle(ws1, handler(ws.inFlight[0]));
      FlushRestIdle(Rpcs(ws1, handler(ws.inFlight[0])), handler);
    }
  }

  lemma TakeDirectIdle(ws: Ws, f: Frame, handler: Msg -> seq<Request>)
    requires ws.transaction.None? && forall m :: WsLaws.Waits(handler(m)) == 0
    ensures var w := TakeDirect(ws, f, handler);
            && w.input == ws.input && w.deferred == ws.deferred
            && w.dispatched == ws.dispatched + if f.Parsed? then [Dispatch(f.msg, true)] else []
  {
    hide Rpcs;
    if f.Parsed? {
      var ws1 := ws.(taken := ws.taken + [Direct(f.msg)], dispatched := ws.dispatched + [Dispatch(f.msg, true)]);
      WsLaws.RpcsIdle(ws1, handler(f.msg));
    }
  }

  lemma {:induction false} DrainDirectIdle(ws: Ws, handler: Msg -> seq<Request>) returns (n: nat)
    requires ws.transaction.None? && forall m :: WsLaws.Waits(handler(m)) == 0
    ensures OneGo(ws.input, n)
    ensures var (w, ok) := DrainDirect(ws, handler);
            && w.input == ws.input[n..] && w.deferred == ws.deferred
            && (ok <==> !Fails(ws.input, n))
            && w.dispatched == ws.dispatched + HandedOver(Frames(ws.input[..n]), true)
    decreases |ws.input|
  {
    hide TakeDirect, OneGo, Fails, Frames, HandedOver;
    if ws.input == [] {
      n := 0;
      NothingRead([], None);
    } else if ws.input[0].Ready? {
      var f := ws.input[0].frame;
      var next := TakeDirect(Pop(ws), f, handler);
      TakeDirectIdle(Pop(ws), f, handler);
      var n' := DrainDirectIdle(next, handler);
      n := n' + 1;
      GoOn(ws.input, n');
      HandedOverNext(ws.input[0], next.input[..n']);
    } else {
      n := 1;
      GoStops(ws.input);
      NoFrame(ws.input[0], [], None);
    }
  }

  lemma HandedOverNext(p: Poll, polls: seq<Poll>)
    requires p.Ready?
    ensures HandedOver(Frames([p] + polls), true) ==
            (if p.frame.Parsed? then [Dispatch(p.frame.msg, true)] else []) + HandedOver(Frames(polls), true)
  {
    assert ([p] + polls)[1..] == polls;
  }

  /** With callbacks that never wait, a slice hands over what was set aside and then every message up to
      the next pause or failure of the socket, and reports a failure exactly when it met one. */
  lemma SliceDispatches(ws: Ws, handler: Msg -> seq<Request>) returns (n: nat)
    requires ws.transaction.None? && ws.inFlight == [] && forall m :: WsLaws.Waits(handler(m)) == 0
    ensures OneGo(ws.input, n)
    ensures var (w, ok) := PumpSlice(ws, handler);
            && w.input == ws.input[n..] && w.deferred == []
            && (ok <==> !Fails(ws.input, n))
            && w.dispatched == ws.dispatched + HandedOver(ws.deferred, false) + HandedOver(Frames(ws.input[..n]), true)
  {
    hide DrainDirect, FlushRest;
    FlushDispatches(ws, handler);
    FlushRestIdle(ws.(inFlight := ws.deferred, deferred := []), handler);
    var w := Flush(ws, handler);
    if ws.input == [] {
      n := 0;
    } else if ws.input[0].Ready? {
      n := DrainDirectIdle(w, handler);
    } else {
      n := 1;
      assert ws.input[..1][1..] == [];
    }
  }
}

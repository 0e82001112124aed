/**
 Whole turns of a server thread, and of the calls that start and stop one, when nothing comes in between:
 what they leave behind in the thread, the server and the lookup of sessions.
 */
module ServerRounds {
  import opened Bytes
  import opened ServerThread

  // ---------------------------------------------------------------- turns of one thread

  function Turns(t: nat, replies: seq<Reply>): (steps: seq<Step>)
    ensures |steps| == |replies| && forall i :: 0 <= i < |replies| ==> steps[i] == Thread(t, replies[i])
  {
    seq(|replies|, i requires 0 <= i < |replies| => Thread(t, replies[i]))
  }

  /** The steps can be taken from `s` and lead to `s'`. */
  ghost predicate Leads(s: System, steps: seq<Step>, s': System) {
    Legal(s, steps) && After(s, steps) == s'
  }

  /** Thread `t` of the system, its server, and the three parts of the system its steps change. */
  predicate Stands(s: System, t: nat, th: Thr, v: Server) {
    t < |s.threads| && s.threads[t] == th && th.r < |s.servers| && s.servers[th.r] == v
  }

  function With(s: System, t: nat, th: Thr, v: Server, byId: map<nat, nat>): (s': System)
    requires t < |s.threads| && th.r < |s.servers|
  {
    s.(threads := s.threads[t := th], servers := s.servers[th.r := v], byId := byId)
  }

  /** After the first `k` of the replies `x`, thread `t` is `th`, its server `v` and the lookup `byId`;
      `b` holds the rest of the system. */
  ghost predicate Reaches(s0: System, b: System, t: nat, x: seq<Reply>, k: nat, th: Thr, v: Server, byId: map<nat, nat>) {
    k <= |x| && t < |b.threads| && th.r < |b.servers| && Leads(s0, Turns(t, x[..k]), With(b, t, th, v, byId))
  }

  lemma Begin(s: System, t: nat, x: seq<Reply>, th: Thr, v: Server)
    requires Stands(s, t, th, v)
    ensures Reaches(s, s, t, x, 0, th, v, s.byId)
  {
    hide Do, Enabled;
    assert With(s, t, th, v, s.byId) == s;
    assert Turns(t, x[..0]) == [];
  }

  lemma Finish(s0: System, b: System, t: nat, x: seq<Reply>, th: Thr, v: Server, byId: map<nat, nat>)
    requires Reaches(s0, b, t, x, |x|, th, v, byId)
    ensures t < |b.threads| && th.r < |b.servers| && Leads(s0, Turns(t, x), With(b, t, th, v, byId))
  {
    hide Leads;
    assert x[..|x|] == x;
  }

  /** One more turn. */
  lemma Turn(s0: System, t: nat, replies: seq<Reply>, reply: Reply, s: System, s': System)
    requires Leads(s0, Turns(t, replies), s) && Enabled(s, Thread(t, reply)) && Do(s, Thread(t, reply)) == s'
    ensures Leads(s0, Turns(t, replies + [reply]), s')
  {
    hide Do, Enabled, After;
    OneMore(s0, Turns(t, replies), Thread(t, reply));
    assert Turns(t, replies + [reply]) == Turns(t, replies) + [Thread(t, reply)];
  }

  /** What a step notes in passing: the session created, and the event logged. */
  function Noted(b: System, t: nat, th: Thr, v: Server, th': Thr): (b': System)
  {
    b.(issued := if th.pc == Connect && th'.pc == Created then b.issued[th'.session := t] else b.issued,
       history := b.history + Logged(th, v))
  }

  lemma StepIs(b: System, t: nat, th: Thr, v: Server, byId: map<nat, nat>, reply: Reply)
    requires t < |b.threads| && th.r < |b.servers| && th.pc != Ended && th.pc != Leave
    ensures var th' := NextThr(th, v, b.failMax, th.session in byId, |b.history|, reply);
            && Enabled(With(b, t, th, v, byId), Thread(t, reply))
            && Do(With(b, t, th, v, byId), Thread(t, reply)) ==
               With(Noted(b, t, th, v, th'), t, th', NextServer(th, v), NextById(byId, th, reply))
  {
    hide NextThr, NextServer, NextById, Logged;
  }

  /** A step in the middle of a run of turns that has so far changed thread, server and lookup. */
  lemma GoesOver(s0: System, b: System, t: nat, x: seq<Reply>, k: nat, th: Thr, v: Server, byId: map<nat, nat>,
                 th': Thr, v': Server, byId': map<nat, nat>)
    requires k < |x| && Reaches(s0, b, t, x, k, th, v, byId)
    requires th.pc != Ended && th.pc != Leave
    requires th' == NextThr(th, v, b.failMax, th.session in byId, |b.history|, x[k])
    requires v' == NextServer(th, v) && byId' == NextById(byId, th, x[k])
    ensures Reaches(s0, Noted(b, t, th, v, th'), t, x, k + 1, th', v', byId')
  {
    hide NextThr, NextServer, NextById, Logged, Leads, Do, Enabled, With;
    StepIs(b, t, th, v, byId, x[k]);
    Turn(s0, t, x[..k], x[k], With(b, t, th, v, byId), With(Noted(b, t, th, v, th'), t, th', v', byId'));
    assert x[..k + 1] == x[..k] + [x[k]];
  }

  /** A step that notes nothing. */
  lemma GoesOn(s0: System, b: System, t: nat, x: seq<Reply>, k: nat, th: Thr, v: Server, byId: map<nat, nat>,
               th': Thr, v': Server, byId': map<nat, nat>)
    requires k < |x| && Reaches(s0, b, t, x, k, th, v, byId)
    requires th.pc != Ended && th.pc != Leave && th.pc != Created && (th.pc == Failed ==> !v.dynamic)
    requires th.pc == Connect ==> th'.pc != Created
    requires th' == NextThr(th, v, b.failMax, th.session in byId, |b.history|, x[k])
    requires v' == NextServer(th, v) && byId' == NextById(byId, th, x[k])
    ensures Reaches(s0, b, t, x, k + 1, th', v', byId')
  {
    assert Noted(b, t, th, v, th') == b;
    hide NextThr, NextServer, NextById, Reaches;
    GoesOver(s0, b, t, x, k, th, v, byId, th', v', byId');
  }

  // ---------------------------------------------------------------- polling

  /** A thread whose session is in the lookup polls, and a poll that succeeds changes nothing. */
  lemma PollSucceeds(s: System, t: nat, th: Thr, v: Server, any: Reply)
    requires Stands(s, t, th, v) && th.pc == Inner && !v.terminating && th.session in s.byId
    ensures Leads(s, Turns(t, [any, Success]), s)
  {
    hide Leads, Reaches;
    var x, th1 := [any, Success], th.(pc := Poll);
    Begin(s, t, x, th, v);
    GoesOn(s, s, t, x, 0, th, v, s.byId, th1, v, s.byId);
    GoesOn(s, s, t, x, 1, th1, v, s.byId, th, v, s.byId);
    Finish(s, s, t, x, th, v, s.byId);
    assert With(s, t, th, v, s.byId) == s;
  }

  /** A poll that fails takes the session out of the lookup and the published id off the server; the
      thread keeps the session. */
  lemma PollFails(s: System, t: nat, th: Thr, v: Server, x: seq<Reply>)
    requires Stands(s, t, th, v) && th.pc == Inner && !v.terminating && th.session in s.byId
    requires |x| == 4 && x[1] != Success
    ensures Leads(s, Turns(t, x), With(s, t, th, v.(serverId := 0), s.byId - {th.session}))
  {
    hide Leads, Reaches, With;
    var th1, th2, th3 := th.(pc := Poll), th.(pc := DropEntry), th.(pc := Reset);
    var rest := s.byId - {th.session};
    Begin(s, t, x, th, v);
    GoesOn(s, s, t, x, 0, th, v, s.byId, th1, v, s.byId);
    GoesOn(s, s, t, x, 1, th1, v, s.byId, th2, v, s.byId);
    GoesOn(s, s, t, x, 2, th2, v, s.byId, th3, v, rest);
    GoesOn(s, s, t, x, 3, th3, v, rest, th, v.(serverId := 0), rest);
    Finish(s, s, t, x, th, v.(serverId := 0), rest);
  }

  /** Turns after turns. */
  lemma Join(s0: System, t: nat, x: seq<Reply>, s1: System, y: seq<Reply>, s2: System)
    requires Leads(s0, Turns(t, x), s1) && Leads(s1, Turns(t, y), s2)
    ensures Leads(s0, Turns(t, x + y), s2)
  {
    hide After, Legal;
    Continue(s0, Turns(t, x), Turns(t, y));
    assert Turns(t, x + y) == Turns(t, x) + Turns(t, y);
  }

  // ---------------------------------------------------------------- claiming

  /** A claim that succeeds publishes the session the thread holds and enters it in the lookup. */
  lemma Claims(s: System, t: nat, th: Thr, v: Server, x: seq<Reply>)
    requires Stands(s, t, th, v) && th.pc == Outer && !v.terminating && th.session != 0
    requires |x| == 4 && x[1] == Success && x[3] == Success
    ensures Leads(s, Turns(t, x), With(s, t, th.(pc := Inner), v.(serverId := th.session), s.byId[th.session := th.r]))
  {
    hide Leads, Reaches, With;
    var th1, th2, th3, th4 := th.(pc := Connect), th.(pc := Claimed), th.(pc := Insert), th.(pc := Inner);
    var v', byId := v.(serverId := th.session), s.byId[th.session := th.r];
    Begin(s, t, x, th, v);
    GoesOn(s, s, t, x, 0, th, v, s.byId, th1, v, s.byId);
    GoesOn(s, s, t, x, 1, th1, v, s.byId, th2, v, s.byId);
    GoesOn(s, s, t, x, 2, th2, v, s.byId, th3, v', s.byId);
    GoesOn(s, s, t, x, 3, th3, v', s.byId, th4, v', byId);
    Finish(s, s, t, x, th4, v', byId);
  }

  /** A thread whose session is not in the lookup, or whose server is terminating, goes back. */
  lemma GoesBack(s: System, t: nat, th: Thr, v: Server, any: Reply)
    requires Stands(s, t, th, v) && th.pc == Inner && (th.session !in s.byId || v.terminating)
    ensures Leads(s, Turns(t, [any]), With(s, t, th.(pc := Outer), v, s.byId))
  {
    hide Leads, Reaches, With;
    Begin(s, t, [any], th, v);
    GoesOn(s, s, t, [any], 0, th, v, s.byId, th.(pc := Outer), v, s.byId);
    Finish(s, s, t, [any], th.(pc := Outer), v, s.byId);
  }

  /** After a poll that failed, a claim that succeeds brings everything back: the same session, entered
      and published. */
  lemma PollFailsAndRecovers(s: System, t: nat, th: Thr, v: Server, x: seq<Reply>)
    requires Stands(s, t, th, v) && th.pc == Inner && !v.terminating && th.session != 0
    requires th.session in s.byId && s.byId[th.session] == th.r && v.serverId == th.session
    requires |x| == 9 && x[1] != Success && x[6] == Success && x[8] == Success
    ensures Leads(s, Turns(t, x), s)
  {
    hide Leads;
    var v', rest := v.(serverId := 0), s.byId - {th.session};
    var s1 := With(s, t, th, v', rest);
    PollFails(s, t, th, v, x[..4]);
    GoesBack(s1, t, th, v', x[4]);
    var s2 := With(s1, t, th.(pc := Outer), v', rest);
    Join(s, t, x[..4], s1, [x[4]], s2);
    Claims(s2, t, th.(pc := Outer), v', x[5..]);
    var s3 := With(s2, t, th, v, rest[th.session := th.r]);
    Join(s, t, x[..4] + [x[4]], s2, x[5..], s3);
    assert rest[th.session := th.r] == s.byId;
    assert s3 == s;
    assert x[..4] + [x[4]] + x[5..] == x;
  }

  /** A socket that fails, or that cannot be opened, leaves everything as it is; the thread keeps its
      session. */
  lemma SocketFails(s: System, t: nat, th: Thr, v: Server, x: seq<Reply>)
    requires Stands(s, t, th, v) && th.pc == Outer && !v.terminating && |x| == 2
    requires x[1] == NoSocket || (x[1] == SocketError && th.session != 0)
    ensures Leads(s, Turns(t, x), With(s, t, th.(pc := if x[1] == NoSocket then Outer else Inner), v, s.byId))
  {
    hide Leads, Reaches, With;
    var th1, th2 := th.(pc := Connect), th.(pc := if x[1] == NoSocket then Outer else Inner);
    Begin(s, t, x, th, v);
    GoesOn(s, s, t, x, 0, th, v, s.byId, th1, v, s.byId);
    GoesOn(s, s, t, x, 1, th1, v, s.byId, th2, v, s.byId);
    Finish(s, s, t, x, th2, v, s.byId);
  }

  /** A claim that Janus refuses makes the thread give up its session. */
  lemma ClaimRefused(s: System, t: nat, th: Thr, v: Server, x: seq<Reply>)
    requires Stands(s, t, th, v) && th.pc == Outer && !v.terminating && th.session != 0
    requires |x| == 2 && x[1] == Refused
    ensures Leads(s, Turns(t, x), With(s, t, th.(pc := Inner, session := 0), v, s.byId))
  {
    hide Leads, Reaches, With;
    var th1, th2 := th.(pc := Connect), th.(pc := Inner, session := 0);
    Begin(s, t, x, th, v);
    GoesOn(s, s, t, x, 0, th, v, s.byId, th1, v, s.byId);
    GoesOn(s, s, t, x, 1, th1, v, s.byId, th2, v, s.byId);
    Finish(s, s, t, x, th2, v, s.byId);
  }

  // ---------------------------------------------------------------- creating

  function Fresh(v: Server, id: nat): (v': Server)
  {
    v.(serverId := id, calls := 0, failures := if v.dynamic then 0 else v.failures)
  }

  /** The system once thread `t` of server `r` was given the new session `id`. */
  function WithSession(s: System, t: nat, r: nat, v: Server, id: nat): (s': System)
  {
    s.(issued := s.issued[id := t], history := s.history + if v.dynamic then [SessionCreated(r)] else [])
  }

  /** Up to the insertion. */
  lemma CreatesOne(s: System, t: nat, th: Thr, v: Server, id: nat, x: seq<Reply>)
    requires Stands(s, t, th, v) && th.pc == Outer && !v.terminating && th.session == 0
    requires |x| >= 4 && x[1] == Session(id) && id != 0
    ensures Reaches(s, WithSession(s, t, th.r, v, id), t, x, 4, th.(pc := Insert, session := id), Fresh(v, id), s.byId)
  {
    hide Reaches, With;
    var th1, th2 := th.(pc := Connect), th.(pc := Created, session := id);
    var th3, th4 := th2.(pc := Store), th2.(pc := Insert);
    var v3, v4 := v.(failures := if v.dynamic then 0 else v.failures), Fresh(v, id);
    var b2, b := s.(issued := s.issued[id := t]), WithSession(s, t, th.r, v, id);
    Begin(s, t, x, th, v);
    GoesOn(s, s, t, x, 0, th, v, s.byId, th1, v, s.byId);
    NotedInTurn(s, t, th1, v, th2, th3);
    GoesOver(s, s, t, x, 1, th1, v, s.byId, th2, v, s.byId);
    GoesOver(s, b2, t, x, 2, th2, v, s.byId, th3, v3, s.byId);
    GoesOn(s, b, t, x, 3, th3, v3, s.byId, th4, v4, s.byId);
  }

  lemma NotedInTurn(s: System, t: nat, th1: Thr, v: Server, th2: Thr, th3: Thr)
    requires th1.pc == Connect && th2 == th1.(pc := Created, session := th2.session) && th3.pc == Store
    ensures var b := s.(issued := s.issued[th2.session := t]);
            Noted(s, t, th1, v, th2) == b && Noted(b, t, th2, v, th3) == WithSession(s, t, th1.r, v, th2.session)
  {
  }

  /** A thread without a session creates one: the server counts no calls and no failures, and publishes
      it.  If the lookup takes it the thread polls on it. */
  lemma Creates(s: System, t: nat, th: Thr, v: Server, id: nat, x: seq<Reply>)
    requires Stands(s, t, th, v) && th.pc == Outer && !v.terminating && th.session == 0
    requires |x| == 5 && x[1] == Session(id) && id != 0 && x[4] == Success
    ensures Leads(s, Turns(t, x),
              With(WithSession(s, t, th.r, v, id), t, th.(pc := Inner, session := id), Fresh(v, id), s.byId[id := th.r]))
  {
    hide Reaches, With, WithSession, Fresh;
    var b, v', byId, th' := WithSession(s, t, th.r, v, id), Fresh(v, id), s.byId[id := th.r], th.(pc := Inner, session := id);
    CreatesOne(s, t, th, v, id, x);
    GoesOn(s, b, t, x, 4, th.(pc := Insert, session := id), v', s.byId, th', v', byId);
    Finish(s, b, t, x, th', v', byId);
  }

  /** If the lookup refuses it, it is forgotten again. */
  lemma CreatesInVain(s: System, t: nat, th: Thr, v: Server, id: nat, x: seq<Reply>)
    requires Stands(s, t, th, v) && th.pc == Outer && !v.terminating && th.session == 0
    requires |x| == 6 && x[1] == Session(id) && id != 0 && x[4] != Success
    ensures Leads(s, Turns(t, x), With(WithSession(s, t, th.r, v, id), t, th.(pc := Inner), Fresh(v, 0), s.byId))
  {
    hide Reaches, With, WithSession;
    var b, v', th4, th5 := WithSession(s, t, th.r, v, id), Fresh(v, id), th.(pc := Insert, session := id), th.(pc := Undo, session := id);
    CreatesOne(s, t, th, v, id, x);
    GoesOn(s, b, t, x, 4, th4, v', s.byId, th5, v', s.byId);
    GoesOn(s, b, t, x, 5, th5, v', s.byId, th.(pc := Inner), Fresh(v, 0), s.byId);
    Finish(s, b, t, x, th.(pc := Inner), Fresh(v, 0), s.byId);
  }

  /** The server may be given up: it has no calls, no published session and as many failures as are
      allowed. */
  predicate GivesUp(v: Server, failMax: nat) {
    v.calls == 0 && v.serverId == 0 && 0 < failMax <= v.failures
  }

  /** A static server whose thread fails to create a session is as it was. */
  lemma CreateFailsStatic(s: System, t: nat, th: Thr, v: Server, x: seq<Reply>)
    requires Stands(s, t, th, v) && th.pc == Outer && !v.terminating && th.session == 0 && !v.dynamic
    requires |x| == 3 && (x[1] == SocketError || x[1] == Refused || x[1] == Session(0))
    ensures Leads(s, Turns(t, x), With(s, t, th.(pc := Inner), v, s.byId))
  {
    hide Reaches, With;
    var th1, th2 := th.(pc := Connect), th.(pc := Failed);
    Begin(s, t, x, th, v);
    GoesOn(s, s, t, x, 0, th, v, s.byId, th1, v, s.byId);
    GoesOn(s, s, t, x, 1, th1, v, s.byId, th2, v, s.byId);
    GoesOn(s, s, t, x, 2, th2, v, s.byId, th.(pc := Inner), v, s.byId);
    Finish(s, s, t, x, th.(pc := Inner), v, s.byId);
  }

  function Failing(v: Server): (v': Server)
  {
    v.(failures := (v.failures + 1) % 0x1_0000_0000)
  }

  lemma FailsOnce(s: System, t: nat, th: Thr, v: Server, x: seq<Reply>)
    requires Stands(s, t, th, v) && th.pc == Outer && !v.terminating && th.session == 0 && v.dynamic
    requires |x| >= 3 && (x[1] == SocketError || x[1] == Refused || x[1] == Session(0))
    ensures Reaches(s, s.(history := s.history + [CreateFailed(th.r)]), t, x, 3, th.(pc := Recorded), Failing(v), s.byId)
  {
    hide Reaches, With;
    var th1, th2, th3 := th.(pc := Connect), th.(pc := Failed), th.(pc := Recorded);
    Begin(s, t, x, th, v);
    GoesOn(s, s, t, x, 0, th, v, s.byId, th1, v, s.byId);
    GoesOn(s, s, t, x, 1, th1, v, s.byId, th2, v, s.byId);
    assert Noted(s, t, th2, v, th3) == s.(history := s.history + [CreateFailed(th.r)]);
    GoesOver(s, s, t, x, 2, th2, v, s.byId, th3, Failing(v), s.byId);
  }

  /** On a dynamic server the failure is counted, in 32 bits; unless that makes it give up, the thread
      tries again. */
  lemma CreateFails(s: System, t: nat, th: Thr, v: Server, x: seq<Reply>)
    requires Stands(s, t, th, v) && th.pc == Outer && !v.terminating && th.session == 0 && v.dynamic
    requires |x| == 4 && (x[1] == SocketError || x[1] == Refused || x[1] == Session(0))
    requires !GivesUp(Failing(v), s.failMax)
    ensures Leads(s, Turns(t, x), With(s.(history := s.history + [CreateFailed(th.r)]), t, th.(pc := Inner), Failing(v), s.byId))
  {
    hide Reaches, With;
    var b := s.(history := s.history + [CreateFailed(th.r)]);
    FailsOnce(s, t, th, v, x);
    GoesOn(s, b, t, x, 3, th.(pc := Recorded), Failing(v), s.byId, th.(pc := Inner), Failing(v), s.byId);
    Finish(s, b, t, x, th.(pc := Inner), Failing(v), s.byId);
  }

  /** If it does, the server is marked and the thread leaves its loop. */
  lemma CreateFailsForGood(s: System, t: nat, th: Thr, v: Server, x: seq<Reply>)
    requires Stands(s, t, th, v) && th.pc == Outer && !v.terminating && th.session == 0 && v.dynamic
    requires |x| == 5 && (x[1] == SocketError || x[1] == Refused || x[1] == Session(0))
    requires GivesUp(Failing(v), s.failMax)
    ensures Leads(s, Turns(t, x),
              With(s.(history := s.history + [CreateFailed(th.r)]), t, th.(pc := Done, decided := |s.history| + 1),
                   Failing(v).(evicted := true), s.byId))
  {
    hide Reaches, With;
    var b := s.(history := s.history + [CreateFailed(th.r)]);
    var th4, th5 := th.(pc := Decided, decided := |s.history| + 1), th.(pc := Done, decided := |s.history| + 1);
    var v4, v5 := Failing(v), Failing(v).(evicted := true);
    FailsOnce(s, t, th, v, x);
    GoesOn(s, b, t, x, 3, th.(pc := Recorded), v4, s.byId, th4, v4, s.byId);
    GoesOn(s, b, t, x, 4, th4, v4, s.byId, th5, v5, s.byId);
    Finish(s, b, t, x, th5, v5, s.byId);
  }

  // ---------------------------------------------------------------- leaving

  /** A thread that sees its server terminating takes its session out of the lookup and ends. */
  lemma Ends(s: System, t: nat, th: Thr, v: Server, x: seq<Reply>)
    requires Stands(s, t, th, v) && th.pc == Outer && v.terminating && |x| == 3
    ensures Leads(s, Turns(t, x), With(s, t, th.(pc := if v.evicted then Leave else Ended), v, s.byId - {th.session}))
  {
    hide Reaches, With;
    var th1, th2, th3 := th.(pc := Done), th.(pc := Check), th.(pc := if v.evicted then Leave else Ended);
    var rest := s.byId - {th.session};
    Begin(s, t, x, th, v);
    GoesOn(s, s, t, x, 0, th, v, s.byId, th1, v, s.byId);
    GoesOn(s, s, t, x, 1, th1, v, s.byId, th2, v, rest);
    GoesOn(s, s, t, x, 2, th2, v, rest, th3, v, rest);
    Finish(s, s, t, x, th3, v, rest);
  }

  /** The last thread of an evicted server takes the server out of both tables: its name, the session it
      published, and its marks of being enabled and published. */
  lemma LeavesTables(s: System, t: nat, th: Thr, v: Server, any: Reply)
    requires Stands(s, t, th, v) && th.pc == Leave && v.dynamic && v.name in s.names
    ensures DoThread(s, t, any) ==
            With(s, t, th.(pc := Ended), v.(serverId := 0, enabled := false), if v.serverId != 0 then s.byId - {v.serverId} else s.byId)
              .(names := s.names - {v.name})
  {
  }

  // ---------------------------------------------------------------- starting and stopping

  ghost predicate Goes(s: System, step: Step, s': System) {
    Enabled(s, step) && Do(s, step) == s'
  }

  lemma TwoSteps(s: System, x: Step, s1: System, y: Step, s2: System)
    requires Goes(s, x, s1) && Goes(s1, y, s2)
    ensures Leads(s, [x, y], s2)
  {
    hide Do, Enabled;
    NoStep(s);
    OneMore(s, [], x);
    assert [] + [x] == [x] && [x] + [y] == [x, y];
    OneMore(s, [x], y);
  }

  lemma FirstThen(s: System, x: Step, s1: System, rest: seq<Step>, s2: System)
    requires Goes(s, x, s1) && Leads(s1, rest, s2)
    ensures Leads(s, [x] + rest, s2)
  {
    hide Do, Enabled;
    NoStep(s);
    OneMore(s, [], x);
    assert [] + [x] == [x];
    Continue(s, [x], rest);
  }

  /** Server `r` with a thread just created for it by call `a`. */
  function Started(s: System, a: nat, r: nat, v: Server, locked: bool): (s': System)
    requires a < |s.agents| && r < |s.servers|
  {
    s.(agents := s.agents[a := Finished(r)], threads := s.threads + [Thr(r, Outer, 0, 0)], locked := locked,
       servers := s.servers[r := v.(enabled := true, thread := Some(|s.threads|))])
  }

  /** A start that is forced, or finds the server disabled, enables it and creates a thread for it; any
      other changes nothing. */
  lemma Starts(s: System, a: nat, r: nat, force: bool, v: Server)
    requires a < |s.agents| && r < |s.servers| && s.agents[a] == Starting(r, force) && s.servers[r] == v
    ensures force || !v.enabled ==> Leads(s, [Act(a), Act(a)], Started(s, a, r, v, s.locked && !force))
    ensures !force && v.enabled ==> Goes(s, Act(a), s.(agents := s.agents[a := Finished(r)]))
  {
    hide Leads;
    if force || !v.enabled {
      var s1 := s.(agents := s.agents[a := Spawning(r, force)], servers := s.servers[r := v.(enabled := true)]);
      assert Goes(s, Act(a), s1);
      SpawnsNext(s, a, r, force, v, s1);
      TwoSteps(s, Act(a), s1, Act(a), Started(s, a, r, v, s.locked && !force));
    }
  }

  lemma SpawnsNext(s: System, a: nat, r: nat, force: bool, v: Server, s1: System)
    requires a < |s.agents| && r < |s.servers|
    requires s1 == s.(agents := s.agents[a := Spawning(r, force)], servers := s.servers[r := v.(enabled := true)])
    ensures Goes(s1, Act(a), Started(s, a, r, v, s.locked && !force))
  {
  }

  /** A stop of a server with a running thread tells the thread and waits for it. */
  lemma Stops(s: System, a: nat, r: nat, evicts: bool, v: Server, t: nat)
    requires a < |s.agents| && r < |s.servers| && s.agents[a] == Stopping(r, evicts) && s.servers[r] == v
    requires v.enabled && !v.terminating && v.thread == Some(t)
    ensures Leads(s, [Act(a), Act(a)],
              s.(agents := s.agents[a := Waiting(r, t)], servers := s.servers[r := v.(terminating := true)]))
  {
    hide Leads;
    var s1 := s.(agents := s.agents[a := AtJoin(r)], servers := s.servers[r := v.(terminating := true)]);
    var s2 := s.(agents := s.agents[a := Waiting(r, t)], servers := s.servers[r := v.(terminating := true)]);
    assert Goes(s, Act(a), s1);
    assert Goes(s1, Act(a), s2) by { assert s1.servers[r := s1.servers[r]] == s1.servers; }
    TwoSteps(s, Act(a), s1, Act(a), s2);
  }

  /** Once the thread has ended, and not before, the server is disabled. */
  lemma StopsOver(s: System, a: nat, r: nat, v: Server, t: nat)
    requires a < |s.agents| && r < |s.servers| && s.agents[a] == Waiting(r, t) && s.servers[r] == v && t < |s.threads|
    ensures Enabled(s, Act(a)) <==> s.threads[t].pc == Ended
    ensures s.threads[t].pc == Ended ==>
              Leads(s, [Act(a), Act(a)],
                s.(agents := s.agents[a := Finished(r)],
                   servers := s.servers[r := v.(terminating := false, enabled := false, thread := None)]))
  {
    hide Leads;
    if s.threads[t].pc == Ended {
      var s1 := s.(agents := s.agents[a := Clearing(r)], servers := s.servers[r := v.(thread := None)]);
      var s2 := s.(agents := s.agents[a := Finished(r)],
                   servers := s.servers[r := v.(terminating := false, enabled := false, thread := None)]);
      assert Goes(s, Act(a), s1);
      assert Goes(s1, Act(a), s2) by {
        assert s1.servers[r := v.(terminating := false, enabled := false, thread := None)] == s2.servers;
      }
      TwoSteps(s, Act(a), s1, Act(a), s2);
    }
  }

  /** A stop that finds no thread takes an evicted dynamic server out of both tables, and leaves any other
      as it is. */
  lemma StopsNothing(s: System, a: nat, r: nat, evicts: bool, v: Server)
    requires a < |s.agents| && r < |s.servers| && s.agents[a] == Stopping(r, evicts) && s.servers[r] == v && !s.locked
    requires !v.enabled || v.terminating || v.thread.None?
    ensures var done := s.(agents := s.agents[a := Finished(r)]);
            Leads(s, [Act(a), Act(a)],
              if v.evicted && v.dynamic && v.name in s.names then
                done.(servers := s.servers[r := v.(serverId := 0, enabled := false)], names := s.names - {v.name},
                      byId := if v.serverId != 0 then s.byId - {v.serverId} else s.byId)
              else done)
  {
    hide Leads;
    var s1 := s.(agents := s.agents[a := AtElse(r, evicts)]);
    var done := s.(agents := s.agents[a := Finished(r)]);
    var s2 := if v.evicted && v.dynamic && v.name in s.names then
                done.(servers := s.servers[r := v.(serverId := 0, enabled := false)], names := s.names - {v.name},
                      byId := if v.serverId != 0 then s.byId - {v.serverId} else s.byId)
              else done;
    assert s.servers[r := v] == s.servers;
    assert Goes(s, Act(a), s1);
    assert Goes(s1, Act(a), s2);
    TwoSteps(s, Act(a), s1, Act(a), s2);
  }

  /** A refresh that sees an unknown name registers a dynamic server under it and gives it a thread, all
      under the global mutex. */
  lemma Registers(s: System, name: bytes)
    requires Enabled(s, Register(name))
    ensures var a, r := |s.agents|, |s.servers|;
            Leads(s, [Register(name)] + [Act(a), Act(a)],
              s.(servers := s.servers + [Server(name, true, true, false, false, Some(|s.threads|), 0, 0, 0)],
                 names := s.names[name := r], threads := s.threads + [Thr(r, Outer, 0, 0)],
                 agents := s.agents + [Finished(r)], history := s.history + [Sighted(r)]))
  {
    hide Leads;
    var a, r, v := |s.agents|, |s.servers|, Server(name, true, true, false, false, None, 0, 0, 0);
    var s1 := s.(servers := s.servers + [v], names := s.names[name := r], agents := s.agents + [Starting(r, true)],
                 locked := true, history := s.history + [Sighted(r)]);
    assert Goes(s, Register(name), s1);
    Starts(s1, a, r, true, v);
    FirstThen(s, Register(name), s1, [Act(a), Act(a)], Started(s1, a, r, v, false));
    assert (s.servers + [v])[r := v.(enabled := true, thread := Some(|s.threads|))] == s.servers + [v.(thread := Some(|s.threads|))];
    assert (s.agents + [Starting(r, true)])[a := Finished(r)] == s.agents + [Finished(r)];
  }

  /** A refresh that sees a disabled dynamic server gives it a thread. */
  lemma Restarts(s: System, name: bytes)
    requires Enabled(s, Test(name))
    ensures var a, r := |s.agents|, s.names[name];
            Leads(s, [Test(name)] + [Act(a), Act(a)],
              s.(servers := s.servers[r := s.servers[r].(enabled := true, thread := Some(|s.threads|))],
                 threads := s.threads + [Thr(r, Outer, 0, 0)], agents := s.agents + [Finished(r)]))
  {
    hide Leads;
    var a, r := |s.agents|, s.names[name];
    var s1 := s.(agents := s.agents + [Starting(r, true)], locked := true);
    assert Goes(s, Test(name), s1);
    Starts(s1, a, r, true, s.servers[r]);
    FirstThen(s, Test(name), s1, [Act(a), Act(a)], Started(s1, a, r, s.servers[r], false));
    assert (s.agents + [Starting(r, true)])[a := Finished(r)] == s.agents + [Finished(r)];
  }

  /** A refresh that evicts a listed server without a thread takes it out of both tables. */
  lemma EvictsIdle(s: System, r: nat, v: Server)
    requires r < |s.servers| && s.servers[r] == v && v.dynamic && v.name in s.names && v.thread.None? && !s.locked
    ensures var a := |s.agents|;
            Leads(s, [Mark(r)] + [Act(a), Act(a)],
              s.(servers := s.servers[r := v.(evicted := true, serverId := 0, enabled := false)], names := s.names - {v.name},
                 byId := if v.serverId != 0 then s.byId - {v.serverId} else s.byId, agents := s.agents + [Finished(r)]))
  {
    hide Leads;
    var a, v1 := |s.agents|, v.(evicted := true);
    var s1 := s.(servers := s.servers[r := v1], agents := s.agents + [Stopping(r, true)]);
    assert Goes(s, Mark(r), s1);
    StopsNothing(s1, a, r, true, v1);
    var done := s1.(agents := s1.agents[a := Finished(r)]);
    var s2 := done.(servers := s1.servers[r := v1.(serverId := 0, enabled := false)], names := s.names - {v.name},
                    byId := if v.serverId != 0 then s.byId - {v.serverId} else s.byId);
    FirstThen(s, Mark(r), s1, [Act(a), Act(a)], s2);
    assert (s.agents + [Stopping(r, true)])[a := Finished(r)] == s.agents + [Finished(r)];
    assert s1.servers[r := v1.(serverId := 0, enabled := false)] == s.servers[r := v.(evicted := true, serverId := 0, enabled := false)];
  }

  /** The console starts a server unless it is enabled. */
  lemma ConsoleStarts(s: System, name: bytes)
    requires Enabled(s, FindToStart(name))
    ensures var a, r := |s.agents|, s.names[name];
            var v, s1 := s.servers[r], s.(agents := s.agents + [Starting(r, false)]);
            && Goes(s, FindToStart(name), s1)
            && (v.enabled ==> Goes(s1, Act(a), s.(agents := s.agents + [Finished(r)])))
            && (!v.enabled ==>
                  Leads(s1, [Act(a), Act(a)],
                    s.(servers := s.servers[r := v.(enabled := true, thread := Some(|s.threads|))],
                       threads := s.threads + [Thr(r, Outer, 0, 0)], agents := s.agents + [Finished(r)])))
  {
    hide Leads;
    var a, r := |s.agents|, s.names[name];
    var v, s1 := s.servers[r], s.(agents := s.agents + [Starting(r, false)]);
    Starts(s1, a, r, false, v);
    assert (s.agents + [Starting(r, false)])[a := Finished(r)] == s.agents + [Finished(r)];
  }

  /** The console stops a server with a running thread: it tells the thread and waits for it. */
  lemma ConsoleStops(s: System, name: bytes, t: nat)
    requires Enabled(s, FindToStop(name))
    requires var v := s.servers[s.names[name]]; v.enabled && !v.terminating && v.thread == Some(t)
    ensures var a, r := |s.agents|, s.names[name];
            var s1 := s.(agents := s.agents + [Stopping(r, false)]);
            && Goes(s, FindToStop(name), s1)
            && Leads(s1, [Act(a), Act(a)],
                 s.(servers := s.servers[r := s.servers[r].(terminating := true)], agents := s.agents + [Waiting(r, t)]))
  {
    hide Leads;
    var a, r := |s.agents|, s.names[name];
    var s1 := s.(agents := s.agents + [Stopping(r, false)]);
    Stops(s1, a, r, false, s.servers[r], t);
    assert (s.agents + [Stopping(r, false)])[a := Waiting(r, t)] == s.agents + [Waiting(r, t)];
  }

  /** A sighting, and a dial that confirms the server, clear its failures; a call that cannot be made
      takes the published id back. */
  lemma Clears(s: System, r: nat, v: Server)
    requires r < |s.servers| && s.servers[r] == v
    ensures v.dynamic && Listed(s, r) && !s.locked ==>
              Goes(s, Sight(v.name), s.(servers := s.servers[r := v.(failures := 0)], history := s.history + [Sighted(r)]))
    ensures v.dynamic ==>
              Goes(s, Confirm(r), s.(servers := s.servers[r := v.(failures := 0)], history := s.history + [Confirmed(r)]))
    ensures Goes(s, ForgetId(r), s.(servers := s.servers[r := v.(serverId := 0)]))
    ensures forall n: nat :: Goes(s, SetCalls(r, n), s.(servers := s.servers[r := v.(calls := n)]))
  {
  }
}

/**
 What a start does that finds a thread.  The refresh tests the enabled flag without its lock and
 then forces the start, so the console may start the same server in between; and a server has as many
 threads as were started.  Two entries of `serverIdLookup` for one server can follow exactly if the
 server has, or is about to get, a thread that stays in its loop.
 */
module ServerRaces {
  import opened Bytes
  import opened ServerThread
  import opened ServerLaws

  // ---------------------------------------------------------------- what a server can do by itself

  /** A step of one of the server's threads, the creation of one, or a change of its calls. */
  ghost predicate Own(s: System, step: Step, r: nat) {
    match step
    case Thread(t, _) => t < |s.threads| && s.threads[t].r == r
    case Act(a) => a < |s.agents| && s.agents[a].Spawning? && s.agents[a].r == r
    case SetCalls(q, _) => q == r
    case _ => false
  }

  ghost predicate OwnRun(s: System, steps: seq<Step>, r: nat)
    decreases |steps|
  {
    && Legal(s, steps)
    && (steps == [] ||
        (OwnRun(s, steps[..|steps| - 1], r) && Own(After(s, steps[..|steps| - 1]), steps[|steps| - 1], r)))
  }

  ghost predicate TwoEntries(s: System, r: nat) {
    exists i, j :: i in s.byId && j in s.byId && i != j && s.byId[i] == r && s.byId[j] == r
  }

  /** A thread that has not left its loop and is not bound to. */
  predicate InLoop(pc: Pc) {
    !Leaving(pc) && !pc.Decided?
  }

  /** The server is not being stopped, and a thread of it is in its loop or about to be created. */
  ghost predicate Busy(s: System, r: nat)
    requires r < |s.servers|
  {
    && !s.servers[r].terminating
    && ( || (exists t :: 0 <= t < |s.threads| && s.threads[t].r == r && InLoop(s.threads[t].pc))
         || !NobodySpawns(s, r))
  }

  lemma OwnMore(s: System, steps: seq<Step>, step: Step, r: nat)
    requires OwnRun(s, steps, r) && Enabled(After(s, steps), step) && Own(After(s, steps), step, r)
    ensures OwnRun(s, steps + [step], r) && After(s, steps + [step]) == Do(After(s, steps), step)
  {
    hide Do, Enabled, Own;
    OneMore(s, steps, step);
    assert (steps + [step])[..|steps|] == steps;
  }

  lemma OwnFront(s: System, steps: seq<Step>, r: nat)
    requires OwnRun(s, steps, r) && steps != []
    ensures var front, last := steps[..|steps| - 1], steps[|steps| - 1];
            && OwnRun(s, front, r) && Enabled(After(s, front), last) && Own(After(s, front), last, r)
            && After(s, steps) == Do(After(s, front), last)
  {
    hide Do, Enabled, Own;
  }

  lemma {:induction false} OwnContinue(s: System, steps: seq<Step>, more: seq<Step>, r: nat)
    requires OwnRun(s, steps, r) && OwnRun(After(s, steps), more, r)
    ensures OwnRun(s, steps + more, r) && After(s, steps + more) == After(After(s, steps), more)
    decreases |more|
  {
    if more == [] {
      assert steps + more == steps;
    } else {
      var front, last := more[..|more| - 1], more[|more| - 1];
      assert steps + more == (steps + front) + [last];
      hide *;
      OwnFront(After(s, steps), more, r);
      OwnContinue(s, steps, front, r);
      OwnMore(s, steps + front, last, r);
    }
  }

  // ---------------------------------------------------------------- one entry at most

  /** A thread that will never enter a session again. */
  predicate Out(th: Thr, v: Server) {
    Leaving(th.pc) || th.pc.Decided? || (th.pc.Outer? && v.terminating)
  }

  predicate Armed(th: Thr) {
    th.pc.Claimed? || th.pc.Created? || th.pc.Store? || th.pc.Insert? ==> th.session != 0
  }

  /** Of the server's threads only `lone` has, or can get, an entry. */
  ghost predicate Alone(s: System, r: nat, lone: nat) {
    && r < |s.servers| && lone < |s.threads| && s.threads[lone].r == r && Armed(s.threads[lone]) && NobodySpawns(s, r)
    && (forall u :: 0 <= u < |s.threads| && s.threads[u].r == r && u != lone ==> Out(s.threads[u], s.servers[r]))
    && (forall k :: k in s.byId && s.byId[k] == r ==> EntryOk(k, s.threads[lone], s.servers[r]))
  }

  lemma AloneHasOne(s: System, r: nat, lone: nat)
    requires Alone(s, r, lone)
    ensures !TwoEntries(s, r)
  {
  }

  lemma OutStays(th: Thr, v: Server, failMax: nat, found: bool, seen: nat, reply: Reply)
    requires Out(th, v)
    ensures Out(NextThr(th, v, failMax, found, seen, reply), v)
    ensures !th.pc.Insert?
  {
  }

  lemma LoneGoesOn(th: Thr, v: Server, failMax: nat, found: bool, seen: nat, reply: Reply)
    requires Armed(th)
    ensures var th' := NextThr(th, v, failMax, found, seen, reply);
            && Armed(th')
            && (found && EntryOk(th.session, th, v) && !th.pc.DropEntry? && !th.pc.Done? ==> EntryOk(th.session, th', v))
            && (th.pc.Insert? && reply == Success ==> EntryOk(th.session, th', v))
  {
  }

  lemma ThreadKeepsAlone(s: System, t: nat, reply: Reply, r: nat, lone: nat)
    requires Alone(s, r, lone) && t < |s.threads| && s.threads[t].r == r
    ensures Alone(DoThread(s, t, reply), r, lone)
  {
    hide NextThr, DoThread, EntryOk, Out, Armed;
    ThreadFrame(s, t, reply);
    var th, s' := s.threads[t], DoThread(s, t, reply);
    var v, v' := s.servers[r], s'.servers[r];
    LoneGoesOn(s.threads[lone], v, s.failMax, s.threads[lone].session in s.byId, |s.history|, reply);
    forall u | 0 <= u < |s'.threads| && s'.threads[u].r == r && u != lone ensures Out(s'.threads[u], v') {
      OutStays(s.threads[u], v, s.failMax, s.threads[u].session in s.byId, |s.history|, reply);
      SameOut(s'.threads[u], v, v');
    }
    forall k | k in s'.byId && s'.byId[k] == r ensures EntryOk(k, s'.threads[lone], v') {
      SameEntry(k, s'.threads[lone], v, v');
      EntrySession(k, s.threads[lone], v);
      if t != lone {
        OutStays(th, v, s.failMax, th.session in s.byId, |s.history|, reply);
      }
    }
  }

  lemma SameOut(th: Thr, v: Server, v': Server)
    requires v'.terminating == v.terminating
    ensures Out(th, v) == Out(th, v')
  {
  }

  lemma {:induction false} StaysAlone(s: System, steps: seq<Step>, r: nat, lone: nat)
    requires Alone(s, r, lone) && OwnRun(s, steps, r)
    ensures Alone(After(s, steps), r, lone)
    decreases |steps|
  {
    if steps != [] {
      var front, last := steps[..|steps| - 1], steps[|steps| - 1];
      StaysAlone(s, front, r, lone);
      hide After;
      var s1 := After(s, front);
      match last
      case Thread(t, reply) => ThreadKeepsAlone(s1, t, reply, r, lone);
      case SetCalls(_, calls) => CallsKeepAlone(s1, r, lone, calls);
      case _ =>
    }
  }

  lemma CallsKeepAlone(s: System, r: nat, lone: nat, calls: nat)
    requires Alone(s, r, lone)
    ensures Alone(Do(s, SetCalls(r, calls)), r, lone)
  {
  }

  // ---------------------------------------------------------------- getting an entry

  /** The thread's session leads to its server. */
  predicate Entered(s: System, t: nat)
    requires t < |s.threads|
  {
    s.threads[t].session in s.byId && s.byId[s.threads[t].session] == s.threads[t].r
  }

  /** A thread that can still get an entry, of a server that is not being stopped. */
  ghost predicate Able(s: System, t: nat) {
    && t < |s.threads| && s.threads[t].r < |s.servers| && 0 !in s.byId
    && InLoop(s.threads[t].pc) && Armed(s.threads[t]) && !s.servers[s.threads[t].r].terminating
  }

  /** How far the thread is from an entry if nobody answers it but to give it a new session. */
  function Distance(th: Thr, found: bool): (n: nat)
  {
    match th.pc
    case Claimed => 1
    case Store => 1
    case Created => 2
    case Connect => if th.session == 0 then 3 else 6
    case Outer => if th.session == 0 then 4 else 7
    case Inner => if th.session == 0 then 5 else if found then 12 else 8
    case Undo => 6
    case Reset => if found then 13 else 9
    case DropEntry => 10
    case Poll => 11
    case Recorded => 14
    case Failed => 15
    case _ => 0
  }

  /** The reply that brings the thread nearer. */
  function Helpful(th: Thr, id: nat): (reply: Reply)
  {
    match th.pc
    case Connect => if th.session == 0 then Session(id) else Refused
    case Insert => Success
    case _ => Refused
  }

  lemma Nearer(th: Thr, v: Server, failMax: nat, found: bool, seen: nat, id: nat, found': bool)
    requires InLoop(th.pc) && Armed(th) && id != 0 && !v.terminating && v.calls > 0 && (th.session == 0 ==> !found)
    requires var th' := NextThr(th, v, failMax, found, seen, Helpful(th, id));
             (th'.session == 0 ==> !found') && (th'.session == th.session ==> found' == (found && !th.pc.DropEntry?))
    requires !th.pc.Insert?
    ensures var th' := NextThr(th, v, failMax, found, seen, Helpful(th, id));
            InLoop(th'.pc) && Armed(th') && Distance(th', found') < Distance(th, found)
  {
  }

  lemma HelpfulSession(th: Thr, v: Server, failMax: nat, found: bool, seen: nat, id: nat)
    ensures var th' := NextThr(th, v, failMax, found, seen, Helpful(th, id));
            th'.session == th.session || th'.session == 0 || th'.session == id
  {
  }

  lemma Arrives(th: Thr, v: Server, failMax: nat, found: bool, seen: nat, id: nat)
    requires th.pc.Insert? && Armed(th)
    ensures NextThr(th, v, failMax, found, seen, Helpful(th, id)) == th.(pc := Inner)
    ensures Helpful(th, id) == Success && th.session != 0
  {
  }

  /** No entry goes but the one under the thread's session, and the thread takes no session that
      has an entry. */
  ghost predicate Disturbs(s: System, s': System, t: nat) {
    && t < |s.threads| && t < |s'.threads|
    && (forall k :: k in s.byId && k != s.threads[t].session ==> k in s'.byId && s'.byId[k] == s.byId[k])
    && (s'.threads[t].session == s.threads[t].session || s'.threads[t].session !in s.byId)
  }

  /** The thread takes its step while calls keep the server from evicting itself. */
  lemma StepNearer(s: System, t: nat, id: nat)
    requires Able(s, t) && id != 0 && id !in s.byId && s.servers[s.threads[t].r].calls > 0
    ensures Disturbs(s, Do(s, Thread(t, Helpful(s.threads[t], id))), t)
    ensures var step := Thread(t, Helpful(s.threads[t], id));
            && Enabled(s, step) && Able(Do(s, step), t) && |Do(s, step).threads| == |s.threads|
            && (forall u :: 0 <= u < |s.threads| && u != t ==> Do(s, step).threads[u] == s.threads[u])
            && Do(s, step).threads[t].r == s.threads[t].r
            && (|| Entered(Do(s, step), t)
                || Distance(Do(s, step).threads[t], Do(s, step).threads[t].session in Do(s, step).byId)
                     < Distance(s.threads[t], s.threads[t].session in s.byId))
  {
    var th := s.threads[t];
    var reply, found := Helpful(th, id), th.session in s.byId;
    assert Enabled(s, Thread(t, reply)) && th.pc != Leave;
    var s' := Do(s, Thread(t, reply));
    var v := s.servers[th.r];
    if th.pc.Insert? {
      Arrives(th, v, s.failMax, found, |s.history|, id);
    } else {
      HelpfulSession(th, v, s.failMax, found, |s.history|, id);
      assert s'.byId == if th.pc.DropEntry? then s.byId - {th.session} else s.byId;
      hide Distance, NextThr, Armed, InLoop, Helpful, Logged, NextServer;
      Nearer(th, v, s.failMax, found, |s.history|, id, s'.threads[t].session in s'.byId);
    }
  }

  /** A nonzero number outside the set. */
  lemma {:induction false} FreshNumber(used: set<nat>) returns (id: nat)
    ensures id != 0 && forall x :: x in used ==> x < id
    decreases |used|
  {
    if used == {} {
      id := 1;
    } else {
      var x :| x in used;
      var rest := FreshNumber(used - {x});
      id := if x < rest then rest else x + 1;
      assert forall y :: y in used ==> y == x || y in used - {x};
    }
  }

  lemma StillDisturbs(s: System, s1: System, s2: System, t: nat)
    requires Disturbs(s, s1, t) && Disturbs(s1, s2, t) && 0 !in s.byId
    requires s1.threads[t].session == s.threads[t].session || s1.threads[t].session !in s.byId
    ensures Disturbs(s, s2, t)
  {
  }

  /** A thread in its loop gets an entry, and the other threads need not move. */
  lemma {:induction false} Enter(s: System, t: nat) returns (steps: seq<Step>)
    requires Able(s, t)
    ensures OwnRun(s, steps, s.threads[t].r)
    ensures Disturbs(s, After(s, steps), t)
    ensures var s' := After(s, steps);
            && Able(s', t) && Entered(s', t) && |s'.threads| == |s.threads| && s'.threads[t].r == s.threads[t].r
            && forall u :: 0 <= u < |s.threads| && u != t ==> s'.threads[u] == s.threads[u]
    decreases Distance(s.threads[t], s.threads[t].session in s.byId)
  {
    steps := [];
    if !Entered(s, t) {
      var r := s.threads[t].r;
      var s1 := Do(s, SetCalls(r, 1));
      var id := FreshNumber(s.byId.Keys + s.issued.Keys);
      assert Able(s1, t);
      StepNearer(s1, t, id);
      var step := Thread(t, Helpful(s.threads[t], id));
      var s2 := Do(s1, step);
      assert Disturbs(s, s2, t);
      hide Do, Enabled, Able, Entered, Distance, Disturbs;
      OwnMore(s, [], SetCalls(r, 1), r);
      OwnMore(s, [] + [SetCalls(r, 1)], step, r);
      steps := [] + [SetCalls(r, 1)] + [step];
      if !Entered(s2, t) {
        var more := Enter(s2, t);
        StillDisturbs(s, s2, After(s2, more), t);
        OwnContinue(s, steps, more, r);
        steps := steps + more;
      }
    }
  }

  // ---------------------------------------------------------------- the second thread

  /** The start goes ahead and creates its thread. */
  ghost function Started(s: System, a: nat): (s': System)
    requires a < |s.agents| && s.agents[a].r < |s.servers|
  {
    DoAct(DoAct(s, a), a)
  }

  lemma StartedIs(s: System, a: nat)
    requires Enabled(s, Act(a)) && Passes(s.agents[a], s.servers[s.agents[a].r])
    ensures var r, s' := s.agents[a].r, Started(s, a);
            && s'.threads == s.threads + [Thr(r, Outer, 0, 0)] && s'.byId == s.byId && s'.names == s.names
            && s'.servers == s.servers[r := s.servers[r].(enabled := true, thread := Some(|s.threads|))]
            && s'.agents == s.agents[a := Finished(r)]
            && Enabled(DoAct(s, a), Act(a))
  {
    assert s.agents[a := Spawning(s.agents[a].r, s.agents[a].force)][a := Finished(s.agents[a].r)] == s.agents[a := Finished(s.agents[a].r)];
  }

  /** Otherwise the new thread, or the one being stopped, stays the only one that matters. */
  lemma NotBusyIsAlone(s: System, a: nat) returns (lone: nat)
    requires Inv(s) && Enabled(s, Act(a)) && Passes(s.agents[a], s.servers[s.agents[a].r])
    requires !Busy(s, s.agents[a].r)
    ensures Alone(Started(s, a), s.agents[a].r, lone)
  {
    hide Started, ListingsOk;
    StartedIs(s, a);
    var r, s', n := s.agents[a].r, Started(s, a), |s.threads|;
    var v := s.servers[r];
    lone := if v.terminating && v.thread.Some? then v.thread.value else n;
    assert HandleOk(s, r);
    forall b | 0 <= b < |s'.agents| && s'.agents[b].Spawning? ensures s'.agents[b].r != r {
      AgentAt(s, b);
    }
    forall u | 0 <= u < n && s.threads[u].r == r && u != lone ensures Out(s.threads[u], s'.servers[r]) {
      ThreadAt(s, u);
      if !v.terminating {
        assert !InLoop(s.threads[u].pc);
      }
    }
    assert Armed(s'.threads[lone]) by {
      if lone < n {
        ThreadAt(s, lone);
      }
    }
    forall k | k in s'.byId && s'.byId[k] == r ensures EntryOk(k, s'.threads[lone], s'.servers[r]) {
      EntryAt(s, k);
    }
  }

  /** Two threads in their loops get an entry each. */
  lemma BothEnter(s: System, t: nat, u: nat) returns (steps: seq<Step>)
    requires Able(s, t) && Able(s, u) && t != u && s.threads[t].r == s.threads[u].r && s.threads[u].session == 0
    ensures OwnRun(s, steps, s.threads[t].r) && TwoEntries(After(s, steps), s.threads[t].r)
  {
    var r := s.threads[t].r;
    var first := Enter(s, t);
    var s1 := After(s, first);
    assert Able(s1, u);
    var second := Enter(s1, u);
    var s2 := After(s1, second);
    OwnContinue(s, first, second, r);
    steps := first + second;
    var k := s1.threads[t].session;
    assert k in s2.byId && s2.byId[k] == r;
  }

  /** A start that goes ahead in an orderly run can give its server two entries exactly if the
      server, not being stopped, has a thread in its loop or one about to be created. */
  lemma SecondEntryIff(s0: System, steps: seq<Step>, a: nat)
    requires Initial(s0) && Legal(s0, steps) && Orderly(s0, steps)
    requires var s := After(s0, steps); Enabled(s, Act(a)) && Passes(s.agents[a], s.servers[s.agents[a].r])
    ensures var s := After(s0, steps);
            (exists more :: OwnRun(Started(s, a), more, s.agents[a].r) && TwoEntries(After(Started(s, a), more), s.agents[a].r))
            <==> Busy(s, s.agents[a].r)
  {
    var s := After(s0, steps);
    RunKeepsInv(s0, steps);
    hide After, Legal, Initial, Orderly;
    if Busy(s, s.agents[a].r) {
      var more := BusyGetsTwo(s, a);
    } else {
      var lone := NotBusyIsAlone(s, a);
      forall more | OwnRun(Started(s, a), more, s.agents[a].r) ensures !TwoEntries(After(Started(s, a), more), s.agents[a].r) {
        StaysAlone(Started(s, a), more, s.agents[a].r, lone);
        AloneHasOne(After(Started(s, a), more), s.agents[a].r, lone);
      }
    }
  }

  lemma BusyGetsTwo(s: System, a: nat) returns (steps: seq<Step>)
    requires Inv(s) && Enabled(s, Act(a)) && Passes(s.agents[a], s.servers[s.agents[a].r])
    requires Busy(s, s.agents[a].r)
    ensures OwnRun(Started(s, a), steps, s.agents[a].r)
    ensures TwoEntries(After(Started(s, a), steps), s.agents[a].r)
  {
    hide Started, ListingsOk;
    StartedIs(s, a);
    var r, s', n := s.agents[a].r, Started(s, a), |s.threads|;
    assert 0 !in s.byId by {
      if 0 in s.byId {
        EntryAt(s, 0);
      }
    }
    assert Able(s', n);
    if t :| 0 <= t < n && s.threads[t].r == r && InLoop(s.threads[t].pc) {
      ThreadAt(s, t);
      assert s'.threads[t] == s.threads[t];
      steps := BothEnter(s', t, n);
    } else {
      var b :| 0 <= b < |s.agents| && s.agents[b].Spawning? && s.agents[b].r == r;
      assert s'.agents[b] == s.agents[b];
      var s2 := Do(s', Act(b));
      OwnMore(s', [], Act(b), r);
      assert After(s', [] + [Act(b)]) == s2;
      assert s2.threads == s'.threads + [Thr(r, Outer, 0, 0)] && s2.byId == s'.byId;
      var more := BothEnter(s2, n, n + 1);
      OwnContinue(s', [] + [Act(b)], more, r);
      steps := [] + [Act(b)] + more;
    }
  }

  // ---------------------------------------------------------------- one thread at a time

  /** No server has two threads, or one while another is created, or two being created. */
  ghost predicate Lonely(s: System) {
    && (forall t, u :: 0 <= t < u < |s.threads| && !s.threads[t].pc.Ended? && !s.threads[u].pc.Ended? ==>
          s.threads[t].r != s.threads[u].r)
    && (forall t :: 0 <= t < |s.threads| && !s.threads[t].pc.Ended? ==> NobodySpawns(s, s.threads[t].r))
    && (forall a, b :: 0 <= a < b < |s.agents| && s.agents[a].Spawning? && s.agents[b].Spawning? ==>
          s.agents[a].r != s.agents[b].r)
  }

  /** A start that goes ahead finds no live thread and none being created. */
  ghost predicate QuietStart(s: System, step: Step) {
    step.Act? && Enabled(s, step) && Passes(s.agents[step.a], s.servers[s.agents[step.a].r]) ==>
      var r := s.agents[step.a].r;
      NobodySpawns(s, r) && forall t :: 0 <= t < |s.threads| && s.threads[t].r == r ==> s.threads[t].pc.Ended?
  }

  ghost predicate AlwaysLonely(s: System, steps: seq<Step>)
    requires Legal(s, steps)
    decreases |steps|
  {
    Lonely(After(s, steps)) && (steps == [] || AlwaysLonely(s, steps[..|steps| - 1]))
  }

  ghost predicate AlwaysQuiet(s: System, steps: seq<Step>)
    requires Legal(s, steps)
    decreases |steps|
  {
    steps == [] ||
    (AlwaysQuiet(s, steps[..|steps| - 1]) && QuietStart(After(s, steps[..|steps| - 1]), steps[|steps| - 1]))
  }

  lemma StepStaysLonely(s: System, step: Step)
    requires Lonely(s) && Enabled(s, step)
    ensures Lonely(Do(s, step)) <==> QuietStart(s, step)
  {
    hide NextThr, DoThread, DoAct, ActOn;
    var s' := Do(s, step);
    if step.Thread? {
      ThreadFrame(s, step.t, step.reply);
      assert forall r :: NobodySpawns(s, r) <==> NobodySpawns(s', r);
    } else if step.Act? {
      ActStaysLonely(s, step.a);
    } else {
      assert s'.threads == s.threads && s.agents <= s'.agents;
      assert forall b :: |s.agents| <= b < |s'.agents| ==> !s'.agents[b].Spawning?;
      assert forall r :: NobodySpawns(s, r) ==> NobodySpawns(s', r);
    }
  }

  lemma ActStaysLonely(s: System, a: nat)
    requires Lonely(s) && Enabled(s, Act(a))
    ensures Lonely(DoAct(s, a)) <==> QuietStart(s, Act(a))
  {
    hide DoAct, ActOn;
    ActFrame(s, a);
    var g, s' := s.agents[a], DoAct(s, a);
    if Passes(g, s.servers[g.r]) {
      assert s'.agents[a].Spawning? && s'.agents[a].r == g.r && s'.threads == s.threads;
      if QuietStart(s, Act(a)) {
        forall r | r != g.r && NobodySpawns(s, r) ensures NobodySpawns(s', r) {
        }
      } else if !NobodySpawns(s, g.r) {
        var b :| 0 <= b < |s.agents| && s.agents[b].Spawning? && s.agents[b].r == g.r;
        assert s'.agents[b] == s.agents[b];
      } else {
        var t :| 0 <= t < |s.threads| && s.threads[t].r == g.r && !s.threads[t].pc.Ended?;
        assert !NobodySpawns(s', s'.threads[t].r);
      }
    } else {
      assert !s'.agents[a].Spawning?;
      forall r | NobodySpawns(s, r) ensures NobodySpawns(s', r) {
      }
      if g.Spawning? {
        forall b | 0 <= b < |s'.agents| && s'.agents[b].Spawning? ensures s'.agents[b].r != g.r {
          assert b != a && s.agents[b] == s'.agents[b];
        }
        forall t | 0 <= t < |s.threads| && !s.threads[t].pc.Ended? ensures s.threads[t].r != g.r {
          assert NobodySpawns(s, s.threads[t].r);
        }
      }
    }
  }

  /** Over every run: no server ever has two threads, or one while another is created, exactly if
      every start that goes ahead finds none. */
  lemma {:induction false} OneThreadIff(s: System, steps: seq<Step>)
    requires Initial(s) && Legal(s, steps)
    ensures AlwaysLonely(s, steps) <==> AlwaysQuiet(s, steps)
    decreases |steps|
  {
    if steps == [] {
      assert Lonely(s);
    } else {
      hide Initial, Lonely, QuietStart, Do, Enabled;
      var front, last := steps[..|steps| - 1], steps[|steps| - 1];
      OneThreadIff(s, front);
      if AlwaysLonely(s, front) {
        assert Lonely(After(s, front));
        StepStaysLonely(After(s, front), last);
      }
    }
  }

  // ---------------------------------------------------------------- the race

  /** A pod the console has disabled. */
  function DisabledPod(n: bytes): (s: System)
  {
    System(3, false, [NewServer(n).(enabled := false)], [], [], map[n := 0], map[], map[], [])
  }

  /** The refresh has found it disabled, and the console has started it since. */
  function Overtaken(n: bytes): (s: System)
  {
    DisabledPod(n).(
      locked := true, servers := [NewServer(n).(thread := Some(0))], threads := [Thr(0, Outer, 0, 0)],
      agents := [Starting(0, true), Finished(0)])
  }

  function Race(n: bytes): (steps: seq<Step>)
  {
    [Test(n), FindToStart(n), Act(1), Act(1)]
  }

  /** The refresh tests the flag, the console looks the server up and goes ahead. */
  function Race2(n: bytes): (s: System)
  {
    DisabledPod(n).(locked := true, agents := [Starting(0, true), Starting(0, false)])
  }

  lemma RaceOpens(n: bytes)
    ensures var s0 := DisabledPod(n);
            var s1 := s0.(locked := true, agents := [Starting(0, true)]);
            && Initial(s0)
            && Enabled(s0, Test(n)) && Tidy(s0, Test(n)) && Do(s0, Test(n)) == s1
            && Enabled(s1, FindToStart(n)) && Tidy(s1, FindToStart(n)) && Do(s1, FindToStart(n)) == Race2(n)
  {
  }

  lemma RaceGoesOn(n: bytes)
    ensures var s2 := Race2(n);
            var s3 := s2.(servers := [NewServer(n)], agents := [Starting(0, true), Spawning(0, false)]);
            && Enabled(s2, Act(1)) && Tidy(s2, Act(1)) && Do(s2, Act(1)) == s3
            && Enabled(s3, Act(1)) && Tidy(s3, Act(1)) && Do(s3, Act(1)) == Overtaken(n)
  {
  }

  lemma RaceLeadsThere(n: bytes)
    ensures Initial(DisabledPod(n)) && Legal(DisabledPod(n), Race(n)) && Orderly(DisabledPod(n), Race(n))
    ensures After(DisabledPod(n), Race(n)) == Overtaken(n)
  {
    var s0 := DisabledPod(n);
    RaceOpens(n);
    RaceGoesOn(n);
    assert After(s0, []) == s0 && Orderly(s0, []);
    var p1 := [] + [Test(n)];
    var p2 := p1 + [FindToStart(n)];
    var p3 := p2 + [Act(1)];
    assert p3 + [Act(1)] == Race(n);
    hide Enabled, Do, Tidy, Initial, Race2, Overtaken, DisabledPod, After, Legal, Orderly;
    OneOrderly(s0, [], Test(n));
    OneOrderly(s0, p1, FindToStart(n));
    OneOrderly(s0, p2, Act(1));
    OneOrderly(s0, p3, Act(1));
  }

  lemma OneOrderly(s: System, steps: seq<Step>, step: Step)
    requires Legal(s, steps) && Orderly(s, steps) && Enabled(After(s, steps), step) && Tidy(After(s, steps), step)
    ensures Legal(s, steps + [step]) && Orderly(s, steps + [step])
    ensures After(s, steps + [step]) == Do(After(s, steps), step)
  {
    hide Do, Enabled, Tidy;
    OneMore(s, steps, step);
    assert (steps + [step])[..|steps|] == steps;
  }

  /** A run in which one server has two entries: between the refresh's test and its forced start the
      console starts the server, and both threads create a session. */
  lemma TwoEntriesRun(n: bytes) returns (steps: seq<Step>)
    ensures Initial(DisabledPod(n)) && Legal(DisabledPod(n), steps)
    ensures TwoEntries(After(DisabledPod(n), steps), 0)
  {
    RaceLeadsThere(n);
    var s0, s := DisabledPod(n), Overtaken(n);
    assert Enabled(s, Act(0)) && Passes(s.agents[0], s.servers[0]);
    assert Busy(s, 0) by {
      assert InLoop(s.threads[0].pc);
    }
    StartedIs(s, 0);
    SecondEntryIff(s0, Race(n), 0);
    hide Enabled, Do, Busy, Orderly;
    var more :| OwnRun(Started(s, 0), more, 0) && TwoEntries(After(Started(s, 0), more), 0);
    OneMore(s0, Race(n), Act(0));
    OneMore(s0, Race(n) + [Act(0)], Act(0));
    steps := Race(n) + [Act(0)] + [Act(0)];
    assert After(s0, steps) == Started(s, 0);
    Continue(s0, steps, more);
    steps := steps + more;
  }
}

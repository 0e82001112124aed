/**
 What the server threads keep as long as no thread is started for a server that has one, or is just
 being given one, or is just losing one: the lookup by session is keyed by the sessions the threads
 hold, and an evicted server leaves nothing behind.
 */
module ServerLaws {
  import opened Bytes
  import opened ServerThread

  // ---------------------------------------------------------------- orderly starts

  /** Nobody is about to create a thread for the server. */
  ghost predicate NobodySpawns(s: System, r: nat) {
    forall b :: 0 <= b < |s.agents| && s.agents[b].Spawning? ==> s.agents[b].r != r
  }

  /** A start that goes ahead finds no thread, none being created and none being waited for. */
  ghost predicate Tidy(s: System, step: Step) {
    step.Act? && Enabled(s, step) && Passes(s.agents[step.a], s.servers[s.agents[step.a].r]) ==>
      var r := s.agents[step.a].r;
      s.servers[r].thread.None? && !s.servers[r].terminating && NobodySpawns(s, r)
  }

  ghost predicate Orderly(s: System, steps: seq<Step>)
    requires Legal(s, steps)
    decreases |steps|
  {
    steps == [] ||
    (Orderly(s, steps[..|steps| - 1]) && Tidy(After(s, steps[..|steps| - 1]), steps[|steps| - 1]))
  }

  // ---------------------------------------------------------------- invariant

  predicate Joins(g: Agent) {
    g.AtJoin? || g.Waiting? || g.Clearing?
  }

  /** A refresh that has marked the server and will still ask for its removal. */
  predicate Evicts(g: Agent, r: nat) {
    (g.Stopping? || g.AtElse?) && g.evicts && g.r == r
  }

  /** Only one call at a time creates a thread for a server, and only one waits for it. */
  predicate Apart(g: Agent, h: Agent) {
    g.r == h.r ==> !(g.Spawning? && h.Spawning?) && !(Joins(g) && Joins(h))
  }

  predicate MayHold(pc: Pc) {
    pc.Inner? || pc.Poll? || pc.DropEntry?
  }

  /** The places of a thread that has left its loop. */
  predicate Leaving(pc: Pc) {
    pc.Done? || pc.Check? || pc.Leave? || pc.Ended?
  }

  predicate ThreadOk(th: Thr, t: nat, v: Server) {
    && (!th.pc.Ended? ==> v.thread == Some(t))
    && (th.pc.Claimed? || th.pc.Created? || th.pc.Store? || th.pc.Insert? ==> th.session != 0)
    && (th.pc.Decided? || th.pc.Recorded? ==> v.dynamic)
    && (th.pc.Done? || th.pc.Check? ==> v.terminating || v.evicted)
    && (th.pc.Leave? ==> v.evicted)
  }

  predicate AgentOk(g: Agent, v: Server, listed: bool) {
    match g
    case Spawning(_, _) => v.thread.None? && !v.terminating && (listed ==> v.enabled)
    case AtJoin(_) => v.terminating && v.thread.Some?
    case Waiting(_, t) => v.terminating && v.thread == Some(t)
    case Clearing(_) => v.terminating && v.thread.None?
    case Stopping(_, evicts) => evicts ==> v.evicted
    case AtElse(_, evicts) => evicts ==> v.evicted
    case _ => true
  }

  /** The entry belongs to the thread of its server and is keyed by the session it holds. */
  predicate EntryOk(k: nat, th: Thr, v: Server) {
    k != 0 && th.session == k && (MayHold(th.pc) || ((th.pc.Outer? || th.pc.Done?) && v.terminating))
  }

  predicate ListedOk(v: Server, alive: bool, evictor: bool) {
    && (!v.enabled ==> v.thread.None? && !v.terminating)
    && (v.thread.Some? && !alive ==> v.terminating)
    && (v.evicted ==> evictor || alive)
  }

  ghost predicate EvictorAtWork(s: System, r: nat) {
    exists a :: 0 <= a < |s.agents| && Evicts(s.agents[a], r)
  }

  /** The thread the server's handle names has not ended. */
  predicate Alive(s: System, r: nat)
    requires r < |s.servers|
  {
    var v := s.servers[r];
    v.thread.Some? && v.thread.value < |s.threads| && !s.threads[v.thread.value].pc.Ended?
  }

  ghost predicate Ranges(s: System) {
    && (forall t :: 0 <= t < |s.threads| ==> s.threads[t].r < |s.servers|)
    && (forall a :: 0 <= a < |s.agents| ==> s.agents[a].r < |s.servers|)
    && (forall n :: n in s.names ==> s.names[n] < |s.servers| && s.servers[s.names[n]].name == n)
    && (forall r :: 0 <= r < |s.servers| ==> HandleOk(s, r))
  }

  predicate HandleOk(s: System, r: nat)
    requires r < |s.servers|
  {
    var v := s.servers[r];
    && (v.thread.Some? ==> v.thread.value < |s.threads| && s.threads[v.thread.value].r == r)
    && (v.evicted ==> v.dynamic)
  }

  ghost predicate ThreadsOk(s: System)
    requires Ranges(s)
  {
    forall t :: 0 <= t < |s.threads| ==> ThreadOk(s.threads[t], t, s.servers[s.threads[t].r])
  }

  ghost predicate AgentsOk(s: System)
    requires Ranges(s)
  {
    && (forall a :: 0 <= a < |s.agents| ==> AgentOk(s.agents[a], s.servers[s.agents[a].r], Listed(s, s.agents[a].r)))
    && (forall a, b :: 0 <= a < b < |s.agents| ==> Apart(s.agents[a], s.agents[b]))
  }

  ghost predicate EntriesOk(s: System)
    requires Ranges(s)
  {
    forall k :: k in s.byId ==>
      && s.byId[k] < |s.servers| && s.servers[s.byId[k]].thread.Some?
      && s.servers[s.byId[k]].thread.value < |s.threads|
      && EntryOk(k, s.threads[s.servers[s.byId[k]].thread.value], s.servers[s.byId[k]])
  }

  ghost predicate ListingsOk(s: System)
    requires Ranges(s)
  {
    forall r: nat :: r < |s.servers| && Listed(s, r) ==> ListedOk(s.servers[r], Alive(s, r), EvictorAtWork(s, r))
  }

  ghost predicate Inv(s: System) {
    Ranges(s) && ThreadsOk(s) && AgentsOk(s) && EntriesOk(s) && ListingsOk(s)
  }

  // ---------------------------------------------------------------- a step of a thread

  /** What a thread's step changes. */
  lemma ThreadFrame(s: System, t: nat, reply: Reply)
    requires t < |s.threads| && s.threads[t].r < |s.servers|
    ensures var th, s' := s.threads[t], DoThread(s, t, reply);
            var v := s.servers[th.r];
            var th' := NextThr(th, v, s.failMax, th.session in s.byId, |s.history|, reply);
            && s'.threads == s.threads[t := th'] && |s'.servers| == |s.servers| && s'.agents == s.agents
            && (forall q :: 0 <= q < |s.servers| && q != th.r ==> s'.servers[q] == s.servers[q])
            && (s'.servers[th.r] == NextServer(th, v) ||
                (th.pc == Leave && s'.servers[th.r] == v.(serverId := 0, enabled := false)))
            && (forall n :: n in s'.names ==> n in s.names && s'.names[n] == s.names[n])
            && (th.pc == Leave && v.dynamic ==> v.name !in s'.names)
            && (th.pc != Leave ==> s'.names == s.names)
            && (forall k :: k in s'.byId ==> k in NextById(s.byId, th, reply) && s'.byId[k] == NextById(s.byId, th, reply)[k])
            && s'.history == s.history + Logged(th, v)
            && s'.issued == if th.pc == Connect && th'.pc == Created then s.issued[th'.session := t] else s.issued
  {
    hide NextThr, Logged, NextById;
  }

  lemma NextThrOk(th: Thr, t: nat, v: Server, failMax: nat, found: bool, seen: nat, reply: Reply)
    requires ThreadOk(th, t, v) && !th.pc.Ended?
    ensures ThreadOk(NextThr(th, v, failMax, found, seen, reply), t, NextServer(th, v))
  {
  }

  lemma ThreadKeepsRanges(s: System, t: nat, reply: Reply)
    requires Inv(s) && Enabled(s, Thread(t, reply))
    ensures Ranges(DoThread(s, t, reply))
  {
    hide NextThr, DoThread, NextServer, ThreadsOk, AgentsOk, EntriesOk, ListingsOk;
    ThreadFrame(s, t, reply);
    var r := s.threads[t].r;
    assert HandleOk(s, r) && s.threads[t].pc == Decided ==> s.servers[r].dynamic by {
      ThreadAt(s, t);
    }
    var s' := DoThread(s, t, reply);
    forall q | 0 <= q < |s'.servers| ensures HandleOk(s', q) {
      assert HandleOk(s, q);
    }
  }

  lemma ThreadAt(s: System, t: nat)
    requires Inv(s) && t < |s.threads|
    ensures ThreadOk(s.threads[t], t, s.servers[s.threads[t].r]) && HandleOk(s, s.threads[t].r)
  {
  }

  lemma ThreadKeepsThreads(s: System, t: nat, reply: Reply)
    requires Inv(s) && Enabled(s, Thread(t, reply)) && Ranges(DoThread(s, t, reply))
    ensures ThreadsOk(DoThread(s, t, reply))
  {
    hide NextThr, DoThread, AgentsOk, EntriesOk, ListingsOk;
    ThreadFrame(s, t, reply);
    ThreadAt(s, t);
    var th, s' := s.threads[t], DoThread(s, t, reply);
    NextThrOk(th, t, s.servers[th.r], s.failMax, th.session in s.byId, |s.history|, reply);
    forall u | 0 <= u < |s'.threads| ensures ThreadOk(s'.threads[u], u, s'.servers[s'.threads[u].r]) {
      ThreadAt(s, u);
    }
  }

  lemma ThreadKeepsAgents(s: System, t: nat, reply: Reply)
    requires Inv(s) && Enabled(s, Thread(t, reply)) && Ranges(DoThread(s, t, reply))
    ensures AgentsOk(DoThread(s, t, reply))
  {
    hide NextThr, DoThread, ThreadsOk, EntriesOk, ListingsOk;
    ThreadFrame(s, t, reply);
    ThreadAt(s, t);
    var s' := DoThread(s, t, reply);
    forall a | 0 <= a < |s'.agents|
      ensures AgentOk(s'.agents[a], s'.servers[s'.agents[a].r], Listed(s', s'.agents[a].r))
    {
      assert AgentOk(s.agents[a], s.servers[s.agents[a].r], Listed(s, s.agents[a].r));
    }
  }

  /** A thread enters, keeps and drops entries under its own session. */
  lemma NextEntryOk(th: Thr, t: nat, v: Server, failMax: nat, found: bool, seen: nat, reply: Reply)
    requires ThreadOk(th, t, v)
    ensures var th' := NextThr(th, v, failMax, found, seen, reply);
            && (found && EntryOk(th.session, th, v) && !th.pc.DropEntry? && !th.pc.Done? ==> EntryOk(th.session, th', v))
            && (th.pc.Insert? && reply == Success ==> EntryOk(th.session, th', v))
  {
  }

  lemma ThreadKeepsEntries(s: System, t: nat, reply: Reply)
    requires Inv(s) && Enabled(s, Thread(t, reply)) && Ranges(DoThread(s, t, reply))
    ensures EntriesOk(DoThread(s, t, reply))
  {
    hide NextThr, DoThread, AgentsOk, ListingsOk, EntryOk;
    ThreadFrame(s, t, reply);
    ThreadAt(s, t);
    var th, s' := s.threads[t], DoThread(s, t, reply);
    var v := s.servers[th.r];
    NextEntryOk(th, t, v, s.failMax, th.session in s.byId, |s.history|, reply);
    forall k | k in s'.byId
      ensures s'.byId[k] < |s'.servers| && s'.servers[s'.byId[k]].thread.Some?
      ensures var u := s'.servers[s'.byId[k]].thread.value; u < |s'.threads| && EntryOk(k, s'.threads[u], s'.servers[s'.byId[k]])
    {
      if k in s.byId && s.byId[k] == s'.byId[k] {
        EntryAt(s, k);
        assert s.byId[k] != th.r ==> s.servers[s.byId[k]].thread.value != t by { assert HandleOk(s, s.byId[k]); }
        SameEntry(k, s'.threads[s.servers[s.byId[k]].thread.value], s.servers[s.byId[k]], s'.servers[s.byId[k]]);
        EntrySession(k, th, v);
      } else {
        assert k == th.session && s'.byId[k] == th.r && th.pc.Insert?;
        SameEntry(k, s'.threads[t], v, s'.servers[th.r]);
      }
    }
  }

  lemma EntryAt(s: System, k: nat)
    requires Inv(s) && k in s.byId
    ensures s.byId[k] < |s.servers| && s.servers[s.byId[k]].thread.Some?
    ensures s.servers[s.byId[k]].thread.value < |s.threads|
    ensures EntryOk(k, s.threads[s.servers[s.byId[k]].thread.value], s.servers[s.byId[k]])
  {
  }

  lemma EntrySession(k: nat, th: Thr, v: Server)
    ensures EntryOk(k, th, v) ==> th.session == k && !th.pc.Ended?
  {
  }

  lemma SameEntry(k: nat, th: Thr, v: Server, v': Server)
    requires v'.terminating == v.terminating
    ensures EntryOk(k, th, v) <==> EntryOk(k, th, v')
  {
  }

  lemma ThreadKeepsListings(s: System, t: nat, reply: Reply)
    requires Inv(s) && Enabled(s, Thread(t, reply)) && Ranges(DoThread(s, t, reply))
    ensures ListingsOk(DoThread(s, t, reply))
  {
    hide NextThr, DoThread, AgentsOk, EntriesOk, EvictorAtWork;
    ThreadFrame(s, t, reply);
    ThreadAt(s, t);
    var th, s' := s.threads[t], DoThread(s, t, reply);
    if th.pc != Leave {
      EndOf(th, t, s.servers[th.r], s.failMax, th.session in s.byId, |s.history|, reply);
    }
    forall r: nat | r < |s'.servers| && Listed(s', r)
      ensures ListedOk(s'.servers[r], Alive(s', r), EvictorAtWork(s', r))
    {
      assert Listed(s, r) && ListedOk(s.servers[r], Alive(s, r), EvictorAtWork(s, r));
      SameAgents(s, s', r);
      if r != th.r {
        assert HandleOk(s, r) && s.servers[r].thread != Some(t);
        assert Alive(s', r) == Alive(s, r);
      } else {
        assert th.pc != Leave;
        assert Alive(s, r);
      }
    }
  }

  lemma SameAgents(s: System, s': System, r: nat)
    requires s'.agents == s.agents
    ensures EvictorAtWork(s, r) == EvictorAtWork(s', r)
  {
  }

  lemma EndOf(th: Thr, t: nat, v: Server, failMax: nat, found: bool, seen: nat, reply: Reply)
    requires ThreadOk(th, t, v) && !th.pc.Ended? && !th.pc.Leave?
    ensures var th' := NextThr(th, v, failMax, found, seen, reply); th'.pc.Ended? ==> th.pc.Check? && v.terminating && !v.evicted
  {
  }

  lemma ThreadKeepsInv(s: System, t: nat, reply: Reply)
    requires Inv(s) && Enabled(s, Thread(t, reply))
    ensures Inv(DoThread(s, t, reply))
  {
    hide Inv, Ranges, ThreadsOk, AgentsOk, EntriesOk, ListingsOk, DoThread;
    ThreadKeepsRanges(s, t, reply);
    ThreadKeepsThreads(s, t, reply);
    ThreadKeepsAgents(s, t, reply);
    ThreadKeepsEntries(s, t, reply);
    ThreadKeepsListings(s, t, reply);
    IsInv(DoThread(s, t, reply));
  }

  lemma IsInv(s: System)
    requires Ranges(s) && ThreadsOk(s) && AgentsOk(s) && EntriesOk(s) && ListingsOk(s)
    ensures Inv(s)
  {
  }

  // ---------------------------------------------------------------- a step of a start or a stop

  lemma ActFrame(s: System, a: nat)
    requires a < |s.agents| && s.agents[a].r < |s.servers|
    ensures var g, s' := s.agents[a], DoAct(s, a);
            var v := s.servers[g.r];
            && s'.agents == s.agents[a := NextAgent(g, v)] && |s'.servers| == |s.servers|
            && (forall q :: 0 <= q < |s.servers| && q != g.r ==> s'.servers[q] == s.servers[q])
            && (s'.servers[g.r] == ActOn(g, v, |s.threads|) ||
                (g.AtElse? && v.evicted && s'.servers[g.r] == v.(serverId := 0, enabled := false)))
            && s'.threads == (if g.Spawning? then s.threads + [Thr(g.r, Outer, 0, 0)] else s.threads)
            && (forall n :: n in s'.names ==> n in s.names && s'.names[n] == s.names[n])
            && (g.AtElse? && v.evicted && v.dynamic ==> v.name !in s'.names)
            && (!(g.AtElse? && v.evicted) ==> s'.names == s.names)
            && (forall k :: k in s'.byId ==> k in s.byId && s'.byId[k] == s.byId[k])
            && s'.history == s.history && s'.issued == s.issued
  {
    hide NextAgent;
  }

  /** Nobody waits for, or creates, a thread that the call's server must not be without. */
  lemma AgentAt(s: System, a: nat)
    requires Inv(s) && a < |s.agents|
    ensures AgentOk(s.agents[a], s.servers[s.agents[a].r], Listed(s, s.agents[a].r)) && HandleOk(s, s.agents[a].r)
  {
  }

  lemma ActKeepsRanges(s: System, a: nat)
    requires Inv(s) && Enabled(s, Act(a))
    ensures Ranges(DoAct(s, a))
  {
    hide DoAct, ThreadsOk, AgentsOk, EntriesOk, ListingsOk;
    ActFrame(s, a);
    var s' := DoAct(s, a);
    forall q | 0 <= q < |s'.servers| ensures HandleOk(s', q) {
      assert HandleOk(s, q);
    }
  }

  lemma ActKeepsThreads(s: System, a: nat)
    requires Inv(s) && Enabled(s, Act(a)) && Ranges(DoAct(s, a))
    ensures ThreadsOk(DoAct(s, a))
  {
    hide DoAct, AgentsOk, EntriesOk, ListingsOk, AgentOk, NextAgent, ThreadOk;
    ActFrame(s, a);
    AgentAt(s, a);
    var g, s' := s.agents[a], DoAct(s, a);
    forall u | 0 <= u < |s'.threads| ensures ThreadOk(s'.threads[u], u, s'.servers[s'.threads[u].r]) {
      if u < |s.threads| {
        ThreadAt(s, u);
        if s.threads[u].r == g.r {
          ThreadAfterAct(s.threads[u], u, g, s.servers[g.r], |s.threads|, Listed(s, g.r));
          if g.AtElse? {
            SameThread(s.threads[u], u, s.servers[g.r], s'.servers[g.r]);
          }
        }
      } else {
        NewThread(s'.threads[u], u, s'.servers[g.r]);
      }
    }
  }

  lemma ThreadAfterAct(th: Thr, u: nat, g: Agent, v: Server, created: nat, listed: bool)
    requires ThreadOk(th, u, v) && AgentOk(g, v, listed) && (g.Waiting? && g.t == u ==> th.pc.Ended?)
    ensures ThreadOk(th, u, ActOn(g, v, created))
  {
  }

  lemma SameThread(th: Thr, u: nat, v: Server, v': Server)
    requires ThreadOk(th, u, v) && v' == v.(serverId := v'.serverId, enabled := v'.enabled)
    ensures ThreadOk(th, u, v')
  {
  }

  lemma NewThread(th: Thr, u: nat, v: Server)
    requires th.pc.Outer? && v.thread == Some(u)
    ensures ThreadOk(th, u, v)
  {
  }

  /** A start or stop leaves the other calls on its server as they must be. */
  lemma OthersOk(g: Agent, h: Agent, v: Server, created: nat, listed: bool)
    requires AgentOk(g, v, listed) && AgentOk(h, v, listed) && Apart(g, h) && g.r == h.r
    requires Passes(g, v) ==> v.thread.None? && !v.terminating && !h.Spawning?
    ensures AgentOk(h, ActOn(g, v, created), listed)
    ensures Apart(NextAgent(g, v), h)
    ensures g.AtElse? ==> ActOn(g, v, created) == v
  {
  }

  lemma SelfOk(g: Agent, v: Server, created: nat, listed: bool)
    requires AgentOk(g, v, listed)
    requires Passes(g, v) ==> v.thread.None? && !v.terminating
    ensures AgentOk(NextAgent(g, v), ActOn(g, v, created), listed)
    ensures g.AtElse? ==> ActOn(g, v, created) == v && NextAgent(g, v).Finished?
  {
  }

  lemma ActKeepsAgents(s: System, a: nat)
    requires Inv(s) && Enabled(s, Act(a)) && Tidy(s, Act(a)) && Ranges(DoAct(s, a))
    ensures AgentsOk(DoAct(s, a))
  {
    hide DoAct, ThreadsOk, EntriesOk, ListingsOk, ActOn, NextAgent, Apart, AgentOk, Passes;
    ActFrame(s, a);
    AgentAt(s, a);
    var g, s' := s.agents[a], DoAct(s, a);
    var v := s.servers[g.r];
    SelfOk(g, v, |s.threads|, Listed(s, g.r));
    forall b | 0 <= b < |s.agents| && b != a
      ensures AgentOk(s.agents[b], s'.servers[s.agents[b].r], Listed(s', s.agents[b].r))
      ensures Apart(s'.agents[a], s.agents[b]) && Apart(s.agents[b], s'.agents[a])
    {
      var h := s.agents[b];
      AgentAt(s, b);
      assert Apart(g, h) by { ApartBoth(g, h); }
      if h.r == g.r {
        OthersOk(g, h, v, |s.threads|, Listed(s, g.r));
        Unlisting(h, v, s'.servers[g.r], Listed(s, g.r), Listed(s', g.r));
      } else {
        Elsewhere(s'.agents[a], h);
        FewerListed(h, s.servers[h.r], Listed(s, h.r), Listed(s', h.r));
      }
      ApartBoth(s'.agents[a], h);
    }
    assert AgentOk(s'.agents[a], s'.servers[g.r], Listed(s', g.r)) by {
      Unlisting(s'.agents[a], v, s'.servers[g.r], Listed(s, g.r), Listed(s', g.r));
      FewerListed(s'.agents[a], s'.servers[g.r], Listed(s, g.r), Listed(s', g.r));
    }
  }

  lemma ApartBoth(g: Agent, h: Agent)
    ensures Apart(g, h) == Apart(h, g)
  {
  }

  lemma Elsewhere(g: Agent, h: Agent)
    requires g.r != h.r
    ensures Apart(g, h)
  {
  }

  lemma FewerListed(g: Agent, v: Server, listed: bool, listed': bool)
    requires listed' ==> listed
    ensures AgentOk(g, v, listed) ==> AgentOk(g, v, listed')
  {
  }

  /** Leaving the table takes nothing from the calls on a server. */
  lemma Unlisting(g: Agent, v: Server, v': Server, listed: bool, listed': bool)
    requires listed' ==> listed
    ensures AgentOk(g, v, listed) && !listed' && v' == v.(serverId := 0, enabled := false) ==> AgentOk(g, v', listed')
    ensures AgentOk(g, v', listed) ==> AgentOk(g, v', listed')
  {
  }

  lemma ActKeepsEntries(s: System, a: nat)
    requires Inv(s) && Enabled(s, Act(a)) && Ranges(DoAct(s, a))
    ensures EntriesOk(DoAct(s, a))
  {
    hide DoAct, ThreadsOk, ListingsOk, AgentsOk;
    ActFrame(s, a);
    AgentAt(s, a);
    var s' := DoAct(s, a);
    forall k | k in s'.byId
      ensures s'.byId[k] < |s'.servers| && s'.servers[s'.byId[k]].thread.Some?
      ensures var u := s'.servers[s'.byId[k]].thread.value; u < |s'.threads| && EntryOk(k, s'.threads[u], s'.servers[s'.byId[k]])
    {
      EntryAt(s, k);
    }
  }

  lemma ActKeepsListings(s: System, a: nat)
    requires Inv(s) && Enabled(s, Act(a)) && Ranges(DoAct(s, a))
    ensures ListingsOk(DoAct(s, a))
  {
    hide DoAct, ThreadsOk, EntriesOk, AgentsOk;
    ActFrame(s, a);
    AgentAt(s, a);
    var g, s' := s.agents[a], DoAct(s, a);
    forall r: nat | r < |s'.servers| && Listed(s', r)
      ensures ListedOk(s'.servers[r], Alive(s', r), EvictorAtWork(s', r))
    {
      assert Listed(s, r) && ListedOk(s.servers[r], Alive(s, r), EvictorAtWork(s, r));
      assert HandleOk(s, r);
      if EvictorAtWork(s, r) {
        var b :| 0 <= b < |s.agents| && Evicts(s.agents[b], r);
        assert b != a ==> Evicts(s'.agents[b], r);
        assert b == a && NextAgent(g, s.servers[r]).AtElse? ==> Evicts(s'.agents[a], r);
      }
    }
  }

  lemma ActKeepsInv(s: System, a: nat)
    requires Inv(s) && Enabled(s, Act(a)) && Tidy(s, Act(a))
    ensures Inv(DoAct(s, a))
  {
    hide Inv, Ranges, ThreadsOk, AgentsOk, EntriesOk, ListingsOk, DoAct, Tidy;
    ActKeepsRanges(s, a);
    ActKeepsThreads(s, a);
    ActKeepsAgents(s, a);
    ActKeepsEntries(s, a);
    ActKeepsListings(s, a);
    IsInv(DoAct(s, a));
  }

  // ---------------------------------------------------------------- the other steps

  /** The step looks a server up, marks it or changes its counts, and may begin a start or a stop. */
  ghost predicate Touches(s: System, s': System, r: nat, v: Server, begun: seq<Agent>) {
    && r < |s.servers| && s'.servers == s.servers[r := v] && s'.threads == s.threads
    && s'.names == s.names && s'.byId == s.byId && s'.agents == s.agents + begun
    && v == s.servers[r].(calls := v.calls, failures := v.failures, serverId := v.serverId, evicted := v.evicted)
    && (s.servers[r].evicted ==> v.evicted) && (v.evicted ==> v.dynamic)
    && |begun| <= 1 && (forall g :: g in begun ==> g.r == r && (g.Starting? || g.Stopping?) && AgentOk(g, v, true))
    && (v.evicted && !s.servers[r].evicted ==> |begun| == 1 && Evicts(begun[0], r))
  }

  lemma TouchKeepsInv(s: System, s': System, r: nat, v: Server, begun: seq<Agent>)
    requires Inv(s) && Touches(s, s', r, v, begun)
    ensures Inv(s')
  {
    forall q | 0 <= q < |s'.servers| ensures HandleOk(s', q) {
      assert HandleOk(s, q);
    }
    assert Ranges(s');
    TouchKeepsParts(s, s', r, v, begun);
    TouchKeepsListings(s, s', r, v, begun);
    hide *;
    IsInv(s');
  }

  lemma TouchKeepsParts(s: System, s': System, r: nat, v: Server, begun: seq<Agent>)
    requires Inv(s) && Touches(s, s', r, v, begun) && Ranges(s')
    ensures ThreadsOk(s') && AgentsOk(s') && EntriesOk(s')
  {
    hide ListingsOk, Evicts, Alive;
    forall u | 0 <= u < |s'.threads| ensures ThreadOk(s'.threads[u], u, s'.servers[s'.threads[u].r]) {
      ThreadAt(s, u);
    }
    forall a | 0 <= a < |s'.agents|
      ensures AgentOk(s'.agents[a], s'.servers[s'.agents[a].r], Listed(s', s'.agents[a].r))
    {
      if a < |s.agents| {
        AgentAt(s, a);
      }
    }
    forall k | k in s'.byId ensures EntryOk(k, s'.threads[s'.servers[s'.byId[k]].thread.value], s'.servers[s'.byId[k]]) {
      EntryAt(s, k);
    }
  }

  lemma TouchKeepsListings(s: System, s': System, r: nat, v: Server, begun: seq<Agent>)
    requires Inv(s) && Touches(s, s', r, v, begun) && Ranges(s')
    ensures ListingsOk(s')
  {
    hide ThreadsOk, AgentsOk, EntriesOk;
    forall q: nat | q < |s'.servers| && Listed(s', q)
      ensures ListedOk(s'.servers[q], Alive(s', q), EvictorAtWork(s', q))
    {
      assert Listed(s, q) && ListedOk(s.servers[q], Alive(s, q), EvictorAtWork(s, q));
      if EvictorAtWork(s, q) {
        var b :| 0 <= b < |s.agents| && Evicts(s.agents[b], q);
        assert Evicts(s'.agents[b], q);
      }
      if begun != [] {
        assert s'.agents[|s.agents|] == begun[0];
      }
    }
  }

  lemma RegisterKeepsInv(s: System, name: bytes)
    requires Inv(s) && Enabled(s, Register(name))
    ensures Inv(Do(s, Register(name)))
  {
    var s' := Do(s, Register(name));
    forall q | 0 <= q < |s'.servers| ensures HandleOk(s', q) {
      assert q < |s.servers| ==> HandleOk(s, q);
    }
    assert Ranges(s');
    RegisterKeepsParts(s, name);
    RegisterKeepsListings(s, name);
    hide *;
    IsInv(s');
  }

  lemma RegisterKeepsParts(s: System, name: bytes)
    requires Inv(s) && Enabled(s, Register(name)) && Ranges(Do(s, Register(name)))
    ensures ThreadsOk(Do(s, Register(name))) && AgentsOk(Do(s, Register(name))) && EntriesOk(Do(s, Register(name)))
  {
    hide ListingsOk, Evicts, Alive;
    var s' := Do(s, Register(name));
    forall u | 0 <= u < |s'.threads| ensures ThreadOk(s'.threads[u], u, s'.servers[s'.threads[u].r]) {
      ThreadAt(s, u);
    }
    forall a | 0 <= a < |s'.agents|
      ensures AgentOk(s'.agents[a], s'.servers[s'.agents[a].r], Listed(s', s'.agents[a].r))
    {
      if a < |s.agents| {
        AgentAt(s, a);
      }
    }
    forall k | k in s'.byId ensures EntryOk(k, s'.threads[s'.servers[s'.byId[k]].thread.value], s'.servers[s'.byId[k]]) {
      EntryAt(s, k);
    }
  }

  lemma RegisterKeepsListings(s: System, name: bytes)
    requires Inv(s) && Enabled(s, Register(name)) && Ranges(Do(s, Register(name)))
    ensures ListingsOk(Do(s, Register(name)))
  {
    hide ThreadsOk, AgentsOk, EntriesOk;
    var s' := Do(s, Register(name));
    forall q: nat | q < |s'.servers| && Listed(s', q)
      ensures ListedOk(s'.servers[q], Alive(s', q), EvictorAtWork(s', q))
    {
      if q < |s.servers| {
        assert Listed(s, q) && ListedOk(s.servers[q], Alive(s, q), EvictorAtWork(s, q));
        if EvictorAtWork(s, q) {
          var b :| 0 <= b < |s.agents| && Evicts(s.agents[b], q);
          assert Evicts(s'.agents[b], q);
        }
      }
    }
  }

  lemma StepKeepsInv(s: System, step: Step)
    requires Inv(s) && Enabled(s, step) && Tidy(s, step)
    ensures Inv(Do(s, step))
  {
    match step
    case Thread(t, reply) => ThreadKeepsInv(s, t, reply);
    case Act(a) => ActKeepsInv(s, a);
    case Register(name) => RegisterKeepsInv(s, name);
    case _ => LookupKeepsInv(s, step);
  }

  lemma LookupKeepsInv(s: System, step: Step)
    requires Inv(s) && Enabled(s, step) && !step.Thread? && !step.Act? && !step.Register?
    ensures Inv(Do(s, step))
  {
    var s' := Do(s, step);
    var r := LookedUp(s, step);
    var begun := s'.agents[|s.agents|..];
    assert HandleOk(s, r);
    if step.Test? || step.FindToStart? || step.FindToStop? {
      CallIsTouch(s, step);
    } else {
      CountIsTouch(s, step);
    }
    hide *;
    TouchKeepsInv(s, s', r, s'.servers[r], begun);
  }

  function LookedUp(s: System, step: Step): (r: nat)
    requires Enabled(s, step) && !step.Thread? && !step.Act? && !step.Register?
    ensures r < |s.servers|
  {
    if step.Confirm? || step.Mark? || step.ForgetId? || step.SetCalls? then step.r else s.names[step.name]
  }

  /** The console and the refresh look a server up to start or stop it. */
  lemma CallIsTouch(s: System, step: Step)
    requires Enabled(s, step) && (step.Test? || step.FindToStart? || step.FindToStop?) && HandleOk(s, LookedUp(s, step))
    ensures var s' := Do(s, step);
            |s.agents| <= |s'.agents| && Touches(s, s', LookedUp(s, step), s'.servers[LookedUp(s, step)], s'.agents[|s.agents|..])
  {
  }

  /** A sighting, a confirmation, a mark or a change of the counts. */
  lemma CountIsTouch(s: System, step: Step)
    requires Enabled(s, step) && !step.Thread? && !step.Act? && !step.Register? && HandleOk(s, LookedUp(s, step))
    requires step.Sight? || step.Confirm? || step.Mark? || step.ForgetId? || step.SetCalls?
    ensures var s' := Do(s, step);
            |s.agents| <= |s'.agents| && Touches(s, s', LookedUp(s, step), s'.servers[LookedUp(s, step)], s'.agents[|s.agents|..])
  {
    assert s.agents == s.agents + [];
  }

  lemma InitialIsInv(s: System)
    requires Initial(s)
    ensures Inv(s)
  {
    forall r | 0 <= r < |s.servers| ensures HandleOk(s, r) {
      assert QuietServer(s.servers[r], |s.threads|);
    }
    forall r: nat | r < |s.servers| && Listed(s, r) ensures ListedOk(s.servers[r], Alive(s, r), EvictorAtWork(s, r)) {
      assert QuietServer(s.servers[r], |s.threads|);
    }
  }

  lemma {:induction false} RunKeepsInv(s: System, steps: seq<Step>)
    requires Initial(s) && Legal(s, steps) && Orderly(s, steps)
    ensures Inv(After(s, steps))
    decreases |steps|
  {
    if steps == [] {
      InitialIsInv(s);
    } else {
      hide Inv, Do, Enabled, Tidy, Initial;
      RunKeepsInv(s, steps[..|steps| - 1]);
      StepKeepsInv(After(s, steps[..|steps| - 1]), steps[|steps| - 1]);
    }
  }

  // ---------------------------------------------------------------- main results

  /** A live thread of the server the entry leads to holds the session. */
  ghost predicate HeldBySomeone(s: System, id: nat)
    requires id in s.byId
  {
    exists t :: 0 <= t < |s.threads| && s.threads[t].r == s.byId[id] && s.threads[t].session == id && !s.threads[t].pc.Ended?
  }

  /** In every state of an orderly run an entry of `serverIdLookup` is keyed by the session its
      server's live thread holds right now, so a server has at most one. */
  lemma OneEntryPerServer(s0: System, steps: seq<Step>)
    requires Initial(s0) && Legal(s0, steps) && Orderly(s0, steps)
    ensures var s := After(s0, steps);
            && (forall id :: id in s.byId ==> id != 0 && HeldBySomeone(s, id))
            && (forall i, j :: i in s.byId && j in s.byId && s.byId[i] == s.byId[j] ==> i == j)
  {
    RunKeepsInv(s0, steps);
    var s := After(s0, steps);
    hide After, ThreadsOk, AgentsOk, ListingsOk;
    forall id | id in s.byId ensures id != 0 && HeldBySomeone(s, id) {
      EntryAt(s, id);
      assert HandleOk(s, s.byId[id]);
      assert s.threads[s.servers[s.byId[id]].thread.value].session == id;
    }
    forall i, j | i in s.byId && j in s.byId && s.byId[i] == s.byId[j] ensures i == j {
      EntryAt(s, i);
      EntryAt(s, j);
    }
  }

  /** In an orderly run a server never has two threads, nor a thread while another is created. */
  lemma OneThreadPerServer(s0: System, steps: seq<Step>)
    requires Initial(s0) && Legal(s0, steps) && Orderly(s0, steps)
    ensures var s := After(s0, steps);
            && (forall t, u :: 0 <= t < u < |s.threads| && !s.threads[t].pc.Ended? && !s.threads[u].pc.Ended? ==>
                  s.threads[t].r != s.threads[u].r)
            && (forall t :: 0 <= t < |s.threads| && !s.threads[t].pc.Ended? ==> NobodySpawns(s, s.threads[t].r))
  {
    RunKeepsInv(s0, steps);
    var s := After(s0, steps);
    hide After, EntriesOk, ListingsOk;
    forall t | 0 <= t < |s.threads| && !s.threads[t].pc.Ended?
      ensures s.servers[s.threads[t].r].thread == Some(t) && NobodySpawns(s, s.threads[t].r)
    {
      ThreadAt(s, t);
      forall b | 0 <= b < |s.agents| && s.agents[b].Spawning? ensures s.agents[b].r != s.threads[t].r {
        AgentAt(s, b);
      }
    }
  }

  /** Once the threads of an evicted server have ended, and no refresh has yet to ask for its
      removal, neither table leads to it. */
  lemma EvictedLeavesNothing(s0: System, steps: seq<Step>, r: nat)
    requires Initial(s0) && Legal(s0, steps) && Orderly(s0, steps)
    requires var s := After(s0, steps);
             && r < |s.servers| && s.servers[r].evicted && !EvictorAtWork(s, r)
             && forall t :: 0 <= t < |s.threads| && s.threads[t].r == r ==> s.threads[t].pc.Ended?
    ensures r !in After(s0, steps).byId.Values && r !in After(s0, steps).names.Values
  {
    RunKeepsInv(s0, steps);
    var s := After(s0, steps);
    hide After, ThreadsOk, AgentsOk;
    assert HandleOk(s, r) && !Alive(s, r);
    assert !Listed(s, r);
    forall id | id in s.byId ensures s.byId[id] != r {
      EntryAt(s, id);
      assert HandleOk(s, s.byId[id]);
    }
  }

  /** In an orderly run a start that finds its listed server disabled is orderly itself: the server
      has no thread, none is being created and none is being waited for. */
  lemma StartFindsNoThread(s0: System, steps: seq<Step>, a: nat)
    requires Initial(s0) && Legal(s0, steps) && Orderly(s0, steps)
    requires var s := After(s0, steps);
             && Enabled(s, Act(a)) && s.agents[a].Starting?
             && Listed(s, s.agents[a].r) && !s.servers[s.agents[a].r].enabled
    ensures var s := After(s0, steps);
            && Passes(s.agents[a], s.servers[s.agents[a].r]) && Tidy(s, Act(a))
            && forall t :: 0 <= t < |s.threads| && s.threads[t].r == s.agents[a].r ==> s.threads[t].pc.Ended?
  {
    RunKeepsInv(s0, steps);
    var s := After(s0, steps);
    hide After, EntriesOk;
    var r := s.agents[a].r;
    assert ListedOk(s.servers[r], Alive(s, r), EvictorAtWork(s, r));
    forall b | 0 <= b < |s.agents| && s.agents[b].Spawning? ensures s.agents[b].r != r {
      AgentAt(s, b);
    }
    forall t | 0 <= t < |s.threads| && s.threads[t].r == r ensures s.threads[t].pc.Ended? {
      ThreadAt(s, t);
    }
  }
}

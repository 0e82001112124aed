/**
 The life of the server threads.  Each runs `server_thread_run`: it claims or creates a Janus
 session, enters it in `serverIdLookup`, polls, and on leaving takes itself out again.  Around them
 a registry refresh registers, sights, starts and evicts servers, the console starts and stops them,
 and calls clear the published session id.

 Every locked section and every unlocked test is one step, and steps interleave freely.  A server may
 have any number of threads: nothing in the code counts them.
 */
module ServerThread {
  import opened Bytes

  /** Values of the 32-bit failure counter. */
  const COUNTER: nat := 0x1_0000_0000

  /** Where a thread stands. */
  datatype Pc =
    | Outer        // at the test of the outer loop
    | Connect      // about to open the socket and claim or create a session
    | Claimed      // the old session was claimed
    | Created      // a new session was created
    | Store        // about to publish the new session
    | Insert       // about to enter the session in the lookup
    | Undo         // the lookup refused it
    | Failed       // no session could be created
    | Recorded     // the failure has been counted
    | Decided      // the server was found evictable
    | Inner        // at the test of the inner loop
    | Poll
    | DropEntry    // the poll failed
    | Reset        // the entry is gone, the published id is not
    | Done         // at `thread_done`
    | Check        // about to test for eviction
    | Leave        // about to leave the name table
    | Ended

  /** A thread of server `r` and its own copy of the session id; `decided` is how much of the
      history it had seen when it found the server evictable. */
  datatype Thr = Thr(r: nat, pc: Pc, session: nat, decided: nat)

  /** A call of `startServerThread` or `stopServerThread` on a server somebody has looked up:
      by the refresh (`force`, `evicts`) or by the console. */
  datatype Agent =
    | Starting(r: nat, force: bool)   // about to enter the locked section
    | Spawning(r: nat, force: bool)   // about to create the thread
    | Stopping(r: nat, evicts: bool)  // about to enter the locked section
    | AtElse(r: nat, evicts: bool)    // nothing to stop, about to test for eviction
    | AtJoin(r: nat)                  // about to read the thread to wait for
    | Waiting(r: nat, t: nat)
    | Clearing(r: nat)                // about to clear the flags
    | Finished(r: nat)

  /** `serverId` is the published session id, `thread` the handle of the thread created last. */
  datatype Server = Server(
    name: bytes, dynamic: bool, enabled: bool, terminating: bool, evicted: bool, thread: Option<nat>,
    calls: nat, failures: nat, serverId: nat)

  /** What happened to a server's failure count, in order. */
  datatype Event = CreateFailed(r: nat) | SessionCreated(r: nat) | Sighted(r: nat) | Confirmed(r: nat)

  /** Servers are never freed: one is known by its index.  `issued`: the thread that was given a
      session id.  `locked`: a refresh holds the global mutex while it starts a thread. */
  datatype System = System(
    failMax: nat, locked: bool, servers: seq<Server>, threads: seq<Thr>, agents: seq<Agent>,
    names: map<bytes, nat>, byId: map<nat, nat>, issued: map<nat, nat>, history: seq<Event>)

  datatype Reply = Success | Session(id: nat) | NoSocket | SocketError | Refused

  datatype Step =
    | Thread(t: nat, reply: Reply)
    | Act(a: nat)
    | Register(name: bytes)
    | Sight(name: bytes)
    | Test(name: bytes)
    | FindToStart(name: bytes)
    | FindToStop(name: bytes)
    | Confirm(r: nat)
    | Mark(r: nat)
    | ForgetId(r: nat)
    | SetCalls(r: nat, calls: nat)

  predicate Known(s: System, name: bytes) {
    name in s.names && s.names[name] < |s.servers|
  }

  predicate Listed(s: System, r: nat)
    requires r < |s.servers|
  {
    s.servers[r].name in s.names && s.names[s.servers[r].name] == r
  }

  // ---------------------------------------------------------------- threads

  /** `serversDynamicEvictable`: without calls, with enough failures and without a session. */
  predicate SelfEvicts(v: Server, failMax: nat) {
    v.dynamic && v.calls == 0 && failMax != 0 && v.failures >= failMax && v.serverId == 0
  }

  /** Opening the socket if need be, then claiming the old session or creating a new one. */
  function ConnectStep(th: Thr, reply: Reply): (th': Thr)
    ensures th' == th.(session := th'.session, pc := th'.pc)
    ensures th'.session == th.session || th'.session == 0 || (th'.pc.Created? && reply == Session(th'.session))
  {
    if reply == NoSocket then th.(pc := Outer)
    else if th.session != 0 then
      if reply == Success then th.(pc := Claimed)
      else if reply == SocketError then th.(pc := Inner)
      else th.(session := 0, pc := Inner)
    else if reply.Session? && reply.id != 0 then th.(session := reply.id, pc := Created)
    else th.(pc := Failed)
  }

  /** Where a step of `server_thread_run` leads; `found`: the lookup has an entry under the thread's
      session, `seen`: the length of the history. */
  function NextThr(th: Thr, v: Server, failMax: nat, found: bool, seen: nat, reply: Reply): (th': Thr)
    ensures th'.r == th.r
  {
    match th.pc
    case Outer => th.(pc := if v.terminating then Done else Connect)
    case Connect => ConnectStep(th, reply)
    case Claimed => th.(pc := Insert)
    case Created => th.(pc := Store)
    case Store => th.(pc := Insert)
    case Insert => th.(pc := if reply == Success then Inner else Undo)
    case Undo => th.(session := 0, pc := Inner)
    case Failed => th.(pc := if v.dynamic then Recorded else Inner)
    case Recorded => if SelfEvicts(v, failMax) then th.(pc := Decided, decided := seen) else th.(pc := Inner)
    case Decided => th.(pc := Done)
    case Inner => th.(pc := if !v.terminating && found then Poll else Outer)
    case Poll => th.(pc := if reply == Success then Inner else DropEntry)
    case DropEntry => th.(pc := Reset)
    case Reset => th.(pc := Inner)
    case Done => th.(pc := Check)
    case Check => th.(pc := if v.evicted then Leave else Ended)
    case Leave => th.(pc := Ended)
    case Ended => th
  }

  /** What the same step does to the fields of the server. */
  function NextServer(th: Thr, v: Server): (v': Server)
    ensures v' == v.(evicted := v'.evicted, calls := v'.calls, failures := v'.failures, serverId := v'.serverId)
    ensures v'.evicted == (v.evicted || th.pc.Decided?)
    ensures v'.serverId == v.serverId || v'.serverId == 0 || v'.serverId == th.session
  {
    match th.pc
    case Claimed => v.(serverId := th.session)
    case Created => if v.dynamic then v.(failures := 0) else v
    case Store => v.(serverId := th.session, calls := 0)
    case Undo => v.(serverId := 0)
    case Failed => if v.dynamic then v.(failures := (v.failures + 1) % COUNTER) else v
    case Decided => v.(evicted := true)
    case Reset => v.(serverId := 0)
    case _ => v
  }

  function Logged(th: Thr, v: Server): (events: seq<Event>)
  {
    if th.pc == Created && v.dynamic then [SessionCreated(th.r)]
    else if th.pc == Failed && v.dynamic then [CreateFailed(th.r)]
    else []
  }

  function NextById(byId: map<nat, nat>, th: Thr, reply: Reply): (byId': map<nat, nat>)
  {
    match th.pc
    case Insert => if reply == Success then byId[th.session := th.r] else byId
    case DropEntry => byId - {th.session}
    case Done => byId - {th.session}
    case _ => byId
  }

  /** `server_thread_run` */
  function DoThread(s: System, t: nat, reply: Reply): (s': System)
    requires t < |s.threads| && s.threads[t].r < |s.servers|
  {
    var th := s.threads[t];
    var v := s.servers[th.r];
    var th' := NextThr(th, v, s.failMax, th.session in s.byId, |s.history|, reply);
    var s1 := s.(
      threads := s.threads[t := th'],
      servers := s.servers[th.r := NextServer(th, v)],
      byId := NextById(s.byId, th, reply),
      issued := if th.pc == Connect && th'.pc == Created then s.issued[th'.session := t] else s.issued,
      history := s.history + Logged(th, v));
    if th.pc == Leave then Remove(s1, th.r) else s1
  }

  /** `serversDynamicRemoveFromLookup`, under the global mutex */
  function Remove(s: System, r: nat): (s': System)
    requires r < |s.servers|
  {
    var v := s.servers[r];
    if !v.dynamic || v.name !in s.names then s
    else
      s.(servers := s.servers[r := v.(serverId := 0, enabled := false)],
         names := s.names - {v.name},
         byId := if v.serverId != 0 then s.byId - {v.serverId} else s.byId)
  }

  // ---------------------------------------------------------------- starting and stopping

  /** The locked section of `startServerThread`: a forced start does not look at the flag. */
  predicate Passes(g: Agent, v: Server) {
    g.Starting? && (g.force || !v.enabled)
  }

  function NextAgent(g: Agent, v: Server): (g': Agent)
    ensures g'.r == g.r
  {
    match g
    case Starting(r, force) => if Passes(g, v) then Spawning(r, force) else Finished(r)
    case Spawning(r, _) => Finished(r)
    case Stopping(r, evicts) => if v.enabled && !v.terminating && v.thread.Some? then AtJoin(r) else AtElse(r, evicts)
    case AtElse(r, _) => Finished(r)
    case AtJoin(r) => if v.thread.Some? then Waiting(r, v.thread.value) else Clearing(r)
    case Waiting(r, _) => Clearing(r)
    case Clearing(r) => Finished(r)
    case Finished(_) => g
  }

  /** `created` is the handle of the thread a spawning call creates. */
  function ActOn(g: Agent, v: Server, created: nat): (v': Server)
    ensures v' == v.(enabled := v'.enabled, terminating := v'.terminating, thread := v'.thread)
  {
    match g
    case Starting(_, _) => if Passes(g, v) then v.(enabled := true) else v
    case Spawning(_, _) => v.(thread := Some(created))
    case Stopping(_, _) => if v.enabled && !v.terminating && v.thread.Some? then v.(terminating := true) else v
    case Waiting(_, _) => v.(thread := None)
    case Clearing(_) => v.(terminating := false, enabled := false)
    case _ => v
  }

  /** One step of `startServerThread` or `stopServerThread`. */
  function DoAct(s: System, a: nat): (s': System)
    requires a < |s.agents| && s.agents[a].r < |s.servers|
  {
    var g := s.agents[a];
    var v := s.servers[g.r];
    var s1 := s.(
      agents := s.agents[a := NextAgent(g, v)],
      servers := s.servers[g.r := ActOn(g, v, |s.threads|)],
      threads := if g.Spawning? then s.threads + [Thr(g.r, Outer, 0, 0)] else s.threads,
      locked := s.locked && !(g.Spawning? && g.force));
    if g.AtElse? && v.evicted then Remove(s1, g.r) else s1
  }

  // ---------------------------------------------------------------- steps

  predicate Enabled(s: System, step: Step) {
    match step
    case Thread(t, _) =>
      && t < |s.threads| && s.threads[t].r < |s.servers| && s.threads[t].pc != Ended
      && (s.threads[t].pc == Leave ==> !s.locked)
    case Act(a) =>
      && a < |s.agents| && s.agents[a].r < |s.servers| && !s.agents[a].Finished?
      && (s.agents[a].AtElse? ==> !s.locked)
      && (s.agents[a].Waiting? ==> s.agents[a].t < |s.threads| && s.threads[s.agents[a].t].pc == Ended)
    case Register(name) => !s.locked && name !in s.names
    case Sight(name) => !s.locked && Known(s, name) && s.servers[s.names[name]].dynamic
    case Test(name) =>
      !s.locked && Known(s, name) && s.servers[s.names[name]].dynamic && !s.servers[s.names[name]].enabled
    case FindToStart(name) => Known(s, name)
    case FindToStop(name) => Known(s, name)
    case Confirm(r) => r < |s.servers| && s.servers[r].dynamic
    case Mark(r) => r < |s.servers| && s.servers[r].dynamic
    case ForgetId(r) => r < |s.servers|
    case SetCalls(r, _) => r < |s.servers|
  }

  function Do(s: System, step: Step): (s': System)
    requires Enabled(s, step)
  {
    match step
    case Thread(t, reply) => DoThread(s, t, reply)
    case Act(a) => DoAct(s, a)
    case Register(name) =>
      var r := |s.servers|;
      s.(servers := s.servers + [NewServer(name)], names := s.names[name := r],
         agents := s.agents + [Starting(r, true)], locked := true, history := s.history + [Sighted(r)])
    case Sight(name) => Put(s, s.names[name], s.servers[s.names[name]].(failures := 0)).(history := s.history + [Sighted(s.names[name])])
    case Test(name) => s.(agents := s.agents + [Starting(s.names[name], true)], locked := true)
    case FindToStart(name) => s.(agents := s.agents + [Starting(s.names[name], false)])
    case FindToStop(name) => s.(agents := s.agents + [Stopping(s.names[name], false)])
    case Confirm(r) => Put(s, r, s.servers[r].(failures := 0)).(history := s.history + [Confirmed(r)])
    case Mark(r) => Put(s, r, s.servers[r].(evicted := true)).(agents := s.agents + [Stopping(r, true)])
    case ForgetId(r) => Put(s, r, s.servers[r].(serverId := 0))
    case SetCalls(r, calls) => Put(s, r, s.servers[r].(calls := calls))
  }

  /** `serversCreateRegistryServer`, up to the start of its thread. */
  function NewServer(name: bytes): (v: Server)
  {
    Server(name, true, true, false, false, None, 0, 0, 0)
  }

  function Put(s: System, r: nat, v: Server): (s': System)
    requires r < |s.servers|
  {
    s.(servers := s.servers[r := v])
  }

  // ---------------------------------------------------------------- runs

  /** A quiet moment: no call is under way, and a server has its one thread at the head of its loop,
      or is disabled and has none. */
  ghost predicate Initial(s: System) {
    && s.byId == map[] && s.issued == map[] && s.history == [] && s.failMax < COUNTER && s.agents == [] && !s.locked
    && (forall n :: n in s.names ==> s.names[n] < |s.servers| && s.servers[s.names[n]].name == n)
    && (forall r :: 0 <= r < |s.servers| ==> QuietServer(s.servers[r], |s.threads|))
    && (forall t :: 0 <= t < |s.threads| ==>
          && s.threads[t].r < |s.servers| && s.threads[t].pc == Outer && s.threads[t].session == 0
          && s.servers[s.threads[t].r].thread == Some(t))
    && (forall r :: 0 <= r < |s.servers| && s.servers[r].thread.Some? ==> s.threads[s.servers[r].thread.value].r == r)
  }

  predicate QuietServer(v: Server, threads: nat) {
    && v.enabled == v.thread.Some? && (v.thread.Some? ==> v.thread.value < threads)
    && !v.terminating && !v.evicted && v.failures == 0 && v.serverId == 0
  }

  /** The steps can be taken one after the other. */
  ghost predicate Legal(s: System, steps: seq<Step>)
    decreases |steps|, 0
  {
    steps == [] ||
    (Legal(s, steps[..|steps| - 1]) && Enabled(After(s, steps[..|steps| - 1]), steps[|steps| - 1]))
  }

  ghost function After(s: System, steps: seq<Step>): (s': System)
    requires Legal(s, steps)
    decreases |steps|, 1
  {
    if steps == [] then s else Do(After(s, steps[..|steps| - 1]), steps[|steps| - 1])
  }

  lemma OneMore(s: System, steps: seq<Step>, step: Step)
    requires Legal(s, steps) && Enabled(After(s, steps), step)
    ensures Legal(s, steps + [step]) && After(s, steps + [step]) == Do(After(s, steps), step)
  {
    assert (steps + [step])[..|steps|] == steps;
  }

  lemma {:induction false} Continue(s: System, steps: seq<Step>, more: seq<Step>)
    requires Legal(s, steps) && Legal(After(s, steps), more)
    ensures Legal(s, steps + more) && After(s, steps + more) == After(After(s, steps), more)
    decreases |more|
  {
    hide *;
    if more == [] {
      assert steps + more == steps;
      NoStep(After(s, steps));
    } else {
      var front, last := more[..|more| - 1], more[|more| - 1];
      assert steps + more == (steps + front) + [last];
      Front(After(s, steps), more);
      Continue(s, steps, front);
      OneMore(s, steps + front, last);
    }
  }

  lemma NoStep(s: System)
    ensures Legal(s, []) && After(s, []) == s
  {
  }

  lemma Front(s: System, steps: seq<Step>)
    requires Legal(s, steps) && steps != []
    ensures var front, last := steps[..|steps| - 1], steps[|steps| - 1];
            Legal(s, front) && Enabled(After(s, front), last) && After(s, steps) == Do(After(s, front), last)
  {
    hide Do, Enabled;
  }
}

/**
 The two lookup tables over every run, with any number of threads per server: which steps take an
 entry or a name out.
 */
module ServerTables {
  import opened Bytes
  import opened ServerThread
  import opened ServerLaws

  // ---------------------------------------------------------------- distinct session ids

  /** Janus never gives out a session id twice. */
  predicate Fresh(s: System, step: Step) {
    step.Thread? && step.reply.Session? ==> step.reply.id !in s.issued
  }

  ghost predicate FreshIds(s: System, steps: seq<Step>)
    requires Legal(s, steps)
    decreases |steps|
  {
    steps == [] ||
    (FreshIds(s, steps[..|steps| - 1]) && Fresh(After(s, steps[..|steps| - 1]), steps[|steps| - 1]))
  }

  predicate OwnSession(th: Thr, t: nat, issued: map<nat, nat>) {
    && (th.session != 0 ==> th.session in issued && issued[th.session] == t)
    && (th.pc.Claimed? || th.pc.Created? || th.pc.Store? || th.pc.Insert? ==> th.session != 0)
  }

  /** The id was given to a thread of the server. */
  predicate GivenTo(id: nat, r: nat, issued: map<nat, nat>, threads: seq<Thr>) {
    id in issued && issued[id] < |threads| && threads[issued[id]].r == r
  }

  ghost predicate IdsOk(s: System) {
    && (forall t :: 0 <= t < |s.threads| ==> OwnSession(s.threads[t], t, s.issued))
    && (forall r :: 0 <= r < |s.servers| && s.servers[r].serverId != 0 ==>
          GivenTo(s.servers[r].serverId, r, s.issued, s.threads))
    && (forall k :: k in s.byId ==> k != 0 && GivenTo(k, s.byId[k], s.issued, s.threads))
  }

  lemma NextSession(th: Thr, v: Server, failMax: nat, found: bool, seen: nat, reply: Reply)
    ensures var th' := NextThr(th, v, failMax, found, seen, reply);
            && (th'.session == th.session || th'.session == 0 || (th.pc.Connect? && th'.pc.Created? && reply == Session(th'.session)))
            && (th'.pc.Claimed? || th'.pc.Created? || th'.pc.Store? || th'.pc.Insert? ==>
                  th'.session != 0 || (th'.session == th.session && !th.pc.Connect? && (th.pc.Claimed? || th.pc.Created? || th.pc.Store?)))
  {
  }

  lemma ThreadKeepsIds(s: System, t: nat, reply: Reply)
    requires IdsOk(s) && Enabled(s, Thread(t, reply)) && Fresh(s, Thread(t, reply))
    ensures IdsOk(DoThread(s, t, reply))
  {
    hide NextThr, DoThread;
    ThreadFrame(s, t, reply);
    var th, s' := s.threads[t], DoThread(s, t, reply);
    assert OwnSession(th, t, s.issued);
    NextSession(th, s.servers[th.r], s.failMax, th.session in s.byId, |s.history|, reply);
    assert forall id, r :: GivenTo(id, r, s.issued, s.threads) ==> GivenTo(id, r, s'.issued, s'.threads);
    forall u | 0 <= u < |s'.threads| ensures OwnSession(s'.threads[u], u, s'.issued) {
      assert OwnSession(s.threads[u], u, s.issued);
    }
    forall r | 0 <= r < |s'.servers| && s'.servers[r].serverId != 0
      ensures GivenTo(s'.servers[r].serverId, r, s'.issued, s'.threads)
    {
      assert s.servers[r].serverId != 0 ==> GivenTo(s.servers[r].serverId, r, s.issued, s.threads);
    }
    forall k | k in s'.byId ensures k != 0 && GivenTo(k, s'.byId[k], s'.issued, s'.threads) {
      assert k in s.byId ==> GivenTo(k, s.byId[k], s.issued, s.threads);
    }
  }

  lemma ActKeepsIds(s: System, a: nat)
    requires IdsOk(s) && Enabled(s, Act(a))
    ensures IdsOk(DoAct(s, a))
  {
    hide DoAct, NextAgent;
    ActFrame(s, a);
    var s' := DoAct(s, a);
    assert forall id, r :: GivenTo(id, r, s.issued, s.threads) ==> GivenTo(id, r, s'.issued, s'.threads);
    forall u | 0 <= u < |s'.threads| ensures OwnSession(s'.threads[u], u, s'.issued) {
      assert u < |s.threads| ==> OwnSession(s.threads[u], u, s.issued);
    }
  }

  lemma StepKeepsIds(s: System, step: Step)
    requires IdsOk(s) && Enabled(s, step) && Fresh(s, step)
    ensures IdsOk(Do(s, step))
  {
    hide DoThread, DoAct;
    match step
    case Thread(t, reply) => ThreadKeepsIds(s, t, reply);
    case Act(a) => ActKeepsIds(s, a);
    case _ => assert Do(s, step).threads == s.threads && Do(s, step).issued == s.issued && Do(s, step).byId == s.byId;
  }

  lemma {:induction false} RunKeepsIds(s: System, steps: seq<Step>)
    requires Initial(s) && Legal(s, steps) && FreshIds(s, steps)
    ensures IdsOk(After(s, steps))
    decreases |steps|
  {
    if steps == [] {
      forall r | 0 <= r < |s.servers| ensures s.servers[r].serverId == 0 {
        assert QuietServer(s.servers[r], |s.threads|);
      }
    } else {
      hide Do, Enabled, IdsOk, Initial;
      RunKeepsIds(s, steps[..|steps| - 1]);
      StepKeepsIds(After(s, steps[..|steps| - 1]), steps[|steps| - 1]);
    }
  }

  /** With distinct session ids whatever id a server publishes or one of its threads holds leads, if
      anywhere, back to that server. */
  lemma IdsLeadHome(s0: System, steps: seq<Step>)
    requires Initial(s0) && Legal(s0, steps) && FreshIds(s0, steps)
    ensures var s := After(s0, steps);
            && (forall r :: 0 <= r < |s.servers| && s.servers[r].serverId in s.byId ==> s.byId[s.servers[r].serverId] == r)
            && (forall t :: 0 <= t < |s.threads| && s.threads[t].session in s.byId ==>
                  s.byId[s.threads[t].session] == s.threads[t].r)
  {
    RunKeepsIds(s0, steps);
    var s := After(s0, steps);
    hide After;
    forall t | 0 <= t < |s.threads| && s.threads[t].session in s.byId
      ensures s.byId[s.threads[t].session] == s.threads[t].r
    {
      assert OwnSession(s.threads[t], t, s.issued);
    }
  }

  /** The step removes server `r` from the lookups. */
  ghost predicate Removes(s: System, step: Step, r: nat) {
    && r < |s.servers| && s.servers[r].dynamic
    && ( || (step.Thread? && step.t < |s.threads| && s.threads[step.t].r == r && s.threads[step.t].pc == Leave)
         || (step.Act? && step.a < |s.agents| && s.agents[step.a].AtElse? && s.agents[step.a].r == r && s.servers[r].evicted))
  }

  /** With distinct session ids nobody else disturbs an entry: it leaves the table only when the
      thread that holds the session gives it up, after a failed poll or at its end, or when its
      server is removed. */
  lemma EntryLeaves(s0: System, steps: seq<Step>, step: Step, id: nat)
    requires Initial(s0) && Legal(s0, steps) && FreshIds(s0, steps) && Enabled(After(s0, steps), step)
    requires var s, s' := After(s0, steps), Do(After(s0, steps), step);
             id in s.byId && !(id in s'.byId && s'.byId[id] == s.byId[id])
    ensures var s := After(s0, steps);
            || Removes(s, step, s.byId[id])
            || (&& step.Thread? && s.threads[step.t].r == s.byId[id] && s.threads[step.t].session == id
                && (s.threads[step.t].pc == DropEntry || s.threads[step.t].pc == Done))
  {
    RunKeepsIds(s0, steps);
    var s := After(s0, steps);
    hide After, NextThr;
    assert GivenTo(id, s.byId[id], s.issued, s.threads) && id != 0;
    hide Do;
    if step.Thread? {
      var th := s.threads[step.t];
      assert OwnSession(th, step.t, s.issued);
      assert s.servers[th.r].serverId != 0 ==> GivenTo(s.servers[th.r].serverId, th.r, s.issued, s.threads);
      ThreadEntries(s, step.t, step.reply, id);
    } else if step.Act? {
      var g := s.agents[step.a];
      assert s.servers[g.r].serverId != 0 ==> GivenTo(s.servers[g.r].serverId, g.r, s.issued, s.threads);
      ActEntries(s, step.a, id);
    } else {
      OtherEntries(s, step);
    }
  }

  lemma ThreadEntries(s: System, t: nat, reply: Reply, id: nat)
    requires Enabled(s, Thread(t, reply)) && id in s.byId
    ensures var th, s' := s.threads[t], Do(s, Thread(t, reply));
            || (id in s'.byId && s'.byId[id] == s.byId[id])
            || ((th.pc == Insert || th.pc == DropEntry || th.pc == Done) && th.session == id)
            || (th.pc == Leave && s.servers[th.r].dynamic && s.servers[th.r].serverId == id)
    ensures var th, s' := s.threads[t], Do(s, Thread(t, reply));
            th.pc == Insert && th.session == id ==> id in s'.byId && (s'.byId[id] == s.byId[id] || s'.byId[id] == th.r)
  {
    hide NextThr, Logged;
    var th := s.threads[t];
    assert th.pc == Leave ==> NextServer(th, s.servers[th.r]) == s.servers[th.r];
    hide NextServer;
  }

  lemma ActEntries(s: System, a: nat, id: nat)
    requires Enabled(s, Act(a)) && id in s.byId
    ensures var g, s' := s.agents[a], Do(s, Act(a));
            || (id in s'.byId && s'.byId[id] == s.byId[id])
            || (g.AtElse? && s.servers[g.r].evicted && s.servers[g.r].dynamic && s.servers[g.r].serverId == id)
  {
    hide NextAgent;
  }

  lemma OtherEntries(s: System, step: Step)
    requires Enabled(s, step) && !step.Thread? && !step.Act?
    ensures Do(s, step).byId == s.byId
  {
  }

  // ---------------------------------------------------------------- the name table

  /** A name leaves the table exactly when a dynamic server of that name is removed, whether or not
      the name still leads to that server. */
  lemma NameLeaves(s: System, step: Step, n: bytes)
    requires Enabled(s, step) && n in s.names
    ensures n !in Do(s, step).names <==> exists r: nat :: Removes(s, step, r) && s.servers[r].name == n
    ensures n in Do(s, step).names ==> Do(s, step).names[n] == s.names[n]
  {
    hide NextThr, NextAgent, Logged, NextById;
    var s' := Do(s, step);
    if step.Thread? {
      var th := s.threads[step.t];
      assert th.pc == Leave ==> NextServer(th, s.servers[th.r]) == s.servers[th.r];
      assert th.pc == Leave && s.servers[th.r].dynamic ==> Removes(s, step, th.r);
      assert s'.names == if Removes(s, step, th.r) then s.names - {s.servers[th.r].name} else s.names;
    } else if step.Act? {
      var g := s.agents[step.a];
      assert s'.names == if Removes(s, step, g.r) then s.names - {s.servers[g.r].name} else s.names;
    }
  }

  /** A thread only ever takes down a server that was marked as evicted, and only dynamic ones are. */
  ghost predicate MarksOk(s: System) {
    && (forall r :: 0 <= r < |s.servers| && s.servers[r].evicted ==> s.servers[r].dynamic)
    && (forall t :: 0 <= t < |s.threads| ==> s.threads[t].r < |s.servers| && MarkOk(s.threads[t], s.servers[s.threads[t].r]))
  }

  predicate MarkOk(th: Thr, v: Server) {
    (th.pc.Recorded? || th.pc.Decided? ==> v.dynamic) && (th.pc.Leave? ==> v.evicted)
  }

  lemma NextMarkOk(th: Thr, v: Server, failMax: nat, found: bool, seen: nat, reply: Reply)
    requires MarkOk(th, v)
    ensures MarkOk(NextThr(th, v, failMax, found, seen, reply), NextServer(th, v))
  {
  }

  lemma StepKeepsMarks(s: System, step: Step)
    requires MarksOk(s) && Enabled(s, step)
    ensures MarksOk(Do(s, step))
  {
    hide NextThr, DoThread, DoAct, NextAgent;
    var s' := Do(s, step);
    if step.Thread? {
      var th := s.threads[step.t];
      ThreadFrame(s, step.t, step.reply);
      NextMarkOk(th, s.servers[th.r], s.failMax, th.session in s.byId, |s.history|, step.reply);
    } else if step.Act? {
      ActFrame(s, step.a);
    }
    forall t | 0 <= t < |s'.threads| ensures s'.threads[t].r < |s'.servers| && MarkOk(s'.threads[t], s'.servers[s'.threads[t].r]) {
      assert t < |s.threads| ==> MarkOk(s.threads[t], s.servers[s.threads[t].r]);
    }
  }

  lemma {:induction false} RunKeepsMarks(s: System, steps: seq<Step>)
    requires Initial(s) && Legal(s, steps)
    ensures MarksOk(After(s, steps))
    decreases |steps|
  {
    if steps == [] {
      forall r | 0 <= r < |s.servers| ensures !s.servers[r].evicted {
        assert QuietServer(s.servers[r], |s.threads|);
      }
    } else {
      hide Do, Enabled, MarksOk, Initial;
      RunKeepsMarks(s, steps[..|steps| - 1]);
      StepKeepsMarks(After(s, steps[..|steps| - 1]), steps[|steps| - 1]);
    }
  }

  /** Over every run a name leaves the table only through an evicted server of that name. */
  lemma NameLeavesByEviction(s0: System, steps: seq<Step>, step: Step, n: bytes)
    requires Initial(s0) && Legal(s0, steps) && Enabled(After(s0, steps), step)
    requires n in After(s0, steps).names && n !in Do(After(s0, steps), step).names
    ensures exists r: nat :: Removes(After(s0, steps), step, r)
              && After(s0, steps).servers[r].name == n && After(s0, steps).servers[r].evicted
  {
    RunKeepsMarks(s0, steps);
    var s := After(s0, steps);
    NameLeaves(s, step, n);
    hide After;
    var r: nat :| Removes(s, step, r) && s.servers[r].name == n;
    if step.Thread? {
      assert MarkOk(s.threads[step.t], s.servers[r]);
    }
    assert s.servers[r].evicted;
  }

  // ---------------------------------------------------------------- losing a successor's name

  /** A server of the name with one thread, the calls on it, and then perhaps a second server that
      was registered under the same name. */
  function Scene(first: Server, pc: Pc, agents: seq<Agent>, names: map<bytes, nat>, second: seq<Server>, locked: bool): (s: System)
  {
    var started := if second != [] && second[0].thread.Some? then [Thr(1, Outer, 0, 0)] else [];
    System(3, locked, [first] + second, [Thr(0, pc, 0, 0)] + started, agents, names, map[], map[],
      if second == [] then [] else [Sighted(1)])
  }

  ghost predicate Goes(s: System, step: Step, s': System) {
    Enabled(s, step) && Do(s, step) == s'
  }

  function Running(n: bytes): (v: Server)
  {
    NewServer(n).(thread := Some(0))
  }

  lemma SceneOpens(n: bytes)
    ensures var v, m := Running(n), map[n := 0];
            var v1 := v.(terminating := true);
            && Initial(Scene(v, Outer, [], m, [], false))
            && Goes(Scene(v, Outer, [], m, [], false), FindToStop(n), Scene(v, Outer, [Stopping(0, false)], m, [], false))
            && Goes(Scene(v, Outer, [Stopping(0, false)], m, [], false), Act(0), Scene(v1, Outer, [AtJoin(0)], m, [], false))
            && Goes(Scene(v1, Outer, [AtJoin(0)], m, [], false), Mark(0),
                 Scene(v1.(evicted := true), Outer, [AtJoin(0), Stopping(0, true)], m, [], false))
  {
  }

  lemma SceneRemoves(n: bytes, v: Server)
    requires v == Running(n).(terminating := true, evicted := true)
    ensures var m := map[n := 0];
            && Goes(Scene(v, Outer, [AtJoin(0), Stopping(0, true)], m, [], false), Act(1),
                 Scene(v, Outer, [AtJoin(0), AtElse(0, true)], m, [], false))
            && Goes(Scene(v, Outer, [AtJoin(0), AtElse(0, true)], m, [], false), Act(1),
                 Scene(v.(enabled := false), Outer, [AtJoin(0), Finished(0)], map[], [], false))
  {
    assert map[n := 0] - {n} == map[];
  }

  lemma SceneRegisters(n: bytes, v: Server)
    requires v == Running(n).(terminating := true, evicted := true, enabled := false)
    ensures var w, m, g := NewServer(n), map[n := 1], [AtJoin(0), Finished(0)];
            && Goes(Scene(v, Outer, g, map[], [], false), Register(n), Scene(v, Outer, g + [Starting(1, true)], m, [w], true))
            && Goes(Scene(v, Outer, g + [Starting(1, true)], m, [w], true), Act(2),
                 Scene(v, Outer, g + [Spawning(1, true)], m, [w], true))
            && Goes(Scene(v, Outer, g + [Spawning(1, true)], m, [w], true), Act(2),
                 Scene(v, Outer, g + [Finished(1)], m, [w.(thread := Some(1))], false))
  {
    SceneSpawns(n, v);
  }

  lemma SceneSpawns(n: bytes, v: Server)
    requires v == Running(n).(terminating := true, evicted := true, enabled := false)
    ensures var w, m, g := NewServer(n), map[n := 1], [AtJoin(0), Finished(0)];
            Goes(Scene(v, Outer, g + [Spawning(1, true)], m, [w], true), Act(2),
              Scene(v, Outer, g + [Finished(1)], m, [w.(thread := Some(1))], false))
  {
  }

  lemma SceneEnds(v: Server, w: Server, g: seq<Agent>, m: map<bytes, nat>)
    requires v.terminating && v.evicted && w.thread.Some?
    ensures var go := Thread(0, Success);
            && Goes(Scene(v, Outer, g, m, [w], false), go, Scene(v, Done, g, m, [w], false))
            && Goes(Scene(v, Done, g, m, [w], false), go, Scene(v, Check, g, m, [w], false))
  {
    var none: map<nat, nat> := map[];
    assert none - {0} == none;
  }

  lemma SceneChecks(v: Server, w: Server, g: seq<Agent>, m: map<bytes, nat>)
    requires v.terminating && v.evicted && w.thread.Some?
    ensures var go := Thread(0, Success);
            && Goes(Scene(v, Check, g, m, [w], false), go, Scene(v, Leave, g, m, [w], false))
  {
    var none: map<nat, nat> := map[];
    assert none - {0} == none;
  }

  lemma SceneCloses(n: bytes, v: Server, w: Server, g: seq<Agent>)
    requires v == Running(n).(terminating := true, evicted := true, enabled := false) && w.thread.Some?
    ensures Goes(Scene(v, Leave, g, map[n := 1], [w], false), Thread(0, Success), Scene(v, Ended, g, map[], [w], false))
  {
    assert map[n := 1] - {n} == map[];
  }

  lemma SceneShows(v: Server, g: seq<Agent>, w: Server)
    requires w.thread.Some?
    ensures var s := Scene(v, Ended, g, map[], [w], false);
            s.names == map[] && |s.servers| == 2 && s.servers[1] == w && |s.threads| == 2 && s.threads[1].pc == Outer
  {
  }

  lemma NoSteps(s: System)
    ensures Legal(s, []) && After(s, []) == s
  {
  }

  lemma GoOn(s0: System, steps: seq<Step>, step: Step, s: System, s': System)
    requires Legal(s0, steps) && After(s0, steps) == s && Goes(s, step, s')
    ensures Legal(s0, steps + [step]) && After(s0, steps + [step]) == s'
  {
    hide Do, Enabled, After;
    OneMore(s0, steps, step);
  }

  lemma GoOn3(s0: System, steps: seq<Step>, x1: Step, x2: Step, x3: Step, s: System, s1: System, s2: System, s3: System)
    requires Legal(s0, steps) && After(s0, steps) == s && Goes(s, x1, s1) && Goes(s1, x2, s2) && Goes(s2, x3, s3)
    ensures Legal(s0, steps + [x1] + [x2] + [x3]) && After(s0, steps + [x1] + [x2] + [x3]) == s3
  {
    hide *;
    GoOn(s0, steps, x1, s, s1);
    GoOn(s0, steps + [x1], x2, s1, s2);
    GoOn(s0, steps + [x1] + [x2], x3, s2, s3);
  }

  /** The removal goes by name, so a server may lose its name without being evicted itself: a
      thread that is being stopped while a refresh evicts its server removes, when it ends, the
      server registered under the same name in the meantime. */
  lemma SuccessorLosesItsName(n: bytes) returns (steps: seq<Step>)
    ensures var s0 := Scene(Running(n), Outer, [], map[n := 0], [], false);
            && Initial(s0) && Legal(s0, steps)
            && n !in After(s0, steps).names && |After(s0, steps).servers| == 2
            && After(s0, steps).servers[1] == NewServer(n).(thread := Some(1))
            && |After(s0, steps).threads| == 2 && After(s0, steps).threads[1].pc == Outer
  {
    hide *;
    var v0, m0, go := Running(n), map[n := 0], Thread(0, Success);
    var v1 := v0.(terminating := true);
    var v2 := v1.(evicted := true);
    var v := v2.(enabled := false);
    var w, m, g := NewServer(n), map[n := 1], [AtJoin(0), Finished(0)];
    var w', g' := w.(thread := Some(1)), g + [Finished(1)];
    SceneOpens(n);
    SceneRemoves(n, v2);
    SceneRegisters(n, v);
    SceneEnds(v, w', g', m);
    SceneChecks(v, w', g', m);
    SceneCloses(n, v, w', g');
    var s0 := Scene(v0, Outer, [], m0, [], false);
    var s1, s2 := Scene(v0, Outer, [Stopping(0, false)], m0, [], false), Scene(v1, Outer, [AtJoin(0)], m0, [], false);
    var s3 := Scene(v2, Outer, [AtJoin(0), Stopping(0, true)], m0, [], false);
    var s4 := Scene(v2, Outer, [AtJoin(0), AtElse(0, true)], m0, [], false);
    var s5, s6 := Scene(v, Outer, g, map[], [], false), Scene(v, Outer, g + [Starting(1, true)], m, [w], true);
    var s7, s8 := Scene(v, Outer, g + [Spawning(1, true)], m, [w], true), Scene(v, Outer, g', m, [w'], false);
    var s9, s10 := Scene(v, Done, g', m, [w'], false), Scene(v, Check, g', m, [w'], false);
    var s11, s12 := Scene(v, Leave, g', m, [w'], false), Scene(v, Ended, g', map[], [w'], false);
    SceneShows(v, g', w');
    NoSteps(s0);
    GoOn3(s0, [], FindToStop(n), Act(0), Mark(0), s0, s1, s2, s3);
    steps := [] + [FindToStop(n)] + [Act(0)] + [Mark(0)];
    GoOn3(s0, steps, Act(1), Act(1), Register(n), s3, s4, s5, s6);
    steps := steps + [Act(1)] + [Act(1)] + [Register(n)];
    GoOn3(s0, steps, Act(2), Act(2), go, s6, s7, s8, s9);
    steps := steps + [Act(2)] + [Act(2)] + [go];
    GoOn3(s0, steps, go, go, go, s9, s10, s11, s12);
    steps := steps + [go] + [go] + [go];
  }
}

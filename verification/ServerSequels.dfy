/**
 What can follow a start, whatever else goes on but a further start of the same server: stops,
 refreshes, removals, other servers.  A start that finds no thread in its loop leads to one entry at
 most, unless a call is just about to read which thread it has to wait for.
 */
module ServerSequels {
  import opened Bytes
  import opened ServerThread
  import opened ServerLaws
  import opened ServerRaces

  /** No start of the server goes ahead in this step. */
  ghost predicate StartsNothing(s: System, step: Step, r: nat) {
    step.Act? && Enabled(s, step) && s.agents[step.a].r == r ==> !Passes(s.agents[step.a], s.servers[r])
  }

  ghost predicate RunWithoutStart(s: System, steps: seq<Step>, r: nat)
    decreases |steps|
  {
    && Legal(s, steps)
    && (steps == [] ||
        (RunWithoutStart(s, steps[..|steps| - 1], r) && StartsNothing(After(s, steps[..|steps| - 1]), steps[|steps| - 1], r)))
  }

  predicate Gone(pc: Pc) {
    Leaving(pc) || pc.Decided?
  }

  /** A call that waits for a thread of the server waits for the one that has the entry, or has seen
      it end. */
  predicate JoinFits(g: Agent, v: Server, first: Thr, last: Thr, lone: nat, n: nat, entries: bool) {
    && v.terminating
    && (g.AtJoin? ==> lone == n && v.thread == Some(n))
    && (g.Waiting? ==> g.t == lone)
    && (g.Clearing? ==> !entries && Out(last, v) && (lone != n ==> Gone(first.pc)))
  }

  ghost predicate HasEntries(s: System, r: nat) {
    exists k :: k in s.byId && s.byId[k] == r
  }

  /** Of the server's threads only `lone`, being waited for, and `n`, the last one, are not gone; only
      `lone` has entries, and `n` can get one only when it is itself the lone one. */
  ghost predicate Sole(s: System, r: nat, lone: nat, n: nat) {
    && r < |s.servers| && lone < |s.threads| && n < |s.threads| && s.threads[lone].r == r && s.threads[n].r == r
    && ServerRaces.Armed(s.threads[lone]) && NobodySpawns(s, r)
    && (s.servers[r].thread.Some? ==> s.servers[r].thread == Some(n))
    && (lone != n ==> s.servers[r].terminating && Out(s.threads[n], s.servers[r]) && ServerRaces.Armed(s.threads[n]))
    && (forall u :: 0 <= u < |s.threads| && s.threads[u].r == r && u != lone && u != n ==> Gone(s.threads[u].pc))
    && (forall k :: k in s.byId && s.byId[k] == r ==> EntryOk(k, s.threads[lone], s.servers[r]))
    && (forall a :: 0 <= a < |s.agents| && s.agents[a].r == r && Joins(s.agents[a]) ==>
          JoinFits(s.agents[a], s.servers[r], s.threads[lone], s.threads[n], lone, n, HasEntries(s, r)))
    && (forall a, b :: 0 <= a < b < |s.agents| && s.agents[a].r == r && s.agents[b].r == r ==>
          !(Joins(s.agents[a]) && Joins(s.agents[b])))
  }

  lemma SoleHasOne(s: System, r: nat, lone: nat, n: nat)
    requires Sole(s, r, lone, n)
    ensures !TwoEntries(s, r)
  {
  }

  // ---------------------------------------------------------------- steps of threads

  lemma GoneStays(th: Thr, v: Server, failMax: nat, found: bool, seen: nat, reply: Reply)
    requires Gone(th.pc)
    ensures Gone(NextThr(th, v, failMax, found, seen, reply).pc) && !th.pc.Insert?
  {
  }

  lemma OutStaysArmed(th: Thr, v: Server, failMax: nat, found: bool, seen: nat, reply: Reply)
    requires Out(th, v)
    ensures ServerRaces.Armed(NextThr(th, v, failMax, found, seen, reply))
  {
  }

  lemma JoinStillFits(g: Agent, v: Server, v': Server, first: Thr, first': Thr, last: Thr, last': Thr, lone: nat, n: nat,
                      entries: bool, entries': bool)
    requires JoinFits(g, v, first, last, lone, n, entries)
    requires v'.terminating == v.terminating && v'.thread == v.thread && (entries' ==> entries || (!Gone(first.pc) && !Out(first, v)))
    requires (Gone(first.pc) ==> Gone(first'.pc)) && (Out(last, v) ==> Out(last', v)) && (lone == n ==> first == last)
    ensures JoinFits(g, v', first', last', lone, n, entries')
  {
    SameOut(last', v, v');
  }

  lemma ThreadKeepsSole(s: System, t: nat, reply: Reply, r: nat, lone: nat, n: nat)
    requires Sole(s, r, lone, n) && Enabled(s, Thread(t, reply))
    ensures Sole(DoThread(s, t, reply), r, lone, n)
  {
    hide NextThr, DoThread, EntryOk, Out, Gone, JoinFits, ServerRaces.Armed;
    ThreadFrame(s, t, reply);
    var th, s' := s.threads[t], DoThread(s, t, reply);
    var v, v' := s.servers[r], s'.servers[r];
    var found := th.session in s.byId;
    if th.r == r {
      var w := s.servers[r];
      if t == lone {
        LoneGoesOn(th, w, s.failMax, found, |s.history|, reply);
      }
      if Out(th, w) {
        OutStays(th, w, s.failMax, found, |s.history|, reply);
        OutStaysArmed(th, w, s.failMax, found, |s.history|, reply);
      }
      if Gone(th.pc) {
        GoneStays(th, w, s.failMax, found, |s.history|, reply);
      }
      SameOut(s'.threads[n], v, v');
    }
    forall k | k in s'.byId && s'.byId[k] == r ensures EntryOk(k, s'.threads[lone], v') {
      SoleEntry(s, t, reply, r, lone, n, k);
    }
    EntriesCome(s, t, reply, r, lone, n);
    forall a | 0 <= a < |s'.agents| && s'.agents[a].r == r && Joins(s'.agents[a])
      ensures JoinFits(s'.agents[a], v', s'.threads[lone], s'.threads[n], lone, n, HasEntries(s', r))
    {
      JoinStillFits(s.agents[a], v, v', s.threads[lone], s'.threads[lone], s.threads[n], s'.threads[n], lone, n,
        HasEntries(s, r), HasEntries(s', r));
    }
  }

  lemma SoleEntry(s: System, t: nat, reply: Reply, r: nat, lone: nat, n: nat, k: nat)
    requires Sole(s, r, lone, n) && Enabled(s, Thread(t, reply))
    requires k in DoThread(s, t, reply).byId && DoThread(s, t, reply).byId[k] == r
    ensures EntryOk(k, DoThread(s, t, reply).threads[lone], DoThread(s, t, reply).servers[r])
  {
    hide NextThr, DoThread, EntryOk, Out, Gone, JoinFits, ServerRaces.Armed, NobodySpawns;
    ThreadFrame(s, t, reply);
    var th, s' := s.threads[t], DoThread(s, t, reply);
    var v, v' := s.servers[r], s'.servers[r];
    SameEntry(k, s'.threads[lone], v, v');
    EntrySession(k, s.threads[lone], v);
    if t == lone {
      LoneGoesOn(th, v, s.failMax, th.session in s.byId, |s.history|, reply);
    } else if th.r == r {
      if t == n {
        OutStays(th, v, s.failMax, th.session in s.byId, |s.history|, reply);
      } else {
        GoneStays(th, v, s.failMax, th.session in s.byId, |s.history|, reply);
      }
    }
  }

  /** Entries of the server come only from the lone thread, and not when it has left. */
  lemma EntriesCome(s: System, t: nat, reply: Reply, r: nat, lone: nat, n: nat)
    requires Sole(s, r, lone, n) && Enabled(s, Thread(t, reply))
    ensures HasEntries(DoThread(s, t, reply), r) ==>
              HasEntries(s, r) || (!Gone(s.threads[lone].pc) && !Out(s.threads[lone], s.servers[r]))
  {
    hide NextThr, DoThread, EntryOk, JoinFits, ServerRaces.Armed, NobodySpawns;
    ThreadFrame(s, t, reply);
    var s' := DoThread(s, t, reply);
    if HasEntries(s', r) && !HasEntries(s, r) {
      var k :| k in s'.byId && s'.byId[k] == r;
      assert s.threads[t].pc.Insert? && s.threads[t].r == r;
    }
  }

  // ---------------------------------------------------------------- steps of calls, and the others

  /** A call on the server that is not about to create a thread, and the step it takes. */
  lemma ActFits(g: Agent, v: Server, created: nat, first: Thr, last: Thr, lone: nat, n: nat, entries: bool)
    requires Joins(g) ==> JoinFits(g, v, first, last, lone, n, entries)
    requires !Passes(g, v) && !g.Spawning? && (v.thread.Some? ==> v.thread == Some(n)) && (lone != n ==> v.terminating)
    requires lone != n ==> Out(last, v)
    requires g.Waiting? && g.t == lone ==> first.pc.Ended? && !entries
    requires lone == n ==> first == last
    ensures var g', v' := NextAgent(g, v), ActOn(g, v, created);
            && !g'.Spawning? && (v'.thread.Some? ==> v'.thread == Some(n))
            && (!g.Clearing? ==> (v.terminating ==> v'.terminating) && (Joins(g') ==> JoinFits(g', v', first, last, lone, n, entries)))
            && (v'.terminating != v.terminating || v'.thread != v.thread ==> Joins(g) || Joins(g'))
            && (Joins(g') && !Joins(g) ==> !v.terminating)
  {
  }

  lemma ActKeepsSole(s: System, a: nat, r: nat, lone: nat, n: nat)
    requires Sole(s, r, lone, n) && Enabled(s, Act(a)) && StartsNothing(s, Act(a), r)
    requires s.agents[a].r == r ==> !s.agents[a].Clearing?
    ensures Sole(DoAct(s, a), r, lone, n)
  {
    hide DoAct, NextAgent, ActOn, EntryOk, Out, Gone, JoinFits, ServerRaces.Armed, Passes;
    ActFrame(s, a);
    var g, s' := s.agents[a], DoAct(s, a);
    var v, v' := s.servers[r], s'.servers[r];
    assert HasEntries(s', r) ==> HasEntries(s, r);
    if g.r == r {
      assert !g.Spawning?;
      if g.Waiting? && g.t == lone {
        NoEntryOfEnded(s, r, lone, n);
      }
      if Joins(g) {
        WaitsForLone(g, v, s.threads[lone], s.threads[n], lone, n, HasEntries(s, r));
      }
      ActFits(g, v, |s.threads|, s.threads[lone], s.threads[n], lone, n, HasEntries(s, r));
      OwnActKeepsSole(s, a, r, lone, n);
    } else {
      assert NextAgent(g, s.servers[g.r]).r == g.r;
      assert NobodySpawns(s', r);
      assert v' == v;
      forall b | 0 <= b < |s'.agents| && s'.agents[b].r == r && Joins(s'.agents[b])
        ensures JoinFits(s'.agents[b], v', s'.threads[lone], s'.threads[n], lone, n, HasEntries(s', r))
      {
        FewerEntries(s'.agents[b], v, v', s.threads[lone], s.threads[n], lone, n, HasEntries(s, r), HasEntries(s', r));
      }
    }
  }

  lemma WaitsForLone(g: Agent, v: Server, first: Thr, last: Thr, lone: nat, n: nat, entries: bool)
    requires JoinFits(g, v, first, last, lone, n, entries)
    ensures g.Waiting? ==> g.t == lone
  {
  }

  lemma NoEntryOfEnded(s: System, r: nat, lone: nat, n: nat)
    requires Sole(s, r, lone, n) && s.threads[lone].pc.Ended?
    ensures !HasEntries(s, r)
  {
  }

  lemma FewerEntries(g: Agent, v: Server, v': Server, first: Thr, last: Thr, lone: nat, n: nat, entries: bool, entries': bool)
    requires JoinFits(g, v, first, last, lone, n, entries) && (entries' ==> entries)
    requires v'.terminating == v.terminating && v'.thread == v.thread
    ensures JoinFits(g, v', first, last, lone, n, entries')
  {
    SameOut(last, v, v');
  }

  /** The entries stay what they are when a stop begins. */
  lemma MoreTerminating(k: nat, th: Thr, v: Server, v': Server)
    requires v.terminating ==> v'.terminating
    ensures EntryOk(k, th, v) ==> EntryOk(k, th, v')
    ensures Out(th, v) ==> Out(th, v')
  {
  }

  lemma OwnActKeepsSole(s: System, a: nat, r: nat, lone: nat, n: nat)
    requires Sole(s, r, lone, n) && Enabled(s, Act(a)) && s.agents[a].r == r
    requires !Passes(s.agents[a], s.servers[r]) && !s.agents[a].Clearing? && !s.agents[a].Spawning?
    requires var g, v := s.agents[a], s.servers[r];
             var g', v' := NextAgent(g, v), ActOn(g, v, |s.threads|);
             && !g'.Spawning? && (v'.thread.Some? ==> v'.thread == Some(n)) && (v.terminating ==> v'.terminating)
             && (Joins(g') ==> JoinFits(g', v', s.threads[lone], s.threads[n], lone, n, HasEntries(s, r)))
             && (v'.terminating != v.terminating || v'.thread != v.thread ==> Joins(g) || Joins(g'))
             && (Joins(g') && !Joins(g) ==> !v.terminating)
    ensures Sole(DoAct(s, a), r, lone, n)
  {
    hide DoAct, NextAgent, ActOn, EntryOk, Out, Gone, JoinFits, ServerRaces.Armed, Passes;
    ActFrame(s, a);
    var g, s' := s.agents[a], DoAct(s, a);
    var v, v' := s.servers[r], s'.servers[r];
    var w := ActOn(g, v, |s.threads|);
    assert NobodySpawns(s', r);
    assert v'.thread == w.thread && v'.terminating == w.terminating by {
      if v' != w {
        assert g.AtElse?;
        AtElseDoesNothing(g, v, |s.threads|);
      }
    }
    forall k | k in s'.byId && s'.byId[k] == r ensures EntryOk(k, s'.threads[lone], v') {
      MoreTerminating(k, s.threads[lone], v, v');
    }
    MoreTerminating(0, s.threads[n], v, v');
    forall b | 0 <= b < |s'.agents| && s'.agents[b].r == r && Joins(s'.agents[b])
      ensures JoinFits(s'.agents[b], v', s'.threads[lone], s'.threads[n], lone, n, HasEntries(s', r))
    {
      if b == a {
        FewerEntries(s'.agents[a], w, v', s.threads[lone], s.threads[n], lone, n, HasEntries(s, r), HasEntries(s', r));
      } else {
        JoinersTerminate(s.agents[b], v, s.threads[lone], s.threads[n], lone, n, HasEntries(s, r));
        FewerEntries(s'.agents[b], v, v', s.threads[lone], s.threads[n], lone, n, HasEntries(s, r), HasEntries(s', r));
      }
    }
    forall b, c | 0 <= b < c < |s'.agents| && s'.agents[b].r == r && s'.agents[c].r == r
      ensures !(Joins(s'.agents[b]) && Joins(s'.agents[c]))
    {
      var other := if b == a then c else b;
      if (b == a || c == a) && Joins(s'.agents[a]) && Joins(s.agents[other]) {
        JoinersTerminate(s.agents[other], v, s.threads[lone], s.threads[n], lone, n, HasEntries(s, r));
      }
    }
  }

  lemma AtElseDoesNothing(g: Agent, v: Server, created: nat)
    requires g.AtElse?
    ensures ActOn(g, v, created) == v
  {
  }

  lemma JoinersTerminate(g: Agent, v: Server, first: Thr, last: Thr, lone: nat, n: nat, entries: bool)
    requires JoinFits(g, v, first, last, lone, n, entries)
    ensures v.terminating
  {
  }

  /** When the flags are cleared the last thread is the only one left, without an entry. */
  lemma ClearKeepsSole(s: System, a: nat, r: nat, lone: nat, n: nat)
    requires Sole(s, r, lone, n) && Enabled(s, Act(a)) && s.agents[a].r == r && s.agents[a].Clearing?
    ensures Sole(DoAct(s, a), r, n, n)
  {
    hide EntryOk, Out, Gone, ServerRaces.Armed;
    var s' := DoAct(s, a);
    assert JoinFits(s.agents[a], s.servers[r], s.threads[lone], s.threads[n], lone, n, HasEntries(s, r));
    assert s'.byId == s.byId && s'.threads == s.threads;
    assert !HasEntries(s', r);
    assert forall b :: 0 <= b < |s'.agents| && s'.agents[b].r == r ==> !Joins(s'.agents[b]);
  }

  /** The steps that are neither a thread's nor a call's. */
  lemma OtherFrame(s: System, step: Step, r: nat)
    requires r < |s.servers| && Enabled(s, step) && !step.Thread? && !step.Act?
    ensures var s' := Do(s, step);
            && s'.threads == s.threads && s'.byId == s.byId && s.agents <= s'.agents && r < |s'.servers|
            && (forall b :: |s.agents| <= b < |s'.agents| ==> s'.agents[b].Starting? || s'.agents[b].Stopping?)
            && s'.servers[r].terminating == s.servers[r].terminating && s'.servers[r].thread == s.servers[r].thread
  {
  }

  lemma OtherKeepsSole(s: System, step: Step, r: nat, lone: nat, n: nat)
    requires Sole(s, r, lone, n) && Enabled(s, step) && !step.Thread? && !step.Act?
    ensures Sole(Do(s, step), r, lone, n)
  {
    hide EntryOk, Out, Gone, JoinFits, ServerRaces.Armed, Do, Enabled;
    OtherFrame(s, step, r);
    var s' := Do(s, step);
    var v, v' := s.servers[r], s'.servers[r];
    assert HasEntries(s', r) <==> HasEntries(s, r);
    SameOut(s.threads[n], v, v');
    forall k | k in s'.byId && s'.byId[k] == r ensures EntryOk(k, s'.threads[lone], v') {
      SameEntry(k, s.threads[lone], v, v');
    }
    forall b | 0 <= b < |s'.agents| && s'.agents[b].r == r && Joins(s'.agents[b])
      ensures JoinFits(s'.agents[b], v', s'.threads[lone], s'.threads[n], lone, n, HasEntries(s', r))
    {
      FewerEntries(s.agents[b], v, v', s.threads[lone], s.threads[n], lone, n, HasEntries(s, r), HasEntries(s', r));
    }
  }

  lemma StepKeepsSole(s: System, step: Step, r: nat, lone: nat, n: nat) returns (lone': nat)
    requires Sole(s, r, lone, n) && Enabled(s, step) && StartsNothing(s, step, r)
    ensures Sole(Do(s, step), r, lone', n)
  {
    hide Sole;
    lone' := lone;
    if step.Thread? {
      ThreadKeepsSole(s, step.t, step.reply, r, lone, n);
    } else if step.Act? {
      if s.agents[step.a].r == r && s.agents[step.a].Clearing? {
        ClearKeepsSole(s, step.a, r, lone, n);
        lone' := n;
      } else {
        ActKeepsSole(s, step.a, r, lone, n);
      }
    } else {
      OtherKeepsSole(s, step, r, lone, n);
    }
  }

  lemma {:induction false} StaysSole(s: System, steps: seq<Step>, r: nat, lone: nat, n: nat) returns (lone': nat)
    requires Sole(s, r, lone, n) && RunWithoutStart(s, steps, r)
    ensures Sole(After(s, steps), r, lone', n)
    decreases |steps|
  {
    hide Sole, Do, Enabled, StartsNothing;
    if steps == [] {
      lone' := lone;
    } else {
      var before := StaysSole(s, steps[..|steps| - 1], r, lone, n);
      lone' := StepKeepsSole(After(s, steps[..|steps| - 1]), steps[|steps| - 1], r, before, n);
    }
  }

  // ---------------------------------------------------------------- main results

  /** No call is about to read which thread of the server it has to wait for. */
  ghost predicate NobodyReads(s: System, r: nat) {
    forall a :: 0 <= a < |s.agents| && s.agents[a].AtJoin? ==> s.agents[a].r != r
  }

  lemma FitsAtStart(g: Agent, v: Server, listed: bool, first: Thr, last: Thr, lone: nat, n: nat, entries: bool)
    requires AgentOk(g, v, listed) && Joins(g) && !g.AtJoin? && last.pc.Outer?
    requires lone == (if v.terminating && v.thread.Some? then v.thread.value else n) && (entries ==> v.thread.Some?)
    requires v.thread.Some? ==> v.thread.value != n
    ensures JoinFits(g, v.(enabled := true, thread := Some(n)), first, last, lone, n, entries)
  {
  }

  /** Threads that are alive and not in their loop, or not the one being waited for, are as good as gone. */
  lemma GoneAtStart(th: Thr, u: nat, v: Server, lone: nat)
    requires ThreadOk(th, u, v) && u != lone && (v.terminating && v.thread.Some? ==> lone == v.thread.value)
    requires !v.terminating ==> !InLoop(th.pc)
    ensures Gone(th.pc)
  {
  }

  lemma EntryAtStart(k: nat, th: Thr, v: Server, n: nat)
    requires EntryOk(k, th, v)
    ensures v.terminating || InLoop(th.pc)
    ensures EntryOk(k, th, v.(enabled := true, thread := Some(n)))
  {
  }

  lemma SoleAfterStart(s: System, a: nat) returns (lone: nat)
    requires Inv(s) && Enabled(s, Act(a)) && Passes(s.agents[a], s.servers[s.agents[a].r])
    requires !Busy(s, s.agents[a].r) && NobodyReads(s, s.agents[a].r)
    ensures Sole(Started(s, a), s.agents[a].r, lone, |s.threads|)
  {
    hide Started, ListingsOk, ThreadsOk, AgentsOk, EntriesOk, EntryOk, ThreadOk, AgentOk, JoinFits, Gone, InLoop, Passes;
    StartedIs(s, a);
    var r, s', n := s.agents[a].r, Started(s, a), |s.threads|;
    var v := s.servers[r];
    lone := if v.terminating && v.thread.Some? then v.thread.value else n;
    assert HandleOk(s, r);
    StartSpawnsNobody(s, a);
    forall u | 0 <= u < n && s.threads[u].r == r && u != lone ensures Gone(s.threads[u].pc) {
      ThreadAt(s, u);
      GoneAtStart(s.threads[u], u, v, lone);
    }
    if lone < n {
      ThreadAt(s, lone);
      ArmedAt(s.threads[lone], lone, v);
    }
    forall k | k in s'.byId && s'.byId[k] == r ensures EntryOk(k, s'.threads[lone], s'.servers[r]) && v.thread.Some? {
      EntryAt(s, k);
      EntryAtStart(k, s.threads[v.thread.value], v, n);
    }
    forall b | 0 <= b < |s'.agents| && s'.agents[b].r == r && Joins(s'.agents[b])
      ensures JoinFits(s'.agents[b], s'.servers[r], s'.threads[lone], s'.threads[n], lone, n, HasEntries(s', r))
    {
      AgentAt(s, b);
      FitsAtStart(s.agents[b], v, Listed(s, r), s'.threads[lone], s'.threads[n], lone, n, HasEntries(s', r));
    }
    forall b, c | 0 <= b < c < |s'.agents| && s'.agents[b].r == r && s'.agents[c].r == r
      ensures !(Joins(s'.agents[b]) && Joins(s'.agents[c]))
    {
      JoinersApart(s, b, c);
    }
  }

  lemma ArmedAt(th: Thr, u: nat, v: Server)
    requires ThreadOk(th, u, v)
    ensures ServerRaces.Armed(th)
  {
  }

  lemma JoinersApart(s: System, b: nat, c: nat)
    requires Inv(s) && b < c < |s.agents| && s.agents[b].r == s.agents[c].r
    ensures !(Joins(s.agents[b]) && Joins(s.agents[c]))
  {
    assert Apart(s.agents[b], s.agents[c]);
  }

  lemma StartSpawnsNobody(s: System, a: nat)
    requires Inv(s) && Enabled(s, Act(a)) && Passes(s.agents[a], s.servers[s.agents[a].r]) && !Busy(s, s.agents[a].r)
    ensures NobodySpawns(Started(s, a), s.agents[a].r)
  {
    hide Started;
    StartedIs(s, a);
    var r, s' := s.agents[a].r, Started(s, a);
    forall b | 0 <= b < |s'.agents| && s'.agents[b].Spawning? ensures s'.agents[b].r != r {
      AgentAt(s, b);
    }
  }

  lemma {:induction false} OwnStartsNothing(s: System, steps: seq<Step>, r: nat)
    requires OwnRun(s, steps, r)
    ensures RunWithoutStart(s, steps, r)
    decreases |steps|
  {
    hide Do, Enabled;
    if steps != [] {
      OwnStartsNothing(s, steps[..|steps| - 1], r);
    }
  }

  /** A start that goes ahead in an orderly run, with nobody about to read whom to wait for, can be
      followed by two entries of its server, whatever comes but a further start of it, exactly if the
      server, not being stopped, has a thread in its loop or one about to be created. */
  lemma SecondEntryLaterIff(s0: System, steps: seq<Step>, a: nat)
    requires Initial(s0) && Legal(s0, steps) && Orderly(s0, steps)
    requires var s := After(s0, steps);
             && Enabled(s, Act(a)) && Passes(s.agents[a], s.servers[s.agents[a].r]) && NobodyReads(s, s.agents[a].r)
    ensures var s := After(s0, steps);
            (exists more :: RunWithoutStart(Started(s, a), more, s.agents[a].r) && TwoEntries(After(Started(s, a), more), s.agents[a].r))
            <==> Busy(s, s.agents[a].r)
  {
    RunKeepsInv(s0, steps);
    var s := After(s0, steps);
    var r := s.agents[a].r;
    hide After, Legal, Initial, Orderly;
    if Busy(s, r) {
      var more := BusyGetsTwo(s, a);
      OwnStartsNothing(Started(s, a), more, r);
    } else {
      var lone := SoleAfterStart(s, a);
      forall more | RunWithoutStart(Started(s, a), more, r) ensures !TwoEntries(After(Started(s, a), more), r) {
        var lone' := StaysSole(Started(s, a), more, r, lone, |s.threads|);
        SoleHasOne(After(Started(s, a), more), r, lone', |s.threads|);
      }
    }
  }

  // ---------------------------------------------------------------- a thread nobody waits for

  /** One pod, its threads and the calls on it. */
  function Scene(n: bytes, v: Server, ths: seq<Thr>, agents: seq<Agent>, locked: bool, byId: map<nat, nat>, issued: map<nat, nat>, h: seq<Event>): (s: System)
  {
    System(3, locked, [v], ths, agents, map[n := 0], byId, issued, h)
  }

  /** A step that is no start that goes ahead. */
  ghost predicate Goes(s: System, step: Step, s': System) {
    Enabled(s, step) && Do(s, step) == s' && Tidy(s, step) && StartsNothing(s, step, 0)
  }

  ghost predicate Reaches(s0: System, steps: seq<Step>, s: System) {
    Legal(s0, steps) && Orderly(s0, steps) && After(s0, steps) == s
  }

  lemma GoOn(s0: System, steps: seq<Step>, x: Step, s: System, s': System)
    requires Reaches(s0, steps, s) && Goes(s, x, s')
    ensures Reaches(s0, steps + [x], s')
  {
    hide Do, Enabled, Tidy, StartsNothing, After, Legal, Orderly;
    OneOrderly(s0, steps, x);
  }

  ghost predicate Follows(s0: System, steps: seq<Step>, s: System) {
    RunWithoutStart(s0, steps, 0) && After(s0, steps) == s
  }

  lemma FollowOn(s0: System, steps: seq<Step>, x: Step, s: System, s': System)
    requires Follows(s0, steps, s) && Goes(s, x, s')
    ensures Follows(s0, steps + [x], s')
  {
    hide Do, Enabled, Tidy, StartsNothing;
    OneMore(s0, steps, x);
    assert (steps + [x])[..|steps|] == steps;
  }

  function Up(n: bytes): (v: Server)
  {
    NewServer(n).(thread := Some(0))
  }

  /** The console's thread creates a session and enters it. */
  lemma Connects(n: bytes)
    ensures var g, v, th := [Starting(0, true), Finished(0)], Up(n), Thr(0, Outer, 0, 0);
            var none: map<nat, nat>, i := map[], map[5 := 0];
            && Overtaken(n) == Scene(n, v, [th], g, true, none, map[], [])
            && Goes(Overtaken(n), Thread(0, Session(5)), Scene(n, v, [th.(pc := Connect)], g, true, none, map[], []))
            && Goes(Scene(n, v, [th.(pc := Connect)], g, true, none, map[], []), Thread(0, Session(5)),
                 Scene(n, v, [Thr(0, Created, 5, 0)], g, true, none, i, []))
  {
    var none: seq<Event> := [];
    assert none + none == none;
  }

  lemma Enters(n: bytes)
    ensures var g, v := [Starting(0, true), Finished(0)], Up(n);
            var none: map<nat, nat>, i, h := map[], map[5 := 0], [SessionCreated(0)];
            var w := v.(serverId := 5);
            && Goes(Scene(n, v, [Thr(0, Created, 5, 0)], g, true, none, i, []), Thread(0, Success),
                 Scene(n, v, [Thr(0, Store, 5, 0)], g, true, none, i, h))
            && Goes(Scene(n, v, [Thr(0, Store, 5, 0)], g, true, none, i, h), Thread(0, Success),
                 Scene(n, w, [Thr(0, Insert, 5, 0)], g, true, none, i, h))
  {
    var none, h: seq<Event> := [], [SessionCreated(0)];
    assert none + h == h && h + none == h;
  }

  lemma HasEntered(n: bytes)
    ensures var g, w := [Starting(0, true), Finished(0)], Up(n).(serverId := 5);
            var none: map<nat, nat>, i, h := map[], map[5 := 0], [SessionCreated(0)];
            && Goes(Scene(n, w, [Thr(0, Insert, 5, 0)], g, true, none, i, h), Thread(0, Success),
                 Scene(n, w, [Thr(0, Inner, 5, 0)], g, true, map[5 := 0], i, h))
  {
    var none, h: seq<Event> := [], [SessionCreated(0)];
    assert none + h == h && h + none == h;
  }

  /** The console stops the pod, and the refresh's start has yet to come. */
  lemma IsStopped(n: bytes)
    ensures var g, w := [Starting(0, true), Finished(0)], Up(n).(serverId := 5);
            var m, i, h, t := map[5 := 0], map[5 := 0], [SessionCreated(0)], [Thr(0, Inner, 5, 0)];
            && Goes(Scene(n, w, t, g, true, m, i, h), FindToStop(n), Scene(n, w, t, g + [Stopping(0, false)], true, m, i, h))
            && Goes(Scene(n, w, t, g + [Stopping(0, false)], true, m, i, h), Act(2),
                 Scene(n, w.(terminating := true), t, g + [AtJoin(0)], true, m, i, h))
  {
  }

  /** The new thread is the one waited for, and it ends at once. */
  lemma NewOneEnds(n: bytes, w: Server)
    requires w == Up(n).(serverId := 5, terminating := true, thread := Some(1))
    ensures var g, m, h := [Finished(0), Finished(0)], map[5 := 0], [SessionCreated(0)];
            var t := [Thr(0, Outer, 5, 0)];
            && Goes(Scene(n, w, [Thr(0, Inner, 5, 0), Thr(0, Outer, 0, 0)], g + [AtJoin(0)], false, m, m, h), Act(2),
                 Scene(n, w, [Thr(0, Inner, 5, 0), Thr(0, Outer, 0, 0)], g + [Waiting(0, 1)], false, m, m, h))
            && Goes(Scene(n, w, [Thr(0, Inner, 5, 0), Thr(0, Outer, 0, 0)], g + [Waiting(0, 1)], false, m, m, h), Thread(0, Success),
                 Scene(n, w, t + [Thr(0, Outer, 0, 0)], g + [Waiting(0, 1)], false, m, m, h))
  {
    var h, none: seq<Event> := [SessionCreated(0)], [];
    assert h + none == h;
  }

  lemma AndLeaves(n: bytes, w: Server)
    requires w == Up(n).(serverId := 5, terminating := true, thread := Some(1))
    ensures var g, m, h := [Finished(0), Finished(0)], map[5 := 0], [SessionCreated(0)];
            var t := [Thr(0, Outer, 5, 0)];
            && Goes(Scene(n, w, t + [Thr(0, Outer, 0, 0)], g + [Waiting(0, 1)], false, m, m, h), Thread(1, Success),
                 Scene(n, w, t + [Thr(0, Done, 0, 0)], g + [Waiting(0, 1)], false, m, m, h))
            && Goes(Scene(n, w, t + [Thr(0, Done, 0, 0)], g + [Waiting(0, 1)], false, m, m, h), Thread(1, Success),
                 Scene(n, w, t + [Thr(0, Check, 0, 0)], g + [Waiting(0, 1)], false, m, m, h))
            && Goes(Scene(n, w, t + [Thr(0, Check, 0, 0)], g + [Waiting(0, 1)], false, m, m, h), Thread(1, Success),
                 Scene(n, w, t + [Thr(0, Ended, 0, 0)], g + [Waiting(0, 1)], false, m, m, h))
  {
    var h, none: seq<Event> := [SessionCreated(0)], [];
    assert h + none == h;
    assert map[5 := 0] - {0} == map[5 := 0];
  }

  /** The flags are cleared, and the old thread, with its entry, goes on and loses its session. */
  lemma OldOneGoesOn(n: bytes, w: Server)
    requires w == Up(n).(serverId := 5, terminating := true, thread := Some(1))
    ensures var g, m, h, e := [Finished(0), Finished(0)], map[5 := 0], [SessionCreated(0)], [Thr(0, Ended, 0, 0)];
            var u := w.(thread := None);
            var x := u.(terminating := false, enabled := false);
            && Goes(Scene(n, w, [Thr(0, Outer, 5, 0)] + e, g + [Waiting(0, 1)], false, m, m, h), Act(2),
                 Scene(n, u, [Thr(0, Outer, 5, 0)] + e, g + [Clearing(0)], false, m, m, h))
            && Goes(Scene(n, u, [Thr(0, Outer, 5, 0)] + e, g + [Clearing(0)], false, m, m, h), Act(2),
                 Scene(n, x, [Thr(0, Outer, 5, 0)] + e, g + [Finished(0)], false, m, m, h))
            && Goes(Scene(n, x, [Thr(0, Outer, 5, 0)] + e, g + [Finished(0)], false, m, m, h), Thread(0, Refused),
                 Scene(n, x, [Thr(0, Connect, 5, 0)] + e, g + [Finished(0)], false, m, m, h))
            && Goes(Scene(n, x, [Thr(0, Connect, 5, 0)] + e, g + [Finished(0)], false, m, m, h), Thread(0, Refused),
                 Scene(n, x, [Thr(0, Inner, 0, 0)] + e, g + [Finished(0)], false, m, m, h))
  {
    var h, none: seq<Event> := [SessionCreated(0)], [];
    assert h + none == h;
  }

  /** A run to the moment when the pod is being stopped and the refresh's start is about to go ahead. */
  lemma PodIsBeingStopped(n: bytes) returns (steps: seq<Step>)
    ensures Initial(DisabledPod(n))
    ensures Reaches(DisabledPod(n), steps, Stopped(n))
  {
    var s0, g, v, go := DisabledPod(n), [Starting(0, true), Finished(0)], Up(n), Thread(0, Success);
    var none: map<nat, nat>, i, h := map[], map[5 := 0], [SessionCreated(0)];
    var w := v.(serverId := 5);
    RaceLeadsThere(n);
    Connects(n);
    Enters(n);
    HasEntered(n);
    IsStopped(n);
    var s2 := Scene(n, v, [Thr(0, Outer, 0, 0).(pc := Connect)], g, true, none, map[], []);
    var s3, s4 := Scene(n, v, [Thr(0, Created, 5, 0)], g, true, none, i, []), Scene(n, v, [Thr(0, Store, 5, 0)], g, true, none, i, h);
    var s5, s6 := Scene(n, w, [Thr(0, Insert, 5, 0)], g, true, none, i, h), Scene(n, w, [Thr(0, Inner, 5, 0)], g, true, i, i, h);
    var s7 := Scene(n, w, [Thr(0, Inner, 5, 0)], g + [Stopping(0, false)], true, i, i, h);
    var s8 := Scene(n, w.(terminating := true), [Thr(0, Inner, 5, 0)], g + [AtJoin(0)], true, i, i, h);
    assert Reaches(s0, Race(n), Overtaken(n));
    assert s8 == Stopped(n);
    hide *;
    steps := Race(n);
    GoOn(s0, steps, Thread(0, Session(5)), Overtaken(n), s2);
    steps := steps + [Thread(0, Session(5))];
    GoOn(s0, steps, Thread(0, Session(5)), s2, s3);
    steps := steps + [Thread(0, Session(5))];
    GoOn(s0, steps, go, s3, s4);
    steps := steps + [go];
    GoOn(s0, steps, go, s4, s5);
    steps := steps + [go];
    GoOn(s0, steps, go, s5, s6);
    steps := steps + [go];
    GoOn(s0, steps, FindToStop(n), s6, s7);
    steps := steps + [FindToStop(n)];
    GoOn(s0, steps, Act(2), s7, s8);
    steps := steps + [Act(2)];
  }

  /** From the start on: the stop waits for the new thread and leaves the old one to itself. */
  lemma OldOneIsLeft(n: bytes, s: System) returns (more: seq<Step>)
    requires s == Scene(n, Up(n).(serverId := 5, terminating := true, thread := Some(1)), [Thr(0, Inner, 5, 0), Thr(0, Outer, 0, 0)],
                    [Finished(0), Finished(0)] + [AtJoin(0)], false, map[5 := 0], map[5 := 0], [SessionCreated(0)])
    ensures Follows(s, more, Left(n))
  {
    hide *;
    var w := Up(n).(serverId := 5, terminating := true, thread := Some(1));
    var g, m, h, e := [Finished(0), Finished(0)], map[5 := 0], [SessionCreated(0)], [Thr(0, Ended, 0, 0)];
    var t, go, go1, no := [Thr(0, Outer, 5, 0)], Thread(0, Success), Thread(1, Success), Thread(0, Refused);
    var u := w.(thread := None);
    var x := u.(terminating := false, enabled := false);
    NewOneEnds(n, w);
    AndLeaves(n, w);
    OldOneGoesOn(n, w);
    var s1 := Scene(n, w, [Thr(0, Inner, 5, 0), Thr(0, Outer, 0, 0)], g + [Waiting(0, 1)], false, m, m, h);
    var s2, s3 := Scene(n, w, t + [Thr(0, Outer, 0, 0)], g + [Waiting(0, 1)], false, m, m, h), Scene(n, w, t + [Thr(0, Done, 0, 0)], g + [Waiting(0, 1)], false, m, m, h);
    var s4, s5 := Scene(n, w, t + [Thr(0, Check, 0, 0)], g + [Waiting(0, 1)], false, m, m, h), Scene(n, w, t + e, g + [Waiting(0, 1)], false, m, m, h);
    var s6, s7 := Scene(n, u, t + e, g + [Clearing(0)], false, m, m, h), Scene(n, x, t + e, g + [Finished(0)], false, m, m, h);
    var s8 := Scene(n, x, [Thr(0, Connect, 5, 0)] + e, g + [Finished(0)], false, m, m, h);
    var s9 := Scene(n, x, [Thr(0, Inner, 0, 0)] + e, g + [Finished(0)], false, m, m, h);
    FollowsNothing(s);
    LeftIs(n, w);
    Follow3(s, [], Act(2), go, go1, s, s1, s2, s3);
    more := [] + [Act(2)] + [go] + [go1];
    Follow3(s, more, go1, go1, Act(2), s3, s4, s5, s6);
    more := more + [go1] + [go1] + [Act(2)];
    Follow3(s, more, Act(2), no, no, s6, s7, s8, s9);
    more := more + [Act(2)] + [no] + [no];
  }

  lemma Follow3(s0: System, steps: seq<Step>, x1: Step, x2: Step, x3: Step, s: System, s1: System, s2: System, s3: System)
    requires Follows(s0, steps, s) && Goes(s, x1, s1) && Goes(s1, x2, s2) && Goes(s2, x3, s3)
    ensures Follows(s0, steps + [x1] + [x2] + [x3], s3)
  {
    hide *;
    FollowOn(s0, steps, x1, s, s1);
    FollowOn(s0, steps + [x1], x2, s1, s2);
    FollowOn(s0, steps + [x1] + [x2], x3, s2, s3);
  }

  lemma {:induction false} ThenOwn(s: System, steps: seq<Step>, more: seq<Step>, r: nat)
    requires RunWithoutStart(s, steps, r) && OwnRun(After(s, steps), more, r)
    ensures RunWithoutStart(s, steps + more, r) && After(s, steps + more) == After(After(s, steps), more)
    decreases |more|
  {
    hide Do, Enabled, StartsNothing, Own;
    if more == [] {
      assert steps + more == steps;
    } else {
      var front, last := more[..|more| - 1], more[|more| - 1];
      ThenOwn(s, steps, front, r);
      OwnFront(After(s, steps), more, r);
      OwnIsNoStart(After(s, steps + front), last, r);
      OneMore(s, steps + front, last);
      assert steps + more == (steps + front) + [last];
      assert (steps + more)[..|steps + more| - 1] == steps + front;
    }
  }

  lemma OwnIsNoStart(s: System, step: Step, r: nat)
    requires Own(s, step, r)
    ensures StartsNothing(s, step, r)
  {
  }

  /** That nobody is about to read whom to wait for is needed: the start goes ahead on a server being
      stopped, the stop then waits for the new thread and clears the flags, and the old thread, which
      still has its entry, goes on to get a second one. */
  lemma RescuedRun(n: bytes) returns (steps: seq<Step>, more: seq<Step>)
    ensures var s0 := DisabledPod(n);
            && Initial(s0) && Legal(s0, steps) && Orderly(s0, steps)
            && var s := After(s0, steps);
               && Enabled(s, Act(0)) && Passes(s.agents[0], s.servers[0]) && s.agents[0].r == 0 && !Busy(s, 0)
               && RunWithoutStart(Started(s, 0), more, 0) && TwoEntries(After(Started(s, 0), more), 0)
  {
    hide *;
    steps := PodIsBeingStopped(n);
    var s := Stopped(n);
    ReachesMeans(DisabledPod(n), steps, s);
    StoppedIsNotBusy(n);
    var left := OldOneIsLeft(n, Started(s, 0));
    FollowsMeans(Started(s, 0), left, Left(n));
    LeftIsAble(n);
    var last := Enter(Left(n), 0);
    OwnIsLegal(Left(n), last, 0);
    SecondEntry(n, After(Left(n), last));
    ThenOwn(Started(s, 0), left, last, 0);
    more := left + last;
  }

  lemma OwnIsLegal(s: System, steps: seq<Step>, r: nat)
    requires OwnRun(s, steps, r)
    ensures Legal(s, steps)
  {
  }

  lemma FollowsNothing(s: System)
    ensures Follows(s, [], s)
  {
  }

  lemma LeftIs(n: bytes, w: Server)
    requires w == Up(n).(serverId := 5, terminating := true, thread := Some(1))
    ensures Left(n) == Scene(n, w.(thread := None).(terminating := false, enabled := false), [Thr(0, Inner, 0, 0)] + [Thr(0, Ended, 0, 0)],
                         [Finished(0), Finished(0)] + [Finished(0)], false, map[5 := 0], map[5 := 0], [SessionCreated(0)])
  {
  }

  function Stopped(n: bytes): (s: System)
  {
    Scene(n, Up(n).(serverId := 5, terminating := true), [Thr(0, Inner, 5, 0)],
      [Starting(0, true), Finished(0)] + [AtJoin(0)], true, map[5 := 0], map[5 := 0], [SessionCreated(0)])
  }

  function Left(n: bytes): (s: System)
  {
    Scene(n, Up(n).(serverId := 5, enabled := false, thread := None), [Thr(0, Inner, 0, 0)] + [Thr(0, Ended, 0, 0)],
      [Finished(0), Finished(0)] + [Finished(0)], false, map[5 := 0], map[5 := 0], [SessionCreated(0)])
  }

  lemma ReachesMeans(s0: System, steps: seq<Step>, s: System)
    requires Reaches(s0, steps, s)
    ensures Legal(s0, steps) && Orderly(s0, steps) && After(s0, steps) == s
  {
  }

  lemma FollowsMeans(s0: System, steps: seq<Step>, s: System)
    requires Follows(s0, steps, s)
    ensures RunWithoutStart(s0, steps, 0) && Legal(s0, steps) && After(s0, steps) == s
  {
  }

  lemma StoppedIsNotBusy(n: bytes)
    ensures var s := Stopped(n);
            && Enabled(s, Act(0)) && Passes(s.agents[0], s.servers[0]) && s.agents[0].r == 0 && !Busy(s, 0)
            && |s.servers| == 1 && |s.agents| == 3
            && Started(s, 0) == Scene(n, Up(n).(serverId := 5, terminating := true, thread := Some(1)), [Thr(0, Inner, 5, 0), Thr(0, Outer, 0, 0)],
                 [Finished(0), Finished(0)] + [AtJoin(0)], false, map[5 := 0], map[5 := 0], [SessionCreated(0)])
  {
    StartedIs(Stopped(n), 0);
  }

  lemma LeftIsAble(n: bytes)
    ensures Able(Left(n), 0) && |Left(n).threads| == 2 && Left(n).threads[0].r == 0
  {
  }

  lemma SecondEntry(n: bytes, s: System)
    requires Able(s, 0) && Entered(s, 0) && Disturbs(Left(n), s, 0) && s.threads[0].r == 0
    ensures TwoEntries(s, 0)
  {
    assert Left(n).byId[5] == 0 && s.byId[5] == 0 && s.threads[0].session != 5;
  }
}

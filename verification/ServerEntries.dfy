/**
 Why an entry leaves the lookup of sessions, traced back over the run: to a poll of its thread that
 failed, to the end of that thread, or to the removal of its server.
 */
module ServerEntries {
  import opened ServerThread
  import opened ServerTables

  /** The last step thread `t` took is the `k`-th; it stood at `pc` then, its server was `v`, and it got
      this reply. */
  ghost predicate LastStep(s0: System, steps: seq<Step>, k: nat, t: nat, pc: Pc, v: Server, reply: Reply) {
    && k < |steps| && steps[k] == Thread(t, reply) && !StepsIn(steps[k + 1..], t)
    && Legal(s0, steps[..k])
    && var s := After(s0, steps[..k]);
       t < |s.threads| && s.threads[t].pc == pc && s.threads[t].r < |s.servers| && s.servers[s.threads[t].r] == v
  }

  /** Thread `t` takes one of these steps. */
  predicate StepsIn(steps: seq<Step>, t: nat) {
    exists i :: 0 <= i < |steps| && steps[i].Thread? && steps[i].t == t
  }

  /** The thread's last step was a poll that failed. */
  ghost predicate PollFailed(s0: System, steps: seq<Step>, t: nat) {
    exists k: nat, v, reply :: LastStep(s0, steps, k, t, Poll, v, reply) && reply != Success
  }

  /** The thread's last step found its server terminating, or gave the server up. */
  ghost predicate LoopLeft(s0: System, steps: seq<Step>, t: nat) {
    exists k: nat, v, reply ::
      || (LastStep(s0, steps, k, t, Outer, v, reply) && v.terminating)
      || LastStep(s0, steps, k, t, Decided, v, reply)
  }

  lemma LastStepStays(s0: System, steps: seq<Step>, k: nat, t: nat, pc: Pc, v: Server, reply: Reply, step: Step)
    requires LastStep(s0, steps, k, t, pc, v, reply) && !(step.Thread? && step.t == t)
    ensures LastStep(s0, steps + [step], k, t, pc, v, reply)
  {
    hide After, Legal;
    var steps' := steps + [step];
    assert steps'[..k] == steps[..k] && steps'[k + 1..] == steps[k + 1..] + [step];
  }

  lemma LastStepNow(s0: System, steps: seq<Step>, t: nat, reply: Reply)
    requires Legal(s0, steps) && Enabled(After(s0, steps), Thread(t, reply))
    ensures var s := After(s0, steps);
            LastStep(s0, steps + [Thread(t, reply)], |steps|, t, s.threads[t].pc, s.servers[s.threads[t].r], reply)
  {
    hide After, Legal;
    var steps' := steps + [Thread(t, reply)];
    assert steps'[..|steps|] == steps && steps'[|steps| + 1..] == [];
  }

  lemma ThreadMoves(s: System, step: Step, t: nat)
    requires Enabled(s, step) && t < |Do(s, step).threads|
    ensures var s' := Do(s, step);
            if t >= |s.threads| then s'.threads[t].pc == Outer
            else if step.Thread? && step.t == t then
              s'.threads[t] == NextThr(s.threads[t], s.servers[s.threads[t].r], s.failMax, s.threads[t].session in s.byId, |s.history|, step.reply)
            else s'.threads[t] == s.threads[t]
  {
    hide NextThr, NextServer, NextAgent, NextById, Logged;
  }

  lemma StepperIsThere(s: System, step: Step)
    requires Enabled(s, step) && step.Thread?
    ensures step.t < |s.threads|
  {
  }

  lemma LeadsToDrop(th: Thr, v: Server, failMax: nat, found: bool, seen: nat, reply: Reply)
    ensures NextThr(th, v, failMax, found, seen, reply).pc == DropEntry ==> th.pc == Poll && reply != Success
    ensures NextThr(th, v, failMax, found, seen, reply).pc == Done ==> (th.pc == Outer && v.terminating) || th.pc == Decided
  {
  }

  /** A thread drops its entry only right after a poll that failed, and is done only right after it saw
      its server terminating or gave it up. */
  lemma {:induction false} PlaceHasCause(s0: System, steps: seq<Step>, t: nat)
    requires Initial(s0) && Legal(s0, steps) && t < |After(s0, steps).threads|
    ensures After(s0, steps).threads[t].pc == DropEntry ==> PollFailed(s0, steps, t)
    ensures After(s0, steps).threads[t].pc == Done ==> LoopLeft(s0, steps, t)
    decreases |steps|
  {
    if steps != [] {
      hide Do, Enabled, After, Legal, LastStep, Initial, PollFailed, LoopLeft;
      var front, step := steps[..|steps| - 1], steps[|steps| - 1];
      Front(s0, steps);
      assert steps == front + [step];
      var s := After(s0, front);
      ThreadMoves(s, step, t);
      if step.Thread? && step.t == t {
        StepperIsThere(s, step);
        CauseNow(s0, front, t, step.reply);
      } else if t < |s.threads| {
        PlaceHasCause(s0, front, t);
        CauseStays(s0, front, t, step);
      }
    }
  }

  lemma CauseNow(s0: System, steps: seq<Step>, t: nat, reply: Reply)
    requires Legal(s0, steps) && Enabled(After(s0, steps), Thread(t, reply))
    ensures var s := After(s0, steps);
            var th := NextThr(s.threads[t], s.servers[s.threads[t].r], s.failMax, s.threads[t].session in s.byId, |s.history|, reply);
            && (th.pc == DropEntry ==> PollFailed(s0, steps + [Thread(t, reply)], t))
            && (th.pc == Done ==> LoopLeft(s0, steps + [Thread(t, reply)], t))
  {
    hide LastStep, After, Legal, NextThr;
    var s := After(s0, steps);
    LastStepNow(s0, steps, t, reply);
    LeadsToDrop(s.threads[t], s.servers[s.threads[t].r], s.failMax, s.threads[t].session in s.byId, |s.history|, reply);
  }

  lemma CauseStays(s0: System, steps: seq<Step>, t: nat, step: Step)
    requires !(step.Thread? && step.t == t)
    ensures PollFailed(s0, steps, t) ==> PollFailed(s0, steps + [step], t)
    ensures LoopLeft(s0, steps, t) ==> LoopLeft(s0, steps + [step], t)
  {
    hide LastStep;
    if PollFailed(s0, steps, t) {
      var k: nat, v, reply :| LastStep(s0, steps, k, t, Poll, v, reply) && reply != Success;
      LastStepStays(s0, steps, k, t, Poll, v, reply, step);
    }
    if LoopLeft(s0, steps, t) {
      var k: nat, v, reply :| (LastStep(s0, steps, k, t, Outer, v, reply) && v.terminating) || LastStep(s0, steps, k, t, Decided, v, reply);
      if LastStep(s0, steps, k, t, Decided, v, reply) {
        LastStepStays(s0, steps, k, t, Decided, v, reply, step);
      } else {
        LastStepStays(s0, steps, k, t, Outer, v, reply, step);
      }
    }
  }

  /** Why the entry of server `r` under `id` leaves with this step: its server is removed; or the thread
      that holds the session takes it out, and the last thing it did was a poll that failed, or to leave
      its loop. */
  ghost predicate Causes(s0: System, steps: seq<Step>, step: Step, id: nat, r: nat)
    requires Legal(s0, steps)
  {
    var s := After(s0, steps);
    || Removes(s, step, r)
    || (&& step.Thread? && step.t < |s.threads| && s.threads[step.t].r == r && s.threads[step.t].session == id
        && (PollFailed(s0, steps, step.t) || LoopLeft(s0, steps, step.t)))
  }

  /** An entry leaves the lookup for no other reason. */
  lemma EntryLeavesFor(s0: System, steps: seq<Step>, step: Step, id: nat)
    requires Initial(s0) && Legal(s0, steps) && FreshIds(s0, steps) && Enabled(After(s0, steps), step)
    requires var s, s' := After(s0, steps), Do(After(s0, steps), step);
             id in s.byId && !(id in s'.byId && s'.byId[id] == s.byId[id])
    ensures Causes(s0, steps, step, id, After(s0, steps).byId[id])
  {
    EntryLeaves(s0, steps, step, id);
    hide Initial, FreshIds, Do, After, Legal, PollFailed, LoopLeft, Removes;
    var s := After(s0, steps);
    if step.Thread? && !Removes(s, step, s.byId[id]) {
      StepperIsThere(s, step);
      PlaceHasCause(s0, steps, step.t);
    }
  }

  lemma {:induction false} LegalFront(s0: System, steps: seq<Step>, k: nat)
    requires Legal(s0, steps) && FreshIds(s0, steps) && k <= |steps|
    ensures Legal(s0, steps[..k]) && FreshIds(s0, steps[..k])
    decreases |steps|
  {
    hide Do, Enabled;
    if k == |steps| {
      assert steps[..k] == steps;
    } else {
      var front := steps[..|steps| - 1];
      LegalFront(s0, front, k);
      assert front[..k] == steps[..k];
    }
  }

  /** From the moment it is there an entry stays for the whole rest of the run, unless one of these
      causes takes it out at some step. */
  lemma {:induction false} EntryStays(s0: System, steps: seq<Step>, n: nat, id: nat) returns (k: nat)
    requires Initial(s0) && Legal(s0, steps) && FreshIds(s0, steps) && n <= |steps|
    requires Legal(s0, steps[..n]) && id in After(s0, steps[..n]).byId
    ensures var r := After(s0, steps[..n]).byId[id];
            || (id in After(s0, steps).byId && After(s0, steps).byId[id] == r)
            || (n <= k < |steps| && Legal(s0, steps[..k]) && Causes(s0, steps[..k], steps[k], id, r))
    decreases |steps|
  {
    hide Do, Enabled, Causes, Initial, After, FreshIds;
    if n == |steps| {
      k := n;
      assert steps[..n] == steps;
    } else {
      var front, step := steps[..|steps| - 1], steps[|steps| - 1];
      LegalFront(s0, steps, |steps| - 1);
      Front(s0, steps);
      assert front[..n] == steps[..n];
      k := EntryStays(s0, front, n, id);
      var r, s := After(s0, steps[..n]).byId[id], After(s0, front);
      if id in s.byId && s.byId[id] == r {
        k := |steps| - 1;
        var s' := Do(s, step);
        if !(id in s'.byId && s'.byId[id] == r) {
          EntryLeavesFor(s0, front, step, id);
        }
      } else {
        assert front[..k] == steps[..k];
      }
    }
  }

  /** A thread whose insertion succeeds has its session in the lookup under its server, and there it stays
      for the whole rest of the run unless one of these causes takes it out. */
  lemma SessionIsServed(s0: System, steps: seq<Step>, n: nat, t: nat) returns (k: nat)
    requires Initial(s0) && Legal(s0, steps) && FreshIds(s0, steps) && n < |steps| && Legal(s0, steps[..n])
    requires steps[n] == Thread(t, Success)
    requires t < |After(s0, steps[..n]).threads| && After(s0, steps[..n]).threads[t].pc == Insert
    ensures var id, r, s := After(s0, steps[..n]).threads[t].session, After(s0, steps[..n]).threads[t].r, After(s0, steps);
            && id != 0
            && ( || (id in s.byId && s.byId[id] == r)
                 || (n < k < |steps| && Legal(s0, steps[..k]) && Causes(s0, steps[..k], steps[k], id, r)))
  {
    hide Do, Enabled, Causes, Initial, After, FreshIds, IdsOk;
    var s := After(s0, steps[..n]);
    var th := s.threads[t];
    LegalFront(s0, steps, n);
    RunKeepsIds(s0, steps[..n]);
    InsertsOwnSession(s, t);
    assert steps[..n + 1][..n] == steps[..n];
    LegalFront(s0, steps, n + 1);
    Front(s0, steps[..n + 1]);
    InsertEnters(s, t);
    k := EntryStays(s0, steps, n + 1, th.session);
  }

  lemma InsertsOwnSession(s: System, t: nat)
    requires IdsOk(s) && t < |s.threads| && s.threads[t].pc == Insert
    ensures s.threads[t].session != 0
  {
    assert OwnSession(s.threads[t], t, s.issued);
  }

  lemma InsertEnters(s: System, t: nat)
    requires Enabled(s, Thread(t, Success)) && s.threads[t].pc == Insert
    ensures var th, s' := s.threads[t], Do(s, Thread(t, Success));
            th.session in s'.byId && s'.byId[th.session] == th.r
  {
    hide NextThr, NextServer, Logged;
  }

  /** A thread gives up its session exactly when Janus refuses the claim of it or the lookup the entry. */
  lemma SessionGivenUpIff(s: System, step: Step, t: nat)
    requires Enabled(s, step) && t < |s.threads| && s.threads[t].session != 0
    ensures var th, s' := s.threads[t], Do(s, step);
            && t < |s'.threads|
            && (s'.threads[t].session != th.session <==>
                  step.Thread? && step.t == t
                  && (th.pc == Undo || (th.pc == Connect && (step.reply == Refused || step.reply.Session?))))
            && (s'.threads[t].session != th.session ==> s'.threads[t].session == 0)
  {
    hide NextThr, NextServer, NextAgent, NextById, Logged, Do;
    ThreadStays(s, step, t);
    ThreadMoves(s, step, t);
    if step.Thread? && step.t == t {
      SessionKept(s.threads[t], s.servers[s.threads[t].r], s.failMax, s.threads[t].session in s.byId, |s.history|, step.reply);
    }
  }

  lemma ThreadStays(s: System, step: Step, t: nat)
    requires Enabled(s, step) && t < |s.threads|
    ensures t < |Do(s, step).threads|
    ensures step.Thread? && step.t == t ==> s.threads[t].r < |s.servers|
  {
    hide NextThr, NextServer, NextAgent, NextById, Logged;
  }

  lemma SessionKept(th: Thr, v: Server, failMax: nat, found: bool, seen: nat, reply: Reply)
    requires th.session != 0
    ensures var th' := NextThr(th, v, failMax, found, seen, reply);
            && (th'.session != th.session <==> th.pc == Undo || (th.pc == Connect && (reply == Refused || reply.Session?)))
            && (th'.session != th.session ==> th'.session == 0)
  {
  }

  /** The published id of server `r` is changed by a thread of the server. */
  predicate ThreadPublishes(s: System, step: Step, r: nat, id: nat) {
    && step.Thread? && step.t < |s.threads| && s.threads[step.t].r == r
    && var th := s.threads[step.t];
       ((th.pc == Claimed || th.pc == Store) && id == th.session) || ((th.pc == Undo || th.pc == Reset) && id == 0)
  }

  /** A published id changes only in five ways: a thread of the server publishes the session it holds;
      the lookup has refused that; a poll of it has failed; the server is removed; or a call that could
      not be made takes it back. */
  lemma PublishedChanges(s: System, step: Step, r: nat)
    requires Enabled(s, step) && r < |s.servers|
    ensures var id, s' := s.servers[r].serverId, Do(s, step);
            r < |s'.servers| && (s'.servers[r].serverId != id ==>
              || ThreadPublishes(s, step, r, s'.servers[r].serverId)
              || ((step == ForgetId(r) || Removes(s, step, r)) && s'.servers[r].serverId == 0))
  {
    if step.Thread? {
      ThreadPublished(s, step.t, step.reply, r);
    } else if step.Act? {
      ActPublished(s, step.a, r);
    } else {
      hide DoThread, DoAct;
    }
  }

  lemma ThreadPublished(s: System, t: nat, reply: Reply, r: nat)
    requires Enabled(s, Thread(t, reply)) && r < |s.servers|
    ensures var id, s' := s.servers[r].serverId, DoThread(s, t, reply);
            r < |s'.servers| && (s'.servers[r].serverId != id ==>
              || ThreadPublishes(s, Thread(t, reply), r, s'.servers[r].serverId)
              || (Removes(s, Thread(t, reply), r) && s'.servers[r].serverId == 0))
  {
    hide NextThr, NextById, Logged;
  }

  lemma ActPublished(s: System, a: nat, r: nat)
    requires Enabled(s, Act(a)) && r < |s.servers|
    ensures var id, s' := s.servers[r].serverId, DoAct(s, a);
            r < |s'.servers| && (s'.servers[r].serverId != id ==> Removes(s, Act(a), r) && s'.servers[r].serverId == 0)
  {
    hide NextAgent;
  }
}

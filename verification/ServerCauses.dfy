/**
 Why a server evicts itself.  The thread reads calls, failures and session under the server's lock,
 and sets the flag later without it; what it decides on is justified by the history, what it finds
 when it sets the flag need not be.
 */
module ServerCauses {
  import opened Bytes
  import opened ServerThread
  import opened ServerLaws
  import opened ServerTables

  // ---------------------------------------------------------------- counting in the history

  /** Whether the event is about the server and wipes out its failures. */
  predicate Resets(e: Event, r: nat) {
    e.r == r && !e.CreateFailed?
  }

  function CountFailures(h: seq<Event>, r: nat): (n: nat)
  {
    if h == [] then 0
    else CountFailures(h[..|h| - 1], r) + if h[|h| - 1] == CreateFailed(r) then 1 else 0
  }

  /** Failed creates since the last success, sighting or confirmation. */
  function FailuresSince(h: seq<Event>, r: nat): (n: nat)
  {
    if h == [] || Resets(h[|h| - 1], r) then 0
    else FailuresSince(h[..|h| - 1], r) + if h[|h| - 1] == CreateFailed(r) then 1 else 0
  }

  predicate NoReset(h: seq<Event>, r: nat) {
    forall j :: 0 <= j < |h| ==> !Resets(h[j], r)
  }

  /** The history ends in a stretch that has `n` failures of the server and no reset. */
  ghost predicate FailedInARow(h: seq<Event>, r: nat, n: nat) {
    exists i :: 0 <= i <= |h| && NoReset(h[i..], r) && CountFailures(h[i..], r) == n
  }

  lemma {:induction false} FailuresAreInARow(h: seq<Event>, r: nat)
    ensures FailedInARow(h, r, FailuresSince(h, r))
  {
    if h == [] || Resets(h[|h| - 1], r) {
      assert h[|h|..] == [];
      assert NoReset(h[|h|..], r);
    } else {
      var front := h[..|h| - 1];
      FailuresAreInARow(front, r);
      var i :| 0 <= i <= |front| && NoReset(front[i..], r) && CountFailures(front[i..], r) == FailuresSince(front, r);
      var tail := h[i..];
      assert tail[..|tail| - 1] == front[i..] && tail[|tail| - 1] == h[|h| - 1];
      assert forall j :: 0 <= j < |tail| - 1 ==> tail[j] == front[i..][j];
      assert NoReset(tail, r);
    }
  }

  lemma AfterEvent(h: seq<Event>, e: Event, r: nat)
    ensures FailuresSince(h + [e], r) ==
              if Resets(e, r) then 0 else FailuresSince(h, r) + if e == CreateFailed(r) then 1 else 0
  {
    assert (h + [e])[..|h|] == h;
  }

  /** A reset in the later part hides the earlier one. */
  lemma {:induction false} FailuresSinceBoth(h: seq<Event>, later: seq<Event>, r: nat)
    ensures FailuresSince(h + later, r) ==
              if NoReset(later, r) then FailuresSince(h, r) + FailuresSince(later, r) else FailuresSince(later, r)
    decreases |later|
  {
    if later == [] {
      assert h + later == h;
    } else {
      var front, e := later[..|later| - 1], later[|later| - 1];
      FailuresSinceBoth(h, front, r);
      AfterEvent(h + front, e, r);
      AfterEvent(front, e, r);
      assert h + later == (h + front) + [e] && later == front + [e];
      assert NoReset(later, r) <==> NoReset(front, r) && !Resets(e, r) by {
        assert forall j :: 0 <= j < |front| ==> front[j] == later[j];
      }
    }
  }

  // ---------------------------------------------------------------- the counter

  /** The counter of a dynamic server is the number of failures in a row, as far as 32 bits go. */
  ghost predicate Counted(s: System) {
    forall r: nat :: r < |s.servers| && s.servers[r].dynamic ==>
      s.servers[r].failures == FailuresSince(s.history, r) % COUNTER
  }

  /** Every decision to evict was taken on enough failures. */
  ghost predicate DecisionsOk(s: System) {
    forall t :: 0 <= t < |s.threads| && s.threads[t].pc == Decided ==> DecisionOk(s, s.threads[t])
  }

  ghost predicate DecisionOk(s: System, th: Thr) {
    th.decided <= |s.history| && 0 < s.failMax <= FailuresSince(s.history[..th.decided], th.r)
  }

  /** A thread counts and resets exactly when it logs that it does. */
  lemma NextFailures(th: Thr, v: Server, h: seq<Event>, q: nat)
    ensures var n := FailuresSince(h + Logged(th, v), q);
            && (q != th.r || !v.dynamic ==> n == FailuresSince(h, q))
            && (q == th.r && v.dynamic && v.failures == FailuresSince(h, q) % COUNTER ==>
                  NextServer(th, v).failures == n % COUNTER)
  {
    hide FailuresSince;
    AfterEvent(h, CreateFailed(th.r), q);
    AfterEvent(h, SessionCreated(th.r), q);
    assert h + [] == h;
  }

  lemma StepKeepsCounted(s: System, step: Step)
    requires Counted(s) && Enabled(s, step)
    ensures Counted(Do(s, step))
  {
    hide DoThread, DoAct, FailuresSince, NextThr, NextAgent, Logged;
    var s' := Do(s, step);
    if step.Thread? {
      ThreadFrame(s, step.t, step.reply);
      var th := s.threads[step.t];
      forall q: nat | q < |s'.servers| && s'.servers[q].dynamic
        ensures s'.servers[q].failures == FailuresSince(s'.history, q) % COUNTER
      {
        NextFailures(th, s.servers[th.r], s.history, q);
        assert th.pc == Leave ==> NextServer(th, s.servers[th.r]) == s.servers[th.r];
      }
    } else if step.Act? {
      ActFrame(s, step.a);
    } else {
      forall q: nat | q < |s'.servers| && s'.servers[q].dynamic
        ensures s'.servers[q].failures == FailuresSince(s'.history, q) % COUNTER
      {
        if |s'.history| > |s.history| {
          AfterEvent(s.history, s'.history[|s.history|], q);
        }
      }
    }
  }

  /** The history only grows. */
  lemma HistoryGrows(s: System, step: Step)
    requires Enabled(s, step)
    ensures s.history <= Do(s, step).history && Do(s, step).failMax == s.failMax
  {
    hide NextThr, NextAgent, NextServer, ActOn, NextById, Logged;
  }

  lemma NextDecision(th: Thr, v: Server, failMax: nat, found: bool, seen: nat, reply: Reply)
    ensures var th' := NextThr(th, v, failMax, found, seen, reply);
            th'.pc == Decided ==> th.pc == Recorded && SelfEvicts(v, failMax) && th'.decided == seen
  {
  }

  lemma StepKeepsDecisions(s: System, step: Step)
    requires Counted(s) && DecisionsOk(s) && Enabled(s, step)
    ensures DecisionsOk(Do(s, step))
  {
    HistoryGrows(s, step);
    hide DoThread, DoAct, FailuresSince, NextThr, NextAgent, Logged;
    var s' := Do(s, step);
    if step.Thread? {
      ThreadFrame(s, step.t, step.reply);
      var th := s.threads[step.t];
      NextDecision(th, s.servers[th.r], s.failMax, th.session in s.byId, |s.history|, step.reply);
    } else if step.Act? {
      ActFrame(s, step.a);
    }
    forall u | 0 <= u < |s'.threads| && s'.threads[u].pc == Decided ensures DecisionOk(s', s'.threads[u]) {
      var th' := s'.threads[u];
      if u < |s.threads| && s.threads[u].pc == Decided && th' == s.threads[u] {
        assert DecisionOk(s, th');
        assert s'.history[..th'.decided] == s.history[..th'.decided];
      } else {
        assert s'.history[..|s.history|] == s.history;
      }
    }
  }

  lemma {:induction false} RunKeepsCounted(s: System, steps: seq<Step>)
    requires Initial(s) && Legal(s, steps)
    ensures Counted(After(s, steps)) && DecisionsOk(After(s, steps))
    decreases |steps|
  {
    if steps == [] {
      forall r: nat | r < |s.servers| ensures s.servers[r].failures == 0 {
        assert QuietServer(s.servers[r], |s.threads|);
      }
    } else {
      hide Do, Enabled, Counted, DecisionsOk, Initial;
      RunKeepsCounted(s, steps[..|steps| - 1]);
      StepKeepsCounted(After(s, steps[..|steps| - 1]), steps[|steps| - 1]);
      StepKeepsDecisions(After(s, steps[..|steps| - 1]), steps[|steps| - 1]);
    }
  }

  // ---------------------------------------------------------------- main results

  /** A thread decides to evict its server exactly if the server has no calls and no published
      session, and as many creates as the limit says, as far as 32 bits go, failed in a row since
      the last success, sighting or confirmation. */
  lemma DecidesIff(s0: System, steps: seq<Step>, t: nat, reply: Reply)
    requires Initial(s0) && Legal(s0, steps) && Enabled(After(s0, steps), Thread(t, reply))
    requires After(s0, steps).threads[t].pc == Recorded
    ensures var s := After(s0, steps);
            var r := s.threads[t].r;
            && s.servers[r].dynamic
            && (NextThr(s.threads[t], s.servers[r], s.failMax, s.threads[t].session in s.byId, |s.history|, reply).pc == Decided <==>
                  s.servers[r].calls == 0 && s.servers[r].serverId == 0 && 0 < s.failMax <= FailuresSince(s.history, r) % COUNTER)
            && FailedInARow(s.history, r, FailuresSince(s.history, r))
  {
    RunKeepsCounted(s0, steps);
    RunKeepsMarks(s0, steps);
    var s := After(s0, steps);
    hide After, FailuresSince;
    assert MarkOk(s.threads[t], s.servers[s.threads[t].r]);
    FailuresAreInARow(s.history, s.threads[t].r);
  }

  /** The server has no calls and no published session, and enough creates failed in a row. */
  ghost predicate Cause(s: System, r: nat)
    requires r < |s.servers|
  {
    s.servers[r].calls == 0 && s.servers[r].serverId == 0 && 0 < s.failMax <= FailuresSince(s.history, r)
  }

  /** The `k`-th step of the run is the thread's decision, taken on a cause; `seen` is the length of
      the history then. */
  ghost predicate DecidedIn(s0: System, steps: seq<Step>, k: nat, t: nat, seen: nat) {
    && k < |steps| && steps[k].Thread? && steps[k].t == t && Legal(s0, steps[..k])
    && var s := After(s0, steps[..k]);
       && t < |s.threads| && s.threads[t].pc == Recorded && s.threads[t].r < |s.servers|
       && SelfEvicts(s.servers[s.threads[t].r], s.failMax) && Cause(s, s.threads[t].r) && |s.history| == seen
  }

  lemma DecidingStep(s: System, step: Step, t: nat)
    requires Enabled(s, step) && t < |Do(s, step).threads| && Do(s, step).threads[t].pc == Decided
    ensures t < |s.threads|
    ensures || s.threads[t] == Do(s, step).threads[t]
            || (&& step.Thread? && step.t == t && s.threads[t].pc == Recorded && s.threads[t].r < |s.servers|
                && SelfEvicts(s.servers[s.threads[t].r], s.failMax) && Do(s, step).threads[t].decided == |s.history|)
  {
    hide DoThread, DoAct, NextThr, NextAgent, SelfEvicts;
    if step.Thread? {
      var th := s.threads[step.t];
      ThreadFrame(s, step.t, step.reply);
      NextDecision(th, s.servers[th.r], s.failMax, th.session in s.byId, |s.history|, step.reply);
    } else if step.Act? {
      ActFrame(s, step.a);
    }
  }

  lemma {:induction false} DecisionIsInRun(s0: System, steps: seq<Step>, t: nat) returns (k: nat)
    requires Initial(s0) && Legal(s0, steps)
    requires t < |After(s0, steps).threads| && After(s0, steps).threads[t].pc == Decided
    ensures DecidedIn(s0, steps, k, t, After(s0, steps).threads[t].decided)
    decreases |steps|
  {
    hide *;
    NothingYet(s0, t);
    NoStep(s0);
    Front(s0, steps);
    var front, last := steps[..|steps| - 1], steps[|steps| - 1];
    var s := After(s0, front);
    DecidingStep(s, last, t);
    if s.threads[t] == After(s0, steps).threads[t] {
      k := DecisionIsInRun(s0, front, t);
      DecidedEarlier(s0, steps, k, t, s.threads[t].decided);
    } else {
      k := |steps| - 1;
      DecidedNow(s0, steps, t);
    }
  }

  lemma NothingYet(s: System, t: nat)
    requires Initial(s)
    ensures t < |s.threads| ==> s.threads[t].pc != Decided
  {
  }

  lemma DecidedEarlier(s0: System, steps: seq<Step>, k: nat, t: nat, seen: nat)
    requires steps != [] && DecidedIn(s0, steps[..|steps| - 1], k, t, seen)
    ensures DecidedIn(s0, steps, k, t, seen)
  {
    hide Legal, After, SelfEvicts, Cause;
    assert steps[..k] == steps[..|steps| - 1][..k];
  }

  lemma DecidedNow(s0: System, steps: seq<Step>, t: nat)
    requires steps != [] && Initial(s0) && Legal(s0, steps[..|steps| - 1]) && steps[|steps| - 1].Thread? && steps[|steps| - 1].t == t
    requires var s := After(s0, steps[..|steps| - 1]);
             && t < |s.threads| && s.threads[t].pc == Recorded && s.threads[t].r < |s.servers|
             && SelfEvicts(s.servers[s.threads[t].r], s.failMax)
    ensures DecidedIn(s0, steps, |steps| - 1, t, |After(s0, steps[..|steps| - 1]).history|)
  {
    var front := steps[..|steps| - 1];
    RunKeepsCounted(s0, front);
    RunKeepsMarks(s0, front);
    hide Legal, After, Initial, FailuresSince, DecisionsOk;
    CauseOfDecision(After(s0, front), t);
  }

  lemma CauseOfDecision(s: System, t: nat)
    requires Counted(s) && MarksOk(s) && t < |s.threads| && s.threads[t].pc == Recorded && s.threads[t].r < |s.servers|
    requires SelfEvicts(s.servers[s.threads[t].r], s.failMax)
    ensures Cause(s, s.threads[t].r)
  {
    hide FailuresSince;
    assert MarkOk(s.threads[t], s.servers[s.threads[t].r]);
  }

  /** A server becomes evicted only when a refresh marks it, or by a thread of its own that decided
      so earlier in the run, when the server had no calls and no published session and enough creates
      had failed in a row. */
  lemma EvictionHasCause(s0: System, steps: seq<Step>, step: Step, r: nat)
    requires Initial(s0) && Legal(s0, steps) && Enabled(After(s0, steps), step)
    requires r < |After(s0, steps).servers| && r < |Do(After(s0, steps), step).servers|
    requires !After(s0, steps).servers[r].evicted && Do(After(s0, steps), step).servers[r].evicted
    ensures var s := After(s0, steps);
            || step == Mark(r)
            || (&& step.Thread? && s.threads[step.t].r == r && s.threads[step.t].pc == Decided
                && exists k :: DecidedIn(s0, steps, k, step.t, s.threads[step.t].decided))
  {
    if step != Mark(r) {
      EvictingStep(After(s0, steps), step, r);
      var k := DecisionIsInRun(s0, steps, step.t);
    }
  }

  lemma EvictingStep(s: System, step: Step, r: nat)
    requires Enabled(s, step) && step != Mark(r) && r < |s.servers| && r < |Do(s, step).servers|
    requires !s.servers[r].evicted && Do(s, step).servers[r].evicted
    ensures step.Thread? && s.threads[step.t].r == r && s.threads[step.t].pc == Decided
  {
    hide DoThread, DoAct, NextThr, NextAgent;
    if step.Thread? {
      ThreadFrame(s, step.t, step.reply);
    } else if step.Act? {
      ActFrame(s, step.a);
    }
  }

  /** When the flag is set the cause still stands exactly if there are still no calls and no published
      session, and nothing has reset the count since the decision or as many creates have failed again
      since it was reset. */
  lemma CauseStandsIff(s0: System, steps: seq<Step>, t: nat)
    requires Initial(s0) && Legal(s0, steps)
    requires t < |After(s0, steps).threads| && After(s0, steps).threads[t].pc == Decided
    ensures var s := After(s0, steps);
            var th := s.threads[t];
            && th.decided <= |s.history| && th.r < |s.servers|
            && (Cause(s, th.r) <==>
                  && s.servers[th.r].calls == 0 && s.servers[th.r].serverId == 0
                  && (|| NoReset(s.history[th.decided..], th.r)
                      || s.failMax <= FailuresSince(s.history[th.decided..], th.r)))
  {
    RunKeepsCounted(s0, steps);
    RunKeepsMarks(s0, steps);
    var s := After(s0, steps);
    hide After, FailuresSince;
    var th := s.threads[t];
    assert DecisionOk(s, th);
    assert s.history == s.history[..th.decided] + s.history[th.decided..];
    FailuresSinceBoth(s.history[..th.decided], s.history[th.decided..], th.r);
  }

  /** While the only thread of a server is about to set the flag, nobody publishes a session and no
      create fails. */
  ghost predicate Undisturbed(s: System) {
    forall t :: 0 <= t < |s.threads| && s.threads[t].pc == Decided ==> UndisturbedAt(s, s.threads[t])
  }

  ghost predicate UndisturbedAt(s: System, th: Thr) {
    && th.r < |s.servers| && s.servers[th.r].serverId == 0
    && th.decided <= |s.history| && FailuresSince(s.history[th.decided..], th.r) == 0
  }

  /** What a step does to a server that is not its own, and to the history. */
  lemma QuietFor(s: System, step: Step, r: nat)
    requires Enabled(s, step) && r < |s.servers| && s.servers[r].serverId == 0
    requires step.Thread? ==> s.threads[step.t].r != r
    ensures var s' := Do(s, step);
            && r < |s'.servers| && s'.servers[r].serverId == 0
            && (s'.history == s.history || exists e :: s'.history == s.history + [e] && e != CreateFailed(r))
  {
    hide DoThread, DoAct, NextThr, NextAgent;
    var s' := Do(s, step);
    if step.Thread? {
      ThreadFrame(s, step.t, step.reply);
      var th := s.threads[step.t];
      if Logged(th, s.servers[th.r]) != [] {
        assert s'.history == s.history + [Logged(th, s.servers[th.r])[0]];
      }
    } else if step.Act? {
      ActFrame(s, step.a);
    } else if |s'.history| > |s.history| {
      assert s'.history == s.history + [s'.history[|s.history|]];
    }
  }

  lemma StaysUndisturbed(s: System, step: Step, th: Thr)
    requires UndisturbedAt(s, th) && Enabled(s, step) && (step.Thread? ==> s.threads[step.t].r != th.r)
    ensures UndisturbedAt(Do(s, step), th)
  {
    QuietFor(s, step, th.r);
    hide FailuresSince, Do, Enabled;
    var s' := Do(s, step);
    if s'.history != s.history {
      var e :| s'.history == s.history + [e] && e != CreateFailed(th.r);
      assert s'.history[th.decided..] == s.history[th.decided..] + [e];
      AfterEvent(s.history[th.decided..], e, th.r);
    }
  }

  lemma StepKeepsUndisturbed(s: System, step: Step)
    requires Inv(s) && Undisturbed(s) && Enabled(s, step)
    ensures Undisturbed(Do(s, step))
  {
    var s' := Do(s, step);
    forall t | 0 <= t < |s'.threads| && s'.threads[t].pc == Decided ensures UndisturbedAt(s', s'.threads[t]) {
      DecidingStep(s, step, t);
      if s.threads[t] == s'.threads[t] {
        ThreadAt(s, t);
        if step.Thread? {
          ThreadAt(s, step.t);
          StillDecided(s, step.t, step.reply, t);
        }
        StaysUndisturbed(s, step, s.threads[t]);
      } else {
        DecisionDisturbsNothing(s, t, step.reply);
      }
    }
  }

  lemma StillDecided(s: System, u: nat, reply: Reply, t: nat)
    requires Inv(s) && Enabled(s, Thread(u, reply)) && t < |s.threads| && s.threads[t].pc == Decided
    requires DoThread(s, u, reply).threads[t] == s.threads[t]
    ensures s.threads[u].r != s.threads[t].r
  {
    ThreadAt(s, t);
    ThreadAt(s, u);
    ThreadFrame(s, u, reply);
    hide DoThread, ThreadsOk, AgentsOk, EntriesOk, ListingsOk;
  }

  lemma DecisionDisturbsNothing(s: System, t: nat, reply: Reply)
    requires Enabled(s, Thread(t, reply)) && s.threads[t].pc == Recorded
    requires DoThread(s, t, reply).threads[t].pc == Decided
    ensures UndisturbedAt(DoThread(s, t, reply), DoThread(s, t, reply).threads[t])
  {
    var th, s' := s.threads[t], DoThread(s, t, reply);
    assert s'.history == s.history && s'.history[|s.history|..] == [];
  }

  lemma {:induction false} RunKeepsUndisturbed(s: System, steps: seq<Step>)
    requires Initial(s) && Legal(s, steps) && Orderly(s, steps)
    ensures Undisturbed(After(s, steps))
    decreases |steps|
  {
    if steps != [] {
      hide Do, Enabled, Inv, Undisturbed, Tidy, Initial;
      RunKeepsUndisturbed(s, steps[..|steps| - 1]);
      RunKeepsInv(s, steps[..|steps| - 1]);
      StepKeepsUndisturbed(After(s, steps[..|steps| - 1]), steps[|steps| - 1]);
    }
  }

  /** In an orderly run no session can be published between decision and flag, and no create fail: the
      cause still stands exactly if no call came in and nothing reset the count. */
  lemma OrderlyCauseStandsIff(s0: System, steps: seq<Step>, t: nat)
    requires Initial(s0) && Legal(s0, steps) && Orderly(s0, steps)
    requires t < |After(s0, steps).threads| && After(s0, steps).threads[t].pc == Decided
    ensures var s := After(s0, steps);
            var th := s.threads[t];
            && th.decided <= |s.history| && th.r < |s.servers| && s.servers[th.r].serverId == 0
            && (Cause(s, th.r) <==> s.servers[th.r].calls == 0 && NoReset(s.history[th.decided..], th.r))
  {
    RunKeepsUndisturbed(s0, steps);
    RunKeepsCounted(s0, steps);
    CauseStandsIff(s0, steps, t);
    var s := After(s0, steps);
    hide After, FailuresSince;
    assert UndisturbedAt(s, s.threads[t]) && DecisionOk(s, s.threads[t]);
  }

  // ---------------------------------------------------------------- a sighting in between

  /** A running pod that may fail once. */
  function Pod(n: bytes, v: Server, th: Thr, h: seq<Event>): (s: System)
  {
    System(1, false, [v], [th], [], map[n := 0], map[], map[], h)
  }

  lemma PodFails(n: bytes)
    ensures var v, th, go := Running(n), Thr(0, Outer, 0, 0), Thread(0, Refused);
            var v', h := v.(failures := 1), [CreateFailed(0)];
            && Goes(Pod(n, v, th.(pc := Connect), []), go, Pod(n, v, th.(pc := Failed), []))
            && Goes(Pod(n, v, th.(pc := Failed), []), go, Pod(n, v', th.(pc := Recorded), h))
  {
    var none: seq<Event> := [];
    assert none + none == none;
  }

  lemma PodConnects(n: bytes)
    ensures var v, th := Running(n), Thr(0, Outer, 0, 0);
            && Initial(Pod(n, v, th, []))
            && Goes(Pod(n, v, th, []), Thread(0, Refused), Pod(n, v, th.(pc := Connect), []))
  {
    var none: seq<Event> := [];
    assert none + none == none;
  }

  lemma PodIsSighted(n: bytes)
    ensures var v, h, go := Running(n), [CreateFailed(0)], Thread(0, Refused);
            var th := Thr(0, Recorded, 0, 0);
            && Goes(Pod(n, v.(failures := 1), th, h), go, Pod(n, v.(failures := 1), Thr(0, Decided, 0, 1), h))
            && Goes(Pod(n, v.(failures := 1), Thr(0, Decided, 0, 1), h), Sight(n), Pod(n, v, Thr(0, Decided, 0, 1), h + [Sighted(0)]))
            && Goes(Pod(n, v, Thr(0, Decided, 0, 1), h + [Sighted(0)]), go,
                 Pod(n, v.(evicted := true), Thr(0, Done, 0, 1), h + [Sighted(0)]))
  {
    var h := [CreateFailed(0)];
    assert h + [] == h && (h + [Sighted(0)]) + [] == h + [Sighted(0)];
  }

  /** A run in which the refresh sees the pod between the decision and the flag: it is evicted with
      no failure left to hold against it. */
  lemma EvictedAfterSighting(n: bytes) returns (steps: seq<Step>)
    ensures var s0 := Pod(n, Running(n), Thr(0, Outer, 0, 0), []);
            && Initial(s0) && Legal(s0, steps) && |After(s0, steps).servers| == 1
            && After(s0, steps).servers[0].evicted && steps[|steps| - 1] == Thread(0, Refused)
            && After(s0, steps).failMax == 1 && FailuresSince(After(s0, steps).history, 0) == 0
  {
    var v, go, h := Running(n), Thread(0, Refused), [CreateFailed(0)];
    var th := Thr(0, Outer, 0, 0);
    PodConnects(n);
    PodFails(n);
    PodIsSighted(n);
    AfterEvent(h, Sighted(0), 0);
    var s0, s1, s2 := Pod(n, v, th, []), Pod(n, v, th.(pc := Connect), []), Pod(n, v, th.(pc := Failed), []);
    var s3, s4 := Pod(n, v.(failures := 1), th.(pc := Recorded), h), Pod(n, v.(failures := 1), Thr(0, Decided, 0, 1), h);
    var s5 := Pod(n, v, Thr(0, Decided, 0, 1), h + [Sighted(0)]);
    var s6 := Pod(n, v.(evicted := true), Thr(0, Done, 0, 1), h + [Sighted(0)]);
    assert s6.servers[0].evicted && |s6.servers| == 1 && s6.failMax == 1 && s6.history == h + [Sighted(0)];
    assert Legal(s0, []) && After(s0, []) == s0;
    assert Resets(Sighted(0), 0);
    hide *;
    GoOn3(s0, [], go, go, go, s0, s1, s2, s3);
    steps := [] + [go] + [go] + [go];
    GoOn3(s0, steps, go, Sight(n), go, s3, s4, s5, s6);
    steps := steps + [go] + [Sight(n)] + [go];
  }

  lemma PodIsCalled(n: bytes)
    ensures var v, h, go := Running(n).(failures := 1), [CreateFailed(0)], Thread(0, Refused);
            && Goes(Pod(n, v, Thr(0, Recorded, 0, 0), h), go, Pod(n, v, Thr(0, Decided, 0, 1), h))
            && Goes(Pod(n, v, Thr(0, Decided, 0, 1), h), SetCalls(0, 1), Pod(n, v.(calls := 1), Thr(0, Decided, 0, 1), h))
            && Goes(Pod(n, v.(calls := 1), Thr(0, Decided, 0, 1), h), go,
                 Pod(n, v.(calls := 1, evicted := true), Thr(0, Done, 0, 1), h))
  {
    var h := [CreateFailed(0)];
    assert h + [] == h;
  }

  /** A run in which a call comes in between the decision and the flag: the server is evicted with the
      call on it. */
  lemma EvictedUnderCall(n: bytes) returns (steps: seq<Step>)
    ensures var s0 := Pod(n, Running(n), Thr(0, Outer, 0, 0), []);
            && Initial(s0) && Legal(s0, steps) && |After(s0, steps).servers| == 1
            && After(s0, steps).servers[0].evicted && steps[|steps| - 1] == Thread(0, Refused)
            && After(s0, steps).servers[0].calls == 1
  {
    var v, go, h := Running(n), Thread(0, Refused), [CreateFailed(0)];
    var th := Thr(0, Outer, 0, 0);
    PodConnects(n);
    PodFails(n);
    PodIsCalled(n);
    var w := v.(failures := 1);
    var s0, s1, s2 := Pod(n, v, th, []), Pod(n, v, th.(pc := Connect), []), Pod(n, v, th.(pc := Failed), []);
    var s3, s4 := Pod(n, w, th.(pc := Recorded), h), Pod(n, w, Thr(0, Decided, 0, 1), h);
    var s5 := Pod(n, w.(calls := 1), Thr(0, Decided, 0, 1), h);
    var s6 := Pod(n, w.(calls := 1, evicted := true), Thr(0, Done, 0, 1), h);
    assert s6.servers[0].evicted && |s6.servers| == 1 && s6.servers[0].calls == 1;
    assert Legal(s0, []) && After(s0, []) == s0;
    hide *;
    GoOn3(s0, [], go, go, go, s0, s1, s2, s3);
    steps := [] + [go] + [go] + [go];
    GoOn3(s0, steps, go, SetCalls(0, 1), go, s3, s4, s5, s6);
    steps := steps + [go] + [SetCalls(0, 1)] + [go];
  }
}

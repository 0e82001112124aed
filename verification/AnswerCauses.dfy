/**
 Answer gating said over the events Janus sent: the callbacks of an event carry what it lists, every
 release goes back to a received entry or to a deadline, and what an event does to a leg when nothing
 comes in between.
 */
module AnswerCauses {
  import opened Bytes
  import Numbers
  import opened AnswerGate

  // ---------------------------------------------------------------- what the callbacks carry

  /** The number a text of digits stands for. */
  function ValueOf(t: bytes): (v: int)
  {
    if t == [] then 0 else 10 * ValueOf(t[..|t| - 1]) + t[|t| - 1] - 48
  }

  /** `t` is the text of the id: a number's digits without leading zeros, or the string itself. */
  predicate Writes(t: bytes, id: JanusId) {
    match id
    case StringId(chars) => t == chars
    case NumberId(n) =>
      && t != [] && (forall i :: 0 <= i < |t| ==> 48 <= t[i] <= 57)
      && (t[0] == 48 ==> |t| == 1) && ValueOf(t) == n
  }

  lemma {:induction false} DecimalWrites(n: nat)
    ensures Writes(Numbers.Decimal(n), NumberId(n))
    decreases n
  {
    var t := Numbers.Decimal(n);
    assert forall i :: 0 <= i < |t| ==> Numbers.Decimal(n)[i] == t[i] && IsDigit(t[i]);
    if n >= 10 {
      DecimalWrites(n / 10);
      var front := Numbers.Decimal(n / 10);
      assert t[..|t| - 1] == front && t[0] == front[0];
      assert ValueOf(front) == n / 10;
      if |front| == 1 {
        assert front[..0] == [] && ValueOf(front) == 10 * ValueOf(front[..0]) + front[0] - 48;
      }
    } else {
      assert t[..0] == [] && ValueOf([]) == 0;
    }
  }

  lemma NormaliseWrites(id: JanusId)
    ensures Writes(Normalise(id), id)
  {
    if id.NumberId? {
      DecimalWrites(id.n);
    }
  }

  /** A callback made for an entry: its own id and its own `setup`. */
  predicate MadeFor(c: Callback, e: Listed) {
    c.Participant? && e.id.Some? && Writes(c.id, e.id.value) && c.setup == e.setup
  }

  predicate Rising(at: seq<nat>) {
    forall i, j :: 0 <= i < j < |at| ==> at[i] < at[j]
  }

  /** The callbacks are made for the entries at these places, which are all the places of entries with
      an id, in order. */
  predicate MadeAt(cs: seq<Callback>, ps: seq<Listed>, at: seq<nat>) {
    && |at| == |cs| && Rising(at)
    && (forall j :: 0 <= j < |cs| ==> at[j] < |ps| && MadeFor(cs[j], ps[at[j]]))
    && (forall i :: 0 <= i < |ps| && ps[i].id.Some? ==> i in at)
  }

  ghost predicate Carries(cs: seq<Callback>, ps: seq<Listed>) {
    exists at: seq<nat> :: MadeAt(cs, ps, at)
  }

  function Shifted(at: seq<nat>): (r: seq<nat>)
    ensures |r| == |at| && forall j :: 0 <= j < |at| ==> r[j] == at[j] + 1
  {
    seq(|at|, j requires 0 <= j < |at| => at[j] + 1)
  }

  lemma {:induction false} ParticipantsCarry(ps: seq<Listed>) returns (at: seq<nat>)
    ensures MadeAt(ParticipantCalls(ps), ps, at)
  {
    if ps == [] {
      at := [];
    } else {
      var rest := ParticipantsCarry(ps[1..]);
      at := (if ps[0].id.Some? then [0] else []) + Shifted(rest);
      CarryFirst(ps, rest, at);
    }
  }

  lemma CarryFirst(ps: seq<Listed>, rest: seq<nat>, at: seq<nat>)
    requires ps != [] && MadeAt(ParticipantCalls(ps[1..]), ps[1..], rest)
    requires at == (if ps[0].id.Some? then [0] else []) + Shifted(rest)
    ensures MadeAt(ParticipantCalls(ps), ps, at)
  {
    hide Writes, Normalise, MadeAt;
    var cs := ParticipantCalls(ps[1..]);
    if ps[0].id.Some? {
      NormaliseWrites(ps[0].id.value);
      var c := Participant(Normalise(ps[0].id.value), ps[0].setup);
      CarryNext(c, cs, ps[0], ps[1..], rest);
      assert [ps[0]] + ps[1..] == ps;
    } else {
      CarryOver(cs, ps[0], ps[1..], rest);
      assert [ps[0]] + ps[1..] == ps && at == Shifted(rest) && ParticipantCalls(ps) == cs;
    }
  }

  lemma CarryOver(cs: seq<Callback>, e: Listed, ps: seq<Listed>, rest: seq<nat>)
    requires MadeAt(cs, ps, rest) && e.id.None?
    ensures MadeAt(cs, [e] + ps, Shifted(rest))
  {
    hide MadeFor;
    var ps', at := [e] + ps, Shifted(rest);
    forall i | 0 <= i < |ps'| && ps'[i].id.Some? ensures i in at {
      assert ps[i - 1].id.Some?;
      var j :| 0 <= j < |rest| && rest[j] == i - 1;
      assert at[j] == i;
    }
  }

  lemma CarryNext(c: Callback, cs: seq<Callback>, e: Listed, ps: seq<Listed>, rest: seq<nat>)
    requires MadeAt(cs, ps, rest) && MadeFor(c, e)
    ensures MadeAt([c] + cs, [e] + ps, [0] + Shifted(rest))
  {
    hide MadeFor, Rising;
    var cs', ps', at := [c] + cs, [e] + ps, [0] + Shifted(rest);
    RisesOn(rest);
    forall j | 0 <= j < |cs'| ensures at[j] < |ps'| && MadeFor(cs'[j], ps'[at[j]]) {
      if j > 0 {
        assert cs'[j] == cs[j - 1] && at[j] == rest[j - 1] + 1;
        assert MadeFor(cs[j - 1], ps[rest[j - 1]]);
        assert ps'[at[j]] == ps[rest[j - 1]];
      }
    }
    forall i | 0 <= i < |ps'| && ps'[i].id.Some? ensures i in at {
      if i == 0 {
        assert at[0] == 0;
      } else {
        FoundShifted(rest, i - 1);
      }
    }
  }

  lemma RisesOn(rest: seq<nat>)
    requires Rising(rest)
    ensures Rising([0] + Shifted(rest))
  {
    var at := [0] + Shifted(rest);
    assert forall j :: 0 < j < |at| ==> at[j] == rest[j - 1] + 1;
  }

  lemma FoundShifted(rest: seq<nat>, i: nat)
    requires i in rest
    ensures i + 1 in [0] + Shifted(rest)
  {
    var j :| 0 <= j < |rest| && rest[j] == i;
    assert ([0] + Shifted(rest))[j + 1] == i + 1;
  }

  /** The callbacks of an event: a join of ours reports the join with its gating and timeout, our id,
      and then the entries it lists; a list reports its entries; an answer is reported by the SDP answer
      or by the connection coming up, as the channel asked; and nothing else is reported. */
  lemma CallbacksCarry(ev: JanusEvent)
    ensures var cs := Callbacks(ev);
            && (ev.OwnJoined? ==>
                  |cs| >= 2 && cs[0] == Joined(ev.gating, ev.timeout)
                  && cs[1].SelfId? && Writes(cs[1].id, ev.id) && Carries(cs[2..], ev.participants))
            && (ev.Participants? ==> Carries(cs, ev.participants))
            && (ev == SdpAnswer(false) || ev == WebrtcUp(true) ==> cs == [Answered])
            && (ev == SdpAnswer(true) || ev == WebrtcUp(false) || ev == OtherEvent ==> cs == [])
  {
    hide Normalise, Writes;
    if ev.OwnJoined? {
      NormaliseWrites(ev.id);
      var at := ParticipantsCarry(ev.participants);
      assert Callbacks(ev)[2..] == ParticipantCalls(ev.participants);
    } else if ev.Participants? {
      var at := ParticipantsCarry(ev.participants);
    }
  }

  // ---------------------------------------------------------------- what was received

  function EntriesOf(ev: JanusEvent): (ps: seq<Listed>)
  {
    if ev.OwnJoined? || ev.Participants? then ev.participants else []
  }

  /** The `i`-th step received an event that lists this id with this `setup`. */
  predicate ListsAt(steps: seq<Step>, i: nat, id: bytes, setup: bool) {
    && i < |steps| && steps[i].Receive?
    && exists e :: e in EntriesOf(steps[i].ev) && MadeFor(Participant(id, setup), e)
  }

  /** The `i`-th step received a join of ours under this id. */
  predicate JoinsAt(steps: seq<Step>, i: nat, id: bytes) {
    i < |steps| && steps[i].Receive? && steps[i].ev.OwnJoined? && Writes(id, steps[i].ev.id)
  }

  /** The `i`-th step received a join of ours that asks for gating with this timeout. */
  predicate GatesAt(steps: seq<Step>, i: nat, timeout: int) {
    i < |steps| && steps[i].Receive? && steps[i].ev.OwnJoined? && steps[i].ev.gating && steps[i].ev.timeout == timeout
  }

  ghost predicate WasListed(steps: seq<Step>, k: nat, id: bytes, setup: bool) {
    exists i: nat :: i < k && ListsAt(steps, i, id, setup)
  }

  ghost predicate WasJoined(steps: seq<Step>, k: nat, id: bytes) {
    exists i: nat :: i < k && JoinsAt(steps, i, id)
  }

  ghost predicate WasGated(steps: seq<Step>, k: nat, timeout: int) {
    exists i: nat :: i < k && GatesAt(steps, i, timeout)
  }

  /** The time the gate is armed for: what a join asked for, or ten seconds. */
  ghost predicate WasArmed(steps: seq<Step>, k: nat, window: nat) {
    exists timeout: int :: WasGated(steps, k, timeout) && window == (if timeout <= 0 then 10_000 else timeout) * 1000
  }

  /** The call goes back to something received. */
  ghost predicate Received(steps: seq<Step>, k: nat, c: Callback) {
    match c
    case Joined(gating, timeout) => gating ==> WasGated(steps, k, timeout)
    case SelfId(id) => WasJoined(steps, k, id)
    case Participant(id, setup) => WasListed(steps, k, id, setup)
    case Answered => true
  }

  /** What the event thread holds, and what it has recorded, goes back to something received. */
  ghost predicate Grounded(steps: seq<Step>, k: nat, s: System) {
    && (forall i :: 0 <= i < |s.calls| ==> Received(steps, k, s.calls[i]))
    && (s.event.AtJoinedLock? ==> WasGated(steps, k, s.event.timeout))
    && (s.event.AtSelfLock? ==> WasJoined(steps, k, s.event.id))
    && (s.event.AtParticipantLock? ==> WasListed(steps, k, s.event.id, s.event.setup))
    && (s.flags.ownId.Some? ==> WasJoined(steps, k, s.flags.ownId.value))
    && (s.flags.gate ==> WasArmed(steps, k, s.log.window))
  }

  lemma StaysReceived(steps: seq<Step>, k: nat)
    ensures forall id, setup :: WasListed(steps, k, id, setup) ==> WasListed(steps, k + 1, id, setup)
    ensures forall id :: WasJoined(steps, k, id) ==> WasJoined(steps, k + 1, id)
    ensures forall timeout :: WasGated(steps, k, timeout) ==> WasGated(steps, k + 1, timeout)
  {
    hide ListsAt, JoinsAt, GatesAt;
  }

  lemma StaysGrounded(steps: seq<Step>, k: nat, s: System)
    requires Grounded(steps, k, s)
    ensures Grounded(steps, k + 1, s)
  {
    hide WasListed, WasJoined, WasGated;
    StaysReceived(steps, k);
    forall i | 0 <= i < |s.calls| ensures Received(steps, k + 1, s.calls[i]) {
      assert Received(steps, k, s.calls[i]);
    }
  }

  lemma MadeForSome(cs: seq<Callback>, ps: seq<Listed>, i: nat) returns (e: Listed)
    requires Carries(cs, ps) && i < |cs|
    ensures e in ps && MadeFor(cs[i], e)
  {
    hide MadeFor;
    var at: seq<nat> :| MadeAt(cs, ps, at);
    e := ps[at[i]];
  }

  lemma EntryReceived(steps: seq<Step>, k: nat, cs: seq<Callback>, i: nat)
    requires k < |steps| && steps[k].Receive? && i < |cs| && cs[i].Participant? && Carries(cs, EntriesOf(steps[k].ev))
    ensures WasListed(steps, k + 1, cs[i].id, cs[i].setup)
  {
    hide Carries, MadeFor;
    var e := MadeForSome(cs, EntriesOf(steps[k].ev), i);
    assert cs[i] == Participant(cs[i].id, cs[i].setup);
    assert ListsAt(steps, k, cs[i].id, cs[i].setup);
  }

  /** Every callback of an event just received goes back to it. */
  lemma ReceivedNow(steps: seq<Step>, k: nat, i: nat)
    requires k < |steps| && steps[k].Receive? && i < |Callbacks(steps[k].ev)|
    ensures Received(steps, k + 1, Callbacks(steps[k].ev)[i])
  {
    hide Writes, Carries, Callbacks, WasListed, SelfFollowsJoin;
    var ev := steps[k].ev;
    CallbacksCarry(ev);
    CallbacksInOrder(ev);
    var cs := Callbacks(ev);
    if cs[i].Joined? {
      assert cs[i].gating ==> GatesAt(steps, k, cs[i].timeout);
    } else if cs[i].SelfId? {
      assert JoinsAt(steps, k, cs[i].id);
    } else if cs[i].Participant? {
      if ev.OwnJoined? {
        assert cs[2..][i - 2] == cs[i];
        EntryReceived(steps, k, cs[2..], i - 2);
      } else {
        assert ev.Participants?;
        EntryReceived(steps, k, cs, i);
      }
    }
  }

  lemma EventGrounded(steps: seq<Step>, k: nat, s: System)
    requires Grounded(steps, k, s) && Enabled(s, EventStep)
    ensures Grounded(steps, k, DoEvent(s))
  {
    hide WasListed, WasJoined, WasGated;
    var s' := DoEvent(s);
    if s.event == Idle {
      assert Received(steps, k, s.calls[0]);
      assert forall i :: 0 <= i < |s'.calls| ==> s'.calls[i] == s.calls[i + 1];
    }
  }

  lemma MediaGrounded(steps: seq<Step>, k: nat, s: System)
    requires Grounded(steps, k, s)
    ensures Grounded(steps, k, DoMedia(s))
  {
    hide WasListed, WasJoined, WasGated, Received;
  }

  lemma {:induction false} RunGrounded(states: seq<System>, steps: seq<Step>, k: nat)
    requires IsRun(states, steps) && k < |states|
    ensures Grounded(steps, k, states[k])
  {
    if k > 0 {
      RunGrounded(states, steps, k - 1);
      StepGrounded(states[k - 1], steps, k - 1);
    }
  }

  lemma StepGrounded(s: System, steps: seq<Step>, k: nat)
    requires Grounded(steps, k, s) && k < |steps| && Enabled(s, steps[k])
    ensures Grounded(steps, k + 1, Do(s, steps[k]))
  {
    hide WasListed, WasJoined, WasGated, Received, DoEvent, DoMedia, Callbacks;
    if steps[k].EventStep? {
      EventGrounded(steps, k, s);
    } else if steps[k].MediaStep? {
      MediaGrounded(steps, k, s);
    }
    if steps[k].Receive? {
      StaysGrounded(steps, k, s);
      forall i | 0 <= i < |Callbacks(steps[k].ev)| ensures Received(steps, k + 1, Callbacks(steps[k].ev)[i]) {
        ReceivedNow(steps, k, i);
      }
    } else {
      StaysGrounded(steps, k, Do(s, steps[k]));
    }
  }

  // ---------------------------------------------------------------- main result

  /** A received entry opens the gate: one that is set up, under an id that is not the recorded one;
      and the recorded one is that of a join of ours that was received. */
  ghost predicate EntryReleases(steps: seq<Step>, j: nat, s: System) {
    && s.event.AtParticipantLock? && WasListed(steps, j, s.event.id, true)
    && s.flags.ownId != Some(s.event.id)
    && (if s.flags.ownId.Some? then WasJoined(steps, j, s.flags.ownId.value) else s.log.selfMissed)
  }

  /** A join that was received asked for gating, and the time it asked for has passed. */
  ghost predicate WindowPassed(steps: seq<Step>, j: nat, s: System) {
    exists window: nat :: WasArmed(steps, j, window) && s.log.joinedAt + window <= s.now
  }

  /** Once the gate is on the answer is claimed only after an entry that Janus sent as set up, under
      another id than our recorded one, or after the time a received join asked for has passed. */
  lemma AnsweredFromEvents(states: seq<System>, steps: seq<Step>, k: nat) returns (j: nat)
    requires IsRun(states, steps) && k < |steps|
    requires states[k].flags.gate && !states[k].flags.done && states[k + 1].flags.done
    ensures j < k
    ensures if steps[j] == EventStep then EntryReleases(steps, j, states[j])
            else steps[j] == MediaStep && WindowPassed(steps, j, states[j])
  {
    AnsweredOnlyWhenReleased(states, steps, k);
    var j0 :| 0 <= j0 < k && Releases(states, steps, j0);
    j := j0;
    RunGrounded(states, steps, j);
    RunKeepsInv(states, steps, j);
    ReleaseIsGrounded(steps, j, states[j]);
  }

  lemma ReleaseIsGrounded(steps: seq<Step>, j: nat, s: System)
    requires j < |steps| && ReleasesAt(s, steps[j]) && Grounded(steps, j, s) && Inv(s)
    ensures if steps[j] == EventStep then EntryReleases(steps, j, s)
            else steps[j] == MediaStep && WindowPassed(steps, j, s)
  {
    hide WasListed, WasJoined, WasGated, WasArmed, Received, OneAnswer, NoLostWakeup, PastDeadline, OwnIdKnown, OwnIdsLogged;
  }

  // ---------------------------------------------------------------- one event at a time

  /** The event thread running up to `n` steps while the rest of the system stands still. */
  function EventRun(s: System, n: nat): (s': System)
    decreases n
  {
    if n == 0 || (s.event == Idle && s.calls == []) then s else EventRun(DoEvent(s), n - 1)
  }

  /** A join arms the gate exactly if it asks for it, with the time it asks for or ten seconds. */
  lemma JoinArms(s: System, gating: bool, timeout: int)
    requires s.event == Idle && s.calls != [] && s.calls[0] == Joined(gating, timeout) && Found(s)
    ensures !gating ==> EventRun(s, 1) == s.(calls := s.calls[1..])
    ensures gating ==>
              var s' := EventRun(s, 2);
              && s'.calls == s.calls[1..] && s'.event == Idle && s'.answers == s.answers
              && s'.flags == s.flags.(gate := true, deadline := s.now + (if timeout <= 0 then 10_000 else timeout) * 1000)
  {
    if gating {
      var s1 := s.(calls := s.calls[1..], event := AtJoinedLock(timeout));
      assert DoEvent(s) == s1;
      assert EventRun(s, 2) == EventRun(s1, 1) == EventRun(DoEvent(s1), 0);
    } else {
      assert DoEvent(s) == s.(calls := s.calls[1..]) == EventRun(DoEvent(s), 0);
    }
  }

  /** The first report of our own id is the one that is kept. */
  lemma FirstIdStays(s: System, id: bytes)
    requires s.event == Idle && s.calls != [] && s.calls[0] == SelfId(id) && Found(s)
    ensures EventRun(s, 2) ==
            s.(calls := s.calls[1..], flags := s.flags.(ownId := if s.flags.ownId.Some? then s.flags.ownId else Some(id)))
  {
    var s1 := s.(calls := s.calls[1..], event := AtSelfLock(id));
    assert DoEvent(s) == s1;
    assert EventRun(s, 2) == EventRun(s1, 1) == EventRun(DoEvent(s1), 0);
  }

  /** A request for the answer is met at once unless the gate is on and nobody is ready yet; then it is
      noted. */
  lemma RequestAnswers(s: System)
    requires s.event == Idle && s.calls != [] && s.calls[0] == Answered && Found(s) && !s.flags.done
    ensures !s.flags.gate || s.flags.ready ==>
              var s' := EventRun(s, 3);
              && s'.answers == s.answers + 1 && s'.flags == s.flags.(done := true)
              && s'.calls == s.calls[1..] && s'.event == Idle
    ensures s.flags.gate && !s.flags.ready ==>
              var s' := EventRun(s, 2);
              && s'.answers == s.answers && s'.flags == s.flags.(requested := true)
              && s'.calls == s.calls[1..] && s'.event == Idle
  {
    var s1 := s.(calls := s.calls[1..], event := AtAnsweredLock);
    assert DoEvent(s) == s1;
    var s2 := DoEvent(s1);
    if !s.flags.gate || s.flags.ready {
      assert s2 == s1.(flags := s.flags.(done := true), event := Answering);
      assert EventRun(s, 3) == EventRun(s1, 2) == EventRun(s2, 1) == EventRun(DoEvent(s2), 0);
    } else {
      assert EventRun(s, 2) == EventRun(s1, 1) == EventRun(s2, 0);
    }
  }

  /** An entry under another id than our recorded one releases the answer exactly if it is set up, the
      gate is on and the answer not yet claimed; and it answers at once what has been requested. */
  lemma EntryAnswers(s: System, id: bytes, setup: bool)
    requires s.event == Idle && s.calls != [] && s.calls[0] == Participant(id, setup) && Found(s)
    requires s.flags.ownId != Some(id)
    ensures var released := setup && s.flags.gate && !s.flags.done;
            var s' := EventRun(s, if released && s.flags.requested then 5 else 2);
            && s'.calls == s.calls[1..] && s'.event == Idle
            && (released && s.flags.requested ==>
                  s'.answers == s.answers + 1 && s'.flags == s.flags.(ready := true, done := true))
            && (released && !s.flags.requested ==> s'.answers == s.answers && s'.flags == s.flags.(ready := true))
            && (!released ==> s'.answers == s.answers && s'.flags == s.flags)
  {
    var s1 := s.(calls := s.calls[1..], event := AtParticipantLock(id, setup));
    assert DoEvent(s) == s1;
    var s2 := DoEvent(s1);
    if setup && s.flags.gate && !s.flags.done && s.flags.requested {
      assert s2 == s1.(flags := s.flags.(ready := true), event := CallsAnswered);
      var s3 := s2.(event := AtAnsweredLock);
      assert DoEvent(s2) == s3;
      var s4 := s3.(flags := s3.flags.(done := true), event := Answering);
      assert DoEvent(s3) == s4;
      assert EventRun(s, 5) == EventRun(s1, 4) == EventRun(s2, 3) == EventRun(s3, 2) == EventRun(s4, 1) == EventRun(DoEvent(s4), 0);
    } else {
      assert EventRun(s, 2) == EventRun(s1, 1) == EventRun(s2, 0);
    }
  }

  /** An entry under the recorded id of our own, and any call that finds no server or no session,
      changes no flag. */
  lemma NothingChanges(s: System)
    requires s.event == Idle && s.calls != []
    requires !Found(s) || (s.calls[0].Participant? && s.flags.ownId == Some(s.calls[0].id))
    ensures var s' := EventRun(s, if Found(s) then 2 else 1);
            s'.flags == s.flags && s'.answers == s.answers && s'.calls == s.calls[1..] && s'.event == Idle
  {
    if Found(s) {
      var s1 := s.(calls := s.calls[1..], event := AtParticipantLock(s.calls[0].id, s.calls[0].setup));
      assert DoEvent(s) == s1;
      assert EventRun(s, 2) == EventRun(s1, 1) == EventRun(DoEvent(s1), 0);
    } else {
      assert EventRun(s, 1) == EventRun(DoEvent(s), 0);
    }
  }

  // ---------------------------------------------------------------- one frame

  /** Where each of the unlocked reads leads. */
  function NextRead(pc: Pc, f: Flags, now: nat): (pc': Pc)
  {
    match pc
    case Idle => if f.gate then SawGate else Idle
    case SawGate => if f.requested then SawRequested else Idle
    case SawRequested => if f.done then Idle else SawNotDone
    case _ => if 0 < f.deadline <= now then AtTimeoutLock else Idle
  }

  lemma ReadLeads(s: System)
    requires s.media.Idle? || s.media.SawGate? || s.media.SawRequested? || s.media.SawNotDone?
    ensures DoMedia(s) == s.(media := NextRead(s.media, s.flags, s.now))
  {
  }

  lemma NoMoreSteps(s: System)
    ensures MediaRun(s, 0) == s
  {
  }

  /** A frame of the media thread on its own goes for the answer exactly if the gate is on, the answer is
      requested and not claimed, and the deadline is set and has passed. */
  lemma FrameTimesOutIff(s: System)
    requires s.media == Idle
    ensures var f, s' := s.flags, MediaRun(s, 4);
            && s' == s.(media := s'.media)
            && (s'.media == AtTimeoutLock <==> f.gate && f.requested && !f.done && 0 < f.deadline <= s.now)
  {
    hide DoMedia, MediaRun;
    var s1 := s.(media := NextRead(s.media, s.flags, s.now));
    var s2 := s.(media := NextRead(s1.media, s.flags, s.now));
    var s3 := s.(media := NextRead(s2.media, s.flags, s.now));
    var s4 := s.(media := NextRead(s3.media, s.flags, s.now));
    ReadLeads(s);
    ReadLeads(s1);
    ReadLeads(s2);
    ReadLeads(s3);
    MediaRunStep(s, 4);
    MediaRunStep(s1, 3);
    MediaRunStep(s2, 2);
    MediaRunStep(s3, 1);
    NoMoreSteps(s4);
  }
}

/**
 When the fallback answers.  The deadline is counted from `joined`, not from the moment the leg
 became answerable, as the documentation of the timeout has it; and runs that show what the gate does
 when the server is taken out of its table in the middle of an event.
 */
module AnswerTiming {
  import opened Bytes
  import opened AnswerGate

  // ---------------------------------------------------------------- the window

  /** The media thread releases the answer no earlier than the timeout after `joined`. */
  lemma ReleaseAfterWindow(states: seq<System>, steps: seq<Step>, k: nat)
    requires IsRun(states, steps) && k < |steps|
    requires steps[k] == MediaStep && states[k].media == SawNotDone && states[k + 1].media == AtTimeoutLock
    ensures states[k].log.joinedAt + states[k].log.window <= states[k].now
  {
    RunKeepsInv(states, steps, k);
  }

  /** Before the deadline frames change nothing but the place of the media thread. */
  lemma {:induction false} FramesBefore(s: System, n: nat)
    requires s.now < s.flags.deadline && EarlyPlace(s.media)
    ensures var s' := MediaRun(s, n); s' == s.(media := s'.media) && EarlyPlace(s'.media)
    decreases n
  {
    if n > 0 {
      assert DoMedia(s) == s.(media := DoMedia(s).media) && EarlyPlace(DoMedia(s).media);
      FramesBefore(DoMedia(s), n - 1);
    }
  }

  predicate EarlyPlace(pc: Pc) {
    pc.Idle? || pc.SawGate? || pc.SawRequested? || pc.SawNotDone?
  }

  /** A frame at this time answers the leg. */
  ghost predicate AnswersAfter(s: System, d: nat) {
    MediaRun(s.(now := s.now + d), 8).answers > s.answers
  }

  lemma AnswersIffPassed(s: System, d: nat)
    requires Inv(s) && s.flags.requested && !s.flags.done && Found(s) && s.media == Idle
    ensures AnswersAfter(s, d) <==> s.flags.deadline <= s.now + d
  {
    hide Inv, MediaRun, DoMedia, DoEvent;
    var s' := s.(now := s.now + d);
    if s.flags.deadline <= s.now + d {
      assert Inv(s') by { StepKeepsInv(s, Tick(d)); }
      FrameAnswers(s');
    } else {
      FramesBefore(s', 8);
    }
  }

  /** Of an answer that waits, the fallback can come before the documented time, the timeout counted
      from the request, exactly if the request came after `joined` and that time is not yet past. */
  lemma EarlyAnswerIff(states: seq<System>, steps: seq<Step>, k: nat)
    requires IsRun(states, steps) && k < |states|
    requires states[k].flags.requested && !states[k].flags.done && Found(states[k]) && states[k].media == Idle
    ensures var s := states[k];
            (exists d :: AnswersAfter(s, d) && s.now + d < s.log.requestedAt + s.log.window) <==>
            s.log.joinedAt < s.log.requestedAt && s.now < s.log.requestedAt + s.log.window
  {
    RunKeepsInv(states, steps, k);
    var s := states[k];
    hide AnswersAfter;
    forall d: nat ensures AnswersAfter(s, d) <==> s.flags.deadline <= s.now + d {
      AnswersIffPassed(s, d);
    }
    if s.log.joinedAt < s.log.requestedAt && s.now < s.log.requestedAt + s.log.window {
      var d := if s.now < s.flags.deadline then s.flags.deadline - s.now else 0;
      assert AnswersAfter(s, d);
    }
  }

  // ---------------------------------------------------------------- runs

  lemma Extend(states: seq<System>, steps: seq<Step>, step: Step)
    requires IsRun(states, steps) && Enabled(states[|steps|], step)
    ensures IsRun(states + [Do(states[|steps|], step)], steps + [step])
  {
    hide Do, Enabled, Initial;
    var states', steps' := states + [Do(states[|steps|], step)], steps + [step];
    forall k | 0 <= k < |steps'| ensures Enabled(states'[k], steps'[k]) && states'[k + 1] == Do(states'[k], steps'[k]) {
      if k < |steps| {
        assert states'[k] == states[k] && states'[k + 1] == states[k + 1] && steps'[k] == steps[k];
      }
    }
  }

  /** There is a run to this state. */
  ghost predicate Reachable(s: System) {
    exists states, steps :: IsRun(states, steps) && states[|steps|] == s
  }

  lemma Reach(s: System, step: Step, s': System)
    requires Reachable(s) && Enabled(s, step) && Do(s, step) == s'
    ensures Reachable(s')
  {
    hide Do, Enabled;
    var states, steps :| IsRun(states, steps) && states[|steps|] == s;
    Extend(states, steps, step);
    assert (states + [s'])[|steps + [step]|] == s';
  }

  ghost predicate Goes(s: System, step: Step, s': System) {
    Enabled(s, step) && Do(s, step) == s'
  }

  lemma GoOn(s: System, step: Step, s': System)
    requires Reachable(s) && Goes(s, step, s')
    ensures Reachable(s')
  {
    hide Do, Enabled, Reachable;
    Reach(s, step, s');
  }

  /** A leg on which nothing has happened yet. */
  function Fresh(): (s: System)
  {
    System(NO_FLAGS, 0, true, true, [], Idle, Idle, 0, Log(false, false, false, false, 0, 0, 0, {}))
  }

  /** Our own id in the runs below, and what is known after `joined` with a timeout of 1 ms. */
  function Own(): (id: bytes)
  {
    Normalise(NumberId(7))
  }

  function Gated(known: bool): (f: Flags)
  {
    NO_FLAGS.(gate := true, deadline := 1000, ownId := if known then Some(Own()) else None)
  }

  lemma GateIsArmed()
    ensures Reachable(Fresh().(flags := Gated(false), calls := [SelfId(Own())], log := Fresh().log.(window := 1000, ownIds := {Own()})))
  {
    assert Normalise(NumberId(7)) == Own();
    hide Own, Normalise;
    var s0 := Fresh();
    var join := OwnJoined(true, 1, NumberId(7), []);
    var log := s0.log.(ownIds := {Own()});
    var s1 := s0.(calls := [Joined(true, 1), SelfId(Own())], log := log);
    var s2 := s0.(calls := [SelfId(Own())], event := AtJoinedLock(1), log := log);
    var s3 := s0.(flags := Gated(false), calls := [SelfId(Own())], log := s0.log.(window := 1000, ownIds := {Own()}));
    var none: seq<Step> := [];
    assert IsRun([s0], none) && [s0][|none|] == s0;
    assert Callbacks(join) == [Joined(true, 1), SelfId(Own())];
    assert s1.calls[1..] == [SelfId(Own())];
    Reach(s0, Receive(join), s1);
    Reach(s1, EventStep, s2);
    Reach(s2, EventStep, s3);
  }

  /** The gate is on, our id is known, and 2 ms later, past the deadline, the answer is requested. */
  function LateRequest(): (s: System)
  {
    Fresh().(flags := Gated(true).(requested := true), now := 2000, log := Fresh().log.(window := 1000, requestedAt := 2000, ownIds := {Own()}))
  }

  lemma LateRequestIsReachable()
    ensures Reachable(LateRequest())
  {
    GateIsArmed();
    var s3 := Fresh().(flags := Gated(false), calls := [SelfId(Own())], log := Fresh().log.(window := 1000, ownIds := {Own()}));
    var s5 := s3.(calls := [], flags := Gated(true));
    var s6 := s5.(now := 2000);
    IdIsRecorded(s3);
    AnswerIsRequested(s6);
    hide *;
    GoOn(s3, EventStep, s3.(calls := [], event := AtSelfLock(Own())));
    GoOn(s3.(calls := [], event := AtSelfLock(Own())), EventStep, s5);
    GoOn(s5, Tick(2000), s6);
    GoOn(s6, Receive(SdpAnswer(false)), s6.(calls := [Answered]));
    GoOn(s6.(calls := [Answered]), EventStep, s6.(event := AtAnsweredLock));
    GoOn(s6.(event := AtAnsweredLock), EventStep, LateRequest());
  }

  lemma IdIsRecorded(s: System)
    requires s == Fresh().(flags := Gated(false), calls := [SelfId(Own())], log := Fresh().log.(window := 1000, ownIds := {Own()}))
    ensures var s' := s.(calls := [], flags := Gated(true));
            && Goes(s, EventStep, s.(calls := [], event := AtSelfLock(Own())))
            && Goes(s.(calls := [], event := AtSelfLock(Own())), EventStep, s')
            && Goes(s', Tick(2000), s'.(now := 2000))
  {
    hide Own;
    assert s.calls[1..] == [];
  }

  lemma AnswerIsRequested(s: System)
    requires s == Fresh().(flags := Gated(true), now := 2000, log := Fresh().log.(window := 1000, ownIds := {Own()}))
    ensures Goes(s, Receive(SdpAnswer(false)), s.(calls := [Answered]))
    ensures Goes(s.(calls := [Answered]), EventStep, s.(event := AtAnsweredLock))
    ensures Goes(s.(event := AtAnsweredLock), EventStep, LateRequest())
  {
    hide Own;
    assert [Answered][1..] == [];
  }

  /** The documented window is not kept: requested past the deadline, the leg is answered by the next
      frame, at the very time of the request. */
  lemma AnsweredAtOnce()
    ensures var s := LateRequest();
            && Reachable(s) && s.log.requestedAt == s.now && s.log.window > 0
            && AnswersAfter(s, 0)
  {
    LateRequestIsReachable();
    var s := LateRequest();
    assert Inv(s) by {
      hide Inv;
      var states, steps :| IsRun(states, steps) && states[|steps|] == s;
      RunKeepsInv(states, steps, |steps|);
    }
    AnswersIffPassed(s, 0);
  }

  lemma FiveReads(s: System)
    requires s == LateRequest()
    ensures Goes(s, MediaStep, s.(media := SawGate))
    ensures Goes(s.(media := SawGate), MediaStep, s.(media := SawRequested))
    ensures Goes(s.(media := SawRequested), MediaStep, s.(media := SawNotDone))
    ensures Goes(s.(media := SawNotDone), MediaStep, s.(media := AtTimeoutLock))
    ensures Goes(s.(media := AtTimeoutLock), MediaStep, s.(flags := s.flags.(ready := true), media := CallsAnswered))
  {
    hide Own;
  }

  lemma Miss(s: System)
    requires s.media == CallsAnswered && s.event == Idle && s.calls == [] && s.serverUp
    ensures Goes(s, ServerLost, s.(serverUp := false))
    ensures var s' := s.(serverUp := false, media := Idle, log := s.log.(mediaMissed := true));
            Goes(s.(serverUp := false), MediaStep, s') && Goes(s', ServerBack, s'.(serverUp := true))
  {
  }

  /** The media thread is about to answer when the server is taken out; it comes back, and nobody is
      left to answer although request and release have met. */
  lemma LosingRun() returns (s: System)
    ensures Reachable(s) && Lost(s) && Found(s) && s.media == Idle && !s.log.eventMissed
  {
    LateRequestIsReachable();
    var s0 := LateRequest();
    FiveReads(s0);
    var s5 := s0.(flags := s0.flags.(ready := true), media := CallsAnswered);
    Miss(s5);
    var s7 := s5.(serverUp := false, media := Idle, log := s5.log.(mediaMissed := true));
    s := s7.(serverUp := true);
    assert Lost(s) && Found(s) && !s.log.eventMissed;
    hide *;
    GoOn(s0, MediaStep, s0.(media := SawGate));
    GoOn(s0.(media := SawGate), MediaStep, s0.(media := SawRequested));
    GoOn(s0.(media := SawRequested), MediaStep, s0.(media := SawNotDone));
    GoOn(s0.(media := SawNotDone), MediaStep, s0.(media := AtTimeoutLock));
    GoOn(s0.(media := AtTimeoutLock), MediaStep, s5);
    GoOn(s5, ServerLost, s5.(serverUp := false));
    GoOn(s5.(serverUp := false), MediaStep, s7);
    GoOn(s7, ServerBack, s);
  }

  /** The report of our own id finds no server, and later our own entry in a list of participants
      opens the gate. */
  lemma ReleasedByOurselves() returns (s: System)
    ensures Reachable(s) && s.event == AtParticipantLock(Own(), true) && s.log.selfMissed
    ensures Opens(s)
  {
    GateIsArmed();
    var s3 := Fresh().(flags := Gated(false), calls := [SelfId(Own())], log := Fresh().log.(window := 1000, ownIds := {Own()}));
    var s6 := s3.(calls := [], log := s3.log.(selfMissed := true));
    SelfMiss(s3);
    ListedOurselves(s6);
    var list := Participants([Listed(Some(NumberId(7)), true)]);
    s := s6.(event := AtParticipantLock(Own(), true));
    assert Opens(s) by { hide Own; }
    assert s6.serverUp && s.log.selfMissed;
    hide *;
    GoOn(s3, ServerLost, s3.(serverUp := false));
    GoOn(s3.(serverUp := false), EventStep, s6.(serverUp := false));
    GoOn(s6.(serverUp := false), ServerBack, s6.(serverUp := true));
    GoOn(s6, Receive(list), s6.(calls := [Participant(Own(), true)]));
    GoOn(s6.(calls := [Participant(Own(), true)]), EventStep, s);
  }

  lemma SelfMiss(s: System)
    requires s.event == Idle && |s.calls| == 1 && s.calls[0].SelfId?
    ensures var s' := s.(calls := [], serverUp := false, log := s.log.(selfMissed := true));
            && Goes(s, ServerLost, s.(serverUp := false)) && Goes(s.(serverUp := false), EventStep, s')
            && Goes(s', ServerBack, s'.(serverUp := true))
  {
    assert s.calls[1..] == [];
  }

  lemma ListedOurselves(s: System)
    requires s.event == Idle && s.calls == [] && Found(s)
    ensures var list := Participants([Listed(Some(NumberId(7)), true)]);
            && Goes(s, Receive(list), s.(calls := [Participant(Own(), true)]))
            && Goes(s.(calls := [Participant(Own(), true)]), EventStep, s.(event := AtParticipantLock(Own(), true)))
  {
    OneParticipant();
    hide Own;
    assert [Participant(Own(), true)][1..] == [];
  }

  /** Our own id in a second join. */
  function Other(): (id: bytes)
  {
    Normalise(NumberId(8))
  }

  /** The gate is on, and our first id is recorded. */
  function Recorded(): (s: System)
  {
    Fresh().(flags := Gated(true), log := Fresh().log.(window := 1000, ownIds := {Own()}))
  }

  lemma RecordedIsReachable()
    ensures Reachable(Recorded())
  {
    GateIsArmed();
    var s3 := Fresh().(flags := Gated(false), calls := [SelfId(Own())], log := Fresh().log.(window := 1000, ownIds := {Own()}));
    IdIsRecorded(s3);
    assert s3.(calls := [], flags := Gated(true)) == Recorded();
    hide *;
    GoOn(s3, EventStep, s3.(calls := [], event := AtSelfLock(Own())));
    GoOn(s3.(calls := [], event := AtSelfLock(Own())), EventStep, Recorded());
  }

  lemma SecondJoin(s: System)
    requires s == Recorded()
    ensures var s' := s.(log := s.log.(ownIds := {Own(), Other()}));
            && Goes(s, Receive(OwnJoined(false, 1, NumberId(8), [])), s'.(calls := [Joined(false, 1), SelfId(Other())]))
            && Goes(s'.(calls := [Joined(false, 1), SelfId(Other())]), EventStep, s'.(calls := [SelfId(Other())]))
            && Goes(s'.(calls := [SelfId(Other())]), EventStep, s'.(event := AtSelfLock(Other())))
            && Goes(s'.(event := AtSelfLock(Other())), EventStep, s')
  {
    hide Own, Normalise;
    assert Other() == Normalise(NumberId(8));
    hide Other;
    assert [Joined(false, 1), SelfId(Other())][1..] == [SelfId(Other())] && [SelfId(Other())][1..] == [];
    assert {Own()} + {Other()} == {Own(), Other()};
  }

  lemma OtherIsListed(s: System)
    requires s.event == Idle && s.calls == [] && Found(s)
    ensures var list := Participants([Listed(Some(NumberId(8)), true)]);
            && Goes(s, Receive(list), s.(calls := [Participant(Other(), true)]))
            && Goes(s.(calls := [Participant(Other(), true)]), EventStep, s.(event := AtParticipantLock(Other(), true)))
  {
    var ps := [Listed(Some(NumberId(8)), true)];
    assert ps[1..] == [] && ParticipantCalls(ps) == [Participant(Other(), true)];
    assert [Participant(Other(), true)][1..] == [];
    assert s.log.(ownIds := s.log.ownIds + {}) == s.log;
  }

  /** Every report of our id arrives, but a second join brings a second id: the first stays recorded,
      and the entry under the second opens the gate. */
  lemma OpenedBySecondId() returns (s: System)
    ensures Reachable(s) && !s.log.selfMissed && s.log.ownIds == {Own(), Other()}
    ensures s.event == AtParticipantLock(Other(), true) && Opens(s)
  {
    RecordedIsReachable();
    var s0 := Recorded();
    var s1 := s0.(log := s0.log.(ownIds := {Own(), Other()}));
    SecondJoin(s0);
    OtherIsListed(s1);
    NormaliseNumbers(7, 8);
    s := s1.(event := AtParticipantLock(Other(), true));
    assert Own() != Other() && !s.log.selfMissed;
    assert Opens(s) by { hide Own, Other; }
    hide *;
    GoOn(s0, Receive(OwnJoined(false, 1, NumberId(8), [])), s1.(calls := [Joined(false, 1), SelfId(Other())]));
    GoOn(s1.(calls := [Joined(false, 1), SelfId(Other())]), EventStep, s1.(calls := [SelfId(Other())]));
    GoOn(s1.(calls := [SelfId(Other())]), EventStep, s1.(event := AtSelfLock(Other())));
    GoOn(s1.(event := AtSelfLock(Other())), EventStep, s1);
    GoOn(s1, Receive(Participants([Listed(Some(NumberId(8)), true)])), s1.(calls := [Participant(Other(), true)]));
    GoOn(s1.(calls := [Participant(Other(), true)]), EventStep, s);
  }

  lemma OneParticipant()
    ensures ParticipantCalls([Listed(Some(NumberId(7)), true)]) == [Participant(Own(), true)]
  {
    var ps := [Listed(Some(NumberId(7)), true)];
    assert ps[1..] == [] && ParticipantCalls([]) == [];
  }
}

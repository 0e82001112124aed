/**
 Answer gating: the SIP answer of a leg is held back until a remote participant is ready or a
 deadline passes.  Two threads share the flags of `private_object`: the event thread, which runs
 the callbacks of one Janus event after the other, and the media thread, which polls a deadline
 on every frame.  Every section under `flag_mutex` is one atomic step; the lookups in front of it,
 the unlocked reads of the media thread and the answer itself are steps of their own.  The server may
 leave its lookup table at any time.
 */
module AnswerGate {
  import opened Bytes
  import opened Numbers

  // ---------------------------------------------------------------- the guarded fields

  /** The gating fields of `private_object`; deadline 0 means none is set. */
  datatype Flags = Flags(
    gate: bool, ready: bool, requested: bool, done: bool, deadline: nat, ownId: Option<bytes>)

  const NO_FLAGS := Flags(false, false, false, false, 0, None)

  const DEFAULT_TIMEOUT_MS: nat := 10000

  /** The channel variable read by `atoi`, with the default for anything not positive. */
  function TimeoutMs(variable: int): (ms: nat)
    ensures ms > 0
  {
    if variable <= 0 then DEFAULT_TIMEOUT_MS else variable
  }

  function JoinedSection(f: Flags, now: nat, timeout: int): (f': Flags)
  {
    f.(gate := true, deadline := now + TimeoutMs(timeout) * 1000)
  }

  /** The new flags, and whether this caller is the one to answer the channel. */
  function AnsweredSection(f: Flags): (r: (Flags, bool))
  {
    if f.done then (f, false)
    else if f.gate && !f.ready then (f.(requested := true), false)
    else (f.(done := true), true)
  }

  function SelfSection(f: Flags, id: bytes): (f': Flags)
  {
    if f.ownId.None? then f.(ownId := Some(id)) else f
  }

  /** The new flags, and whether `answered` is to be called. */
  function ParticipantSection(f: Flags, id: bytes, setup: bool): (r: (Flags, bool))
  {
    if !f.gate || f.done || f.ownId == Some(id) || !setup then (f, false)
    else (f.(ready := true), f.requested)
  }

  /** The fields and the critical sections as the callbacks run them. */
  class PrivateObject {
    var answerGate: bool
    var remoteReady: bool
    var answerRequested: bool
    var answerDone: bool
    var answerDeadline: nat
    var participantId: Option<bytes>

    ghost function Model(): (f: Flags)
      reads this
    {
      Flags(answerGate, remoteReady, answerRequested, answerDone, answerDeadline, participantId)
    }

    constructor ()
      ensures Model() == NO_FLAGS
    {
      answerGate, remoteReady, answerRequested, answerDone := false, false, false, false;
      answerDeadline, participantId := 0, None;
    }

    /** `joined`, when the channel asks for gating. */
    method EnableGate(now: nat, timeout: int)
      modifies this
      ensures Model() == JoinedSection(old(Model()), now, timeout)
      ensures answerGate && answerDeadline == now + (if timeout <= 0 then 10_000 else timeout) * 1000
    {
      var timeoutMs := timeout;
      if timeoutMs <= 0 {
        timeoutMs := DEFAULT_TIMEOUT_MS;
      }
      answerGate := true;
      answerDeadline := now + timeoutMs * 1000;
    }

    /** `answered` */
    method ClaimAnswer() returns (doAnswer: bool)
      modifies this
      ensures (Model(), doAnswer) == AnsweredSection(old(Model()))
      ensures doAnswer <==> !old(answerDone) && (!old(answerGate) || old(remoteReady))
      ensures answerDone == (doAnswer || old(answerDone))
      ensures !answerDone ==> answerRequested && answerGate && !remoteReady
    {
      if answerDone {
        return false;
      }
      if answerGate && !remoteReady {
        answerRequested := true;
        return false;
      }
      answerDone := true;
      doAnswer := true;
    }

    /** `participant` for our own id. */
    method RecordSelf(id: bytes)
      modifies this
      ensures Model() == SelfSection(old(Model()), id)
      ensures participantId == if old(participantId).Some? then old(participantId) else Some(id)
    {
      if participantId.None? {
        participantId := Some(id);
      }
    }

    /** `participant` for anyone listed in the room. */
    method NoteParticipant(id: bytes, setup: bool) returns (shouldAnswer: bool)
      modifies this
      ensures (Model(), shouldAnswer) == ParticipantSection(old(Model()), id, setup)
      ensures remoteReady <==> old(remoteReady) || (setup && answerGate && !answerDone && participantId != Some(id))
      ensures shouldAnswer <==> setup && answerGate && !answerDone && participantId != Some(id) && answerRequested
    {
      if !answerGate || answerDone {
        return false;
      }
      if participantId == Some(id) {
        return false;
      }
      if !setup {
        return false;
      }
      remoteReady := true;
      shouldAnswer := answerRequested;
    }
  }

  // ---------------------------------------------------------------- from events to callbacks

  /** A participant id in a Janus event: a number, or a string in rooms with string ids. */
  datatype JanusId = NumberId(n: nat) | StringId(chars: bytes)

  function Normalise(id: JanusId): (s: bytes)
  {
    match id
    case NumberId(n) => Decimal(n)
    case StringId(chars) => chars
  }

  /** Numeric ids are told apart by their normal form. */
  lemma NormaliseNumbers(a: nat, b: nat)
    ensures Normalise(NumberId(a)) == Normalise(NumberId(b)) ==> a == b
  {
    DecimalRoundTrip(a);
    DecimalRoundTrip(b);
  }

  datatype Listed = Listed(id: Option<JanusId>, setup: bool)

  /** The events that reach the gate; `onWebrtcup` is the channel's answer_on_webrtcup. */
  datatype JanusEvent =
    | OwnJoined(gating: bool, timeout: int, id: JanusId, participants: seq<Listed>)
    | Participants(participants: seq<Listed>)
    | SdpAnswer(onWebrtcup: bool)
    | WebrtcUp(onWebrtcup: bool)
    | OtherEvent

  datatype Callback =
    | Joined(gating: bool, timeout: int)
    | SelfId(id: bytes)
    | Participant(id: bytes, setup: bool)
    | Answered

  /** `api_dispatch_participants`: entries without a usable id are passed over. */
  function ParticipantCalls(ps: seq<Listed>): (cs: seq<Callback>)
    ensures forall i :: 0 <= i < |cs| ==> cs[i].Participant?
  {
    if ps == [] then []
    else
      (if ps[0].id.Some? then [Participant(Normalise(ps[0].id.value), ps[0].setup)] else [])
      + ParticipantCalls(ps[1..])
  }

  /** `api_dispatch_poll_event`: the callbacks of an event in the order they are made. */
  function Callbacks(ev: JanusEvent): (cs: seq<Callback>)
  {
    match ev
    case OwnJoined(gating, timeout, id, ps) => [Joined(gating, timeout), SelfId(Normalise(id))] + ParticipantCalls(ps)
    case Participants(ps) => ParticipantCalls(ps)
    case SdpAnswer(onWebrtcup) => if onWebrtcup then [] else [Answered]
    case WebrtcUp(onWebrtcup) => if onWebrtcup then [Answered] else []
    case OtherEvent => []
  }

  // ---------------------------------------------------------------- the system

  /** Where a thread stands between two atomic steps. */
  datatype Pc =
    | Idle
    | AtJoinedLock(timeout: int)
    | AtSelfLock(id: bytes)
    | AtParticipantLock(id: bytes, setup: bool)
    | SawGate
    | SawRequested
    | SawNotDone
    | AtTimeoutLock
    | CallsAnswered
    | AtAnsweredLock
    | Answering

  /** What the proofs keep track of: calls of `answered` that found no server or session, from
      either thread; a report of our own id that found none; whether `joined` armed the gate again;
      when it armed it last, for how long, and when the answer was first requested; and the ids of
      our own joins. */
  datatype Log = Log(
    eventMissed: bool, mediaMissed: bool, selfMissed: bool, rejoined: bool,
    joinedAt: nat, window: nat, requestedAt: nat, ownIds: set<bytes>)

  /** `serverUp`: the server is in its lookup table; it may be taken out at any time, and only its
      own thread puts it back, between events.  `sessionUp`: the session has not been hung up. */
  datatype System = System(
    flags: Flags, now: nat, serverUp: bool, sessionUp: bool,
    calls: seq<Callback>, event: Pc, media: Pc, answers: nat, log: Log)

  predicate Initial(s: System) {
    && s.flags == NO_FLAGS && s.calls == [] && s.event == Idle && s.media == Idle
    && s.answers == 0 && s.log == Log(false, false, false, false, 0, 0, 0, {})
  }

  datatype Step =
    | Tick(d: nat)
    | Receive(ev: JanusEvent)
    | EventStep
    | MediaStep
    | SessionGone
    | ServerLost
    | ServerBack

  predicate Enabled(s: System, step: Step) {
    match step
    case Receive(ev) => s.event == Idle && s.calls == []
    case EventStep => s.event != Idle || s.calls != []
    case ServerBack => s.event == Idle && s.calls == []
    case _ => true
  }

  /** The lookups at the head of every callback. */
  predicate Found(s: System) {
    s.serverUp && s.sessionUp
  }

  function Do(s: System, step: Step): (s': System)
    requires Enabled(s, step)
  {
    match step
    case Tick(d) => s.(now := s.now + d)
    case Receive(ev) =>
      s.(calls := Callbacks(ev),
         log := s.log.(ownIds := s.log.ownIds + if ev.OwnJoined? then {Normalise(ev.id)} else {}))
    case EventStep => DoEvent(s)
    case MediaStep => DoMedia(s)
    case SessionGone => s.(sessionUp := false)
    case ServerLost => s.(serverUp := false)
    case ServerBack => s.(serverUp := true)
  }

  /** Notes the time of the first request. */
  function Requesting(s: System, f: Flags): (log: Log)
  {
    if f.requested && !s.flags.requested then s.log.(requestedAt := s.now) else s.log
  }

  /** The event thread: enter the next callback, or move on inside the current one. */
  function DoEvent(s: System): (s': System)
    requires s.event != Idle || s.calls != []
  {
    match s.event
    case Idle =>
      var call, rest := s.calls[0], s.calls[1..];
      if !Found(s) then s.(calls := rest, log := s.log.(selfMissed := s.log.selfMissed || call.SelfId?))
      else
        (match call
         case Joined(gating, timeout) => s.(calls := rest, event := if gating then AtJoinedLock(timeout) else Idle)
         case SelfId(id) => s.(calls := rest, event := AtSelfLock(id))
         case Participant(id, setup) => s.(calls := rest, event := AtParticipantLock(id, setup))
         case Answered => s.(calls := rest, event := AtAnsweredLock))
    case AtJoinedLock(timeout) =>
      s.(flags := JoinedSection(s.flags, s.now, timeout), event := Idle,
         log := s.log.(rejoined := s.log.rejoined || s.flags.gate, joinedAt := s.now, window := TimeoutMs(timeout) * 1000))
    case AtSelfLock(id) => s.(flags := SelfSection(s.flags, id), event := Idle)
    case AtParticipantLock(id, setup) =>
      var (f, callsAnswered) := ParticipantSection(s.flags, id, setup);
      s.(flags := f, event := if callsAnswered then CallsAnswered else Idle)
    case CallsAnswered =>
      if Found(s) then s.(event := AtAnsweredLock) else s.(event := Idle, log := s.log.(eventMissed := true))
    case AtAnsweredLock =>
      var (f, doAnswer) := AnsweredSection(s.flags);
      s.(flags := f, event := if doAnswer then Answering else Idle, log := Requesting(s, f))
    case Answering => s.(answers := s.answers + 1, event := Idle)
    case _ => s
  }

  /** The media thread in `channel_read_frame`: one unlocked read after the other. */
  function DoMedia(s: System): (s': System)
  {
    match s.media
    case Idle => s.(media := if s.flags.gate then SawGate else Idle)
    case SawGate => s.(media := if s.flags.requested then SawRequested else Idle)
    case SawRequested => s.(media := if !s.flags.done then SawNotDone else Idle)
    case SawNotDone => s.(media := if s.flags.deadline != 0 && s.now >= s.flags.deadline then AtTimeoutLock else Idle)
    case AtTimeoutLock => s.(flags := s.flags.(ready := true), media := CallsAnswered)
    case CallsAnswered =>
      if Found(s) then s.(media := AtAnsweredLock) else s.(media := Idle, log := s.log.(mediaMissed := true))
    case AtAnsweredLock =>
      var (f, doAnswer) := AnsweredSection(s.flags);
      s.(flags := f, media := if doAnswer then Answering else Idle, log := Requesting(s, f))
    case Answering => s.(answers := s.answers + 1, media := Idle)
    case _ => s
  }

  /** A run: the states passed through and the steps between them. */
  ghost predicate IsRun(states: seq<System>, steps: seq<Step>) {
    && |states| == |steps| + 1
    && Initial(states[0])
    && forall k :: 0 <= k < |steps| ==> Enabled(states[k], steps[k]) && states[k + 1] == Do(states[k], steps[k])
  }

  // ---------------------------------------------------------------- invariants

  predicate Pending(pc: Pc) {
    pc.CallsAnswered? || pc.AtAnsweredLock?
  }

  /** Exactly one thread sets `answerDone`, and that thread answers once. */
  predicate OneAnswer(s: System) {
    var claims := (if s.event.Answering? then 1 else 0) + (if s.media.Answering? then 1 else 0);
    s.answers + claims == if s.flags.done then 1 else 0
  }

  /** Requested and released, the session there to be found, and nobody about to act on it. */
  predicate Lost(s: System) {
    s.flags.requested && s.flags.ready && !s.flags.done && s.sessionUp && !Pending(s.event) && !Pending(s.media)
  }

  /** An answer is lost only after a call that found no server. */
  predicate NoLostWakeup(s: System) {
    Lost(s) ==> s.log.eventMissed || s.log.mediaMissed
  }

  /** Gating always comes with a deadline, and only a gated answer is ever requested. */
  predicate Armed(s: System) {
    && (s.flags.gate ==> s.flags.deadline == s.log.joinedAt + s.log.window && s.log.window > 0)
    && s.log.joinedAt <= s.now
    && (s.flags.requested ==> s.flags.gate && s.log.requestedAt <= s.now)
    && (s.media != Idle ==> s.flags.gate)
    && (s.media.SawRequested? || s.media.SawNotDone? || s.media.AtTimeoutLock? ==> s.flags.requested)
  }

  /** The media thread acts, and misses, only past a deadline. */
  predicate PastDeadline(s: System) {
    && (TimedOut(s.media) ==> s.flags.gate)
    && (s.log.mediaMissed ==> s.flags.gate)
    && ((TimedOut(s.media) || s.log.mediaMissed) && !s.log.rejoined ==> s.flags.deadline <= s.now)
  }

  predicate TimedOut(pc: Pc) {
    pc.AtTimeoutLock? || pc.CallsAnswered? || pc.AtAnsweredLock? || pc.Answering?
  }

  /** In the calls still to be made our own id directly follows our own join. */
  predicate SelfFollowsJoin(calls: seq<Callback>) {
    forall i :: 0 <= i < |calls| && calls[i].Joined? ==> i + 1 < |calls| && calls[i + 1].SelfId?
  }

  /** With the gate on our own id is known, except to the event thread right after `joined`, or if
      the report of it found no server. */
  predicate OwnIdKnown(s: System) {
    && SelfFollowsJoin(s.calls)
    && (s.event.AtJoinedLock? ==> s.calls != [] && s.calls[0].SelfId?)
    && (s.event.AtParticipantLock? && s.flags.gate && s.flags.ownId.None? ==> s.log.selfMissed)
    && (s.flags.gate && s.flags.ownId.None? && !s.log.selfMissed ==>
          s.event.AtSelfLock? || (s.event == Idle && s.calls != [] && s.calls[0].SelfId?))
  }

  /** What is recorded, or about to be, as our own id is the id of a join of ours. */
  predicate OwnIdsLogged(s: System) {
    && (s.flags.ownId.Some? ==> s.flags.ownId.value in s.log.ownIds)
    && (s.event.AtSelfLock? ==> s.event.id in s.log.ownIds)
    && (forall i :: 0 <= i < |s.calls| && s.calls[i].SelfId? ==> s.calls[i].id in s.log.ownIds)
  }

  /** Each thread stays within its own program. */
  predicate InProgram(s: System) {
    && !s.event.SawGate? && !s.event.SawRequested? && !s.event.SawNotDone? && !s.event.AtTimeoutLock?
    && !s.media.AtJoinedLock? && !s.media.AtSelfLock? && !s.media.AtParticipantLock?
  }

  predicate Inv(s: System) {
    InProgram(s) && OneAnswer(s) && NoLostWakeup(s) && Armed(s) && PastDeadline(s) && OwnIdKnown(s) && OwnIdsLogged(s)
  }

  lemma EventKeepsProgram(s: System)
    requires InProgram(s) && Enabled(s, EventStep)
    ensures InProgram(DoEvent(s))
  {
    hide JoinedSection, SelfSection, ParticipantSection, AnsweredSection;
  }

  lemma EventKeepsOneAnswer(s: System)
    requires InProgram(s) && OneAnswer(s) && Enabled(s, EventStep)
    ensures OneAnswer(DoEvent(s))
  {
    hide InProgram;
    if !s.event.AtAnsweredLock? && !s.event.Answering? {
      EventNotAnswering(s);
    }
  }

  lemma EventNotAnswering(s: System)
    requires Enabled(s, EventStep) && !s.event.AtAnsweredLock? && !s.event.Answering?
    ensures var s' := DoEvent(s);
            !s'.event.Answering? && s'.media == s.media && s'.answers == s.answers && s'.flags.done == s.flags.done
  {
    hide AnsweredSection;
  }

  lemma EventKeepsWakeup(s: System)
    requires InProgram(s) && NoLostWakeup(s) && Enabled(s, EventStep)
    ensures NoLostWakeup(DoEvent(s))
  {
    hide InProgram;
  }

  lemma EventKeepsTimes(s: System)
    requires Armed(s) && PastDeadline(s) && Enabled(s, EventStep)
    ensures Armed(DoEvent(s)) && PastDeadline(DoEvent(s))
  {
    hide DoEvent;
    if s.event.AtJoinedLock? {
      JoinTimes(s);
    } else if s.event.AtAnsweredLock? {
      RequestTimes(s);
    } else {
      EventLeavesTimes(s);
    }
  }

  lemma JoinTimes(s: System)
    requires s.event.AtJoinedLock?
    ensures var s', window := DoEvent(s), TimeoutMs(s.event.timeout) * 1000;
            && window > 0 && s'.now == s.now && s'.media == s.media
            && s'.flags == s.flags.(gate := true, deadline := s.now + window)
            && s'.log == s.log.(rejoined := s.log.rejoined || s.flags.gate, joinedAt := s.now, window := window)
  {
  }

  lemma RequestTimes(s: System)
    requires s.event.AtAnsweredLock?
    ensures var s' := DoEvent(s);
            && s'.now == s.now && s'.media == s.media
            && s'.flags == s.flags.(requested := s'.flags.requested, done := s'.flags.done)
            && (s'.flags.requested && !s.flags.requested ==> s.flags.gate)
            && s'.log == s.log.(requestedAt := s'.log.requestedAt) && (s'.log.requestedAt == s.log.requestedAt || s'.log.requestedAt == s.now)
            && (s'.flags.requested && !s.flags.requested ==> s'.log.requestedAt == s.now) && (s.flags.requested ==> s'.flags.requested)
  {
  }

  /** No other step of the event thread touches what the deadline depends on. */
  lemma EventLeavesTimes(s: System)
    requires Enabled(s, EventStep) && !s.event.AtJoinedLock? && !s.event.AtAnsweredLock?
    ensures var s' := DoEvent(s);
            && s'.now == s.now && s'.media == s.media
            && s'.flags == s.flags.(ready := s'.flags.ready, ownId := s'.flags.ownId)
            && s'.log == s.log.(eventMissed := s'.log.eventMissed, selfMissed := s'.log.selfMissed)
  {
    hide TimeoutMs, AnsweredSection;
  }

  lemma EventKeepsOwnId(s: System)
    requires OwnIdKnown(s) && InProgram(s) && Enabled(s, EventStep)
    ensures OwnIdKnown(DoEvent(s))
  {
    var s' := DoEvent(s);
    if s.event == Idle {
      assert forall i :: 0 <= i < |s'.calls| ==> s'.calls[i] == s.calls[i + 1];
      assert s.calls[0].Joined? ==> s.calls[1].SelfId?;
    }
  }

  lemma EventKeepsOwnIds(s: System)
    requires OwnIdsLogged(s) && Enabled(s, EventStep)
    ensures OwnIdsLogged(DoEvent(s))
  {
    var s' := DoEvent(s);
    if s.event == Idle {
      assert forall i :: 0 <= i < |s'.calls| ==> s'.calls[i] == s.calls[i + 1];
    }
  }

  lemma MediaKeepsOwnIds(s: System)
    requires OwnIdsLogged(s)
    ensures OwnIdsLogged(DoMedia(s))
  {
  }

  lemma OwnIdOfEvent(ev: JanusEvent)
    ensures forall i :: 0 <= i < |Callbacks(ev)| && Callbacks(ev)[i].SelfId? ==>
              ev.OwnJoined? && Callbacks(ev)[i].id == Normalise(ev.id)
  {
  }

  lemma MediaKeepsOneAnswer(s: System)
    requires InProgram(s) && OneAnswer(s)
    ensures InProgram(DoMedia(s)) && OneAnswer(DoMedia(s))
  {
  }

  lemma MediaKeepsTimes(s: System)
    requires InProgram(s) && Armed(s)
    ensures Armed(DoMedia(s))
  {
  }

  lemma MediaKeepsPast(s: System)
    requires InProgram(s) && Armed(s) && PastDeadline(s)
    ensures PastDeadline(DoMedia(s))
  {
  }

  lemma MediaKeepsWakeup(s: System)
    requires InProgram(s) && NoLostWakeup(s)
    ensures NoLostWakeup(DoMedia(s))
  {
    hide InProgram;
    if !Lost(s) {
      MediaLosesIff(s);
    }
  }

  lemma MediaKeepsOwnId(s: System)
    requires OwnIdKnown(s)
    ensures OwnIdKnown(DoMedia(s))
  {
    hide SelfFollowsJoin;
  }

  lemma MediaKeepsInv(s: System)
    requires Inv(s)
    ensures Inv(DoMedia(s))
  {
    hide OwnIdKnown, OwnIdsLogged, OneAnswer, NoLostWakeup, Armed, PastDeadline, InProgram, DoMedia;
    MediaKeepsOwnIds(s);
    MediaKeepsOneAnswer(s);
    MediaKeepsTimes(s);
    MediaKeepsPast(s);
    MediaKeepsWakeup(s);
    MediaKeepsOwnId(s);
  }

  /** The callbacks of an event: our own join comes first and only there, our own id right behind
      it, and every participant after both. */
  lemma CallbacksInOrder(ev: JanusEvent)
    ensures var cs := Callbacks(ev);
            && SelfFollowsJoin(cs)
            && (forall i :: 0 <= i < |cs| ==> (cs[i].Joined? <==> ev.OwnJoined? && i == 0) && (cs[i].SelfId? <==> ev.OwnJoined? && i == 1))
            && (ev.OwnJoined? ==> |cs| >= 2 && forall i :: 2 <= i < |cs| ==> cs[i].Participant?)
  {
  }

  lemma StepKeepsInv(s: System, step: Step)
    requires Inv(s) && Enabled(s, step)
    ensures Inv(Do(s, step))
  {
    match step
    case EventStep =>
      EventKeepsProgram(s);
      EventKeepsOneAnswer(s);
      EventKeepsWakeup(s);
      EventKeepsTimes(s);
      EventKeepsOwnId(s);
      EventKeepsOwnIds(s);
    case MediaStep => MediaKeepsInv(s);
    case Receive(ev) =>
      CallbacksInOrder(ev);
      OwnIdOfEvent(ev);
    case _ =>
  }

  lemma {:induction false} RunKeepsInv(states: seq<System>, steps: seq<Step>, k: nat)
    requires IsRun(states, steps) && k < |states|
    ensures Inv(states[k])
  {
    if k > 0 {
      RunKeepsInv(states, steps, k - 1);
      StepKeepsInv(states[k - 1], steps[k - 1]);
    }
  }

  // ---------------------------------------------------------------- main results

  /** Over every interleaving the channel is answered at most once. */
  lemma AnsweredAtMostOnce(states: seq<System>, steps: seq<Step>, k: nat)
    requires IsRun(states, steps) && k < |states|
    ensures states[k].answers <= 1
    ensures states[k].answers == 1 ==> states[k].flags.done
  {
    RunKeepsInv(states, steps, k);
  }

  /** A request and a release never meet without a thread about to act on both, unless a call of
      `answered` found no server.  After such a call of the media thread the deadline has passed, if
      `joined` did not run again, so that the next frame repeats it. */
  lemma LostOnlyAfterMiss(states: seq<System>, steps: seq<Step>, k: nat)
    requires IsRun(states, steps) && k < |states| && Lost(states[k])
    ensures states[k].log.eventMissed || states[k].log.mediaMissed
    ensures states[k].flags.deadline > 0
    ensures states[k].log.mediaMissed && !states[k].log.rejoined ==> states[k].flags.deadline <= states[k].now
  {
    RunKeepsInv(states, steps, k);
  }

  /** A step loses the answer exactly if it is the call of `answered` by the only thread that was
      about to act, and the server is not in its table. */
  lemma LosesIff(s: System, step: Step)
    requires Inv(s) && Enabled(s, step) && !Lost(s)
    ensures Lost(Do(s, step)) <==>
              && s.flags.requested && s.flags.ready && !s.flags.done && s.sessionUp && !s.serverUp
              && ( || (step == EventStep && s.event == CallsAnswered && !Pending(s.media))
                   || (step == MediaStep && s.media == CallsAnswered && !Pending(s.event)))
  {
    hide OneAnswer, NoLostWakeup, PastDeadline, OwnIdKnown;
    if step == EventStep {
      EventLosesIff(s);
    } else if step == MediaStep {
      MediaLosesIff(s);
    }
  }

  lemma EventLosesIff(s: System)
    requires InProgram(s) && Enabled(s, EventStep) && !Lost(s)
    ensures Lost(DoEvent(s)) <==>
              && s.flags.requested && s.flags.ready && !s.flags.done && s.sessionUp && !s.serverUp
              && s.event == CallsAnswered && !Pending(s.media)
  {
    hide InProgram;
  }

  lemma MediaLosesIff(s: System)
    requires InProgram(s) && !Lost(s)
    ensures Lost(DoMedia(s)) <==>
              && s.flags.requested && s.flags.ready && !s.flags.done && s.sessionUp && !s.serverUp
              && s.media == CallsAnswered && !Pending(s.event)
  {
  }

  /** What may open the gate at step `j`: a participant that is set up and is not known to be
      ourselves, when our own id is known or the report of it found no server; or a deadline that
      has passed. */
  ghost predicate Releases(states: seq<System>, steps: seq<Step>, j: nat)
    requires IsRun(states, steps) && j < |steps|
  {
    ReleasesAt(states[j], steps[j])
  }

  predicate ReleasesAt(s: System, step: Step) {
    || (step == EventStep && s.event.AtParticipantLock? && s.event.setup && s.flags.gate
        && s.flags.ownId != Some(s.event.id) && (s.flags.ownId.Some? || s.log.selfMissed))
    || (step == MediaStep && s.media == SawNotDone && s.flags.requested && 0 < s.flags.deadline <= s.now)
  }

  ghost predicate ReleasedBefore(states: seq<System>, steps: seq<Step>, k: nat)
    requires IsRun(states, steps) && k <= |steps|
  {
    exists j :: 0 <= j < k && Releases(states, steps, j)
  }

  lemma {:induction false} ReadyHasCause(states: seq<System>, steps: seq<Step>, k: nat)
    requires IsRun(states, steps) && k < |states|
    ensures states[k].flags.ready || states[k].media == AtTimeoutLock ==> ReleasedBefore(states, steps, k)
  {
    if k > 0 {
      ReadyHasCause(states, steps, k - 1);
      RunKeepsInv(states, steps, k - 1);
      var s, s' := states[k - 1], states[k];
      if (s'.flags.ready || s'.media == AtTimeoutLock) && !(s.flags.ready || s.media == AtTimeoutLock) {
        ReleaseStep(s, steps[k - 1]);
        assert Releases(states, steps, k - 1);
      }
    }
  }

  lemma ReleaseStep(s: System, step: Step)
    requires Inv(s) && Enabled(s, step) && !s.flags.ready && s.media != AtTimeoutLock
    requires Do(s, step).flags.ready || Do(s, step).media == AtTimeoutLock
    ensures ReleasesAt(s, step)
  {
    hide SelfFollowsJoin, OneAnswer, NoLostWakeup, PastDeadline;
    if step == EventStep {
      EventReleases(s);
    } else if step == MediaStep {
      MediaReleases(s);
    }
  }

  lemma EventReleases(s: System)
    requires OwnIdKnown(s) && Enabled(s, EventStep) && !s.flags.ready && DoEvent(s).flags.ready
    ensures ReleasesAt(s, EventStep)
  {
    hide SelfFollowsJoin;
  }

  lemma MediaReleases(s: System)
    requires Armed(s) && !s.flags.ready && s.media != AtTimeoutLock
    requires DoMedia(s).flags.ready || DoMedia(s).media == AtTimeoutLock
    ensures ReleasesAt(s, MediaStep)
  {
  }

  /** Once the gate is on the answer is claimed only after a remote participant reported that it
      is set up, or after the deadline set by `joined` passed. */
  lemma AnsweredOnlyWhenReleased(states: seq<System>, steps: seq<Step>, k: nat)
    requires IsRun(states, steps) && k < |steps|
    requires states[k].flags.gate && !states[k].flags.done && states[k + 1].flags.done
    ensures ReleasedBefore(states, steps, k)
  {
    assert states[k + 1] == Do(states[k], steps[k]);
    assert states[k].flags.ready by { DoneNeedsReady(states[k], steps[k]); }
    ReadyHasCause(states, steps, k);
  }

  lemma DoneNeedsReady(s: System, step: Step)
    requires Enabled(s, step) && s.flags.gate && !s.flags.done && Do(s, step).flags.done
    ensures s.flags.ready
  {
  }

  /** An entry of the participants list that the event thread is handling opens the gate. */
  predicate Opens(s: System) {
    s.event.AtParticipantLock? && !s.flags.ready && DoEvent(s).flags.ready
  }

  /** An entry under an id of ours opens the gate exactly if the gate is on, the entry is set up, no
      answer has been claimed, and another id of ours, or none, is the recorded one; and with none
      recorded the report of it had found no server. */
  lemma OwnEntryOpensIff(states: seq<System>, steps: seq<Step>, k: nat)
    requires IsRun(states, steps) && k < |states|
    requires states[k].event.AtParticipantLock? && !states[k].flags.ready && states[k].event.id in states[k].log.ownIds
    ensures var s := states[k];
            && (Opens(s) <==>
                  && s.flags.gate && s.event.setup && !s.flags.done
                  && (s.flags.ownId.None? || (s.flags.ownId.value != s.event.id && s.flags.ownId.value in s.log.ownIds)))
            && (Opens(s) && s.flags.ownId.None? ==> s.log.selfMissed)
  {
    RunKeepsInv(states, steps, k);
  }

  /** As long as our own joins carry one id, our own entry opens the gate only after the report of that
      id found no server, and exactly if none is recorded. */
  lemma OneIdOpensOnlyAfterMiss(states: seq<System>, steps: seq<Step>, k: nat)
    requires IsRun(states, steps) && k < |states|
    requires states[k].event.AtParticipantLock? && !states[k].flags.ready && states[k].log.ownIds == {states[k].event.id}
    ensures var s := states[k];
            && (Opens(s) <==> s.flags.gate && s.event.setup && !s.flags.done && s.flags.ownId.None?)
            && (Opens(s) ==> s.log.selfMissed)
  {
    OwnEntryOpensIff(states, steps, k);
    RunKeepsInv(states, steps, k);
  }

  /** The media thread running `n` steps while the rest of the system stands still. */
  function MediaRun(s: System, n: nat): (s': System)
    decreases n
  {
    if n == 0 then s else MediaRun(DoMedia(s), n - 1)
  }

  /** A requested answer cannot be wedged: gating has set a deadline, and once it has passed one
      frame of the media thread answers the leg, if the session can still be found. */
  lemma DeadlineAnswers(states: seq<System>, steps: seq<Step>, k: nat)
    requires IsRun(states, steps) && k < |states|
    requires states[k].flags.requested && !states[k].flags.done
    ensures states[k].flags.deadline > 0
    ensures states[k].now >= states[k].flags.deadline && Found(states[k]) && states[k].media == Idle ==>
              var s' := MediaRun(states[k], 8);
              s'.flags.done && s'.media == Idle && s'.answers == 1
  {
    RunKeepsInv(states, steps, k);
    var s := states[k];
    if s.now >= s.flags.deadline && Found(s) && s.media == Idle {
      FrameAnswers(s);
    }
  }

  lemma FrameAnswers(s: System)
    requires Inv(s) && s.flags.requested && !s.flags.done && s.now >= s.flags.deadline && Found(s) && s.media == Idle
    ensures var s' := MediaRun(s, 8); s'.flags.done && s'.media == Idle && s'.answers == 1 == s.answers + 1
  {
    FourReads(s);
    LockAndAnswer(s.(media := AtTimeoutLock));
  }

  /** The place of the media thread after `n` steps of a frame that times out. */
  predicate FramePlace(pc: Pc, n: nat) {
    match n
    case 0 => pc.Idle?
    case 1 => pc.SawGate?
    case 2 => pc.SawRequested?
    case 3 => pc.SawNotDone?
    case 4 => pc.AtTimeoutLock?
    case 5 => pc.CallsAnswered?
    case 6 => pc.AtAnsweredLock?
    case _ => false
  }

  /** The answer has been claimed, or the frame is on its way to claim it. */
  predicate FrameOnItsWay(s: System, n: nat) {
    s.flags.done ||
    (&& FramePlace(s.media, n) && s.flags.gate && s.flags.requested && 0 < s.flags.deadline <= s.now
     && (n >= 5 ==> s.flags.ready))
  }

  /** `joined` does not arm the gate again in this step. */
  predicate ArmsNothing(s: System, step: Step) {
    step == EventStep ==> !s.event.AtJoinedLock?
  }

  lemma FrameStep(s: System, step: Step, n: nat)
    requires FrameOnItsWay(s, n) && Enabled(s, step) && Found(s) && ArmsNothing(s, step)
    ensures FrameOnItsWay(Do(s, step), if step == MediaStep then n + 1 else n)
  {
    if step == EventStep {
      EventLeavesFrame(s, n);
    } else if step == MediaStep {
      MediaGoesOn(s, n);
    }
  }

  lemma EventLeavesFrame(s: System, n: nat)
    requires FrameOnItsWay(s, n) && Enabled(s, EventStep) && !s.event.AtJoinedLock?
    ensures FrameOnItsWay(DoEvent(s), n)
  {
    hide FramePlace;
  }

  lemma MediaGoesOn(s: System, n: nat)
    requires FrameOnItsWay(s, n) && Found(s)
    ensures FrameOnItsWay(DoMedia(s), n + 1)
  {
  }

  /** Steps of the media thread among the first `m` from the `k`-th on. */
  function MediaSteps(steps: seq<Step>, k: nat, m: nat): (n: nat)
    requires k <= m <= |steps|
    decreases m
  {
    if m == k then 0 else MediaSteps(steps, k, m - 1) + if steps[m - 1] == MediaStep then 1 else 0
  }

  /** Whatever else goes on: if server and session can be found all the time and `joined` does not arm
      the gate again, one frame of the media thread, begun past the deadline, sees a requested answer
      claimed, by itself or by the event thread; and the claim is the one answer given or about to be. */
  lemma {:induction false} FrameAnswersAnyway(states: seq<System>, steps: seq<Step>, k: nat, m: nat)
    requires IsRun(states, steps) && k <= m < |states|
    requires states[k].flags.requested && states[k].flags.deadline <= states[k].now && states[k].media == Idle
    requires forall j :: k <= j < m ==> Found(states[j]) && ArmsNothing(states[j], steps[j])
    ensures FrameOnItsWay(states[m], MediaSteps(steps, k, m))
    ensures MediaSteps(steps, k, m) >= 7 ==>
              var s := states[m];
              s.flags.done && s.answers + (if s.event == Answering then 1 else 0) + (if s.media == Answering then 1 else 0) == 1
    decreases m
  {
    RunKeepsInv(states, steps, m);
    if m > k {
      FrameAnswersAnyway(states, steps, k, m - 1);
      hide Inv, FrameOnItsWay, Do, Enabled;
      FrameStep(states[m - 1], steps[m - 1], MediaSteps(steps, k, m - 1));
    }
  }

  /** From the lock on the media thread answers, unless somebody else has. */
  lemma LockAndAnswer(s: System)
    requires s.media == AtTimeoutLock && Found(s) && !s.flags.done
    ensures var s' := MediaRun(s, 4); s'.flags.done && s'.media == Idle && s'.answers == s.answers + 1
  {
    var s1 := s.(flags := s.flags.(ready := true), media := CallsAnswered);
    var s2 := s1.(media := AtAnsweredLock);
    var s3 := s2.(flags := s2.flags.(done := true), media := Answering);
    var s4 := s3.(answers := s.answers + 1, media := Idle);
    assert DoMedia(s) == s1 && DoMedia(s1) == s2 && DoMedia(s2) == s3 && DoMedia(s3) == s4 == MediaRun(s4, 0);
    hide *;
    MediaRunStep(s, 4);
    MediaRunStep(s1, 3);
    MediaRunStep(s2, 2);
    MediaRunStep(s3, 1);
  }

  /** The four unlocked reads lead to the lock when all of them say so. */
  lemma FourReads(s: System)
    requires s.media == Idle && s.flags.gate && s.flags.requested && !s.flags.done
    requires s.flags.deadline != 0 && s.now >= s.flags.deadline
    ensures MediaRun(s, 8) == MediaRun(s.(media := AtTimeoutLock), 4)
  {
    Read(s);
    Read(s.(media := SawGate));
    Read(s.(media := SawRequested));
    Read(s.(media := SawNotDone));
    hide *;
    MediaRunStep(s, 8);
    MediaRunStep(s.(media := SawGate), 7);
    MediaRunStep(s.(media := SawRequested), 6);
    MediaRunStep(s.(media := SawNotDone), 5);
  }

  lemma Read(s: System)
    requires s.flags.gate && s.flags.requested && !s.flags.done && s.flags.deadline != 0 && s.now >= s.flags.deadline
    ensures s.media.Idle? ==> DoMedia(s) == s.(media := SawGate)
    ensures s.media.SawGate? ==> DoMedia(s) == s.(media := SawRequested)
    ensures s.media.SawRequested? ==> DoMedia(s) == s.(media := SawNotDone)
    ensures s.media.SawNotDone? ==> DoMedia(s) == s.(media := AtTimeoutLock)
  {
    hide AnsweredSection;
  }

  lemma MediaRunStep(s: System, n: nat)
    requires n > 0
    ensures MediaRun(s, n) == MediaRun(DoMedia(s), n - 1)
  {
  }
}

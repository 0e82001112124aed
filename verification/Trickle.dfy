/**
 Trickle ICE: the SDP body and the candidates of a leg arrive in separate events of the Janus
 event thread, in any order; `proceed` is called with the two put together.
 */
module Trickle {
  import opened Bytes

  /** "a=" */
  const LINE_START: bytes := [97, 61]
  /** carriage return, line feed */
  const LINE_END: bytes := [13, 10]
  /** "a=end-of-candidates" with its line end */
  const END_OF_CANDIDATES: bytes :=
    [97, 61, 101, 110, 100, 45, 111, 102, 45, 99, 97, 110, 100, 105, 100, 97, 116, 101, 115, 13, 10]
  /** "a=candidate:" */
  const CANDIDATE_MARK: bytes := [97, 61, 99, 97, 110, 100, 105, 100, 97, 116, 101, 58]

  /** Size of the buffer `proceed` puts the text together in. */
  const SDP_BUFFER: nat := 4096

  /** `strstr` finds the text. */
  predicate Contains(s: bytes, t: bytes) {
    exists i :: 0 <= i <= |s| && At(s, i, t)
  }

  /** The body brings its candidates along. */
  predicate Inline(sdp: bytes) {
    Contains(sdp, CANDIDATE_MARK)
  }

  function TextOf(c: CString): (t: bytes)
  {
    if c.Text? then c.chars else []
  }

  /** What `proceed` makes of body and candidates: it hangs up without a body, negotiates the text
      its buffer holds, or has stored beyond the buffer. */
  datatype Sdp = NoBody | Held(text: bytes) | Overrun

  /** What `strncat` takes of a text: at most 4095 bytes, whatever the buffer holds already. */
  function Cut(t: bytes): (r: bytes)
    ensures |r| == (if |t| < SDP_BUFFER then |t| else SDP_BUFFER - 1) && r <= t
  {
    if |t| < SDP_BUFFER then t else t[..SDP_BUFFER - 1]
  }

  function SdpOf(body: CString, candidates: bytes): (r: Sdp)
  {
    if body.NullPtr? then NoBody
    else if |Cut(body.chars)| + |Cut(candidates)| < SDP_BUFFER then Held(Cut(body.chars) + Cut(candidates))
    else Overrun
  }

  /** The whole text is negotiated exactly if it leaves room for its terminator. */
  lemma WholeTextIff(body: bytes, candidates: bytes)
    ensures SdpOf(Text(body), candidates) == Held(body + candidates) <==> |body| + |candidates| < 4096
  {
    var r := SdpOf(Text(body), candidates);
    if r.Held? {
      assert |r.text| == |Cut(body)| + |Cut(candidates)| && |body + candidates| == |body| + |candidates|;
    }
  }

  /** The buffer is overrun exactly if the two cut texts reach its size: neither text alone does it,
      two that are both there and together are too long do. */
  lemma OverrunIff(body: bytes, candidates: bytes)
    ensures SdpOf(Text(body), candidates).Overrun? <==>
              body != [] && candidates != [] && |body| + |candidates| >= 4096
  {
  }

  /** A single text that is too long is cut to 4095 bytes. */
  lemma TooLongIsCut(t: bytes)
    requires |t| >= 4096
    ensures SdpOf(Text(t), []) == SdpOf(Text([]), t) == Held(t[..4095])
  {
  }

  /** Two texts that each fit, and together do not. */
  lemma OverrunWitness()
    ensures SdpOf(Text(Repeat(97, 3000)), Repeat(97, 2000)).Overrun?
    ensures |Repeat(97, 3000)| < 4096 && |Repeat(97, 2000)| < 4096
  {
    OverrunIff(Repeat(97, 3000), Repeat(97, 2000));
  }

  /** What the callbacks keep in `private_object`, and what each call of `proceed` came to. */
  datatype Leg = Leg(body: CString, candidates: CString, complete: bool, proceeded: seq<Sdp>)

  const NEW_LEG := Leg(NullPtr, NullPtr, false, [])

  datatype Event = Accepted(sdp: bytes) | Candidate(line: bytes) | Completed

  function Proceed(leg: Leg): (leg': Leg)
  {
    leg.(proceeded := leg.proceeded + [SdpOf(leg.body, TextOf(leg.candidates))])
  }

  ghost function Handle(leg: Leg, ev: Event): (leg': Leg)
  {
    match ev
    case Accepted(sdp) =>
      var l := leg.(body := Text(sdp));
      if Inline(sdp) || leg.complete then Proceed(l) else l
    case Candidate(line) =>
      leg.(candidates := Text(TextOf(leg.candidates) + LINE_START + line + LINE_END))
    case Completed =>
      var l := leg.(complete := true, candidates := Text(TextOf(leg.candidates) + END_OF_CANDIDATES));
      if leg.body.Text? then Proceed(l) else l
  }

  ghost function HandleAll(evs: seq<Event>): (leg: Leg)
  {
    if evs == [] then NEW_LEG else Handle(HandleAll(evs[..|evs| - 1]), evs[|evs| - 1])
  }

  // ---------------------------------------------------------------- the callbacks

  class LegObject {
    var pSdpBody: CString
    var pSdpCandidates: CString
    var isTrickleComplete: bool
    ghost var proceeded: seq<Sdp>

    ghost function Model(): (leg: Leg)
      reads this
    {
      Leg(pSdpBody, pSdpCandidates, isTrickleComplete, proceeded)
    }

    constructor ()
      ensures Model() == NEW_LEG
    {
      pSdpBody, pSdpCandidates, isTrickleComplete := NullPtr, NullPtr, false;
      proceeded := [];
    }

    /** `proceed`, up to the negotiation. */
    method ProceedWithSdp() returns (r: Sdp)
      modifies this`proceeded
      ensures r == SdpOf(pSdpBody, TextOf(pSdpCandidates))
      ensures Model() == Proceed(old(Model()))
    {
      if pSdpBody.NullPtr? {
        proceeded := proceeded + [NoBody];
        return NoBody;
      }
      var sdp := new byte[SDP_BUFFER];
      sdp[0] := NUL;
      var ok, end := Strncat(sdp, 0, pSdpBody.chars, SDP_BUFFER - 1);
      if pSdpCandidates.Text? {
        ok, end := Strncat(sdp, end, pSdpCandidates.chars, SDP_BUFFER - 1);
      }
      r := if ok then Held(sdp[..end]) else Overrun;
      proceeded := proceeded + [r];
    }

    /** `accepted` */
    method OnAccepted(sdp: bytes)
      modifies this
      ensures Model() == Handle(old(Model()), Accepted(sdp))
    {
      pSdpBody := Text(sdp);
      var found := FindText(sdp, CANDIDATE_MARK);
      if found || isTrickleComplete {
        var r := ProceedWithSdp();
      }
    }

    /** `trickle`: an empty candidate says that there are no more. */
    method OnTrickle(candidate: bytes)
      modifies this
      ensures Model() == Handle(old(Model()), if candidate == [] then Completed else Candidate(candidate))
    {
      if candidate == [] {
        isTrickleComplete := true;
        pSdpCandidates := Text(TextOf(pSdpCandidates) + END_OF_CANDIDATES);
        if pSdpBody.Text? {
          var r := ProceedWithSdp();
        }
      } else {
        pSdpCandidates := Text(TextOf(pSdpCandidates) + LINE_START + candidate + LINE_END);
      }
    }
  }

  /** `strncat` onto the string that ends at `end`: at most `limit` bytes and the terminator.  Not
      `ok` when a store would lie beyond the buffer. */
  method Strncat(dest: array<byte>, end: nat, src: bytes, limit: nat) returns (ok: bool, end': nat)
    requires end < dest.Length
    modifies dest
    ensures ok <==> end + (if |src| < limit then |src| else limit) < dest.Length
    ensures ok ==> end <= end' < dest.Length && dest[end'] == NUL
    ensures ok ==> dest[..end'] == old(dest[..end]) + src[..if |src| < limit then |src| else limit]
  {
    var i := 0;
    while i < |src| && i < limit && end + i < dest.Length
      invariant 0 <= i <= |src| && i <= limit && end + i <= dest.Length
      invariant dest[..end] == old(dest[..end])
      invariant forall k :: 0 <= k < i ==> dest[end + k] == src[k]
    {
      dest[end + i] := src[i];
      i := i + 1;
    }
    end' := end + i;
    ok := end' < dest.Length;
    if ok {
      dest[end'] := NUL;
      assert dest[end..end'] == src[..i];
      assert dest[..end'] == dest[..end] + dest[end..end'];
    }
  }

  /** `strstr` */
  method FindText(s: bytes, t: bytes) returns (found: bool)
    ensures found <==> Contains(s, t)
  {
    var i := 0;
    while i <= |s|
      invariant 0 <= i <= |s| + 1
      invariant forall k :: 0 <= k < i ==> !At(s, k, t)
    {
      if At(s, i, t) {
        return true;
      }
      i := i + 1;
    }
    found := false;
  }

  // ---------------------------------------------------------------- order does not matter

  /** The candidate text a sequence of events leaves behind. */
  function CandidateText(evs: seq<Event>): (t: bytes)
  {
    if evs == [] then []
    else Extended(CandidateText(evs[..|evs| - 1]), evs[|evs| - 1])
  }

  function Extended(before: bytes, ev: Event): (t: bytes)
  {
    match ev
    case Accepted(_) => before
    case Candidate(line) => before + LINE_START + line + LINE_END
    case Completed => before + END_OF_CANDIDATES
  }

  /** One body, at `a`, and one completion, at `c`, among any number of candidates. */
  predicate OneBodyOneEnd(evs: seq<Event>, a: nat, c: nat) {
    && a < |evs| && evs[a].Accepted? && c < |evs| && evs[c].Completed?
    && (forall i :: 0 <= i < |evs| && evs[i].Accepted? ==> i == a)
    && (forall i :: 0 <= i < |evs| && evs[i].Completed? ==> i == c)
  }

  /** The calls of `proceed` after the first `k` events. */
  ghost function Expected(evs: seq<Event>, a: nat, c: nat, k: nat): (r: seq<Sdp>)
    requires OneBodyOneEnd(evs, a, c) && k <= |evs|
  {
    var sdp := evs[a].sdp;
    (if a < k && (Inline(sdp) || c < a) then [SdpOf(Text(sdp), CandidateText(evs[..a]))] else [])
    + (if c < k && a < c then [SdpOf(Text(sdp), CandidateText(evs[..c + 1]))] else [])
  }

  lemma OneMore(evs: seq<Event>, k: nat)
    requires 0 < k <= |evs|
    ensures HandleAll(evs[..k]) == Handle(HandleAll(evs[..k - 1]), evs[k - 1])
    ensures CandidateText(evs[..k]) == Extended(CandidateText(evs[..k - 1]), evs[k - 1])
  {
    hide Handle, Extended;
    assert evs[..k][..k - 1] == evs[..k - 1];
    assert evs[..k][k - 1] == evs[k - 1];
  }

  /** Body and completion stand at their places only. */
  lemma Places(evs: seq<Event>, a: nat, c: nat, k: nat)
    requires OneBodyOneEnd(evs, a, c) && 0 < k <= |evs|
    ensures a < |evs| && evs[a].Accepted? && c < |evs| && evs[c].Completed? && a != c
    ensures (k - 1 == a <==> evs[k - 1].Accepted?) && (k - 1 == c <==> evs[k - 1].Completed?)
  {
  }

  /** `proceed` is due at the body and at the completion only. */
  lemma CandidateCalls(evs: seq<Event>, a: nat, c: nat, k: nat)
    requires OneBodyOneEnd(evs, a, c) && 0 < k <= |evs| && evs[k - 1].Candidate?
    ensures Expected(evs, a, c, k) == Expected(evs, a, c, k - 1)
  {
    Places(evs, a, c, k);
    hide CandidateText, Inline, SdpOf, OneBodyOneEnd;
  }

  lemma BodyCalls(evs: seq<Event>, a: nat, c: nat, k: nat)
    requires OneBodyOneEnd(evs, a, c) && 0 < k <= |evs| && evs[k - 1].Accepted?
    ensures Expected(evs, a, c, k) == Expected(evs, a, c, k - 1)
              + if Inline(evs[k - 1].sdp) || c < k - 1 then [SdpOf(Text(evs[k - 1].sdp), CandidateText(evs[..k]))] else []
  {
    hide CandidateText, Inline, SdpOf, OneBodyOneEnd;
    Places(evs, a, c, k);
    BodyAlone(evs, a);
    assert k == a + 1;
    var calls := if Inline(evs[a].sdp) || c < a then [SdpOf(Text(evs[a].sdp), CandidateText(evs[..a]))] else [];
    assert Expected(evs, a, c, a) == [] + [] && Expected(evs, a, c, k) == calls + [];
  }

  lemma EndCalls(evs: seq<Event>, a: nat, c: nat, k: nat)
    requires OneBodyOneEnd(evs, a, c) && 0 < k <= |evs| && evs[k - 1].Completed?
    ensures a < |evs| && evs[a].Accepted?
    ensures Expected(evs, a, c, k) == Expected(evs, a, c, k - 1)
              + if a < k - 1 then [SdpOf(Text(evs[a].sdp), CandidateText(evs[..k]))] else []
  {
    Places(evs, a, c, k);
    hide CandidateText, Inline, SdpOf, OneBodyOneEnd;
  }

  /** One event, seen from outside. */
  lemma HandleSays(leg: Leg, ev: Event)
    ensures var text, leg' := Extended(TextOf(leg.candidates), ev), Handle(leg, ev);
            && TextOf(leg'.candidates) == text
            && leg'.body == (if ev.Accepted? then Text(ev.sdp) else leg.body)
            && leg'.complete == (leg.complete || ev.Completed?)
            && (ev.Candidate? ==> leg'.proceeded == leg.proceeded)
            && (ev.Accepted? ==> leg'.proceeded == leg.proceeded + if Inline(ev.sdp) || leg.complete then [SdpOf(Text(ev.sdp), text)] else [])
            && (ev.Completed? ==> leg'.proceeded == leg.proceeded + if leg.body.Text? then [SdpOf(leg.body, text)] else [])
  {
    hide Inline, SdpOf;
  }

  ghost function LegAt(evs: seq<Event>, k: nat): (leg: Leg)
    requires k <= |evs|
  {
    HandleAll(evs[..k])
  }

  function TextAt(evs: seq<Event>, k: nat): (t: bytes)
    requires k <= |evs|
  {
    CandidateText(evs[..k])
  }

  /** Body, candidates, completion and calls of `proceed` after the first `k` events. */
  ghost predicate Stands(evs: seq<Event>, a: nat, c: nat, k: nat)
    requires OneBodyOneEnd(evs, a, c) && k <= |evs|
  {
    var leg := LegAt(evs, k);
    && leg.body == (if a < k then Text(evs[a].sdp) else NullPtr)
    && TextOf(leg.candidates) == TextAt(evs, k)
    && leg.complete == (c < k)
    && leg.proceeded == Expected(evs, a, c, k)
  }

  lemma StandsNext(evs: seq<Event>, a: nat, c: nat, k: nat)
    requires OneBodyOneEnd(evs, a, c) && 0 < k <= |evs| && Stands(evs, a, c, k - 1)
    ensures Stands(evs, a, c, k)
  {
    OneMore(evs, k);
    Places(evs, a, c, k);
    if evs[k - 1].Candidate? {
      CandidateCalls(evs, a, c, k);
    } else if evs[k - 1].Accepted? {
      BodyCalls(evs, a, c, k);
    } else {
      EndCalls(evs, a, c, k);
    }
    assert LegAt(evs, k) == Handle(LegAt(evs, k - 1), evs[k - 1]);
    assert TextAt(evs, k) == Extended(TextAt(evs, k - 1), evs[k - 1]) == CandidateText(evs[..k]);
    HandleSays(LegAt(evs, k - 1), evs[k - 1]);
    hide LegAt, TextAt, Handle, HandleAll, CandidateText, Extended, Expected, SdpOf, Inline, OneBodyOneEnd, TextOf;
  }

  lemma {:induction false} LegAfter(evs: seq<Event>, a: nat, c: nat, k: nat)
    requires OneBodyOneEnd(evs, a, c) && k <= |evs|
    ensures var leg := HandleAll(evs[..k]);
            && leg.body == (if a < k then Text(evs[a].sdp) else NullPtr)
            && TextOf(leg.candidates) == CandidateText(evs[..k])
            && leg.complete == (c < k)
            && leg.proceeded == Expected(evs, a, c, k)
  {
    hide HandleAll, CandidateText, Inline, SdpOf;
    StandsAlways(evs, a, c, k);
  }

  lemma {:induction false} StandsAlways(evs: seq<Event>, a: nat, c: nat, k: nat)
    requires OneBodyOneEnd(evs, a, c) && k <= |evs|
    ensures Stands(evs, a, c, k)
  {
    if k > 0 {
      hide *;
      StandsAlways(evs, a, c, k - 1);
      StandsNext(evs, a, c, k);
    }
  }

  /** Without inline candidates every interleaving proceeds exactly once, at the later of body
      and completion, with the body and all candidate lines up to there in arrival order: whole
      exactly if the two fit the buffer. */
  lemma TrickleConfluence(evs: seq<Event>, a: nat, c: nat)
    requires OneBodyOneEnd(evs, a, c) && !Inline(evs[a].sdp)
    ensures var later := if a < c then c else a;
            var text := CandidateText(evs[..later + 1]);
            && HandleAll(evs).proceeded == [SdpOf(Text(evs[a].sdp), text)]
            && (HandleAll(evs).proceeded == [Held(evs[a].sdp + text)] <==> |evs[a].sdp| + |text| < 4096)
            && HandleAll(evs[..later]).proceeded == []
  {
    hide HandleAll, CandidateText, Inline, SdpOf;
    var later := if a < c then c else a;
    WholeTextIff(evs[a].sdp, CandidateText(evs[..later + 1]));
    LegAfter(evs, a, c, |evs|);
    LegAfter(evs, a, c, later);
    assert evs[..|evs|] == evs;
    BodyAlone(evs, a);
  }

  lemma BodyAlone(evs: seq<Event>, a: nat)
    requires a < |evs| && evs[a].Accepted?
    ensures CandidateText(evs[..a + 1]) == CandidateText(evs[..a])
  {
    assert evs[..a + 1][..a] == evs[..a];
    assert evs[..a + 1][a] == evs[a];
  }

  /** In general `proceed` runs once or twice: twice exactly if a body with inline candidates is
      followed by a completion. */
  lemma ProceedsTwiceIff(evs: seq<Event>, a: nat, c: nat)
    requires OneBodyOneEnd(evs, a, c)
    ensures |HandleAll(evs).proceeded| == if Inline(evs[a].sdp) && a < c then 2 else 1
  {
    LegAfter(evs, a, c, |evs|);
    assert evs[..|evs|] == evs;
  }

  function Lines(cs: seq<bytes>): (t: bytes)
  {
    if cs == [] then [] else Lines(cs[..|cs| - 1]) + Ascii("a=") + cs[|cs| - 1] + Ascii("\r\n")
  }

  /** The marks in full. */
  lemma Marks()
    ensures LINE_START == Ascii("a=") && LINE_END == Ascii("\r\n")
    ensures END_OF_CANDIDATES == Ascii("a=end-of-candidates\r\n")
  {
  }

  /** A body brings its candidates along if it has a line of them. */
  lemma InlineIff(sdp: bytes)
    ensures Inline(sdp) <==> exists i :: 0 <= i <= |sdp| && At(sdp, i, Ascii("a=candidate:"))
  {
    assert CANDIDATE_MARK == Ascii("a=candidate:");
  }

  /** The stream of one offer: all candidates, then the completion. */
  function Stream(cs: seq<bytes>): (evs: seq<Event>)
    ensures |evs| == |cs| + 1
    ensures forall i :: 0 <= i < |cs| ==> evs[i] == Candidate(cs[i])
    ensures evs[|cs|] == Completed
  {
    seq(|cs|, i requires 0 <= i < |cs| => Candidate(cs[i])) + [Completed]
  }

  /** For a stream closed by its completion and a body arriving anywhere in it, the text is the
      same whatever the position: body, candidate lines in arrival order, end of candidates. */
  lemma StreamConfluence(sdp: bytes, cs: seq<bytes>, p: nat)
    requires p <= |cs| + 1 && !Inline(sdp)
    ensures var evs := Stream(cs)[..p] + [Accepted(sdp)] + Stream(cs)[p..];
            HandleAll(evs).proceeded == [SdpOf(Text(sdp), Lines(cs) + Ascii("a=end-of-candidates\r\n"))]
  {
    hide HandleAll, CandidateText, Inline, Stream, OneBodyOneEnd, SdpOf;
    var stream := Stream(cs);
    var evs := stream[..p] + [Accepted(sdp)] + stream[p..];
    var c := StreamShape(sdp, cs, p);
    TrickleConfluence(evs, p, c);
    assert evs[..|evs|] == evs;
    BodyAddsNoLine(stream, p, sdp);
    ClosedStreamText(cs);
    Marks();
  }

  lemma StreamShape(sdp: bytes, cs: seq<bytes>, p: nat) returns (c: nat)
    requires p <= |cs| + 1
    ensures var evs := Stream(cs)[..p] + [Accepted(sdp)] + Stream(cs)[p..];
            OneBodyOneEnd(evs, p, c) && evs[p] == Accepted(sdp) && |evs| == (if p < c then c else p) + 1
  {
    hide Stream;
    c := if p <= |cs| then |cs| + 1 else |cs|;
    var stream := Stream(cs);
    var evs := stream[..p] + [Accepted(sdp)] + stream[p..];
    forall i | 0 <= i < |evs| && i != p ensures evs[i] == stream[if i < p then i else i - 1] {}
  }

  lemma ClosedStreamText(cs: seq<bytes>)
    ensures CandidateText(Stream(cs)) == Lines(cs) + END_OF_CANDIDATES
  {
    hide Stream;
    var stream := Stream(cs);
    StreamText(cs, |cs|);
    assert stream[..|stream| - 1] == stream[..|cs|];
    assert cs[..|cs|] == cs;
  }

  lemma {:induction false} BodyAddsNoLine(evs: seq<Event>, p: nat, sdp: bytes)
    requires p <= |evs|
    ensures CandidateText(evs[..p] + [Accepted(sdp)] + evs[p..]) == CandidateText(evs)
    decreases |evs|
  {
    var all := evs[..p] + [Accepted(sdp)] + evs[p..];
    if p == |evs| {
      assert all[..|all| - 1] == evs;
    } else {
      var n := |evs| - 1;
      BodyAddsNoLine(evs[..n], p, sdp);
      assert all[..|all| - 1] == evs[..n][..p] + [Accepted(sdp)] + evs[..n][p..];
      assert all[|all| - 1] == evs[n];
    }
  }

  lemma {:induction false} StreamText(cs: seq<bytes>, k: nat)
    requires k <= |cs|
    ensures CandidateText(Stream(cs)[..k]) == Lines(cs[..k])
  {
    if k > 0 {
      StreamText(cs, k - 1);
      assert Stream(cs)[..k][..k - 1] == Stream(cs)[..k - 1];
      assert cs[..k][..k - 1] == cs[..k - 1];
    }
  }
}

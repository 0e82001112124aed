/**
 What `cJSON_Minify` makes of a text put together from blanks, comments, string literals and other
 bytes, whatever their order: it keeps the literals and the other bytes, and drops the rest.
 */
module MinifyParts {
  import opened Bytes
  import opened Literals
  import opened Minify
  import opened MinifyLaws

  datatype Part = Blank(c: byte) | Line(w: bytes) | Block(w: bytes) | Quoted(w: bytes) | Mark(c: byte)

  /** The inside of a string literal: a backslash comes with the byte after it, and no quote alone. */
  predicate Inside(w: bytes) {
    w == []
    || (w[0] == 92 && |w| >= 2 && Inside(w[2..]))
    || (w[0] != 92 && w[0] != 34 && Inside(w[1..]))
  }

  /** The inside of a block comment, which the star of its opening mark may already end. */
  predicate Uncut(w: bytes) {
    var u := [42] + w + [42];
    forall k :: 0 <= k < |u| - 1 ==> !(u[k] == 42 && u[k + 1] == 47)
  }

  predicate Proper(p: Part) {
    match p
    case Blank(c) => c == 32 || c == 9 || c == 13 || c == 10
    case Line(w) => 10 !in w
    case Block(w) => Uncut(w)
    case Quoted(w) => Inside(w)
    case Mark(c) => c != 32 && c != 9 && c != 13 && c != 10 && c != 34 && c != 47
  }

  function Spelled(p: Part): (t: bytes)
  {
    match p
    case Blank(c) => [c]
    case Line(w) => Ascii("//") + (w + [10])
    case Block(w) => Ascii("/*") + (w + Ascii("*/"))
    case Quoted(w) => [34] + (w + [34])
    case Mark(c) => [c]
  }

  function Kept(p: Part): (t: bytes)
  {
    match p
    case Quoted(w) => [34] + (w + [34])
    case Mark(c) => [c]
    case _ => []
  }

  function AllSpelled(ps: seq<Part>): (t: bytes)
  {
    if ps == [] then [] else Spelled(ps[0]) + AllSpelled(ps[1..])
  }

  function AllKept(ps: seq<Part>): (t: bytes)
  {
    if ps == [] then [] else Kept(ps[0]) + AllKept(ps[1..])
  }

  lemma {:induction false} LineEndAt(t: bytes, i: nat, w: bytes)
    requires At(t, i, w) && 10 !in w
    ensures LineEnd(t, i) == LineEnd(t, i + |w|)
    decreases |w|
  {
    if w != [] {
      AtIndex(t, i, w, 0);
      assert w == [w[0]] + w[1..];
      AtConcat(t, i, [w[0]], w[1..]);
      LineEndAt(t, i + 1, w[1..]);
    }
  }

  /** The comment is closed at `k`. */
  lemma {:induction false} CommentCloseAt(t: bytes, i: nat, k: nat)
    requires i <= k && k + 1 < |t| && t[k] == 42 && t[k + 1] == 47
    requires forall j :: i <= j < k ==> !(t[j] == 42 && t[j + 1] == 47)
    ensures CommentClose(t, i) == Some(k)
    decreases k - i
  {
    if i < k {
      CommentCloseAt(t, i + 1, k);
    }
  }

  lemma {:induction false} CommentNotClosed(t: bytes, i: nat)
    requires i <= |t| && forall j :: i <= j < |t| - 1 ==> !(t[j] == 42 && t[j + 1] == 47)
    ensures CommentClose(t, i) == None
    decreases |t| - i
  {
    if i + 1 < |t| {
      CommentNotClosed(t, i + 1);
    }
  }

  lemma {:induction false} CloseQuoteAfter(t: bytes, i: nat, w: bytes)
    requires At(t, i, w) && Inside(w)
    ensures CloseQuote(t, i) == CloseQuote(t, i + |w|)
    decreases |w|
  {
    if w != [] {
      AtIndex(t, i, w, 0);
      var n := if w[0] == 92 then 2 else 1;
      assert w == w[..n] + w[n..];
      AtConcat(t, i, w[..n], w[n..]);
      CloseQuoteAfter(t, i + n, w[n..]);
    }
  }

  lemma BlankStep(t: bytes, i: nat)
    requires i < |t| && t[i] == 10
    ensures Minified(t, i) == Minified(t, i + 1)
  {
  }

  lemma CommentStep(t: bytes, i: nat)
    requires i + 1 < |t| && t[i] == 47
    ensures t[i + 1] == 47 ==> Minified(t, i) == Minified(t, LineEnd(t, i))
    ensures t[i + 1] == 42 ==>
              Minified(t, i) == if CommentClose(t, i).None? then None else Minified(t, CommentClose(t, i).value + 2)
  {
    hide LineEnd, CommentClose, CloseQuote;
  }

  lemma QuoteStep(t: bytes, i: nat)
    requires i < |t| && t[i] == 34
    ensures var r := CloseQuote(t, i + 1);
            Minified(t, i) == if r.None? then None else Then(t[i..r.value + 1], Minified(t, r.value + 1))
  {
    hide LineEnd, CommentClose, CloseQuote;
  }

  lemma WithinText(t: bytes, i: nat)
    requires At(t, i, [])
    ensures i <= |t|
  {
  }

  lemma LineTurns(t: bytes, i: nat, w: bytes)
    requires At(t, i, Spelled(Line(w))) && 10 !in w
    ensures Turns(t, i, i + |Spelled(Line(w))|, [])
  {
    hide At, Minified;
    AtConcat(t, i, Ascii("//"), w + [10]);
    AtIndex(t, i, Ascii("//"), 0);
    AtIndex(t, i, Ascii("//"), 1);
    AtConcat(t, i + 2, w, [10]);
    AtIndex(t, i + 2 + |w|, [10], 0);
    LineEndAt(t, i + 2, w);
    var m := i + 2 + |w|;
    assert LineEnd(t, i) == LineEnd(t, i + 1) == LineEnd(t, i + 2) == m;
    CommentStep(t, i);
    BlankStep(t, m);
    TurnsHere(t, m + 1);
  }

  lemma BlockTurns(t: bytes, i: nat, w: bytes)
    requires At(t, i, Spelled(Block(w))) && Uncut(w)
    ensures Turns(t, i, i + |Spelled(Block(w))|, [])
  {
    hide Minified;
    var s := Spelled(Block(w));
    var u, k := [42] + w + [42], i + 2 + |w|;
    forall j | 0 <= j < |s| ensures t[i + j] == s[j] {
      AtIndex(t, i, s, j);
    }
    assert t[k] == 42 && t[k + 1] == 47;
    forall j | i <= j < k ensures !(t[j] == 42 && t[j + 1] == 47) {
      if j > i {
        assert t[j] == s[j - i] == u[j - i - 1] && t[j + 1] == s[j - i + 1] == u[j - i];
      }
    }
    CommentCloseAt(t, i, k);
    assert t[i] == 47 && t[i + 1] == 42;
    CommentStep(t, i);
    TurnsHere(t, k + 2);
  }

  lemma QuotedTurns(t: bytes, i: nat, w: bytes)
    requires At(t, i, Spelled(Quoted(w))) && Inside(w)
    ensures Turns(t, i, i + |Spelled(Quoted(w))|, Spelled(Quoted(w)))
  {
    hide Minified, Inside;
    AtSlice(t, i, Spelled(Quoted(w)));
    hide At;
    AtConcat(t, i, [34], w + [34]);
    AtIndex(t, i, [34], 0);
    AtConcat(t, i + 1, w, [34]);
    AtIndex(t, i + 1 + |w|, [34], 0);
    CloseQuoteAfter(t, i + 1, w);
    QuoteStep(t, i);
  }

  lemma PartTurns(t: bytes, i: nat, p: Part)
    requires At(t, i, Spelled(p)) && Proper(p)
    ensures Turns(t, i, i + |Spelled(p)|, Kept(p))
  {
    hide Turns;
    if p.Line? {
      LineTurns(t, i, p.w);
    } else if p.Block? {
      BlockTurns(t, i, p.w);
    } else if p.Quoted? {
      QuotedTurns(t, i, p.w);
    } else if p.Blank? {
      BlankRun(t, i, [p.c]);
    } else {
      OrdinaryRun(t, i, [p.c]);
    }
  }

  lemma {:induction false} PartsTurn(t: bytes, i: nat, ps: seq<Part>)
    requires At(t, i, AllSpelled(ps)) && forall k :: 0 <= k < |ps| ==> Proper(ps[k])
    ensures Turns(t, i, i + |AllSpelled(ps)|, AllKept(ps))
    decreases |ps|
  {
    hide At, Turns, Proper, Spelled, Kept;
    if ps == [] {
      WithinText(t, i);
      TurnsHere(t, i);
    } else {
      var a, b := Spelled(ps[0]), AllSpelled(ps[1..]);
      AtConcat(t, i, a, b);
      PartTurns(t, i, ps[0]);
      PartsTurn(t, i + |a|, ps[1..]);
      TurnsOn(t, i, i + |a|, i + |a| + |b|, Kept(ps[0]), AllKept(ps[1..]));
    }
  }

  /** How a text may end: after its last part, in a line comment without a line end, or in a block
      comment or a string literal that is left open. */
  datatype End = Whole | LineOpen(w: bytes) | BlockOpen(w: bytes) | QuoteOpen(w: bytes)

  predicate ProperEnd(e: End) {
    match e
    case Whole => true
    case LineOpen(w) => 10 !in w
    case BlockOpen(w) => Uncut(w)
    case QuoteOpen(w) => Inside(w)
  }

  function EndSpelled(e: End): (t: bytes)
  {
    match e
    case Whole => []
    case LineOpen(w) => Ascii("//") + w
    case BlockOpen(w) => Ascii("/*") + w
    case QuoteOpen(w) => [34] + w
  }

  lemma EndMinified(t: bytes, i: nat, e: End)
    requires ProperEnd(e) && At(t, i, EndSpelled(e)) && i + |EndSpelled(e)| == |t|
    ensures Minified(t, i) == if e.BlockOpen? || e.QuoteOpen? then None else Some([])
  {
    hide Minified, Inside;
    var s := EndSpelled(e);
    forall j | 0 <= j < |s| ensures t[i + j] == s[j] {
      AtIndex(t, i, s, j);
    }
    NothingLeft(t);
    if e.LineOpen? {
      AtConcat(t, i, Ascii("//"), e.w);
      LineEndAt(t, i + 2, e.w);
      assert t[i] == 47 && t[i + 1] == 47;
      assert LineEnd(t, i) == LineEnd(t, i + 1) == LineEnd(t, i + 2) == |t|;
      CommentStep(t, i);
    } else if e.BlockOpen? {
      BlockOpenMinified(t, i, e.w);
    } else if e.QuoteOpen? {
      AtConcat(t, i, [34], e.w);
      assert t[i] == 34;
      CloseQuoteAfter(t, i + 1, e.w);
      QuoteStep(t, i);
    }
  }

  lemma BlockOpenMinified(t: bytes, i: nat, w: bytes)
    requires Uncut(w) && i + 2 + |w| == |t|
    requires forall j :: 0 <= j < 2 + |w| ==> t[i + j] == (Ascii("/*") + w)[j]
    ensures Minified(t, i) == None
  {
    hide Minified;
    var u, s := [42] + w + [42], Ascii("/*") + w;
    forall j | i <= j < |t| - 1 ensures !(t[j] == 42 && t[j + 1] == 47) {
      assert t[i + (j - i)] == s[j - i] && t[i + (j + 1 - i)] == s[j + 1 - i];
      if j > i {
        assert s[j - i] == u[j - i - 1] && s[j + 1 - i] == u[j - i];
      }
    }
    CommentNotClosed(t, i);
    assert t[i + 0] == s[0] && t[i + 1] == s[1];
    assert t[i] == 47 && t[i + 1] == 42;
    CommentStep(t, i);
  }

  /** Of a text put together from such parts exactly the string literals and the other bytes are kept;
      and it runs past its end exactly if it leaves a block comment or a literal open. */
  lemma OnlyCommentsGo(ps: seq<Part>, e: End)
    requires ProperEnd(e) && forall k :: 0 <= k < |ps| ==> Proper(ps[k])
    ensures Minified(AllSpelled(ps) + EndSpelled(e), 0) ==
            if e.BlockOpen? || e.QuoteOpen? then None else Some(AllKept(ps))
  {
    hide Minified, Proper, ProperEnd, EndSpelled, AllSpelled, AllKept;
    var a, b := AllSpelled(ps), EndSpelled(e);
    var t := a + b;
    assert t[0..|a|] == a && t[|a|..|a| + |b|] == b;
    PartsTurn(t, 0, ps);
    EndMinified(t, |a|, e);
    assert AllKept(ps) + [] == AllKept(ps);
  }
}

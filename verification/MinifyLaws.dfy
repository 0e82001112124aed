/**
 Minifying undoes formatting: the formatted text of a tree becomes its unformatted text.
 */
module MinifyLaws {
  import opened Bytes
  import opened Literals
  import opened Json
  import opened Minify

  // ---------------------------------------------------------------- formatting is undone

  predicate NoRaw(v: Json)
    decreases v
  {
    match v
    case Raw(c) => false
    case Array(items) => forall i :: 0 <= i < |items| ==> NoRaw(items[i])
    case Object(ms) => forall i :: 0 <= i < |ms| ==> NoRaw(ms[i].value)
    case _ => true
  }

  /** Bytes the minifier copies one by one. */
  predicate IsOrdinary(c: byte) {
    !IsBlank(c) && c != SLASH && c != QUOTE
  }

  /** From `i` to `j` the minifier emits `out`. */
  predicate Turns(t: bytes, i: nat, j: nat, out: bytes) {
    i <= |t| && j <= |t| && Minified(t, i) == Then(out, Minified(t, j))
  }

  lemma TurnsOn(t: bytes, i: nat, j: nat, k: nat, a: bytes, b: bytes)
    requires Turns(t, i, j, a) && Turns(t, j, k, b)
    ensures Turns(t, i, k, a + b)
  {
    hide Minified;
    if Minified(t, k).Some? {
      Assoc(a, b, Minified(t, k).value);
    }
  }

  lemma TurnsHere(t: bytes, i: nat)
    requires i <= |t|
    ensures Turns(t, i, i, [])
  {
    hide Minified;
    if Minified(t, i).Some? {
      assert [] + Minified(t, i).value == Minified(t, i).value;
    }
  }

  lemma {:induction false} OrdinaryRun(t: bytes, i: nat, w: bytes)
    requires At(t, i, w) && forall k :: 0 <= k < |w| ==> IsOrdinary(w[k])
    ensures Turns(t, i, i + |w|, w)
    decreases |w|
  {
    if w == [] {
      TurnsHere(t, i);
    } else {
      AtIndex(t, i, w, 0);
      assert w == [w[0]] + w[1..];
      AtConcat(t, i, [w[0]], w[1..]);
      assert Turns(t, i, i + 1, [w[0]]);
      OrdinaryRun(t, i + 1, w[1..]);
      TurnsOn(t, i, i + 1, i + |w|, [w[0]], w[1..]);
    }
  }

  lemma {:induction false} BlankRun(t: bytes, i: nat, w: bytes)
    requires At(t, i, w) && forall k :: 0 <= k < |w| ==> IsBlank(w[k])
    ensures Turns(t, i, i + |w|, [])
    decreases |w|
  {
    if w == [] {
      TurnsHere(t, i);
    } else {
      AtIndex(t, i, w, 0);
      assert w == [w[0]] + w[1..];
      AtConcat(t, i, [w[0]], w[1..]);
      BlankRun(t, i + 1, w[1..]);
    }
  }

  lemma LiteralRun(t: bytes, i: nat, c: CString)
    requires At(t, i, RenderString(c))
    ensures Turns(t, i, i + |RenderString(c)|, RenderString(c))
  {
    hide At, CloseQuote, Escape;
    var r := RenderString(c);
    AtIndex(t, i, r, 0);
    if c.NullPtr? {
      AtIndex(t, i, r, 1);
      assert CloseQuote(t, i + 1) == Some(i + 1) by { QuoteHere(t, i + 1); }
    } else {
      AtConcat(t, i, [QUOTE], Escape(c.chars) + [QUOTE]);
      CloseQuoteOfEscape(t, i + 1, c.chars);
    }
    assert t[i..i + |r|] == r by { AtSlice(t, i, r); }
  }

  lemma AtSlice(t: bytes, i: nat, r: bytes)
    requires At(t, i, r)
    ensures i + |r| <= |t| && t[i..i + |r|] == r
  {
  }

  lemma QuoteHere(t: bytes, i: nat)
    requires i < |t| && t[i] == QUOTE
    ensures CloseQuote(t, i) == Some(i)
  {
  }

  /** A rendering, formatted or not, minifies to the unformatted rendering. */
  lemma {:induction false} ValueTurns(t: bytes, i: nat, v: Json, fmt: bool, d: nat)
    requires Representable(v) && NoRaw(v)
    requires At(t, i, Render(v, fmt, d))
    ensures Turns(t, i, i + |Render(v, fmt, d)|, Render(v, false, d))
    decreases v
  {
    hide At, Turns;
    match v
    case Invalid => AtSlice(t, i, []); TurnsHere(t, i);
    case Null => OrdinaryRun(t, i, WORD_NULL);
    case False => OrdinaryRun(t, i, WORD_FALSE);
    case True => OrdinaryRun(t, i, WORD_TRUE);
    case Number(w) => OrdinaryRun(t, i, w);
    case String(c) => LiteralRun(t, i, c);
    case Array(items) => ArrayTurns(t, i, items, fmt, d);
    case Object(ms) => ObjectTurns(t, i, ms, fmt, d);
  }

  lemma {:induction false} ArrayTurns(t: bytes, i: nat, items: seq<Json>, fmt: bool, d: nat)
    requires Representable(Array(items)) && NoRaw(Array(items))
    requires At(t, i, Render(Array(items), fmt, d))
    ensures Turns(t, i, i + |Render(Array(items), fmt, d)|, Render(Array(items), false, d))
    decreases items, 1
  {
    hide At, Turns, RenderItems;
    var body, body' := RenderItems(items, fmt, d + 1), RenderItems(items, false, d + 1);
    AtConcat(t, i, [LBRACKET], body + [RBRACKET]);
    AtConcat(t, i + 1, body, [RBRACKET]);
    OrdinaryRun(t, i, [LBRACKET]);
    ItemsTurn(t, i + 1, items, fmt, d + 1);
    OrdinaryRun(t, i + 1 + |body|, [RBRACKET]);
    TurnsOn(t, i + 1, i + 1 + |body|, i + 2 + |body|, body', [RBRACKET]);
    TurnsOn(t, i, i + 1, i + 2 + |body|, [LBRACKET], body' + [RBRACKET]);
  }

  lemma {:induction false} ItemsTurn(t: bytes, i: nat, items: seq<Json>, fmt: bool, d: nat)
    requires forall k :: 0 <= k < |items| ==> Representable(items[k]) && NoRaw(items[k])
    requires At(t, i, RenderItems(items, fmt, d))
    ensures Turns(t, i, i + |RenderItems(items, fmt, d)|, RenderItems(items, false, d))
    decreases items, 0
  {
    hide At, Turns, Render, Representable, NoRaw;
    if items == [] {
      AtSlice(t, i, []);
      TurnsHere(t, i);
    } else if |items| == 1 {
      ValueTurns(t, i, items[0], fmt, d);
    } else {
      var first, rest := Render(items[0], fmt, d), RenderItems(items[1..], fmt, d);
      var sep := ItemSeparator(fmt);
      AtConcat(t, i, first, sep + rest);
      AtConcat(t, i + |first|, sep, rest);
      ValueTurns(t, i, items[0], fmt, d);
      SeparatorTurns(t, i + |first|, fmt);
      var k := i + |first| + |sep|;
      ItemsTurn(t, k, items[1..], fmt, d);
      var rest' := RenderItems(items[1..], false, d);
      TurnsOn(t, i + |first|, k, k + |rest|, [COMMA], rest');
      TurnsOn(t, i, i + |first|, k + |rest|, Render(items[0], false, d), [COMMA] + rest');
    }
  }

  lemma SeparatorTurns(t: bytes, i: nat, fmt: bool)
    requires At(t, i, ItemSeparator(fmt))
    ensures Turns(t, i, i + |ItemSeparator(fmt)|, [COMMA])
  {
    MarkTurns(t, i, COMMA, if fmt then [SPACE] else []);
  }

  /** A punctuation byte and the blanks after it turn into the byte. */
  lemma MarkTurns(t: bytes, i: nat, c: byte, blanks: bytes)
    requires IsOrdinary(c) && forall k :: 0 <= k < |blanks| ==> IsBlank(blanks[k])
    requires At(t, i, [c] + blanks)
    ensures Turns(t, i, i + 1 + |blanks|, [c])
  {
    hide At, Turns;
    AtConcat(t, i, [c], blanks);
    OrdinaryRun(t, i, [c]);
    BlankRun(t, i + 1, blanks);
    TurnsOn(t, i, i + 1, i + 1 + |blanks|, [c], []);
    assert [c] + [] == [c];
  }

  lemma {:induction false} ObjectTurns(t: bytes, i: nat, ms: seq<Member>, fmt: bool, d: nat)
    requires Representable(Object(ms)) && NoRaw(Object(ms))
    requires At(t, i, Render(Object(ms), fmt, d))
    ensures Turns(t, i, i + |Render(Object(ms), fmt, d)|, Render(Object(ms), false, d))
    decreases ms, 1
  {
    hide *;
    ObjectParts(ms);
    ObjectIs(ms, fmt, d);
    var body, body' := RenderMembers(ms, fmt, d + 1), RenderMembers(ms, false, d + 1);
    var line, tabs := Newline(fmt), Tabs(fmt, d);
    ObjectSplit(t, i, line, body, tabs);
    MarkTurns(t, i, LBRACE, line);
    var p := i + 1 + |line|;
    MembersTurn(t, p, ms, fmt, d + 1);
    var q := p + |body|;
    ClosingTurns(t, q, tabs);
    TurnsOn(t, p, q, q + |tabs| + 1, body', [RBRACE]);
    TurnsOn(t, i, p, q + |tabs| + 1, [LBRACE], body' + [RBRACE]);
  }

  lemma ObjectIs(ms: seq<Member>, fmt: bool, d: nat)
    ensures Render(Object(ms), fmt, d) == [LBRACE] + (Newline(fmt) + (RenderMembers(ms, fmt, d + 1) + (Tabs(fmt, d) + [RBRACE])))
    ensures Render(Object(ms), false, d) == [LBRACE] + (RenderMembers(ms, false, d + 1) + [RBRACE])
    ensures IsOrdinary(LBRACE) && (forall k :: 0 <= k < |Newline(fmt)| ==> IsBlank(Newline(fmt)[k]))
    ensures forall k :: 0 <= k < |Tabs(fmt, d)| ==> IsBlank(Tabs(fmt, d)[k])
  {
    hide RenderMembers;
    assert [] + (RenderMembers(ms, false, d + 1) + ([] + [RBRACE])) == RenderMembers(ms, false, d + 1) + [RBRACE];
  }

  /** Where the parts of an object's text stand. */
  lemma ObjectSplit(t: bytes, i: nat, line: bytes, body: bytes, tabs: bytes)
    requires At(t, i, [LBRACE] + (line + (body + (tabs + [RBRACE]))))
    ensures At(t, i, [LBRACE] + line) && At(t, i + 1 + |line|, body) && At(t, i + 1 + |line| + |body|, tabs + [RBRACE])
  {
    hide At;
    Assoc([LBRACE], line, body + (tabs + [RBRACE]));
    AtConcat(t, i, [LBRACE] + line, body + (tabs + [RBRACE]));
    AtConcat(t, i + 1 + |line|, body, tabs + [RBRACE]);
  }

  lemma ClosingTurns(t: bytes, q: nat, tabs: bytes)
    requires At(t, q, tabs + [RBRACE]) && forall k :: 0 <= k < |tabs| ==> IsBlank(tabs[k])
    ensures Turns(t, q, q + |tabs| + 1, [RBRACE])
  {
    hide At, Turns;
    AtConcat(t, q, tabs, [RBRACE]);
    BlankRun(t, q, tabs);
    OrdinaryRun(t, q + |tabs|, [RBRACE]);
    TurnsOn(t, q, q + |tabs|, q + |tabs| + 1, [], [RBRACE]);
    assert [] + [RBRACE] == [RBRACE];
  }

  lemma ObjectParts(ms: seq<Member>)
    requires Representable(Object(ms)) && NoRaw(Object(ms))
    ensures forall k :: 0 <= k < |ms| ==> IsCString(ms[k].name) && Representable(ms[k].value) && NoRaw(ms[k].value)
  {
  }

  lemma {:induction false} MembersTurn(t: bytes, i: nat, ms: seq<Member>, fmt: bool, d: nat)
    requires forall k :: 0 <= k < |ms| ==> IsCString(ms[k].name) && Representable(ms[k].value) && NoRaw(ms[k].value)
    requires At(t, i, RenderMembers(ms, fmt, d))
    ensures Turns(t, i, i + |RenderMembers(ms, fmt, d)|, RenderMembers(ms, false, d))
    decreases ms, 0
  {
    hide At, Turns, RenderMember, Representable, NoRaw;
    if ms == [] {
      AtSlice(t, i, []);
      TurnsHere(t, i);
    } else {
      var last := |ms| == 1;
      var line, rest := RenderMember(ms[0], fmt, d, last), RenderMembers(ms[1..], fmt, d);
      AtConcat(t, i, line, rest);
      MemberTurns(t, i, ms[0], fmt, d, last);
      MembersTurn(t, i + |line|, ms[1..], fmt, d);
      TurnsOn(t, i, i + |line|, i + |line| + |rest|, RenderMember(ms[0], false, d, last), RenderMembers(ms[1..], false, d));
    }
  }

  lemma {:induction false} MemberTurns(t: bytes, i: nat, m: Member, fmt: bool, d: nat, last: bool)
    requires IsCString(m.name) && Representable(m.value) && NoRaw(m.value)
    requires At(t, i, RenderMember(m, fmt, d, last))
    ensures Turns(t, i, i + |RenderMember(m, fmt, d, last)|, RenderMember(m, false, d, last))
    decreases m
  {
    hide At, Turns, Render, RenderString, Representable, NoRaw;
    var tabs, name, sep := Tabs(fmt, d), RenderString(m.name), NameSeparator(fmt);
    var value, eol := Render(m.value, fmt, d), MemberEnd(fmt, last);
    AtConcat(t, i, tabs, name + (sep + (value + eol)));
    BlankRun(t, i, tabs);
    var a := i + |tabs|;
    AtConcat(t, a, name, sep + (value + eol));
    LiteralRun(t, a, m.name);
    var b := a + |name|;
    AtConcat(t, b, sep, value + eol);
    assert sep == [COLON] + if fmt then [TAB] else [];
    MarkTurns(t, b, COLON, if fmt then [TAB] else []);
    var c := b + |sep|;
    AtConcat(t, c, value, eol);
    ValueTurns(t, c, m.value, fmt, d);
    var e := c + |value|;
    EolTurns(t, e, fmt, last);
    var value', eol' := Render(m.value, false, d), MemberEnd(false, last);
    TurnsOn(t, c, e, e + |eol|, value', eol');
    TurnsOn(t, b, c, e + |eol|, [COLON], value' + eol');
    TurnsOn(t, a, b, e + |eol|, name, [COLON] + (value' + eol'));
    TurnsOn(t, i, a, e + |eol|, [], name + ([COLON] + (value' + eol')));
  }

  lemma EolTurns(t: bytes, i: nat, fmt: bool, last: bool)
    requires At(t, i, MemberEnd(fmt, last))
    ensures Turns(t, i, i + |MemberEnd(fmt, last)|, MemberEnd(false, last))
  {
    hide Turns, At;
    if last {
      assert MemberEnd(fmt, last) == Newline(fmt);
      assert MemberEnd(false, last) == [];
      BlankRun(t, i, Newline(fmt));
    } else {
      MarkTurns(t, i, COMMA, Newline(fmt));
      assert MemberEnd(false, last) == [COMMA];
    }
  }

  /** Minifying a document printed with formatting gives it as printed without; what is printed
      without is left alone. */
  lemma MinifyUndoesFormatting(v: Json, fmt: bool)
    requires Representable(v) && NoRaw(v)
    ensures Minified(Render(v, fmt, 0), 0) == Some(Render(v, false, 0))
  {
    hide Render, Minified;
    var t := Render(v, fmt, 0);
    assert At(t, 0, t);
    ValueTurns(t, 0, v, fmt, 0);
    NothingLeft(t);
    assert Render(v, false, 0) + [] == Render(v, false, 0);
  }
}

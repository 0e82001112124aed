/**
 Parsing a rendering gives back the tree and consumes exactly the rendered bytes.
 */
module RoundTrip {
  import opened Bytes
  import opened Numbers
  import opened Literals
  import opened Json
  import opened ParseSpec

  /** Trees the round trip is promised for. */
  predicate Storable(v: Json) {
    Representable(v) && Plain(v)
  }

  predicate StorableItems(items: seq<Json>) {
    forall k :: 0 <= k < |items| ==> Storable(items[k])
  }

  lemma ArrayItems(v: Json)
    requires Storable(v) && v.Array?
    ensures StorableItems(v.items)
  {
  }

  lemma SkipWsStop(s: bytes, i: nat)
    requires NulTerminated(s) && i < |s| && s[i] > 32
    ensures SkipWs(s, i) == i
  {
  }

  /** White space standing at `i` is skipped. */
  lemma {:induction false} SkipWsOver(s: bytes, i: nat, w: bytes)
    requires NulTerminated(s) && At(s, i, w) && i + |w| < |s|
    requires forall k :: 0 <= k < |w| ==> w[k] <= 32
    ensures SkipWs(s, i) == SkipWs(s, i + |w|)
    decreases |w|
  {
    if w != [] {
      AtIndex(s, i, w, 0);
      assert w == [w[0]] + w[1..];
      AtConcat(s, i, [w[0]], w[1..]);
      SkipWsOver(s, i + 1, w[1..]);
    }
  }

  lemma StringRoundTrip(s: bytes, i: nat, t: bytes)
    requires NulTerminated(s) && NulFree(t)
    requires At(s, i, RenderString(Text(t)))
    ensures ParseString(s, i) == Name(t, i + |RenderString(Text(t))|)
  {
    hide At, NulTerminated, CloseQuote, Unescape, Escape, UpToNul;
    var e := Escape(t);
    AtConcat(s, i, [QUOTE], e + [QUOTE]);
    AtIndex(s, i, [QUOTE], 0);
    AtConcat(s, i + 1, e, [QUOTE]);
    AtIndex(s, i + 1 + |e|, [QUOTE], 0);
    CloseQuoteOfEscape(s, i + 1, t);
    UnescapeOfEscape(s, i + 1, i + 1 + |e|, [], t);
    assert [] + t == t;
  }

  lemma NumberRoundTrip(s: bytes, i: nat, t: bytes)
    requires NulTerminated(s) && ValidLexeme(t)
    requires At(s, i, t) && i + |t| < |s| && !IsNumberByte(s[i + |t|])
    ensures ParseNumber(s, i) == Parsed(Number(t), i + |t|)
  {
    forall k | i <= k < i + |t| ensures IsNumberByte(s[k]) {
      AtIndex(s, i, t, k - i);
    }
    hide NumberSpan, StrtodLen, NulTerminated;
    NumberSpanExact(s, i, COPY_LIMIT, |t|);
  }

  /** The first byte of a rendering, which selects the branch of `parse_value`. */
  lemma FirstByte(v: Json, fmt: bool, d: nat)
    requires Storable(v)
    ensures var r := Render(v, fmt, d);
            && |r| > 0 && 32 < r[0] < 128 && r[0] != RBRACKET && r[0] != RBRACE
            && (v.Number? ==> StartsNumber(r[0]))
            && (v.String? ==> r[0] == QUOTE)
            && (v.Array? ==> r[0] == LBRACKET)
            && (v.Object? ==> r[0] == LBRACE)
  {
  }

  /** A number must not run on into further number bytes; anything may follow other values. */
  predicate Delimited(v: Json, next: byte) {
    v.Number? ==> !IsNumberByte(next)
  }

  /**
   The printer/parser round trip, for a value standing anywhere in a buffer, printed at any
   depth `d` and parsed at any depth: the tree and exactly its bytes come back if the depth
   leaves room for its own nesting, and the parser refuses it if not.
   */
  lemma {:induction false} ValueRoundTrip(s: bytes, i: nat, v: Json, fmt: bool, d: nat, depth: nat)
    requires NulTerminated(s) && Storable(v)
    requires At(s, i, Render(v, fmt, d)) && i + |Render(v, fmt, d)| < |s|
    requires Delimited(v, s[i + |Render(v, fmt, d)|])
    requires depth <= NESTING_LIMIT
    ensures depth + Nesting(v) <= NESTING_LIMIT ==> ParseValue(s, i, depth) == Parsed(v, i + |Render(v, fmt, d)|)
    ensures depth + Nesting(v) > NESTING_LIMIT ==> ParseValue(s, i, depth).Failed?
    decreases v, 1
  {
    hide At, NulTerminated, Render, ParseValue, Storable;
    match v
    case Array(items) => ArrayRoundTrip(s, i, v, fmt, d, depth);
    case Object(ms) => ObjectRoundTrip(s, i, v, fmt, d, depth);
    case _ => LeafRoundTrip(s, i, v, fmt, d, depth);
  }

  lemma LeafRoundTrip(s: bytes, i: nat, v: Json, fmt: bool, d: nat, depth: nat)
    requires NulTerminated(s) && Storable(v) && !v.Array? && !v.Object?
    requires At(s, i, Render(v, fmt, d)) && i + |Render(v, fmt, d)| < |s|
    requires Delimited(v, s[i + |Render(v, fmt, d)|])
    requires depth <= NESTING_LIMIT
    ensures ParseValue(s, i, depth) == Parsed(v, i + |Render(v, fmt, d)|)
  {
    hide At, NulTerminated;
    FirstByte(v, fmt, d);
    AtIndex(s, i, Render(v, fmt, d), 0);
    match v
    case Number(t) => NotAWord(s, i); NumberRoundTrip(s, i, t);
    case String(c) => NotAWord(s, i); StringRoundTrip(s, i, c.chars);
    case _ => WordsDiffer(s, i);
  }

  lemma WordsDiffer(s: bytes, i: nat)
    ensures At(s, i, WORD_FALSE) || At(s, i, WORD_TRUE) ==> !At(s, i, WORD_NULL)
    ensures At(s, i, WORD_TRUE) ==> !At(s, i, WORD_FALSE)
  {
    if At(s, i, WORD_NULL) { AtIndex(s, i, WORD_NULL, 0); }
    if At(s, i, WORD_FALSE) { AtIndex(s, i, WORD_FALSE, 0); }
    if At(s, i, WORD_TRUE) { AtIndex(s, i, WORD_TRUE, 0); }
  }

  lemma {:induction false} ArrayRoundTrip(s: bytes, i: nat, v: Json, fmt: bool, d: nat, depth: nat)
    requires NulTerminated(s) && Storable(v) && v.Array?
    requires At(s, i, Render(v, fmt, d)) && i + |Render(v, fmt, d)| < |s|
    requires depth <= NESTING_LIMIT
    ensures depth + Nesting(v) <= NESTING_LIMIT ==> ParseValue(s, i, depth) == Parsed(v, i + |Render(v, fmt, d)|)
    ensures depth + Nesting(v) > NESTING_LIMIT ==> ParseValue(s, i, depth).Failed?
    decreases v, 0
  {
    hide At, NulTerminated, SkipWs, ParseItems, ParseValue, Storable, RenderItems, NestingOfItems;
    ArrayItems(v);
    var body := RenderItems(v.items, fmt, d + 1);
    ArrayIs(v, fmt, d);
    hide Render, Nesting;
    AtConcat(s, i, [LBRACKET], body + [RBRACKET]);
    AtIndex(s, i, [LBRACKET], 0);
    ArrayUnfold(s, i, depth);
    AtConcat(s, i + 1, body, [RBRACKET]);
    AtIndex(s, i + 1 + |body|, [RBRACKET], 0);
    if v.items == [] {
      SkipWsStop(s, i + 1);
    } else {
      ItemsFirstByte(s, i + 1, v.items, fmt, d + 1);
      SkipWsStop(s, i + 1);
      if depth < NESTING_LIMIT {
        ItemsRoundTrip(s, i + 1, i + 1, v.items, fmt, d + 1, depth + 1, []);
        assert [] + v.items == v.items;
      }
    }
  }

  lemma ArrayIs(v: Json, fmt: bool, d: nat)
    requires v.Array?
    ensures Render(v, fmt, d) == [LBRACKET] + (RenderItems(v.items, fmt, d + 1) + [RBRACKET])
    ensures Nesting(v) == 1 + NestingOfItems(v.items)
    ensures v.items == [] ==> RenderItems(v.items, fmt, d + 1) == [] && NestingOfItems(v.items) == 0
  {
  }

  /** The items' text starts with the first item, and goes on with a separator or the bracket. */
  lemma ItemsFirstByte(s: bytes, i: nat, items: seq<Json>, fmt: bool, d: nat)
    requires items != [] && StorableItems(items)
    requires At(s, i, RenderItems(items, fmt, d)) && i + |RenderItems(items, fmt, d)| < |s|
    ensures At(s, i, Render(items[0], fmt, d)) && i + |Render(items[0], fmt, d)| < |s|
    ensures s[i] > 32 && s[i] != RBRACKET
    ensures |items| > 1 ==>
              var j := i + |Render(items[0], fmt, d)|;
              At(s, j, ItemSeparator(fmt)) && At(s, j + |ItemSeparator(fmt)|, RenderItems(items[1..], fmt, d))
    ensures |items| > 1 ==>
              |RenderItems(items, fmt, d)| ==
              |Render(items[0], fmt, d)| + |ItemSeparator(fmt)| + |RenderItems(items[1..], fmt, d)|
  {
    hide At;
    var first := Render(items[0], fmt, d);
    FirstByte(items[0], fmt, d);
    if |items| > 1 {
      var rest := RenderItems(items[1..], fmt, d);
      AtConcat(s, i, first, ItemSeparator(fmt) + rest);
      AtConcat(s, i + |first|, ItemSeparator(fmt), rest);
    }
    AtIndex(s, i, first, 0);
  }

  /** The loop of `parse_array`, entered at `p` with white space up to the first item at `i`. */
  lemma {:induction false} ItemsRoundTrip(
      s: bytes, p: nat, i: nat, items: seq<Json>, fmt: bool, d: nat, depth: nat, acc: seq<Json>)
    requires NulTerminated(s) && items != [] && StorableItems(items)
    requires p < |s| && SkipWs(s, p) == i
    requires At(s, i, RenderItems(items, fmt, d))
    requires var e := i + |RenderItems(items, fmt, d)|; e + 1 < |s| && s[e] == RBRACKET
    requires depth <= NESTING_LIMIT
    ensures depth + NestingOfItems(items) <= NESTING_LIMIT ==>
              ParseItems(s, p, depth, acc) == Parsed(Array(acc + items), i + |RenderItems(items, fmt, d)| + 1)
    ensures depth + NestingOfItems(items) > NESTING_LIMIT ==> ParseItems(s, p, depth, acc).Failed?
    decreases items
  {
    hide At, NulTerminated, SkipWs, Storable, ParseItems, ParseValue, Render, RenderItems, NestingOfItems, Nesting, ItemSeparator;
    ItemsFirstByte(s, i, items, fmt, d);
    ItemsSizes(items, fmt, d);
    var j := i + |Render(items[0], fmt, d)|;
    if |items| > 1 {
      SeparatorHere(s, j, fmt);
    }
    ValueRoundTrip(s, i, items[0], fmt, d, depth);
    SkipWsStop(s, j);
    var r := ParseValue(s, i, depth);
    ItemsUnfold(s, p, depth, acc, if r.Failed? then r.at else j);
    if |items| == 1 {
      assert items == [items[0]];
    } else {
      AfterSeparator(s, j, items, fmt, d);
      ItemsRoundTrip(s, j + 1, j + |ItemSeparator(fmt)|, items[1..], fmt, d, depth, acc + [items[0]]);
      assert acc + [items[0]] + items[1..] == acc + items;
    }
  }

  lemma SeparatorHere(s: bytes, j: nat, fmt: bool)
    requires At(s, j, ItemSeparator(fmt))
    ensures j < |s| && s[j] == COMMA
  {
    AtIndex(s, j, ItemSeparator(fmt), 0);
  }

  lemma ItemsSizes(items: seq<Json>, fmt: bool, d: nat)
    requires items != []
    ensures |items| == 1 ==> |RenderItems(items, fmt, d)| == |Render(items[0], fmt, d)| && NestingOfItems(items) == Nesting(items[0])
    ensures |items| > 1 ==>
              && |RenderItems(items, fmt, d)| == |Render(items[0], fmt, d)| + |ItemSeparator(fmt)| + |RenderItems(items[1..], fmt, d)|
              && NestingOfItems(items) == (if Nesting(items[0]) < NestingOfItems(items[1..]) then NestingOfItems(items[1..]) else Nesting(items[0]))
  {
    hide Render, Nesting;
    if |items| == 1 {
      assert items[1..] == [] && NestingOfItems([]) == 0;
    }
  }

  lemma AfterSeparator(s: bytes, j: nat, items: seq<Json>, fmt: bool, d: nat)
    requires NulTerminated(s) && |items| > 1 && StorableItems(items)
    requires At(s, j, ItemSeparator(fmt))
    requires var k := j + |ItemSeparator(fmt)|;
             At(s, k, RenderItems(items[1..], fmt, d)) && k + |RenderItems(items[1..], fmt, d)| < |s|
    ensures j + 1 < |s| && SkipWs(s, j + 1) == j + |ItemSeparator(fmt)|
  {
    var k := j + |ItemSeparator(fmt)|;
    ItemsFirstByte(s, k, items[1..], fmt, d);
    SkipWsStop(s, k);
    if fmt {
      assert ItemSeparator(fmt) == [COMMA] + [SPACE];
      AtConcat(s, j, [COMMA], [SPACE]);
      SkipWsOver(s, j + 1, [SPACE]);
    }
  }

  // ---------------------------------------------------------------- objects

  /** The text of an object after its opening brace and newline. */
  function Tail(ms: seq<Member>, fmt: bool, d: nat): (r: bytes)
    requires d > 0
  {
    RenderMembers(ms, fmt, d) + (Tabs(fmt, d - 1) + [RBRACE])
  }

  predicate StorableMembers(ms: seq<Member>) {
    forall k :: 0 <= k < |ms| ==> StorableMember(ms[k])
  }

  predicate StorableMember(m: Member) {
    m.name.Text? && NulFree(m.name.chars) && Storable(m.value)
  }

  lemma {:induction false} ObjectRoundTrip(s: bytes, i: nat, v: Json, fmt: bool, d: nat, depth: nat)
    requires NulTerminated(s) && Storable(v) && v.Object?
    requires At(s, i, Render(v, fmt, d)) && i + |Render(v, fmt, d)| < |s|
    requires depth <= NESTING_LIMIT
    ensures depth + Nesting(v) <= NESTING_LIMIT ==> ParseValue(s, i, depth) == Parsed(v, i + |Render(v, fmt, d)|)
    ensures depth + Nesting(v) > NESTING_LIMIT ==> ParseValue(s, i, depth).Failed?
    decreases v, 0
  {
    hide At, NulTerminated, SkipWs, ParseMembers, ParseValue, RenderMembers, Tail, Storable;
    ObjectMembers(v);
    var ms := v.members;
    var p := ObjectOpen(s, i, ms, fmt, d, depth);
    if ms == [] {
      EmptyTail(s, p, fmt, d);
    } else {
      var q := TailStart(s, p, ms, fmt, d + 1);
      SkipWsStop(s, q);
      if depth < NESTING_LIMIT {
        MembersRoundTrip(s, q, p, ms, fmt, d + 1, depth + 1, []);
        assert [] + ms == ms;
      }
    }
  }

  lemma ObjectMembers(v: Json)
    requires Storable(v) && v.Object?
    ensures StorableMembers(v.members)
  {
  }

  /** The opening brace selects `parse_object`, which skips the newline after it. */
  lemma ObjectOpen(s: bytes, i: nat, ms: seq<Member>, fmt: bool, d: nat, depth: nat) returns (p: nat)
    requires NulTerminated(s) && depth <= NESTING_LIMIT
    requires At(s, i, Render(Object(ms), fmt, d)) && i + |Render(Object(ms), fmt, d)| < |s|
    ensures p + |Tail(ms, fmt, d + 1)| == i + |Render(Object(ms), fmt, d)|
    ensures p < |s| && At(s, p, Tail(ms, fmt, d + 1))
    ensures ParseValue(s, i, depth) ==
            if depth >= NESTING_LIMIT then Failed(i)
            else if s[SkipWs(s, p)] == RBRACE then Parsed(Object([]), SkipWs(s, p) + 1)
            else ParseMembers(s, SkipWs(s, p), depth + 1, [])
  {
    hide At, NulTerminated, SkipWs, ParseMembers, ParseValue, RenderMembers;
    var tail := Tail(ms, fmt, d + 1);
    AtConcat(s, i, [LBRACE], Newline(fmt) + tail);
    AtIndex(s, i, [LBRACE], 0);
    ObjectUnfold(s, i, depth);
    AtConcat(s, i + 1, Newline(fmt), tail);
    p := i + 1 + |Newline(fmt)|;
    SkipWsOver(s, i + 1, Newline(fmt));
  }

  /** With no members left the indentation leads to the closing brace. */
  lemma EmptyTail(s: bytes, p: nat, fmt: bool, d: nat)
    requires NulTerminated(s) && At(s, p, Tail([], fmt, d + 1))
    ensures p < |s| && s[SkipWs(s, p)] == RBRACE
    ensures SkipWs(s, p) + 1 == p + |Tail([], fmt, d + 1)|
  {
    assert Tail([], fmt, d + 1) == Tabs(fmt, d) + [RBRACE];
    AtConcat(s, p, Tabs(fmt, d), [RBRACE]);
    var e := p + |Tabs(fmt, d)|;
    AtIndex(s, e, [RBRACE], 0);
    SkipWsOver(s, p, Tabs(fmt, d));
    SkipWsStop(s, e);
  }

  /** The tail splits into the first line and the tail of the rest. */
  lemma TailSplit(s: bytes, p: nat, ms: seq<Member>, fmt: bool, d: nat)
    requires ms != [] && d > 0 && At(s, p, Tail(ms, fmt, d))
    ensures var line := RenderMember(ms[0], fmt, d, |ms| == 1);
            && At(s, p, line)
            && At(s, p + |line|, Tail(ms[1..], fmt, d))
            && |Tail(ms, fmt, d)| == |line| + |Tail(ms[1..], fmt, d)|
  {
    hide At, RenderMember, Tabs;
    var line := RenderMember(ms[0], fmt, d, |ms| == 1);
    Assoc(line, RenderMembers(ms[1..], fmt, d), Tabs(fmt, d - 1) + [RBRACE]);
    AtConcat(s, p, line, Tail(ms[1..], fmt, d));
  }

  /** After its indentation a line starts with the quote of the name. */
  lemma LineStart(s: bytes, p: nat, m: Member, fmt: bool, d: nat, last: bool) returns (q: nat)
    requires NulTerminated(s) && At(s, p, RenderMember(m, fmt, d, last))
    ensures p < |s| && q == SkipWs(s, p) == p + |Tabs(fmt, d)| && s[q] == QUOTE
    ensures At(s, q, RenderString(m.name) + (NameSeparator(fmt) + (Render(m.value, fmt, d) + MemberEnd(fmt, last))))
  {
    hide At, NulTerminated, SkipWs, Render, MemberEnd, Escape;
    var name := RenderString(m.name);
    var rest := NameSeparator(fmt) + (Render(m.value, fmt, d) + MemberEnd(fmt, last));
    AtConcat(s, p, Tabs(fmt, d), name + rest);
    q := p + |Tabs(fmt, d)|;
    AtIndex(s, q, name + rest, 0);
    SkipWsOver(s, p, Tabs(fmt, d));
    SkipWsStop(s, q);
  }

  lemma TailStart(s: bytes, p: nat, ms: seq<Member>, fmt: bool, d: nat) returns (q: nat)
    requires NulTerminated(s) && ms != [] && d > 0 && At(s, p, Tail(ms, fmt, d))
    ensures p < |s| && q == SkipWs(s, p) && s[q] == QUOTE
  {
    hide At, NulTerminated, SkipWs, Tail;
    TailSplit(s, p, ms, fmt, d);
    q := LineStart(s, p, ms[0], fmt, d, |ms| == 1);
  }

  /** One member: the name, the colon and the value are read back, up to the line end. */
  lemma {:induction false} MemberRoundTrip(
      s: bytes, q: nat, p: nat, m: Member, fmt: bool, d: nat, depth: nat, last: bool) returns (next: nat)
    requires NulTerminated(s) && StorableMember(m)
    requires q < |s| && p < |s| && SkipWs(s, q) == SkipWs(s, p)
    requires At(s, p, RenderMember(m, fmt, d, last)) && p + |RenderMember(m, fmt, d, last)| < |s|
    requires !IsNumberByte(s[p + |RenderMember(m, fmt, d, last)|])
    requires depth <= NESTING_LIMIT
    ensures next + |MemberEnd(fmt, last)| == p + |RenderMember(m, fmt, d, last)|
    ensures depth + NestingOfMember(m) <= NESTING_LIMIT ==> ParseMember(s, q, depth) == OneMember(m, next)
    ensures depth + NestingOfMember(m) > NESTING_LIMIT ==> ParseMember(s, q, depth).NoMember?
    ensures At(s, next, MemberEnd(fmt, last))
    decreases m
  {
    hide At, NulTerminated, SkipWs, ParseValue, ParseString, Render, RenderString, Representable, Plain;
    var c;
    c, next := MemberParts(s, p, m, fmt, d, last);
    var at := c + |NameSeparator(fmt)|;
    LineEnd(s, next, fmt, last);
    ValueRoundTrip(s, at, m.value, fmt, d, depth);
  }

  /** The parts of a line: the name up to the colon at `c`, the value up to the line end at `next`. */
  lemma MemberParts(s: bytes, p: nat, m: Member, fmt: bool, d: nat, last: bool) returns (c: nat, next: nat)
    requires NulTerminated(s) && StorableMember(m)
    requires At(s, p, RenderMember(m, fmt, d, last)) && p + |RenderMember(m, fmt, d, last)| < |s|
    ensures p < |s| && ParseString(s, SkipWs(s, p)) == Name(m.name.chars, c)
    ensures SkipWs(s, c) == c && s[c] == COLON && c + 1 < |s| && SkipWs(s, c + 1) == c + |NameSeparator(fmt)|
    ensures At(s, c + |NameSeparator(fmt)|, Render(m.value, fmt, d))
    ensures next == c + |NameSeparator(fmt)| + |Render(m.value, fmt, d)|
    ensures next + |MemberEnd(fmt, last)| == p + |RenderMember(m, fmt, d, last)|
    ensures At(s, next, MemberEnd(fmt, last))
  {
    hide At, NulTerminated, SkipWs, ParseString, Render, RenderString, Representable, Plain;
    var start := LineStart(s, p, m, fmt, d, last);
    var name, value, eol := RenderString(m.name), Render(m.value, fmt, d), MemberEnd(fmt, last);
    AtConcat(s, start, name, NameSeparator(fmt) + (value + eol));
    StringRoundTrip(s, start, m.name.chars);
    c := start + |name|;
    AtConcat(s, c, NameSeparator(fmt), value + eol);
    var at := c + |NameSeparator(fmt)|;
    AtConcat(s, at, value, eol);
    next := at + |value|;
    AfterColon(s, c, at, m.value, fmt, d);
  }

  lemma LineEnd(s: bytes, next: nat, fmt: bool, last: bool)
    requires At(s, next, MemberEnd(fmt, last)) && next + |MemberEnd(fmt, last)| < |s|
    requires !IsNumberByte(s[next + |MemberEnd(fmt, last)|])
    ensures !IsNumberByte(s[next])
    ensures !last ==> s[next] == COMMA
  {
    if MemberEnd(fmt, last) != [] {
      AtIndex(s, next, MemberEnd(fmt, last), 0);
    }
  }

  lemma AfterColon(s: bytes, c: nat, at: nat, v: Json, fmt: bool, d: nat)
    requires NulTerminated(s) && Storable(v)
    requires At(s, c, NameSeparator(fmt)) && at == c + |NameSeparator(fmt)|
    requires At(s, at, Render(v, fmt, d)) && at + |Render(v, fmt, d)| < |s|
    ensures c + 1 < |s| && SkipWs(s, c) == c && s[c] == COLON && SkipWs(s, c + 1) == at
  {
    hide At;
    FirstByte(v, fmt, d);
    AtIndex(s, at, Render(v, fmt, d), 0);
    AtIndex(s, c, NameSeparator(fmt), 0);
    SkipWsStop(s, at);
    if fmt {
      assert NameSeparator(fmt) == [COLON] + [TAB];
      AtConcat(s, c, [COLON], [TAB]);
      SkipWsOver(s, c + 1, [TAB]);
    }
  }

  /** No tail starts with a byte a number could run into. */
  lemma TailFirstByte(s: bytes, p: nat, ms: seq<Member>, fmt: bool, d: nat)
    requires NulTerminated(s) && d > 0 && At(s, p, Tail(ms, fmt, d))
    ensures p < |s| && !IsNumberByte(s[p])
  {
    hide At, NulTerminated, Tail;
    if ms == [] {
      EmptyTail(s, p, fmt, d - 1);
    } else {
      var q := TailStart(s, p, ms, fmt, d);
    }
  }

  /** The last line ends with white space up to the closing brace. */
  lemma LastLine(s: bytes, next: nat, end: nat, fmt: bool, d: nat)
    requires NulTerminated(s) && d > 0
    requires At(s, next, MemberEnd(fmt, true)) && next + |MemberEnd(fmt, true)| == end
    requires At(s, end, Tail([], fmt, d))
    ensures end < |s| && SkipWs(s, next) == SkipWs(s, end) && s[SkipWs(s, end)] == RBRACE
    ensures SkipWs(s, end) + 1 == end + |Tail([], fmt, d)|
  {
    hide At, NulTerminated, SkipWs, Tail;
    EmptyTail(s, end, fmt, d - 1);
    SkipWsOver(s, next, MemberEnd(fmt, true));
  }

  /** Any other line ends with a comma and white space up to the next line. */
  lemma NextLine(s: bytes, next: nat, end: nat, fmt: bool)
    requires NulTerminated(s) && end < |s|
    requires At(s, next, MemberEnd(fmt, false)) && next + |MemberEnd(fmt, false)| == end
    ensures SkipWs(s, next) == next && s[next] == COMMA && SkipWs(s, next + 1) == SkipWs(s, end)
  {
    hide At, NulTerminated, SkipWs;
    AtConcat(s, next, [COMMA], Newline(fmt));
    AtIndex(s, next, [COMMA], 0);
    SkipWsStop(s, next);
    SkipWsOver(s, next + 1, Newline(fmt));
  }

  /** The loop of `parse_object`, entered at `q` with white space up to the line at `p`. */
  lemma {:induction false} MembersRoundTrip(
      s: bytes, q: nat, p: nat, ms: seq<Member>, fmt: bool, d: nat, depth: nat, acc: seq<Member>)
    requires NulTerminated(s) && ms != [] && d > 0 && StorableMembers(ms)
    requires At(s, p, Tail(ms, fmt, d)) && p + |Tail(ms, fmt, d)| < |s|
    requires q < |s| && SkipWs(s, q) == SkipWs(s, p)
    requires depth <= NESTING_LIMIT
    ensures depth + NestingOfMembers(ms) <= NESTING_LIMIT ==>
              ParseMembers(s, q, depth, acc) == Parsed(Object(acc + ms), p + |Tail(ms, fmt, d)|)
    ensures depth + NestingOfMembers(ms) > NESTING_LIMIT ==> ParseMembers(s, q, depth, acc).Failed?
    decreases ms
  {
    hide At, NulTerminated, SkipWs, ParseMember, ParseMembers, StorableMember, RenderMember, Tail;
    TailSplit(s, p, ms, fmt, d);
    var last := |ms| == 1;
    var end := p + |RenderMember(ms[0], fmt, d, last)|;
    TailFirstByte(s, end, ms[1..], fmt, d);
    var next := MemberRoundTrip(s, q, p, ms[0], fmt, d, depth, last);
    var r := ParseMember(s, q, depth);
    MembersUnfold(s, q, depth, acc, if r.NoMember? then r.at else SkipWs(s, next));
    if last {
      assert ms == [ms[0]];
      assert NestingOfMembers(ms) == NestingOfMember(ms[0]);
      LastLine(s, next, end, fmt, d);
    } else {
      NextLine(s, next, end, fmt);
      MembersRoundTrip(s, next + 1, end, ms[1..], fmt, d, depth, acc + [ms[0]]);
      assert acc + [ms[0]] + ms[1..] == acc + ms;
    }
  }

  /**
   Printing and parsing a whole document, with or without formatting and with or without the
   check for trailing text: the tree comes back exactly when it nests no deeper than the limit.
   */
  lemma DocumentRoundTrip(v: Json, fmt: bool, requireEnd: bool)
    requires Storable(v)
    ensures NulFree(Render(v, fmt, 0))
    ensures Nesting(v) <= 1000 ==>
              ParseText(Render(v, fmt, 0), requireEnd) == Document(v, |Render(v, fmt, 0)|)
    ensures Nesting(v) > 1000 ==> ParseText(Render(v, fmt, 0), requireEnd).SyntaxError?
  {
    hide Render, Representable, Plain, ParseValue;
    RenderNulFree(v, fmt, 0);
    var t := Render(v, fmt, 0);
    var s := Terminate(t);
    assert At(s, 0, t);
    FirstByte(v, fmt, 0);
    AtIndex(s, 0, t, 0);
    if At(s, 0, [0xEF, 0xBB, 0xBF]) {
      AtIndex(s, 0, [0xEF, 0xBB, 0xBF], 0);
    }
    SkipWsStop(s, 0);
    ValueRoundTrip(s, 0, v, fmt, 0, 0);
    assert s[|t|] == NUL && SkipWs(s, |t|) == |t|;
  }
}

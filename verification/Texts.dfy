/**
 Whole texts given to `cJSON_ParseWithOpts`: a byte order mark and white space around a value, what
 follows it, texts in which no value starts, and the positions reported.
 */
module Texts {
  import opened Bytes
  import opened Literals
  import opened Json
  import opened ParseSpec
  import MinifyParts
  import opened RoundTrip

  /** Nothing, or the byte order mark of UTF-8. */
  predicate Mark(b: bytes) {
    b == [] || b == [0xEF, 0xBB, 0xBF]
  }

  predicate Blank(w: bytes) {
    forall k :: 0 <= k < |w| ==> 1 <= w[k] <= 32
  }

  /** What may follow the value and the white space behind it. */
  predicate Follows(v: Json, w: bytes, rest: bytes) {
    && NulFree(rest) && (rest != [] ==> rest[0] > 32)
    && (w == [] && rest != [] ==> Delimited(v, rest[0]))
  }

  lemma SkipsTo(s: bytes, i: nat, w: bytes)
    requires NulTerminated(s) && At(s, i, w) && i + |w| < |s| && Blank(w)
    requires s[i + |w|] > 32 || i + |w| == |s| - 1
    ensures SkipWs(s, i) == i + |w|
  {
    hide At, NulTerminated;
    SkipWsOver(s, i, w);
  }

  /** Where the first value of a text is looked for. */
  lemma StartsAt(b: bytes, w: bytes, r: bytes)
    requires Mark(b) && Blank(w) && NulFree(r) && (r != [] ==> r[0] > 32)
    requires b == [] ==> w == [] ==> r != [] ==> r[0] != 0xEF
    requires b != [] ==> w + r != []
    ensures var t := b + (w + r);
            && NulFree(t) && SkipWs(Terminate(t), AfterBom(Terminate(t))) == |b| + |w|
  {
    var t := b + (w + r);
    var s := Terminate(t);
    assert s == t + [0];
    if b == [] {
      assert s[0] == (w + r + [0])[0];
      if At(s, 0, [0xEF, 0xBB, 0xBF]) {
        AtIndex(s, 0, [0xEF, 0xBB, 0xBF], 0);
      }
      assert AfterBom(s) == 0;
    } else {
      assert s[0..3] == b;
      assert AfterBom(s) == 3;
    }
    assert s[|b|..|b| + |w|] == w;
    assert s[|b| + |w|] == if r == [] then 0 else r[0];
    SkipsTo(s, |b|, w);
  }

  /** A value that fits the nesting limit is read with a byte order mark and white space in front of it.
      Whatever follows it is left alone, unless the text is to end there: then white space may follow,
      and the first other byte is the error. */
  lemma ValueInText(b: bytes, w: bytes, v: Json, fmt: bool, w': bytes, rest: bytes, requireEnd: bool)
    requires Mark(b) && Blank(w) && Storable(v) && Nesting(v) <= 1000 && Blank(w') && Follows(v, w', rest)
    ensures var r := Render(v, fmt, 0);
            var t, n := b + (w + (r + (w' + rest))), |b| + |w| + |r|;
            && NulFree(t)
            && ParseText(t, requireEnd) ==
               if !requireEnd then Document(v, n)
               else if rest == [] then Document(v, n + |w'|)
               else SyntaxError(n + |w'|)
  {
    hide *;
    var r, tail := Render(v, fmt, 0), w' + rest;
    Rendered(v, fmt, w', rest);
    StartsAt(b, w, r + tail);
    assert b + (w + (r + tail)) == b + (w + (r + (w' + rest)));
    Stands(b, w, r, w', rest);
    var s := Terminate(b + (w + (r + (w' + rest))));
    ValueAt(s, |b| + |w|, v, fmt, w', rest);
    ReadAs(b + (w + (r + (w' + rest))), requireEnd, |b| + |w|, v, |b| + |w| + |r|, |b| + |w| + |r| + |w'|);
  }

  /** The outcome once the places are known. */
  lemma ReadAs(t: bytes, requireEnd: bool, i: nat, v: Json, n: nat, m: nat)
    requires NulFree(t)
    requires var s := Terminate(t);
             && SkipWs(s, AfterBom(s)) == i && ParseValue(s, i, 0) == Parsed(v, n)
             && n < |s| && SkipWs(s, n) == m
    ensures ParseText(t, requireEnd) ==
            if !requireEnd then Document(v, n) else if Terminate(t)[m] == 0 then Document(v, m) else SyntaxError(m)
  {
    hide ParseValue, SkipWs, AfterBom, Terminate;
  }

  lemma Rendered(v: Json, fmt: bool, w': bytes, rest: bytes)
    requires Storable(v) && Blank(w') && Follows(v, w', rest)
    ensures var r := Render(v, fmt, 0) + (w' + rest); NulFree(r) && r != [] && 32 < r[0] < 128
    ensures Render(v, fmt, 0) != []
  {
    hide Render, Storable;
    DocumentRoundTrip(v, fmt, false);
    FirstByte(v, fmt, 0);
  }

  lemma ValueAt(s: bytes, i: nat, v: Json, fmt: bool, w': bytes, rest: bytes)
    requires NulTerminated(s) && Storable(v) && Nesting(v) <= 1000 && Blank(w') && Follows(v, w', rest)
    requires var n := i + |Render(v, fmt, 0)|;
             && At(s, i, Render(v, fmt, 0)) && At(s, n, w') && n + |w'| + |rest| == |s| - 1
             && s[n + |w'|] == (if rest == [] then 0 else rest[0]) && (w' != [] ==> s[n] == w'[0])
    ensures var n := i + |Render(v, fmt, 0)|;
            ParseValue(s, i, 0) == Parsed(v, n) && SkipWs(s, n) == n + |w'|
  {
    hide Render, Storable, ParseValue, NulTerminated, SkipWs, At, Nesting;
    ValueRoundTrip(s, i, v, fmt, 0, 0);
    SkipsTo(s, i + |Render(v, fmt, 0)|, w');
  }

  lemma Stands(b: bytes, w: bytes, r: bytes, w': bytes, rest: bytes)
    requires NulFree(b + (w + (r + (w' + rest))))
    ensures var s, n := Terminate(b + (w + (r + (w' + rest)))), |b| + |w| + |r|;
            && At(s, |b| + |w|, r) && At(s, n, w') && n + |w'| + |rest| == |s| - 1
            && s[n + |w'|] == (if rest == [] then 0 else rest[0])
            && (w' != [] ==> s[n] == w'[0])
  {
    var s, n := Terminate(b + (w + (r + (w' + rest)))), |b| + |w| + |r|;
    assert s[|b| + |w|..n] == r;
    assert s[n..n + |w'|] == w';
  }

  /** No value starts with this byte. */
  predicate StartsNothing(c: byte) {
    c != 34 && c != 45 && !(48 <= c <= 57) && c != 91 && c != 123 && c != 110 && c != 102 && c != 116
  }

  lemma NoValueAt(s: bytes, i: nat)
    requires NulTerminated(s) && i < |s| && StartsNothing(s[i])
    ensures ParseValue(s, i, 0) == Failed(i)
  {
    hide NulTerminated;
    if At(s, i, WORD_NULL) {
      AtIndex(s, i, WORD_NULL, 0);
    }
    if At(s, i, WORD_FALSE) {
      AtIndex(s, i, WORD_FALSE, 0);
    }
    if At(s, i, WORD_TRUE) {
      AtIndex(s, i, WORD_TRUE, 0);
    }
  }

  /** A text in which something else comes first, or nothing, is refused at that place. */
  lemma NoValueInText(b: bytes, w: bytes, r: bytes, requireEnd: bool)
    requires Mark(b) && Blank(w) && NulFree(r) && (r != [] ==> r[0] > 32 && StartsNothing(r[0]))
    requires if b == [] then w == [] && r != [] ==> r[0] != 0xEF else w + r != []
    ensures NulFree(b + (w + r)) && ParseText(b + (w + r), requireEnd) == SyntaxError(|b| + |w|)
  {
    hide ParseValue, NulTerminated, SkipWs;
    StartsAt(b, w, r);
    var s := Terminate(b + (w + r));
    assert s[|b| + |w|] == if r == [] then 0 else r[0];
    NoValueAt(s, |b| + |w|);
  }

  /** A byte order mark with nothing behind it is not skipped, and no value either. */
  lemma MarkAlone(requireEnd: bool)
    ensures ParseText([0xEF, 0xBB, 0xBF], requireEnd) == SyntaxError(0)
  {
    hide ParseValue;
    var s := Terminate([0xEF, 0xBB, 0xBF]);
    assert s == [0xEF, 0xBB, 0xBF, 0];
    NoValueAt(s, 0);
  }

  /** A string that is not closed is refused right behind its quote. */
  lemma OpenString(w: bytes, requireEnd: bool)
    requires NulFree(w) && MinifyParts.Inside(w)
    ensures NulFree([34] + w) && ParseText([34] + w, requireEnd) == SyntaxError(1)
  {
    hide MinifyParts.Inside, NulTerminated;
    var t := [34] + w;
    var s := Terminate(t);
    assert s[0] == 34 && !At(s, 0, [0xEF, 0xBB, 0xBF]) by {
      assert s[0..1] == [34];
      if At(s, 0, [0xEF, 0xBB, 0xBF]) {
        AtIndex(s, 0, [0xEF, 0xBB, 0xBF], 0);
      }
    }
    assert s[1..1 + |w|] == w;
    MinifyParts.CloseQuoteAfter(s, 1, w);
    assert s[1 + |w|] == 0;
    assert CloseQuote(s, 1) == None;
    NotAWord(s, 0);
  }

  /** An object that is only begun is refused at the end of the text. */
  lemma OpenObject(w: bytes, requireEnd: bool)
    requires Blank(w)
    ensures NulFree([123] + w) && ParseText([123] + w, requireEnd) == SyntaxError(1 + |w|)
  {
    hide NulTerminated, ParseMembers, ParseMember;
    var t := [123] + w;
    var s := Terminate(t);
    assert s == t + [0];
    assert s[0] == 123 && !At(s, 0, [0xEF, 0xBB, 0xBF]) by {
      assert s[0] == t[0];
      if At(s, 0, [0xEF, 0xBB, 0xBF]) {
        AtIndex(s, 0, [0xEF, 0xBB, 0xBF], 0);
      }
    }
    assert s[1..1 + |w|] == w;
    SkipsTo(s, 1, w);
    var j := 1 + |w|;
    assert s[j] == 0 && j == |s| - 1;
    ObjectUnfold(s, 0, 0);
    MemberFails(s, j, 1);
    MembersUnfold(s, j, 1, [], j + 1);
  }
}

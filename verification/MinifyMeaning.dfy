/**
 Minification keeps the meaning of every text the parser accepts, formatted by anyone: the
 minifier stays inside it, and the result parses to the same tree.
 */
module MinifyMeaning {
  import opened Bytes
  import opened Unicode
  import opened Numbers
  import opened Literals
  import opened Json
  import opened ParseSpec
  import opened Minify
  import RoundTrip

  /** Position `j` of the minified text `u` is where position `i` of `t` ended up. */
  predicate Tracks(t: bytes, u: bytes, i: nat, j: nat) {
    i <= |t| && j <= |u| && Minified(t, i) == Some(u[j..])
  }

  // ---------------------------------------------------------------- moving along

  /** At a byte that is neither blank nor a slash both texts read the same; at the end, too. */
  lemma SameByte(t: bytes, u: bytes, i: nat, j: nat)
    requires NulFree(t) && NulFree(u) && Tracks(t, u, i, j)
    requires i == |t| || (!IsBlank(t[i]) && t[i] != SLASH)
    ensures Terminate(u)[j] == Terminate(t)[i]
    ensures i == |t| <==> j == |u|
  {
    hide CloseQuote;
    if i < |t| {
      assert u[j] == u[j..][0];
    }
  }

  lemma StepBlank(t: bytes, u: bytes, i: nat, j: nat)
    requires Tracks(t, u, i, j) && i < |t| && IsBlank(t[i])
    ensures Tracks(t, u, i + 1, j)
  {
  }

  lemma StepOrdinary(t: bytes, u: bytes, i: nat, j: nat)
    requires Tracks(t, u, i, j) && i < |t| && !IsBlank(t[i]) && t[i] != SLASH && t[i] != QUOTE
    ensures j < |u| && u[j] == t[i] && Tracks(t, u, i + 1, j + 1)
  {
    hide CloseQuote;
    assert u[j] == u[j..][0];
    assert u[j + 1..] == u[j..][1..];
  }

  lemma {:induction false} StepRun(t: bytes, u: bytes, i: nat, j: nat, n: nat)
    requires Tracks(t, u, i, j) && i + n <= |t|
    requires forall k :: i <= k < i + n ==> !IsBlank(t[k]) && t[k] != SLASH && t[k] != QUOTE
    ensures j + n <= |u| && u[j..j + n] == t[i..i + n] && Tracks(t, u, i + n, j + n)
    decreases n
  {
    if n > 0 {
      StepOrdinary(t, u, i, j);
      StepRun(t, u, i + 1, j + 1, n - 1);
      assert t[i..i + n] == [t[i]] + t[i + 1..i + n];
      assert u[j..j + n] == [u[j]] + u[j + 1..j + n];
    }
  }

  lemma StepLiteral(t: bytes, u: bytes, i: nat, j: nat, close: nat)
    requires Tracks(t, u, i, j) && i < |t| && t[i] == QUOTE && CloseQuote(t, i + 1) == Some(close)
    ensures var n := close + 1 - i;
            j + n <= |u| && u[j..j + n] == t[i..i + n] && Tracks(t, u, i + n, j + n)
  {
    hide CloseQuote;
    var n := close + 1 - i;
    assert u[j..][..n] == t[i..i + n];
    assert u[j..j + n] == u[j..][..n];
    assert u[j + n..] == u[j..][n..];
  }

  /** Skipping white space in both texts arrives at corresponding positions. */
  lemma {:induction false} StepWs(t: bytes, u: bytes, i: nat, j: nat) returns (m: nat)
    requires NulFree(t) && NulFree(u) && Tracks(t, u, i, j)
    requires Terminate(t)[SkipWs(Terminate(t), i)] != SLASH
    ensures m == SkipWs(Terminate(u), j)
    ensures Tracks(t, u, SkipWs(Terminate(t), i), m)
    ensures Terminate(u)[m] == Terminate(t)[SkipWs(Terminate(t), i)]
    decreases |t| - i
  {
    hide Tracks;
    var s, s' := Terminate(t), Terminate(u);
    assert i <= |t| && j <= |u| by { InRange(t, u, i, j); }
    if i == |t| || t[i] > 32 {
      SameByte(t, u, i, j);
      m := j;
    } else if IsBlank(t[i]) {
      StepBlank(t, u, i, j);
      m := StepWs(t, u, i + 1, j);
    } else {
      StepOrdinary(t, u, i, j);
      m := StepWs(t, u, i + 1, j + 1);
    }
  }

  lemma InRange(t: bytes, u: bytes, i: nat, j: nat)
    requires Tracks(t, u, i, j)
    ensures i <= |t| && j <= |u|
  {
  }

  // ---------------------------------------------------------------- strings

  /** The terminator does not change where a literal closes. */
  lemma {:induction false} CloseQuoteBeforeNul(t: bytes, i: nat)
    requires NulFree(t) && i <= |t|
    ensures CloseQuote(Terminate(t), i) == CloseQuote(t, i)
    decreases |t| - i
  {
    if i < |t| && t[i] != QUOTE {
      if t[i] != BACKSLASH {
        CloseQuoteBeforeNul(t, i + 1);
      } else if i + 1 < |t| {
        CloseQuoteBeforeNul(t, i + 2);
      }
    }
  }

  /** The same bytes up to the closing quote close at the same distance. */
  lemma {:induction false} CloseQuoteShift(s: bytes, s': bytes, i: nat, i': nat, close: nat)
    requires i <= |s| && CloseQuote(s, i) == Some(close)
    requires At(s', i', s[i..close + 1])
    ensures CloseQuote(s', i') == Some(i' + (close - i))
    decreases close - i
  {
    AtIndex(s', i', s[i..close + 1], 0);
    if s[i] != QUOTE {
      var k := if s[i] == BACKSLASH then 2 else 1;
      assert s[i..close + 1] == s[i..i + k] + s[i + k..close + 1];
      AtConcat(s', i', s[i..i + k], s[i + k..close + 1]);
      CloseQuoteShift(s, s', i + k, i' + k, close);
    }
  }

  /** Equal bytes around `p` up to and including the closing quote. */
  predicate SameTail(s: bytes, s': bytes, p: nat, p': nat, end: nat, end': nat) {
    && end < |s| && end' < |s'|
    && end - p == end' - p'
    && p <= end + 1
    && forall k :: p <= k <= end ==> s[k] == s'[k + (p' - p)]
  }

  lemma ReadLiteralShift(s: bytes, s': bytes, p: nat, p': nat, end: nat, end': nat)
    requires SameTail(s, s', p, p', end, end') && p <= end
    ensures ReadLiteral(s, p, end) == ReadLiteral(s', p', end')
  {
    hide FromPair, IsLowSurrogate, IsHighSurrogate;
    if end - p >= 6 {
      Hex4Shift(s, s', p + 2, p' + 2, end, end');
      if end - p >= 12 {
        Hex4Shift(s, s', p + 8, p' + 8, end, end');
        assert s[p + 6] == s'[p' + 6] && s[p + 7] == s'[p' + 7];
      }
    }
  }

  lemma Hex4Shift(s: bytes, s': bytes, p: nat, p': nat, end: nat, end': nat)
    requires SameTail(s, s', p, p', end, end') && p + 4 <= end
    ensures p + 4 <= |s| && p' + 4 <= |s'| && Hex4(s, p) == Hex4(s', p')
  {
    assert s[p] == s'[p'] && s[p + 1] == s'[p' + 1] && s[p + 2] == s'[p' + 2] && s[p + 3] == s'[p' + 3];
  }

  lemma {:induction false} UnescapeShift(s: bytes, s': bytes, p: nat, p': nat, end: nat, end': nat, acc: bytes)
    requires SameTail(s, s', p, p', end, end')
    requires Unescape(s, p, end, acc).Chars?
    ensures Unescape(s', p', end', acc) == Unescape(s, p, end, acc)
    decreases end - p
  {
    hide ReadLiteral, EncodeUtf8, ShortUnescape;
    if p < end {
      assert s[p] == s'[p'] && s[p + 1] == s'[p' + 1];
      if s[p] != BACKSLASH {
        UnescapeShift(s, s', p + 1, p' + 1, end, end', acc + [s[p]]);
      } else if s[p + 1] == LOWER_U {
        ReadLiteralShift(s, s', p, p', end, end');
        var r := ReadLiteral(s, p, end);
        UnescapeShift(s, s', p + r.length, p' + r.length, end, end', acc + EncodeUtf8(r.codepoint));
      } else {
        UnescapeShift(s, s', p + 2, p' + 2, end, end', acc + [ShortUnescape(s[p + 1]).value]);
      }
    }
  }

  /** A string literal is read back the same. */
  lemma StringKept(t: bytes, u: bytes, i: nat, j: nat) returns (next: nat)
    requires NulFree(t) && NulFree(u) && Tracks(t, u, i, j)
    requires ParseString(Terminate(t), i).Name?
    ensures next < |Terminate(u)| && Tracks(t, u, ParseString(Terminate(t), i).next, next)
    ensures ParseString(Terminate(u), j) == Name(ParseString(Terminate(t), i).chars, next)
  {
    hide Tracks, Unescape, CloseQuote;
    InRange(t, u, i, j);
    var s, s' := Terminate(t), Terminate(u);
    CloseQuoteBeforeNul(t, i + 1);
    var end := CloseQuote(s, i + 1).value;
    StepLiteral(t, u, i, j, end);
    var n := end + 1 - i;
    next := j + n;
    InRange(t, u, i + n, j + n);
    assert t[i..i + n] == [t[i]] + s[i + 1..end + 1];
    assert At(s', j, [t[i]] + s[i + 1..end + 1]);
    AtConcat(s', j, [t[i]], s[i + 1..end + 1]);
    AtIndex(s', j, [t[i]], 0);
    CloseQuoteShift(s, s', i + 1, j + 1, end);
    forall k | i + 1 <= k <= end ensures s[k] == s'[k + (j - i)] {
      AtIndex(s', j + 1, s[i + 1..end + 1], k - (i + 1));
    }
    UnescapeShift(s, s', i + 1, j + 1, end, next - 1, []);
  }

  // ---------------------------------------------------------------- numbers

  /** What follows a complete value, after white space. */
  predicate IsCloser(c: byte) {
    c == COMMA || c == RBRACKET || c == RBRACE || c == NUL
  }

  /** A number is read back the same: what comes after it in the minified text cannot extend it. */
  lemma NumberKept(t: bytes, u: bytes, i: nat, j: nat) returns (next: nat)
    requires NulFree(t) && NulFree(u) && Tracks(t, u, i, j)
    requires ParseNumber(Terminate(t), i).Parsed?
    requires var r := ParseNumber(Terminate(t), i); IsCloser(Terminate(t)[SkipWs(Terminate(t), r.next)])
    ensures next < |Terminate(u)| && Tracks(t, u, ParseNumber(Terminate(t), i).next, next)
    ensures ParseNumber(Terminate(u), j) == Parsed(ParseNumber(Terminate(t), i).value, next)
  {
    hide Tracks, NumberSpan, StrtodLen, NulTerminated;
    InRange(t, u, i, j);
    var s, s' := Terminate(t), Terminate(u);
    var n := NumberSpan(s, i, COPY_LIMIT);
    var r := ParseNumber(s, i);
    var used := r.next - i;
    assert !IsNumberByte(s[r.next]);
    assert n == used;
    forall k | i <= k < i + used ensures !IsBlank(t[k]) && t[k] != SLASH && t[k] != QUOTE {
      assert t[k] == s[k] && IsNumberByte(s[k]);
    }
    StepRun(t, u, i, j, used);
    next := j + used;
    InRange(t, u, r.next, next);
    var m := StepWs(t, u, r.next, next);
    assert s'[j..j + used] == u[j..j + used] == s[i..i + used];
    forall k | j <= k < j + used ensures IsNumberByte(s'[k]) {
      assert s'[j..j + used][k - j] == s[i..i + used][k - j];
    }
    assert !IsNumberByte(s'[next]);
    NumberSpanExact(s', j, COPY_LIMIT, used);
  }

  // ---------------------------------------------------------------- values

  /** `next` is where the parse of the original text stands after the value. */
  lemma {:induction false} ValueKept(t: bytes, u: bytes, i: nat, j: nat, depth: nat, v: Json, next: nat) returns (next': nat)
    requires NulFree(t) && NulFree(u) && Tracks(t, u, i, j) && depth <= NESTING_LIMIT
    requires ParseValue(Terminate(t), i, depth) == Parsed(v, next)
    requires IsCloser(Terminate(t)[SkipWs(Terminate(t), next)])
    ensures next' < |Terminate(u)| && Tracks(t, u, next, next')
    ensures ParseValue(Terminate(u), j, depth) == Parsed(v, next')
    decreases |t| - i, 2
  {
    hide Tracks, SkipWs, NulTerminated;
    InRange(t, u, i, j);
    var s, s' := Terminate(t), Terminate(u);
    if s[i] == LBRACKET {
      next' := ArrayKept(t, u, i, j, depth, v, next);
    } else if s[i] == LBRACE {
      next' := ObjectKept(t, u, i, j, depth, v, next);
    } else if s[i] == QUOTE {
      NotAWord(s, i);
      next' := StringKept(t, u, i, j);
      SameByte(t, u, i, j);
      NotAWord(s', j);
    } else if StartsNumber(s[i]) {
      NotAWord(s, i);
      next' := NumberKept(t, u, i, j);
      SameByte(t, u, i, j);
      NotAWord(s', j);
    } else {
      next' := WordKept(t, u, i, j, depth, v, next);
    }
  }

  lemma WordKept(t: bytes, u: bytes, i: nat, j: nat, depth: nat, v: Json, next: nat) returns (next': nat)
    requires NulFree(t) && NulFree(u) && Tracks(t, u, i, j) && depth <= NESTING_LIMIT
    requires ParseValue(Terminate(t), i, depth) == Parsed(v, next)
    requires var c := Terminate(t)[i]; c != LBRACKET && c != LBRACE && c != QUOTE && !StartsNumber(c)
    ensures next' < |Terminate(u)| && Tracks(t, u, next, next')
    ensures ParseValue(Terminate(u), j, depth) == Parsed(v, next')
  {
    var s, s' := Terminate(t), Terminate(u);
    var w := if At(s, i, WORD_NULL) then WORD_NULL else if At(s, i, WORD_FALSE) then WORD_FALSE else WORD_TRUE;
    WordEnd(s, i, w);
    assert t[i..i + |w|] == s[i..i + |w|] == w;
    forall k | i <= k < i + |w| ensures !IsBlank(t[k]) && t[k] != SLASH && t[k] != QUOTE {
      assert t[k] == t[i..i + |w|][k - i] == w[k - i];
    }
    StepRun(t, u, i, j, |w|);
    next' := j + |w|;
    assert s'[j..j + |w|] == u[j..j + |w|];
    RoundTrip.WordsDiffer(s', j);
  }

  lemma {:induction false} ArrayKept(t: bytes, u: bytes, i: nat, j: nat, depth: nat, v: Json, next: nat) returns (next': nat)
    requires NulFree(t) && NulFree(u) && Tracks(t, u, i, j) && depth <= NESTING_LIMIT
    requires ParseValue(Terminate(t), i, depth) == Parsed(v, next) && Terminate(t)[i] == LBRACKET
    ensures next' < |Terminate(u)| && Tracks(t, u, next, next')
    ensures ParseValue(Terminate(u), j, depth) == Parsed(v, next')
    decreases |t| - i, 1
  {
    hide Tracks, SkipWs, NulTerminated, ParseValue, ParseItems;
    InRange(t, u, i, j);
    var s, s' := Terminate(t), Terminate(u);
    ArrayUnfold(s, i, depth);
    StepOrdinary(t, u, i, j);
    ArrayUnfold(s', j, depth);
    var k := SkipWs(s, i + 1);
    if s[k] != RBRACKET {
      ItemsStart(s, k, depth + 1, []);
    }
    var k' := StepWs(t, u, i + 1, j + 1);
    InRange(t, u, k, k');
    if s[k] == RBRACKET {
      StepOrdinary(t, u, k, k');
      next' := k' + 1;
    } else {
      next' := ItemsKept(t, u, k, k', depth + 1, [], v, next);
    }
  }

  lemma {:induction false} ObjectKept(t: bytes, u: bytes, i: nat, j: nat, depth: nat, v: Json, next: nat) returns (next': nat)
    requires NulFree(t) && NulFree(u) && Tracks(t, u, i, j) && depth <= NESTING_LIMIT
    requires ParseValue(Terminate(t), i, depth) == Parsed(v, next) && Terminate(t)[i] == LBRACE
    ensures next' < |Terminate(u)| && Tracks(t, u, next, next')
    ensures ParseValue(Terminate(u), j, depth) == Parsed(v, next')
    decreases |t| - i, 1
  {
    hide Tracks, SkipWs, NulTerminated, ParseValue, ParseMembers;
    InRange(t, u, i, j);
    var s, s' := Terminate(t), Terminate(u);
    ObjectUnfold(s, i, depth);
    StepOrdinary(t, u, i, j);
    ObjectUnfold(s', j, depth);
    var k := SkipWs(s, i + 1);
    if s[k] != RBRACE {
      MembersStart(s, k, depth + 1, []);
    }
    var k' := StepWs(t, u, i + 1, j + 1);
    InRange(t, u, k, k');
    if s[k] == RBRACE {
      StepOrdinary(t, u, k, k');
      next' := k' + 1;
    } else {
      next' := MembersKept(t, u, k, k', depth + 1, [], v, next);
    }
  }

  lemma MembersStart(s: bytes, i: nat, depth: nat, acc: seq<Member>)
    requires NulTerminated(s) && i < |s| && depth <= NESTING_LIMIT && ParseMembers(s, i, depth, acc).Parsed?
    ensures ParseMember(s, i, depth).OneMember?
    ensures s[SkipWs(s, i)] == QUOTE
  {
    hide ParseValue, CloseQuote;
  }

  lemma {:induction false} MembersKept(
      t: bytes, u: bytes, i: nat, j: nat, depth: nat, acc: seq<Member>, v: Json, next: nat) returns (next': nat)
    requires NulFree(t) && NulFree(u) && Tracks(t, u, i, j) && depth <= NESTING_LIMIT
    requires i <= |t| && ParseMembers(Terminate(t), i, depth, acc) == Parsed(v, next)
    ensures next' < |Terminate(u)| && Tracks(t, u, next, next')
    ensures ParseMembers(Terminate(u), j, depth, acc) == Parsed(v, next')
    decreases |t| - i, 3
  {
    hide Tracks, SkipWs, NulTerminated, ParseMember, ParseMembers;
    InRange(t, u, i, j);
    var s, s' := Terminate(t), Terminate(u);
    MembersStart(s, i, depth, acc);
    var r := ParseMember(s, i, depth);
    var m := SkipWs(s, r.next);
    MembersUnfold(s, i, depth, acc, m);
    var k' := MemberKept(t, u, i, j, depth, r.member, r.next);
    var m' := StepWs(t, u, r.next, k');
    MembersUnfold(s', j, depth, acc, m');
    InRange(t, u, m, m');
    StepOrdinary(t, u, m, m');
    if s[m] == COMMA {
      next' := MembersKept(t, u, m + 1, m' + 1, depth, acc + [r.member], v, next);
    } else {
      next' := m' + 1;
    }
  }

  lemma {:induction false} MemberKept(t: bytes, u: bytes, i: nat, j: nat, depth: nat, m: Member, next: nat) returns (next': nat)
    requires NulFree(t) && NulFree(u) && Tracks(t, u, i, j) && depth <= NESTING_LIMIT
    requires i <= |t| && ParseMember(Terminate(t), i, depth) == OneMember(m, next)
    requires IsCloser(Terminate(t)[SkipWs(Terminate(t), next)])
    ensures next' < |Terminate(u)| && Tracks(t, u, next, next')
    ensures ParseMember(Terminate(u), j, depth) == OneMember(m, next')
    decreases |t| - i, 2
  {
    hide Tracks, SkipWs, NulTerminated, ParseString, ParseValue;
    InRange(t, u, i, j);
    var s, s' := Terminate(t), Terminate(u);
    var i1 := SkipWs(s, i);
    StringStart(s, i1);
    var j1 := StepWs(t, u, i, j);
    var name := ParseString(s, i1);
    var j2 := StringKept(t, u, i1, j1);
    var c := SkipWs(s, name.next);
    var c' := StepWs(t, u, name.next, j2);
    InRange(t, u, c, c');
    StepOrdinary(t, u, c, c');
    var i3 := SkipWs(s, c + 1);
    ValueStart(s, i3, depth);
    var j3 := StepWs(t, u, c + 1, c' + 1);
    next' := ValueKept(t, u, i3, j3, depth, m.value, next);
  }

  lemma StringStart(s: bytes, i: nat)
    requires NulTerminated(s) && i < |s|
    ensures ParseString(s, i).Name? ==> s[i] == QUOTE
  {
  }

  /** A value, and so a list of items, never starts with a slash. */
  lemma ItemsStart(s: bytes, i: nat, depth: nat, acc: seq<Json>)
    requires NulTerminated(s) && i < |s| && depth <= NESTING_LIMIT && ParseItems(s, i, depth, acc).Parsed?
    ensures ParseValue(s, SkipWs(s, i), depth).Parsed?
    ensures s[SkipWs(s, i)] != SLASH
  {
    hide ParseString, ParseNumber;
    ValueStart(s, SkipWs(s, i), depth);
  }

  lemma ValueStart(s: bytes, i: nat, depth: nat)
    requires NulTerminated(s) && i < |s| && depth <= NESTING_LIMIT && ParseValue(s, i, depth).Parsed?
    ensures s[i] != SLASH && s[i] > 32 && s[i] != 0xEF
  {
    hide ParseString, ParseNumber, ParseItems, ParseMembers;
    if At(s, i, WORD_NULL) { AtIndex(s, i, WORD_NULL, 0); }
    if At(s, i, WORD_FALSE) { AtIndex(s, i, WORD_FALSE, 0); }
    if At(s, i, WORD_TRUE) { AtIndex(s, i, WORD_TRUE, 0); }
  }

  lemma {:induction false} ItemsKept(
      t: bytes, u: bytes, i: nat, j: nat, depth: nat, acc: seq<Json>, v: Json, next: nat) returns (next': nat)
    requires NulFree(t) && NulFree(u) && Tracks(t, u, i, j) && depth <= NESTING_LIMIT
    requires i <= |t| && ParseItems(Terminate(t), i, depth, acc) == Parsed(v, next)
    ensures next' < |Terminate(u)| && Tracks(t, u, next, next')
    ensures ParseItems(Terminate(u), j, depth, acc) == Parsed(v, next')
    decreases |t| - i, 3
  {
    hide Tracks, SkipWs, NulTerminated, ParseValue, ParseItems;
    InRange(t, u, i, j);
    var s, s' := Terminate(t), Terminate(u);
    ItemsStart(s, i, depth, acc);
    var i1 := SkipWs(s, i);
    var j1 := StepWs(t, u, i, j);
    var r := ParseValue(s, i1, depth);
    var m := SkipWs(s, r.next);
    ItemsUnfold(s, i, depth, acc, m);
    var k' := ValueKept(t, u, i1, j1, depth, r.value, r.next);
    var m' := StepWs(t, u, r.next, k');
    ItemsUnfold(s', j, depth, acc, m');
    InRange(t, u, m, m');
    StepOrdinary(t, u, m, m');
    if s[m] == COMMA {
      next' := ItemsKept(t, u, m + 1, m' + 1, depth, acc + [r.value], v, next);
    } else {
      next' := m' + 1;
    }
  }

  // ---------------------------------------------------------------- staying inside the text

  /** If the minifier stays inside the text from `j` on, it does from `i` on. */
  predicate Stays(t: bytes, i: nat, j: nat) {
    i <= |t| && j <= |t| && (Minified(t, j).Some? ==> Minified(t, i).Some?)
  }

  lemma {:induction false} WsStays(t: bytes, i: nat)
    requires NulFree(t) && i <= |t|
    ensures Stays(t, i, SkipWs(Terminate(t), i))
    decreases |t| - i
  {
    if i < |t| && t[i] <= 32 {
      WsStays(t, i + 1);
    }
  }

  lemma {:induction false} RunStays(t: bytes, i: nat, n: nat)
    requires i + n <= |t| && forall k :: i <= k < i + n ==> t[k] != SLASH && t[k] != QUOTE
    ensures Stays(t, i, i + n)
    decreases n
  {
    if n > 0 {
      RunStays(t, i + 1, n - 1);
    }
  }

  lemma StringStays(t: bytes, i: nat)
    requires NulFree(t) && i <= |t| && ParseString(Terminate(t), i).Name?
    ensures Stays(t, i, ParseString(Terminate(t), i).next)
  {
    hide Unescape;
    CloseQuoteBeforeNul(t, i + 1);
  }

  lemma {:induction false} ValueStays(t: bytes, i: nat, depth: nat)
    requires NulFree(t) && i <= |t| && depth <= NESTING_LIMIT && ParseValue(Terminate(t), i, depth).Parsed?
    ensures Stays(t, i, ParseValue(Terminate(t), i, depth).next)
    decreases |t| - i, 1
  {
    var s := Terminate(t);
    hide Minified, SkipWs, NulTerminated;
    if s[i] == LBRACKET || s[i] == LBRACE {
      NestedStays(t, i, depth);
    } else if s[i] == QUOTE {
      NotAWord(s, i);
      StringStays(t, i);
    } else if StartsNumber(s[i]) {
      NotAWord(s, i);
      NumberStays(t, i);
    } else {
      WordStays(t, i, depth);
    }
  }

  lemma NumberStays(t: bytes, i: nat)
    requires NulFree(t) && i <= |t| && ParseNumber(Terminate(t), i).Parsed?
    ensures Stays(t, i, ParseNumber(Terminate(t), i).next)
  {
    hide NumberSpan, StrtodLen, NulTerminated, Minified;
    var s := Terminate(t);
    var next := ParseNumber(s, i).next;
    forall k | i <= k < next ensures t[k] != SLASH && t[k] != QUOTE {
      assert t[k] == s[k] && IsNumberByte(s[k]);
    }
    RunStays(t, i, next - i);
  }

  lemma WordStays(t: bytes, i: nat, depth: nat)
    requires NulFree(t) && i <= |t| && depth <= NESTING_LIMIT && ParseValue(Terminate(t), i, depth).Parsed?
    requires var c := Terminate(t)[i]; c != LBRACKET && c != LBRACE && c != QUOTE && !StartsNumber(c)
    ensures Stays(t, i, ParseValue(Terminate(t), i, depth).next)
  {
    hide Minified;
    var s := Terminate(t);
    var w := if At(s, i, WORD_NULL) then WORD_NULL else if At(s, i, WORD_FALSE) then WORD_FALSE else WORD_TRUE;
    WordEnd(s, i, w);
    forall k | i <= k < i + |w| ensures t[k] != SLASH && t[k] != QUOTE {
      AtIndex(s, i, w, k - i);
      assert t[k] == s[k];
    }
    RunStays(t, i, |w|);
  }

  lemma {:induction false} NestedStays(t: bytes, i: nat, depth: nat)
    requires NulFree(t) && i <= |t| && depth <= NESTING_LIMIT && ParseValue(Terminate(t), i, depth).Parsed?
    requires Terminate(t)[i] == LBRACKET || Terminate(t)[i] == LBRACE
    ensures Stays(t, i, ParseValue(Terminate(t), i, depth).next)
    decreases |t| - i, 0
  {
    hide Minified, SkipWs, NulTerminated, ParseValue, ParseItems, ParseMembers;
    var s := Terminate(t);
    RunStays(t, i, 1);
    WsStays(t, i + 1);
    var j := SkipWs(s, i + 1);
    if s[i] == LBRACKET {
      ArrayUnfold(s, i, depth);
      if s[j] == RBRACKET {
        RunStays(t, j, 1);
      } else {
        ItemsStay(t, j, depth + 1, []);
      }
    } else {
      ObjectUnfold(s, i, depth);
      if s[j] == RBRACE {
        RunStays(t, j, 1);
      } else {
        MembersStay(t, j, depth + 1, []);
      }
    }
  }

  lemma {:induction false} ItemsStay(t: bytes, i: nat, depth: nat, acc: seq<Json>)
    requires NulFree(t) && i <= |t| && depth <= NESTING_LIMIT && ParseItems(Terminate(t), i, depth, acc).Parsed?
    ensures Stays(t, i, ParseItems(Terminate(t), i, depth, acc).next)
    decreases |t| - i, 2
  {
    hide Minified, SkipWs, NulTerminated, ParseValue, ParseItems;
    var s := Terminate(t);
    ItemsStart(s, i, depth, acc);
    WsStays(t, i);
    var r := ParseValue(s, SkipWs(s, i), depth);
    ValueStays(t, SkipWs(s, i), depth);
    WsStays(t, r.next);
    var m := SkipWs(s, r.next);
    ItemsUnfold(s, i, depth, acc, m);
    RunStays(t, m, 1);
    if s[m] == COMMA {
      ItemsStay(t, m + 1, depth, acc + [r.value]);
    }
  }

  lemma {:induction false} MembersStay(t: bytes, i: nat, depth: nat, acc: seq<Member>)
    requires NulFree(t) && i <= |t| && depth <= NESTING_LIMIT && ParseMembers(Terminate(t), i, depth, acc).Parsed?
    ensures Stays(t, i, ParseMembers(Terminate(t), i, depth, acc).next)
    decreases |t| - i, 3
  {
    hide Minified, SkipWs, NulTerminated, ParseMember, ParseMembers;
    var s := Terminate(t);
    MembersStart(s, i, depth, acc);
    var r := ParseMember(s, i, depth);
    MemberStays(t, i, depth);
    WsStays(t, r.next);
    var m := SkipWs(s, r.next);
    MembersUnfold(s, i, depth, acc, m);
    RunStays(t, m, 1);
    if s[m] == COMMA {
      MembersStay(t, m + 1, depth, acc + [r.member]);
    }
  }

  lemma {:induction false} MemberStays(t: bytes, i: nat, depth: nat)
    requires NulFree(t) && i <= |t| && depth <= NESTING_LIMIT && ParseMember(Terminate(t), i, depth).OneMember?
    ensures Stays(t, i, ParseMember(Terminate(t), i, depth).next)
    decreases |t| - i, 2
  {
    hide Minified, SkipWs, NulTerminated, ParseString, ParseValue;
    var s := Terminate(t);
    WsStays(t, i);
    var i1 := SkipWs(s, i);
    StringStays(t, i1);
    var name := ParseString(s, i1);
    WsStays(t, name.next);
    var c := SkipWs(s, name.next);
    RunStays(t, c, 1);
    WsStays(t, c + 1);
    ValueStays(t, SkipWs(s, c + 1), depth);
  }

  // ---------------------------------------------------------------- whole documents

  lemma {:induction false} MinifiedNulFree(t: bytes, i: nat)
    requires NulFree(t) && i <= |t| && Minified(t, i).Some?
    ensures NulFree(Minified(t, i).value)
    decreases |t| - i
  {
    if i < |t| {
      if IsBlank(t[i]) {
        MinifiedNulFree(t, i + 1);
      } else if StartsComment(t, i, SLASH) {
        MinifiedNulFree(t, LineEnd(t, i));
      } else if StartsComment(t, i, STAR) {
        MinifiedNulFree(t, CommentClose(t, i).value + 2);
      } else if t[i] == QUOTE {
        MinifiedNulFree(t, CloseQuote(t, i + 1).value + 1);
      } else {
        MinifiedNulFree(t, i + 1);
      }
    }
  }

  /** Where the value of a document starts and ends, and that nothing but white space follows. */
  lemma DocumentParts(t: bytes) returns (b: nat, i: nat, v: Json, next: nat)
    requires NulFree(t) && ParseText(t, true).Document?
    ensures b == AfterBom(Terminate(t)) && i == SkipWs(Terminate(t), b)
    ensures ParseValue(Terminate(t), i, 0) == Parsed(v, next) && v == ParseText(t, true).value
    ensures SkipWs(Terminate(t), next) == |t|
    ensures var c := Terminate(t)[i]; c != SLASH && c > 32 && c != 0xEF
  {
    hide ParseValue, NulTerminated;
    var s := Terminate(t);
    b := AfterBom(s);
    i := SkipWs(s, b);
    var r := ParseValue(s, i, 0);
    v, next := r.value, r.next;
    ValueStart(s, i, 0);
    NulIsLast(t, SkipWs(s, next));
  }

  lemma NulIsLast(t: bytes, m: nat)
    requires NulFree(t) && m < |Terminate(t)| && Terminate(t)[m] == NUL
    ensures m == |t|
  {
  }

  /** The byte order mark, if any, is kept in front of the text. */
  lemma BomKept(t: bytes, u: bytes) returns (j: nat)
    requires NulFree(t) && NulFree(u) && Tracks(t, u, 0, 0)
    requires ParseText(t, true).Document?
    ensures j == AfterBom(Terminate(u)) && Tracks(t, u, AfterBom(Terminate(t)), j)
  {
    hide Tracks, ParseText, NulTerminated, ParseValue;
    var b, i, v, next := DocumentParts(t);
    var s, s' := Terminate(t), Terminate(u);
    var bom := [0xEF, 0xBB, 0xBF];
    j := b;
    if b == 3 {
      assert t[0..3] == s[0..3] == bom;
      assert t[0] == t[0..3][0] && t[1] == t[0..3][1] && t[2] == t[0..3][2];
      StepRun(t, u, 0, 0, 3);
      assert s'[0..3] == u[0..3];
      var j1 := StepWs(t, u, 3, 3);
    } else {
      var j1 := StepWs(t, u, 0, 0);
      assert s'[0] != 0xEF;
      if At(s', 0, bom) {
        AtIndex(s', 0, bom, 0);
      }
    }
  }

  /** Nothing the parser accepts makes the minifier run past the terminator. */
  lemma MinifyStaysInside(t: bytes)
    requires NulFree(t) && ParseText(t, true).Document?
    ensures Minified(t, 0).Some?
  {
    hide ParseText, NulTerminated, ParseValue, SkipWs, Minified;
    var b, i, v, next := DocumentParts(t);
    BomStays(t);
    WsStays(t, b);
    ValueStays(t, i, 0);
    WsStays(t, next);
    NothingLeft(t);
  }

  lemma BomStays(t: bytes)
    requires NulFree(t)
    ensures Stays(t, 0, AfterBom(Terminate(t)))
  {
    hide Minified;
    var s := Terminate(t);
    if AfterBom(s) == 3 {
      assert t[0..3] == s[0..3] == [0xEF, 0xBB, 0xBF];
      assert t[0] == t[0..3][0] && t[1] == t[0..3][1] && t[2] == t[0..3][2];
      RunStays(t, 0, 3);
    }
  }

  /** Every text the parser accepts as a whole still stands for the same tree after minification,
      and minifying it stays inside it. */
  lemma MinifyKeepsMeaning(t: bytes)
    requires NulFree(t) && ParseText(t, true).Document?
    ensures Minified(t, 0).Some?
    ensures var u := Minified(t, 0).value;
            NulFree(u) && ParseText(u, true) == Document(ParseText(t, true).value, |u|)
  {
    hide Minified, NulTerminated, ParseValue, SkipWs;
    MinifyStaysInside(t);
    MinifiedNulFree(t, 0);
    var u := Minified(t, 0).value;
    assert u[0..] == u;
    var b, i, v, next := DocumentParts(t);
    var b' := BomKept(t, u);
    var i' := StepWs(t, u, b, b');
    var next' := ValueKept(t, u, i, i', 0, v, next);
    var m' := StepWs(t, u, next, next');
  }
}

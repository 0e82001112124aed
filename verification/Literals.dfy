/**
 String literals: the escaping of `print_string_ptr`, the two passes of `parse_string`, the
 bound the first pass computes for the second, and the round trip between them.
 */
module Literals {
  import opened Bytes
  import opened Unicode

  // ---------------------------------------------------------------- escaping

  /** The letter of a two-byte escape for `c`, or None. */
  function ShortEscape(c: byte): (r: Option<byte>)
  {
    if c == QUOTE then Some(QUOTE)
    else if c == BACKSLASH then Some(BACKSLASH)
    else if c == BACKSPACE then Some(LOWER_B)
    else if c == FORMFEED then Some(LOWER_F)
    else if c == LF then Some(LOWER_N)
    else if c == CR then Some(LOWER_R)
    else if c == TAB then Some(LOWER_T)
    else None
  }

  function EscapeByte(c: byte): (r: bytes)
    ensures |r| == 1 + ExtraBytes(c)
    ensures c != NUL ==> NulFree(r)
  {
    if ShortEscape(c).Some? then [BACKSLASH, ShortEscape(c).value]
    else if c < 32 then UnitText(c)
    else [c]
  }

  /** Additional bytes the first loop of `print_string_ptr` counts for `c`. */
  function ExtraBytes(c: byte): (n: nat)
  {
    if ShortEscape(c).Some? then 1 else if c < 32 then 5 else 0
  }

  function Escape(s: bytes): (r: bytes)
    ensures |r| >= |s|
    ensures NulFree(s) ==> NulFree(r)
  {
    if s == [] then [] else EscapeByte(s[0]) + Escape(s[1..])
  }

  /** A string in quotes; a null pointer prints as the empty string. */
  function RenderString(s: CString): (r: bytes)
    ensures |r| >= 2
  {
    if s.NullPtr? then [QUOTE, QUOTE] else [QUOTE] + (Escape(s.chars) + [QUOTE])
  }

  lemma EscapeAppend(s: bytes, c: byte)
    ensures Escape(s + [c]) == Escape(s) + EscapeByte(c)
  {
    EscapeConcat(s, [c]);
    assert [c][1..] == [] && Escape([]) == [];
    assert Escape([c]) == EscapeByte(c) + Escape([]);
  }

  /** A string the counting loop finds nothing to escape in is its own escape. */
  lemma {:induction false} NothingToEscape(s: bytes)
    requires |Escape(s)| == |s|
    ensures Escape(s) == s
  {
    if s != [] {
      assert |EscapeByte(s[0])| == 1;
      NothingToEscape(s[1..]);
      assert s == [s[0]] + s[1..];
    }
  }

  /** The counting loop of `print_string_ptr`. */
  method CountEscapes(input: bytes) returns (escapes: nat)
    ensures |Escape(input)| == |input| + escapes
  {
    escapes := 0;
    for i := 0 to |input|
      invariant |Escape(input[..i])| == i + escapes
    {
      EscapeAppend(input[..i], input[i]);
      assert input[..i + 1] == input[..i] + [input[i]];
      escapes := escapes + ExtraBytes(input[i]);
    }
    assert input[..|input|] == input;
  }

  /** One round of the copying loop: the escape of `c` is stored at `at`.  After `\uXXXX`
      `sprintf` stores a terminator too, which the next round overwrites. */
  method StoreEscape(b: array<byte>, at: nat, c: byte) returns (next: nat)
    requires at + |EscapeByte(c)| < b.Length
    modifies b
    ensures next == at + |EscapeByte(c)|
    ensures b[..next] == old(b[..at]) + EscapeByte(c)
  {
    if c > 31 && c != QUOTE && c != BACKSLASH {
      b[at] := c;
      return at + 1;
    }
    b[at] := BACKSLASH;
    if ShortEscape(c).Some? {
      b[at + 1] := ShortEscape(c).value;
      return at + 2;
    }
    var h := HexText(c);
    b[at + 1], b[at + 2], b[at + 3], b[at + 4], b[at + 5] := LOWER_U, h[0], h[1], h[2], h[3];
    b[at + 6] := NUL;
    next := at + 6;
  }

  /** The copying loop of `print_string_ptr`. */
  method CopyEscaped(b: array<byte>, at: nat, input: bytes)
    requires at + |Escape(input)| < b.Length
    modifies b
    ensures b[..at + |Escape(input)|] == old(b[..at]) + Escape(input)
  {
    hide EscapeByte;
    ghost var before := b[..at];
    var next := at;
    for i := 0 to |input|
      invariant next == at + |Escape(input[..i])| < b.Length
      invariant b[..next] == before + Escape(input[..i])
    {
      EscapePrefix(input, i);
      ghost var done := Escape(input[..i]);
      next := StoreEscape(b, next, input[i]);
      Assoc(before, done, EscapeByte(input[i]));
    }
    assert input[..|input|] == input;
  }

  /** The escape of a prefix is a prefix of the escape. */
  lemma EscapePrefix(s: bytes, i: nat)
    requires i < |s|
    ensures Escape(s[..i + 1]) == Escape(s[..i]) + EscapeByte(s[i])
    ensures |Escape(s[..i + 1])| <= |Escape(s)|
  {
    hide EscapeByte;
    EscapeAppend(s[..i], s[i]);
    assert s[..i + 1] == s[..i] + [s[i]];
    EscapeConcat(s[..i + 1], s[i + 1..]);
    assert s[..i + 1] + s[i + 1..] == s;
  }

  lemma {:induction false} EscapeConcat(a: bytes, b: bytes)
    ensures Escape(a + b) == Escape(a) + Escape(b)
  {
    hide EscapeByte;
    if a == [] {
      assert a + b == b;
    } else {
      assert (a + b)[0] == a[0] && (a + b)[1..] == a[1..] + b;
      EscapeConcat(a[1..], b);
      Assoc(EscapeByte(a[0]), Escape(a[1..]), Escape(b));
    }
  }

  // ---------------------------------------------------------------- first pass

  /** Position of the quote that closes a literal whose body starts at `i`. */
  function CloseQuote(s: bytes, i: nat): (r: Option<nat>)
    requires i <= |s|
    ensures r.Some? ==> i <= r.value < |s| && s[r.value] == QUOTE
    decreases |s| - i
  {
    if i == |s| then None
    else if s[i] == QUOTE then Some(i)
    else if s[i] == BACKSLASH then
      if i + 1 == |s| then None else CloseQuote(s, i + 2)
    else CloseQuote(s, i + 1)
  }

  /** Bytes of a literal body not counting the backslashes that start an escape. */
  function Units(s: bytes, i: nat, end: nat): (n: nat)
    requires end <= |s|
    decreases end - i
  {
    if i >= end then 0
    else if s[i] == BACKSLASH then 1 + Units(s, i + 2, end)
    else 1 + Units(s, i + 1, end)
  }

  // ---------------------------------------------------------------- second pass

  datatype Decoded = Chars(out: bytes) | BadEscape(at: nat)

  /** The byte a two-byte escape with letter `c` stands for, or None. */
  function ShortUnescape(c: byte): (r: Option<byte>)
  {
    if c == LOWER_B then Some(BACKSPACE)
    else if c == LOWER_F then Some(FORMFEED)
    else if c == LOWER_N then Some(LF)
    else if c == LOWER_R then Some(CR)
    else if c == LOWER_T then Some(TAB)
    else if c == QUOTE || c == BACKSLASH || c == SLASH then Some(c)
    else None
  }

  /** Decodes the body from `p` on, with `acc` already decoded; fails at the offending escape. */
  function Unescape(s: bytes, p: nat, end: nat, acc: bytes): (r: Decoded)
    requires end < |s|
    ensures r.BadEscape? ==> p <= r.at < end
    decreases end - p
  {
    if p >= end then Chars(acc)
    else if s[p] != BACKSLASH then Unescape(s, p + 1, end, acc + [s[p]])
    else if s[p + 1] == LOWER_U then
      match ReadLiteral(s, p, end)
      case Rejected => BadEscape(p)
      case Accepted(c, n) => Unescape(s, p + n, end, acc + EncodeUtf8(c))
    else if ShortUnescape(s[p + 1]).Some? then
      Unescape(s, p + 2, end, acc + [ShortUnescape(s[p + 1]).value])
    else BadEscape(p)
  }

  // ---------------------------------------------------------------- the size bound

  /**
   Where the second pass can stand relative to the first: on a byte the first pass visited, or
   (`mid`) on the second byte of a pair it skipped over as an escape.
   */
  ghost predicate Standing(s: bytes, p: nat, end: nat, mid: bool)
    requires end < |s|
  {
    if mid then p < end && CloseQuote(s, p + 1) == Some(end)
    else p <= end && CloseQuote(s, p) == Some(end)
  }

  /** Bytes the first pass has budgeted for what is left; a half-read pair still counts as one. */
  ghost function Budget(s: bytes, p: nat, end: nat, mid: bool): (n: nat)
    requires end < |s|
  {
    if mid then 1 + Units(s, p + 1, end) else Units(s, p, end)
  }

  lemma AtStart(s: bytes, start: nat, end: nat)
    requires end < |s| && start <= end && CloseQuote(s, start) == Some(end)
    ensures Standing(s, start, end, false) && Budget(s, start, end, false) == Units(s, start, end)
  {
  }

  /** Moving `k` bytes on uses up at least half as many units of budget, whatever the bytes are. */
  lemma {:induction false} Advance(s: bytes, p: nat, end: nat, mid: bool, k: nat) returns (mid': bool)
    requires end < |s|
    requires Standing(s, p, end, mid) && p + k <= end
    ensures Standing(s, p + k, end, mid')
    ensures Budget(s, p + k, end, mid') + (k + if mid then 1 else 0) / 2 <= Budget(s, p, end, mid)
    decreases k
  {
    if k == 0 {
      mid' := mid;
    } else {
      var mid1 := !mid && s[p] == BACKSLASH;
      mid' := Advance(s, p + 1, end, mid1, k - 1);
    }
  }

  /** A byte that starts no escape uses up one unit for the one byte it decodes to. */
  lemma AdvancePlain(s: bytes, p: nat, end: nat, mid: bool)
    requires end < |s| && p < end
    requires Standing(s, p, end, mid) && s[p] != BACKSLASH
    ensures Standing(s, p + 1, end, false)
    ensures Budget(s, p + 1, end, false) + 1 == Budget(s, p, end, mid)
  {
  }

  /** An escape of length `n` at `p` decodes to no more bytes than the budget it uses up. */
  lemma AdvanceEscape(s: bytes, p: nat, end: nat, mid: bool, n: nat) returns (mid': bool)
    requires end < |s| && p < end
    requires Standing(s, p, end, mid) && s[p] == BACKSLASH
    requires n == 2 || (6 <= n && p + n <= end)
    ensures p + n <= end ==> Standing(s, p + n, end, mid')
    ensures p + n <= end ==> Budget(s, p + n, end, mid') + n / 2 <= Budget(s, p, end, mid)
    ensures p + n > end ==> p + n == end + 1 && Budget(s, p, end, mid) == 1
  {
    if p + n <= end {
      mid' := Advance(s, p, end, mid, n);
    } else {
      mid' := false;
      assert p + 1 == end;
    }
  }

  /**
   The first pass's count bounds the second pass's output on every input, even when a `\u`
   with other than hexadecimal digits swallows six bytes and leaves the two passes out of step.
   */
  lemma {:induction false} UnescapeFits(s: bytes, p: nat, end: nat, mid: bool, acc: bytes)
    requires end < |s| && Standing(s, p, end, mid)
    ensures Unescape(s, p, end, acc).Chars? ==>
              |Unescape(s, p, end, acc).out| <= |acc| + Budget(s, p, end, mid)
    decreases end - p
  {
    if p >= end {
    } else if s[p] != BACKSLASH {
      AdvancePlain(s, p, end, mid);
      UnescapeFits(s, p + 1, end, false, acc + [s[p]]);
    } else if s[p + 1] == LOWER_U {
      var r := ReadLiteral(s, p, end);
      if r.Accepted? {
        var mid' := AdvanceEscape(s, p, end, mid, r.length);
        UnescapeFits(s, p + r.length, end, mid', acc + EncodeUtf8(r.codepoint));
      }
    } else if ShortUnescape(s[p + 1]).Some? {
      var mid' := AdvanceEscape(s, p, end, mid, 2);
      var acc' := acc + [ShortUnescape(s[p + 1]).value];
      if p + 2 <= end {
        UnescapeFits(s, p + 2, end, mid', acc');
      }
    }
  }

  // ---------------------------------------------------------------- the passes as loops

  /** The sizing loop of `parse_string`. */
  method FindEnd(s: bytes, start: nat) returns (end: Option<nat>, skipped: nat)
    requires start <= |s|
    ensures end == CloseQuote(s, start)
    ensures end.Some? ==> (end.value - start) - skipped == Units(s, start, end.value)
  {
    ghost var goal := CloseQuote(s, start);
    var inputEnd := start;
    skipped := 0;
    while inputEnd < |s| && s[inputEnd] != QUOTE
      invariant start <= inputEnd <= |s|
      invariant CloseQuote(s, inputEnd) == goal
      invariant goal.Some? ==>
                  (inputEnd - start) - skipped + Units(s, inputEnd, goal.value) == Units(s, start, goal.value)
      decreases |s| - inputEnd
    {
      if s[inputEnd] == BACKSLASH {
        if inputEnd + 1 >= |s| {
          return None, skipped;
        }
        skipped := skipped + 1;
        inputEnd := inputEnd + 1;
      }
      inputEnd := inputEnd + 1;
    }
    if inputEnd >= |s| || s[inputEnd] != QUOTE {
      return None, skipped;
    }
    end := Some(inputEnd);
  }

  /** One `\u` step of the decoding loop, inside the budget left at `p`. */
  method StoreUnit(s: bytes, p: nat, end: nat, output: array<byte>, at: nat, ghost acc: bytes, ghost mid: bool)
    returns (length: nat, next: nat, ghost acc': bytes, ghost mid': bool)
    requires p < end < |s| && s[p] == BACKSLASH && s[p + 1] == LOWER_U
    requires Standing(s, p, end, mid) && at + Budget(s, p, end, mid) < output.Length
    requires at == |acc| && output[..at] == acc
    modifies output
    ensures length == 0 ==> Unescape(s, p, end, acc) == BadEscape(p)
    ensures length != 0 ==>
              && p + length <= end
              && Standing(s, p + length, end, mid')
              && next + Budget(s, p + length, end, mid') < output.Length
              && next == |acc'| && output[..next] == acc'
              && Unescape(s, p, end, acc) == Unescape(s, p + length, end, acc')
  {
    ghost var lit := ReadLiteral(s, p, end);
    acc', mid' := acc, mid;
    if lit.Accepted? {
      mid' := AdvanceEscape(s, p, end, mid, lit.length);
      acc' := acc + EncodeUtf8(lit.codepoint);
      assert |EncodeUtf8(lit.codepoint)| <= lit.length / 2;
    }
    length, next := StoreLiteral(s, p, end, output, at);
    assert length != 0 ==> output[..next] == output[..at] + output[at..next];
  }

  /**
   The decoding loop of `parse_string`, writing into a buffer of the size the first pass asked
   for (plus the terminator): every store is inside it.
   */
  method DecodeInto(s: bytes, start: nat, end: nat, output: array<byte>) returns (r: Decoded)
    requires end < |s| && start <= end && CloseQuote(s, start) == Some(end)
    requires output.Length > Units(s, start, end)
    modifies output
    ensures r == Unescape(s, start, end, [])
    ensures r.Chars? ==> At(output[..], 0, r.out + [NUL])
  {
    hide Standing, Budget, Units, CloseQuote, ReadLiteral;
    var p, at := start, 0;
    ghost var acc: bytes := [];
    ghost var mid := false;
    AtStart(s, start, end);
    while p < end
      invariant start <= p <= end + 1 && 0 <= at < output.Length
      invariant at == |acc| && output[..at] == acc
      invariant Unescape(s, p, end, acc) == Unescape(s, start, end, [])
      invariant p <= end ==> Standing(s, p, end, mid) && at + Budget(s, p, end, mid) < output.Length
      decreases end + 1 - p
    {
      if s[p] != BACKSLASH {
        AdvancePlain(s, p, end, mid);
        mid := false;
        output[at] := s[p];
        acc := acc + [s[p]];
        p, at := p + 1, at + 1;
      } else if s[p + 1] == LOWER_U {
        var length, next;
        length, next, acc, mid := StoreUnit(s, p, end, output, at, acc, mid);
        if length == 0 {
          return BadEscape(p);
        }
        p, at := p + length, next;
      } else {
        var c := ShortUnescape(s[p + 1]);
        if c.None? {
          return BadEscape(p);
        }
        mid := AdvanceEscape(s, p, end, mid, 2);
        output[at] := c.value;
        acc := acc + [c.value];
        p, at := p + 2, at + 1;
      }
    }
    output[at] := NUL;
    assert output[0..at + 1] == acc + [NUL];
    r := Chars(output[..at]);
  }

  // ---------------------------------------------------------------- round trip

  lemma EscapeSplit(s: bytes, i: nat, t: bytes)
    requires t != [] && At(s, i, Escape(t) + [QUOTE])
    ensures At(s, i, EscapeByte(t[0]))
    ensures At(s, i + |EscapeByte(t[0])|, Escape(t[1..]) + [QUOTE])
    ensures |Escape(t)| == |EscapeByte(t[0])| + |Escape(t[1..])|
  {
    var e, rest := EscapeByte(t[0]), Escape(t[1..]);
    Assoc(e, rest, [QUOTE]);
    AtConcat(s, i, e, rest + [QUOTE]);
  }

  lemma {:induction false} CloseQuoteOfEscape(s: bytes, i: nat, t: bytes)
    requires At(s, i, Escape(t) + [QUOTE])
    ensures CloseQuote(s, i) == Some(i + |Escape(t)|)
    decreases |t|
  {
    if t == [] {
      hide EscapeByte, ShortEscape, At;
      assert Escape(t) + [QUOTE] == [QUOTE];
      AtIndex(s, i, [QUOTE], 0);
    } else {
      hide *;
      EscapeSplit(s, i, t);
      CloseQuoteStep(s, i, t[0]);
      var n := |EscapeByte(t[0])|;
      CloseQuoteOfEscape(s, i + n, t[1..]);
    }
  }

  /** The first pass walks over the escape of one byte without stopping inside it. */
  lemma CloseQuoteStep(s: bytes, i: nat, c: byte)
    requires At(s, i, EscapeByte(c)) && i + |EscapeByte(c)| < |s|
    ensures CloseQuote(s, i) == CloseQuote(s, i + |EscapeByte(c)|)
  {
    var e := EscapeByte(c);
    AtIndex(s, i, e, 0);
    if ShortEscape(c).None? && c < 32 {
      Hex4OfUnit(s, i, c);
      AtIndex(s, i, e, 2);
      AtIndex(s, i, e, 3);
      AtIndex(s, i, e, 4);
      AtIndex(s, i, e, 5);
      assert CloseQuote(s, i) == CloseQuote(s, i + 2);
      assert CloseQuote(s, i + 2) == CloseQuote(s, i + 3) == CloseQuote(s, i + 4);
      assert CloseQuote(s, i + 4) == CloseQuote(s, i + 5) == CloseQuote(s, i + 6);
    } else if ShortEscape(c).Some? {
      AtIndex(s, i, e, 1);
    }
  }

  /** Decoding the escape of one byte gives the byte. */
  lemma UnescapeStep(s: bytes, p: nat, end: nat, acc: bytes, c: byte)
    requires end < |s| && At(s, p, EscapeByte(c)) && p + |EscapeByte(c)| <= end
    ensures Unescape(s, p, end, acc) == Unescape(s, p + |EscapeByte(c)|, end, acc + [c])
  {
    var e := EscapeByte(c);
    AtIndex(s, p, e, 0);
    if ShortEscape(c).Some? {
      AtIndex(s, p, e, 1);
    } else if c < 32 {
      Hex4OfUnit(s, p, c);
      assert ReadLiteral(s, p, end) == Accepted(c, 6);
      assert EncodeUtf8(c) == [c];
    }
  }

  lemma {:induction false} UnescapeOfEscape(s: bytes, p: nat, end: nat, acc: bytes, t: bytes)
    requires end < |s| && At(s, p, Escape(t)) && p + |Escape(t)| == end
    ensures Unescape(s, p, end, acc) == Chars(acc + t)
    decreases |t|
  {
    if t == [] {
      assert acc + t == acc;
    } else {
      var e := EscapeByte(t[0]);
      AtConcat(s, p, e, Escape(t[1..]));
      UnescapeStep(s, p, end, acc, t[0]);
      UnescapeOfEscape(s, p + |e|, end, acc + [t[0]], t[1..]);
      Assoc(acc, [t[0]], t[1..]);
      assert [t[0]] + t[1..] == t;
    }
  }
}

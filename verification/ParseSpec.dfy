/**
 What the recursive-descent parser computes, as functions of the NUL-terminated buffer, the
 cursor position and the nesting depth.
 */
module ParseSpec {
  import opened Bytes
  import opened Numbers
  import opened Literals
  import opened Json

  /** A value and the cursor after it, or the cursor where parsing gave up. */
  datatype Parsed = Parsed(value: Json, next: nat) | Failed(at: nat)

  datatype ParsedString = Name(chars: bytes, next: nat) | NoString(at: nat)

  /** `buffer_skip_whitespace`: past every byte up to 32, but never off the terminator. */
  function SkipWs(s: bytes, i: nat): (j: nat)
    requires NulTerminated(s) && i < |s|
    ensures i <= j < |s|
    ensures s[j] > 32 || j == |s| - 1
    ensures forall k :: i <= k < j ==> s[k] <= 32
    decreases |s| - i
  {
    if s[i] > 32 || i == |s| - 1 then i else SkipWs(s, i + 1)
  }

  lemma NotLast(s: bytes, i: nat)
    requires NulTerminated(s) && i < |s| && s[i] != NUL
    ensures i + 1 < |s|
  {
  }

  function ParseString(s: bytes, i: nat): (r: ParsedString)
    requires NulTerminated(s) && i < |s|
    ensures r.Name? ==> i + 1 < r.next < |s| && NulFree(r.chars)
    ensures r.NoString? ==> i < r.at <= |s|
  {
    if s[i] != QUOTE then NoString(i + 1)
    else
      match CloseQuote(s, i + 1)
      case None => NoString(i + 1)
      case Some(end) =>
        NotLast(s, end);
        match Unescape(s, i + 1, end, [])
        case BadEscape(at) => NoString(at)
        case Chars(out) => Name(UpToNul(out), end + 1)
  }

  function ParseNumber(s: bytes, i: nat): (r: Parsed)
    requires NulTerminated(s) && i < |s|
    ensures r.Parsed? ==> i < r.next < |s|
    ensures r.Failed? ==> r.at == i
  {
    var n := NumberSpan(s, i, COPY_LIMIT);
    var used := StrtodLen(s[i..i + n]);
    if used == 0 then Failed(i)
    else
      assert IsNumberByte(s[i + used - 1]);
      NotLast(s, i + used - 1);
      Parsed(Number(s[i..i + used]), i + used)
  }

  predicate StartsNumber(c: byte) {
    c == MINUS || IsDigit(c)
  }

  function ParseValue(s: bytes, i: nat, depth: nat): (r: Parsed)
    requires NulTerminated(s) && i < |s| && depth <= NESTING_LIMIT
    ensures r.Parsed? ==> i < r.next < |s|
    ensures r.Failed? ==> i <= r.at <= |s|
    decreases |s| - i, 0
  {
    if At(s, i, WORD_NULL) then WordEnd(s, i, WORD_NULL); Parsed(Null, i + 4)
    else if At(s, i, WORD_FALSE) then WordEnd(s, i, WORD_FALSE); Parsed(False, i + 5)
    else if At(s, i, WORD_TRUE) then WordEnd(s, i, WORD_TRUE); Parsed(True, i + 4)
    else if s[i] == QUOTE then
      match ParseString(s, i)
      case Name(chars, next) => Parsed(String(Text(chars)), next)
      case NoString(at) => Failed(at)
    else if StartsNumber(s[i]) then ParseNumber(s, i)
    else if s[i] == LBRACKET then
      if depth >= NESTING_LIMIT then Failed(i)
      else
        var j := SkipWs(s, i + 1);
        if s[j] == RBRACKET then NotLast(s, j); Parsed(Array([]), j + 1)
        else ParseItems(s, j, depth + 1, [])
    else if s[i] == LBRACE then
      if depth >= NESTING_LIMIT then Failed(i)
      else
        var j := SkipWs(s, i + 1);
        if s[j] == RBRACE then NotLast(s, j); Parsed(Object([]), j + 1)
        else ParseMembers(s, j, depth + 1, [])
    else Failed(i)
  }

  lemma WordEnd(s: bytes, i: nat, w: bytes)
    requires NulTerminated(s) && At(s, i, w) && |w| > 0 && w[|w| - 1] != NUL
    ensures i + |w| < |s|
  {
    AtIndex(s, i, w, |w| - 1);
  }

  /** The elements of an array from `i` on, after the ones in `acc`. */
  function ParseItems(s: bytes, i: nat, depth: nat, acc: seq<Json>): (r: Parsed)
    requires NulTerminated(s) && i < |s| && depth <= NESTING_LIMIT
    ensures r.Parsed? ==> i < r.next < |s|
    ensures r.Failed? ==> i <= r.at <= |s|
    decreases |s| - i, 1
  {
    match ParseValue(s, SkipWs(s, i), depth)
    case Failed(at) => Failed(at)
    case Parsed(v, next) =>
      var m := SkipWs(s, next);
      if s[m] == COMMA then NotLast(s, m); ParseItems(s, m + 1, depth, acc + [v])
      else if s[m] == RBRACKET then NotLast(s, m); Parsed(Array(acc + [v]), m + 1)
      else Failed(m)
  }

  /** The members of an object from `i` on, after the ones in `acc`. */
  function ParseMembers(s: bytes, i: nat, depth: nat, acc: seq<Member>): (r: Parsed)
    requires NulTerminated(s) && i < |s| && depth <= NESTING_LIMIT
    ensures r.Parsed? ==> i < r.next < |s|
    ensures r.Failed? ==> i <= r.at <= |s|
    decreases |s| - i, 1
  {
    match ParseMember(s, i, depth)
    case NoMember(at) => Failed(at)
    case OneMember(m, next) =>
      var k := SkipWs(s, next);
      if s[k] == COMMA then NotLast(s, k); ParseMembers(s, k + 1, depth, acc + [m])
      else if s[k] == RBRACE then NotLast(s, k); Parsed(Object(acc + [m]), k + 1)
      else Failed(k)
  }

  datatype ParsedMember = OneMember(member: Member, next: nat) | NoMember(at: nat)

  /** One `name : value` pair. */
  function ParseMember(s: bytes, i: nat, depth: nat): (r: ParsedMember)
    requires NulTerminated(s) && i < |s| && depth <= NESTING_LIMIT
    ensures r.OneMember? ==> i < r.next < |s|
    ensures r.NoMember? ==> i <= r.at <= |s|
    decreases |s| - i, 0
  {
    match ParseString(s, SkipWs(s, i))
    case NoString(at) => NoMember(at)
    case Name(name, afterName) =>
      var c := SkipWs(s, afterName);
      if s[c] != COLON then NoMember(c)
      else
        NotLast(s, c);
        match ParseValue(s, SkipWs(s, c + 1), depth)
        case Failed(at) => NoMember(at)
        case Parsed(v, next) => OneMember(Member(Text(name), v), next)
  }

  // ---------------------------------------------------------------- one step at a time

  /** What `parse_value` does on an opening bracket. */
  lemma ArrayUnfold(s: bytes, i: nat, depth: nat)
    requires NulTerminated(s) && i < |s| && depth <= NESTING_LIMIT && s[i] == LBRACKET
    ensures i + 1 < |s|
    ensures ParseValue(s, i, depth) ==
            if depth >= NESTING_LIMIT then Failed(i)
            else
              var j := SkipWs(s, i + 1);
              if s[j] == RBRACKET then Parsed(Array([]), j + 1) else ParseItems(s, j, depth + 1, [])
  {
    hide ParseItems;
    NotAWord(s, i);
  }

  /** What `parse_value` does on an opening brace. */
  lemma ObjectUnfold(s: bytes, i: nat, depth: nat)
    requires NulTerminated(s) && i < |s| && depth <= NESTING_LIMIT && s[i] == LBRACE
    ensures i + 1 < |s|
    ensures ParseValue(s, i, depth) ==
            if depth >= NESTING_LIMIT then Failed(i)
            else
              var j := SkipWs(s, i + 1);
              if s[j] == RBRACE then Parsed(Object([]), j + 1) else ParseMembers(s, j, depth + 1, [])
  {
    hide ParseMembers;
    NotAWord(s, i);
  }

  /** A bracket, brace, quote or number byte starts none of the three words. */
  lemma NotAWord(s: bytes, i: nat)
    requires i < |s| && (StartsNumber(s[i]) || s[i] == QUOTE || s[i] == LBRACKET || s[i] == LBRACE)
    ensures !At(s, i, WORD_NULL) && !At(s, i, WORD_FALSE) && !At(s, i, WORD_TRUE)
  {
    if At(s, i, WORD_NULL) { AtIndex(s, i, WORD_NULL, 0); }
    if At(s, i, WORD_FALSE) { AtIndex(s, i, WORD_FALSE, 0); }
    if At(s, i, WORD_TRUE) { AtIndex(s, i, WORD_TRUE, 0); }
  }

  /** One round of the loop of `parse_array`, which leaves the cursor at `m`. */
  lemma ItemsUnfold(s: bytes, i: nat, depth: nat, acc: seq<Json>, m: nat)
    requires NulTerminated(s) && i < |s| && depth <= NESTING_LIMIT
    requires var r := ParseValue(s, SkipWs(s, i), depth); m == if r.Failed? then r.at else SkipWs(s, r.next)
    ensures var r := ParseValue(s, SkipWs(s, i), depth);
            && (r.Failed? ==> ParseItems(s, i, depth, acc) == r)
            && (r.Parsed? && s[m] == COMMA ==>
                  m + 1 < |s| && ParseItems(s, i, depth, acc) == ParseItems(s, m + 1, depth, acc + [r.value]))
            && (r.Parsed? && s[m] == RBRACKET ==> ParseItems(s, i, depth, acc) == Parsed(Array(acc + [r.value]), m + 1))
            && (r.Parsed? && s[m] != COMMA && s[m] != RBRACKET ==> ParseItems(s, i, depth, acc) == Failed(m))
  {
    hide ParseValue;
  }

  /** One round of the loop of `parse_object`, which leaves the cursor at `m`. */
  lemma MembersUnfold(s: bytes, i: nat, depth: nat, acc: seq<Member>, m: nat)
    requires NulTerminated(s) && i < |s| && depth <= NESTING_LIMIT
    requires var r := ParseMember(s, i, depth); m == if r.NoMember? then r.at else SkipWs(s, r.next)
    ensures var r := ParseMember(s, i, depth);
            && (r.NoMember? ==> ParseMembers(s, i, depth, acc) == Failed(r.at))
            && (r.OneMember? && s[m] == COMMA ==>
                  m + 1 < |s| && ParseMembers(s, i, depth, acc) == ParseMembers(s, m + 1, depth, acc + [r.member]))
            && (r.OneMember? && s[m] == RBRACE ==> ParseMembers(s, i, depth, acc) == Parsed(Object(acc + [r.member]), m + 1))
            && (r.OneMember? && s[m] != COMMA && s[m] != RBRACE ==> ParseMembers(s, i, depth, acc) == Failed(m))
  {
    hide ParseMember;
  }

  /** Where a member fails: one place behind the missing quote of its name, at the missing colon, or where
      its value does. */
  lemma MemberFails(s: bytes, i: nat, depth: nat)
    requires NulTerminated(s) && i < |s| && depth <= NESTING_LIMIT
    ensures var j, r := SkipWs(s, i), ParseMember(s, i, depth);
            && (s[j] != 34 ==> r == NoMember(j + 1))
            && var name := ParseString(s, j);
               (name.Name? ==>
                  var c := SkipWs(s, name.next);
                  && (s[c] != 58 ==> r == NoMember(c))
                  && (s[c] == 58 && c + 1 < |s| ==>
                        var v := ParseValue(s, SkipWs(s, c + 1), depth); v.Failed? ==> r == NoMember(v.at)))
  {
    hide ParseValue;
  }

  // ---------------------------------------------------------------- whole documents

  datatype Outcome = Document(value: Json, end: nat) | SyntaxError(position: nat)

  /** `skip_utf8_bom`: three bytes, if at least one byte and the terminator follow them. */
  function AfterBom(s: bytes): (i: nat)
    requires NulTerminated(s)
    ensures i < |s|
  {
    if 4 < |s| && At(s, 0, [0xEF, 0xBB, 0xBF]) then 3 else 0
  }

  /** The position `cJSON_GetErrorPtr` reports for a cursor left at `at`. */
  function ErrorPosition(s: bytes, at: nat): (p: nat)
    requires |s| > 0
    ensures p < |s|
  {
    if at < |s| then at else |s| - 1
  }

  /** `cJSON_ParseWithOpts` on the text `t`. */
  function ParseText(t: bytes, requireEnd: bool): (r: Outcome)
    requires NulFree(t)
    ensures r.Document? ==> r.end <= |t|
    ensures r.SyntaxError? ==> r.position <= |t|
  {
    var s := Terminate(t);
    match ParseValue(s, SkipWs(s, AfterBom(s)), 0)
    case Failed(at) => SyntaxError(ErrorPosition(s, at))
    case Parsed(v, next) =>
      if requireEnd then
        var m := SkipWs(s, next);
        if s[m] == NUL then Document(v, m) else SyntaxError(m)
      else Document(v, next)
  }

  /** The buffer the parser is given: the text and its terminator. */
  function Terminate(t: bytes): (s: bytes)
    requires NulFree(t)
    ensures NulTerminated(s) && |s| == |t| + 1
  {
    assert (t + [NUL])[..|t|] == t;
    t + [NUL]
  }
}

/**
 Every tree the parser returns can be printed and read back: up to the length of its numbers it is
 one of the trees the round trip is promised for.
 */
module Reparse {
  import opened Bytes
  import opened Numbers
  import opened Json
  import opened ParseSpec
  import opened RoundTrip

  // ---------------------------------------------------------------- numbers

  /** A lexeme but for its length. */
  predicate LexemeShape(t: bytes) {
    && |t| >= 1 && (t[0] == MINUS || IsDigit(t[0]))
    && (forall k :: 0 <= k < |t| ==> IsNumberByte(t[k]))
    && StrtodLen(t) == |t|
  }

  lemma {:induction false} DigitsEndPrefix(t: bytes, n: nat, i: nat)
    requires i <= n <= |t|
    ensures DigitsEnd(t[..n], i) == if DigitsEnd(t, i) <= n then DigitsEnd(t, i) else n
    decreases n - i
  {
    if i < n && IsDigit(t[i]) {
      DigitsEndPrefix(t, n, i + 1);
    }
  }

  /** The mantissa is found again in any prefix that holds it. */
  lemma MantissaAgain(t: bytes, n: nat)
    requires 0 < MantissaEnd(t) <= n <= |t|
    ensures MantissaEnd(t[..n]) == MantissaEnd(t)
  {
    var p, i0 := t[..n], SkipSign(t, 0);
    assert SkipSign(p, 0) == i0;
    var i1 := DigitsEnd(t, i0);
    DigitsEndPrefix(t, n, i0);
    if i1 < |t| && t[i1] == DOT {
      assert i1 + 1 <= MantissaEnd(t);
      DigitsEndPrefix(t, n, i1 + 1);
    }
  }

  /** What `strtod` took it takes again, and all of it. */
  lemma StrtodAgain(t: bytes)
    requires StrtodLen(t) > 0
    ensures StrtodLen(t[..StrtodLen(t)]) == StrtodLen(t)
  {
    var n, m := StrtodLen(t), MantissaEnd(t);
    MantissaAgain(t, n);
    if n > m {
      var p, e := t[..n], SkipSign(t, m + 1);
      assert SkipSign(p, m + 1) == e;
      DigitsEndPrefix(t, n, e);
    }
  }

  lemma NumberIsSound(s: bytes, i: nat)
    requires NulTerminated(s) && i < |s| && StartsNumber(s[i]) && ParseNumber(s, i).Parsed?
    ensures ParseNumber(s, i).value.Number? && LexemeShape(ParseNumber(s, i).value.lexeme)
  {
    hide StrtodLen, NumberSpan, IsNumberByte, NulTerminated;
    var n := NumberSpan(s, i, COPY_LIMIT);
    var t := s[i..i + n];
    StrtodAgain(t);
    var u := t[..StrtodLen(t)];
    assert u == s[i..i + StrtodLen(t)] && u[0] == s[i];
    forall k | 0 <= k < |u| ensures IsNumberByte(u[k]) {
      assert u[k] == s[i + k];
    }
  }

  // ---------------------------------------------------------------- trees

  /** What a text can yield with so many levels to spare. */
  predicate Sound(v: Json, room: nat)
    decreases v
  {
    match v
    case Null => true
    case False => true
    case True => true
    case Number(t) => LexemeShape(t)
    case String(c) => c.Text? && NulFree(c.chars)
    case Array(items) => room > 0 && forall i :: 0 <= i < |items| ==> Sound(items[i], room - 1)
    case Object(ms) => room > 0 && forall i :: 0 <= i < |ms| ==> SoundMember(ms[i], room - 1)
    case Raw(_) => false
    case Invalid => false
  }

  predicate SoundMember(m: Member, room: nat)
    decreases m
  {
    m.name.Text? && NulFree(m.name.chars) && Sound(m.value, room)
  }

  predicate SoundItems(items: seq<Json>, room: nat) {
    forall i :: 0 <= i < |items| ==> Sound(items[i], room)
  }

  predicate SoundMembers(ms: seq<Member>, room: nat) {
    forall i :: 0 <= i < |ms| ==> SoundMember(ms[i], room)
  }

  lemma {:induction false} ValueIsSound(s: bytes, i: nat, depth: nat)
    requires NulTerminated(s) && i < |s| && depth <= NESTING_LIMIT && ParseValue(s, i, depth).Parsed?
    ensures Sound(ParseValue(s, i, depth).value, NESTING_LIMIT - depth)
    decreases |s| - i, 0
  {
    hide SkipWs, NulTerminated, At;
    if At(s, i, WORD_NULL) || At(s, i, WORD_FALSE) || At(s, i, WORD_TRUE) || s[i] == QUOTE {
    } else if StartsNumber(s[i]) {
      NumberIsSound(s, i);
    } else if s[i] == LBRACKET {
      var j := SkipWs(s, i + 1);
      if s[j] != RBRACKET {
        ItemsAreSound(s, j, depth + 1, []);
      }
    } else if s[i] == LBRACE {
      var j := SkipWs(s, i + 1);
      if s[j] != RBRACE {
        MembersAreSound(s, j, depth + 1, []);
      }
    }
  }

  lemma {:induction false} ItemsAreSound(s: bytes, i: nat, depth: nat, acc: seq<Json>)
    requires NulTerminated(s) && i < |s| && depth <= NESTING_LIMIT && SoundItems(acc, NESTING_LIMIT - depth)
    requires ParseItems(s, i, depth, acc).Parsed?
    ensures var v := ParseItems(s, i, depth, acc).value; v.Array? && SoundItems(v.items, NESTING_LIMIT - depth)
    decreases |s| - i, 1
  {
    hide SkipWs, NulTerminated, ParseValue, Sound;
    var r := ParseValue(s, SkipWs(s, i), depth);
    ValueIsSound(s, SkipWs(s, i), depth);
    var m := SkipWs(s, r.next);
    if s[m] == COMMA {
      ItemsAreSound(s, m + 1, depth, acc + [r.value]);
    }
  }

  lemma {:induction false} MembersAreSound(s: bytes, i: nat, depth: nat, acc: seq<Member>)
    requires NulTerminated(s) && i < |s| && depth <= NESTING_LIMIT && SoundMembers(acc, NESTING_LIMIT - depth)
    requires ParseMembers(s, i, depth, acc).Parsed?
    ensures var v := ParseMembers(s, i, depth, acc).value; v.Object? && SoundMembers(v.members, NESTING_LIMIT - depth)
    decreases |s| - i, 1
  {
    hide SkipWs, NulTerminated, ParseMember, SoundMember;
    var r := ParseMember(s, i, depth);
    MemberIsSound(s, i, depth);
    var k := SkipWs(s, r.next);
    if s[k] == COMMA {
      MembersAreSound(s, k + 1, depth, acc + [r.member]);
    }
  }

  lemma {:induction false} MemberIsSound(s: bytes, i: nat, depth: nat)
    requires NulTerminated(s) && i < |s| && depth <= NESTING_LIMIT && ParseMember(s, i, depth).OneMember?
    ensures SoundMember(ParseMember(s, i, depth).member, NESTING_LIMIT - depth)
    decreases |s| - i, 0
  {
    hide SkipWs, NulTerminated, ParseString, ParseValue, Sound;
    var name := ParseString(s, SkipWs(s, i));
    var c := SkipWs(s, name.next);
    ValueIsSound(s, SkipWs(s, c + 1), depth);
  }

  // ---------------------------------------------------------------- printing what was read

  /** The number `strtod` reads a lexeme as, None if it is not finite, and the text `print_number`
      gives a finite number. */
  datatype Codec<!D> = Codec(read: bytes -> Option<D>, write: D -> bytes)

  /** The text of a number that was read fits the printer's temporary, is read whole and as the same
      number again. */
  ghost predicate Exact<D>(codec: Codec<D>) {
    forall t :: codec.read(t).Some? ==>
      var text := codec.write(codec.read(t).value);
      ValidLexeme(text) && codec.read(text) == codec.read(t)
  }

  /** What the items hold after parsing: numbers by value, None for one that is not finite. */
  datatype Item<D> =
    | NullItem
    | FalseItem
    | TrueItem
    | OtherItem
    | NumberItem(number: Option<D>)
    | StringItem(text: CString)
    | ArrayItem(items: seq<Item<D>>)
    | ObjectItem(members: seq<NamedItem<D>>)

  datatype NamedItem<D> = NamedItem(name: CString, item: Item<D>)

  function Stored<D>(v: Json, codec: Codec<D>): (x: Item<D>)
    decreases v
  {
    match v
    case Null => NullItem
    case False => FalseItem
    case True => TrueItem
    case Number(t) => NumberItem(codec.read(t))
    case String(c) => StringItem(c)
    case Array(items) => ArrayItem(seq(|items|, i requires 0 <= i < |items| => Stored(items[i], codec)))
    case Object(ms) =>
      ObjectItem(seq(|ms|, i requires 0 <= i < |ms| => NamedItem(ms[i].name, Stored(ms[i].value, codec))))
    case Raw(_) => OtherItem
    case Invalid => OtherItem
  }

  /** The items with their numbers as they are printed: one that is not finite as `null`. */
  function Printed<D>(x: Item<D>, codec: Codec<D>): (v: Json)
    decreases x
  {
    match x
    case NullItem => Null
    case FalseItem => False
    case TrueItem => True
    case OtherItem => Invalid
    case NumberItem(d) => if d.None? then Null else Number(codec.write(d.value))
    case StringItem(c) => String(c)
    case ArrayItem(items) => Array(seq(|items|, i requires 0 <= i < |items| => Printed(items[i], codec)))
    case ObjectItem(ms) =>
      Object(seq(|ms|, i requires 0 <= i < |ms| => Member(ms[i].name, Printed(ms[i].item, codec))))
  }

  predicate Finite<D>(x: Item<D>)
    decreases x
  {
    match x
    case NumberItem(d) => d.Some?
    case ArrayItem(items) => forall i :: 0 <= i < |items| ==> Finite(items[i])
    case ObjectItem(ms) => forall i :: 0 <= i < |ms| ==> Finite(ms[i].item)
    case _ => true
  }

  /** What becomes of one value. */
  ghost predicate ComesBack<D>(v: Json, codec: Codec<D>, room: nat) {
    var x := Stored(v, codec);
    var p := Printed(x, codec);
    && Storable(p) && Nesting(p) <= room
    && (Stored(p, codec) == x <==> Finite(x))
  }

  lemma {:induction false} SoundComesBack<D>(v: Json, codec: Codec<D>, room: nat)
    requires Sound(v, room) && Exact(codec)
    ensures ComesBack(v, codec, room)
    decreases v, 1
  {
    match v
    case Array(items) => ArrayComesBack(v, codec, room);
    case Object(ms) => ObjectComesBack(v, codec, room);
    case _ =>
  }

  lemma {:induction false} ArrayComesBack<D>(v: Json, codec: Codec<D>, room: nat)
    requires v.Array? && Sound(v, room) && Exact(codec)
    ensures ComesBack(v, codec, room)
    decreases v, 0
  {
    var x := Stored(v, codec);
    var p := Printed(x, codec);
    forall i | 0 <= i < |v.items|
      ensures ComesBack(v.items[i], codec, room - 1)
      ensures x.items[i] == Stored(v.items[i], codec) && p.items[i] == Printed(x.items[i], codec)
    {
      SoundComesBack(v.items[i], codec, room - 1);
    }
    ItemsNesting(p.items, room - 1);
    assert Stored(p, codec) == x <==> forall i :: 0 <= i < |x.items| ==> Stored(p, codec).items[i] == x.items[i];
  }

  lemma {:induction false} ObjectComesBack<D>(v: Json, codec: Codec<D>, room: nat)
    requires v.Object? && Sound(v, room) && Exact(codec)
    ensures ComesBack(v, codec, room)
    decreases v, 0
  {
    var x := Stored(v, codec);
    var p := Printed(x, codec);
    forall i | 0 <= i < |v.members|
      ensures ComesBack(v.members[i].value, codec, room - 1)
      ensures x.members[i] == NamedItem(v.members[i].name, Stored(v.members[i].value, codec))
      ensures p.members[i] == Member(v.members[i].name, Printed(x.members[i].item, codec))
    {
      MemberComesBack(v.members[i], codec, room - 1);
    }
    MembersNesting(p.members, room - 1);
    assert Stored(p, codec) == x <==> forall i :: 0 <= i < |x.members| ==> Stored(p, codec).members[i] == x.members[i];
  }

  lemma {:induction false} MemberComesBack<D>(m: Member, codec: Codec<D>, room: nat)
    requires SoundMember(m, room) && Exact(codec)
    ensures ComesBack(m.value, codec, room)
    decreases m
  {
    SoundComesBack(m.value, codec, room);
  }

  lemma {:induction false} ItemsNesting(items: seq<Json>, n: nat)
    requires forall i :: 0 <= i < |items| ==> Nesting(items[i]) <= n
    ensures NestingOfItems(items) <= n
    decreases |items|
  {
    if items != [] {
      ItemsNesting(items[1..], n);
    }
  }

  lemma {:induction false} MembersNesting(ms: seq<Member>, n: nat)
    requires forall i :: 0 <= i < |ms| ==> Nesting(ms[i].value) <= n
    ensures NestingOfMembers(ms) <= n
    decreases |ms|
  {
    if ms != [] {
      MembersNesting(ms[1..], n);
    }
  }

  /** Whatever text the parser accepts: the items it leaves are printed, in either format, as a text
      the parser accepts to its end; and reading it gives the same items exactly if every number
      among them is finite. */
  lemma ReparsedIsTheSame<D>(t: bytes, requireEnd: bool, fmt: bool, codec: Codec<D>)
    requires NulFree(t) && ParseText(t, requireEnd).Document? && Exact(codec)
    ensures var x := Stored(ParseText(t, requireEnd).value, codec);
            var p := Printed(x, codec);
            && NulFree(Render(p, fmt, 0)) && ParseText(Render(p, fmt, 0), true) == Document(p, |Render(p, fmt, 0)|)
            && (Stored(p, codec) == x <==> Finite(x))
  {
    hide ParseValue, SkipWs, AfterBom, Exact, Stored, Printed, Finite, Sound, Storable, Nesting, NulTerminated;
    var s := Terminate(t);
    var i := SkipWs(s, AfterBom(s));
    ValueIsSound(s, i, 0);
    var v := ParseValue(s, i, 0).value;
    SoundComesBack(v, codec, NESTING_LIMIT);
    DocumentRoundTrip(Printed(Stored(v, codec), codec), fmt, true);
  }

  /** "1e400" */
  const TOO_LARGE: bytes := [49, 101, 52, 48, 48]

  /** A number too large for a double is accepted, printed as `null` and comes back as a null item. */
  lemma InfinityComesBackAsNull<D>(codec: Codec<D>)
    requires codec.read(TOO_LARGE).None?
    ensures ParseText(TOO_LARGE, true) == Document(Number(TOO_LARGE), 5)
    ensures Printed(Stored(Number(TOO_LARGE), codec), codec) == Null
    ensures Stored(Null, codec) != Stored(Number(TOO_LARGE), codec)
  {
    TooLargeIsALexeme();
    hide ParseText, ValidLexeme, StrtodLen;
    var v := Number(TOO_LARGE);
    assert Render(v, false, 0) == TOO_LARGE;
    DocumentRoundTrip(v, false, true);
  }

  lemma TooLargeIsALexeme()
    ensures ValidLexeme(TOO_LARGE)
  {
    assert DigitsEnd(TOO_LARGE, 0) == 1;
    assert DigitsEnd(TOO_LARGE, 2) == 5;
  }
}

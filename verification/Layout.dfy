/**
 The layout of printed text, byte by byte: in formatted text every member of an object stands on a line
 of its own behind one tab per level, and the closing brace on a line one level out; unformatted text
 has no space at all between its parts.
 */
module Layout {
  import opened Bytes
  import opened Literals
  import opened Json

  /** The texts of the members in front of the `k`-th. */
  function Before(ms: seq<Member>, fmt: bool, d: nat, k: nat): (t: bytes)
    requires k <= |ms|
  {
    if k == 0 then [] else Before(ms, fmt, d, k - 1) + RenderMember(ms[k - 1], fmt, d, k == |ms|)
  }

  lemma {:induction false} MembersFrom(ms: seq<Member>, fmt: bool, d: nat, k: nat)
    requires k <= |ms|
    ensures RenderMembers(ms, fmt, d) == Before(ms, fmt, d, k) + RenderMembers(ms[k..], fmt, d)
  {
    hide RenderMember;
    if k == 0 {
      assert ms[0..] == ms;
    } else {
      MembersFrom(ms, fmt, d, k - 1);
      assert ms[k - 1..][0] == ms[k - 1] && ms[k - 1..][1..] == ms[k..];
      Assoc(Before(ms, fmt, d, k - 1), RenderMember(ms[k - 1], fmt, d, k == |ms|), RenderMembers(ms[k..], fmt, d));
    }
  }

  /** Each member's text ends its line. */
  lemma MemberEndsLine(m: Member, d: nat, last: bool)
    ensures var t := RenderMember(m, true, d, last); |t| > 0 && t[|t| - 1] == 10
  {
    hide Render, RenderString;
  }

  lemma BeforeEndsLine(ms: seq<Member>, d: nat, k: nat)
    requires k <= |ms|
    ensures var t := [123, 10] + Before(ms, true, d, k); t[|t| - 1] == 10
  {
    hide RenderMember;
    if k > 0 {
      MemberEndsLine(ms[k - 1], d, k == |ms|);
    }
  }

  /** In formatted text the `k`-th member follows a line end, as many tabs as levels it is in, its
      name, a colon and a tab. */
  lemma MemberOnItsLine(ms: seq<Member>, d: nat, k: nat) returns (p: nat)
    requires k < |ms|
    ensures p > 0 && At(Render(Object(ms), true, d), p, [10] + (Repeat(9, d + 1) + (RenderString(ms[k].name) + [58, 9])))
  {
    hide At, RenderMembers, RenderString;
    var front := [123, 10] + Before(ms, true, d + 1, k);
    var tabs, rest := Repeat(9, d + 1), RenderMembers(ms[k..], true, d + 1) + (Tabs(true, d) + [125]);
    MembersFrom(ms, true, d + 1, k);
    assert Render(Object(ms), true, d) == front + rest by { ObjectFrom(ms, d, k); }
    BeforeEndsLine(ms, d + 1, k);
    p := |front| - 1;
    assert front == front[..p] + [10];
    var line := Repeat(9, d + 1) + (RenderString(ms[k].name) + [58, 9]);
    var tail := MemberStarts(ms, d + 1, k);
    assert rest == line + (tail + (Tabs(true, d) + [125])) by { Assoc(line, tail, Tabs(true, d) + [125]); }
    var after := tail + (Tabs(true, d) + [125]);
    assert front + (line + after) == front[..p] + (([10] + line) + after);
    assert At(Render(Object(ms), true, d), p, [10] + line) by {
      Standing(front[..p], [10] + line, after);
    }
  }

  lemma Standing(a: bytes, b: bytes, c: bytes)
    ensures At(a + (b + c), |a|, b)
  {
    assert (a + (b + c))[|a|..|a| + |b|] == b;
  }

  lemma ObjectFrom(ms: seq<Member>, d: nat, k: nat)
    requires k <= |ms|
    ensures Render(Object(ms), true, d) ==
            ([123, 10] + Before(ms, true, d + 1, k)) + (RenderMembers(ms[k..], true, d + 1) + (Tabs(true, d) + [125]))
  {
    hide RenderMembers, Before, Tabs;
    MembersFrom(ms, true, d + 1, k);
  }

  lemma MemberStarts(ms: seq<Member>, d: nat, k: nat) returns (tail: bytes)
    requires k < |ms|
    ensures RenderMembers(ms[k..], true, d) == (Repeat(9, d) + (RenderString(ms[k].name) + [58, 9])) + tail
  {
    hide RenderString, Render;
    var m := ms[k..][0];
    tail := (Render(m.value, true, d) + MemberEnd(true, |ms[k..]| == 1)) + RenderMembers(ms[k..][1..], true, d);
  }

  /** The closing brace stands on its own line behind as many tabs as the object itself is in. */
  lemma BraceOnItsLine(ms: seq<Member>, d: nat)
    ensures var t, line := Render(Object(ms), true, d), [10] + (Repeat(9, d) + [125]);
            |t| > |line| && At(t, |t| - |line|, line)
  {
    hide At, RenderMembers;
    ObjectFrom(ms, d, |ms|);
    BeforeEndsLine(ms, d + 1, |ms|);
    assert RenderMembers(ms[|ms|..], true, d + 1) == [] by { NoneLeft(ms, d + 1); }
    var front := [123, 10] + Before(ms, true, d + 1, |ms|);
    var p, line := |front| - 1, [10] + (Repeat(9, d) + [125]);
    assert front == front[..p] + [10];
    assert Render(Object(ms), true, d) == front[..p] + (line + []);
    Standing(front[..p], line, []);
  }

  lemma NoneLeft(ms: seq<Member>, d: nat)
    ensures RenderMembers(ms[|ms|..], true, d) == []
  {
  }

  // ---------------------------------------------------------------- a text in full

  lemma AsciiJoin(a: string, b: string)
    ensures Ascii(a + b) == Ascii(a) + Ascii(b)
  {
  }

  /** {"a":[1,true],"b":{}} */
  function Sample(): (v: Json)
  {
    Object([Member(Text(Ascii("a")), SampleArray()), Member(Text(Ascii("b")), Object([]))])
  }

  function SampleArray(): (v: Json)
  {
    Array([Number(Ascii("1")), True])
  }

  lemma Quoted(c: char)
    requires 'a' <= c <= 'z'
    ensures RenderString(Text(Ascii([c]))) == Ascii(['\"', c, '\"'])
  {
    var t := Ascii([c]);
    assert Escape(t) == EscapeByte(t[0]) + Escape(t[1..]);
    assert t[1..] == [];
  }

  lemma ArrayText(fmt: bool, d: nat)
    ensures Render(SampleArray(), fmt, d) == Ascii(if fmt then "[1, true]" else "[1,true]")
  {
    TwoItems(Number(Ascii("1")), True, fmt, d);
    if fmt {
      TwoItemsFormatted();
    } else {
      TwoItemsCompact();
    }
  }

  lemma TwoItems(a: Json, b: Json, fmt: bool, d: nat)
    ensures Render(Array([a, b]), fmt, d) ==
            [91] + ((Render(a, fmt, d + 1) + (ItemSeparator(fmt) + Render(b, fmt, d + 1))) + [93])
  {
    var items := [a, b];
    assert items[1..] == [b];
    assert RenderItems([b], fmt, d + 1) == Render(b, fmt, d + 1);
  }

  lemma TwoItemsFormatted()
    ensures [91] + ((Ascii("1") + (ItemSeparator(true) + WORD_TRUE)) + [93]) == Ascii("[1, true]")
  {
  }

  lemma TwoItemsCompact()
    ensures [91] + ((Ascii("1") + (ItemSeparator(false) + WORD_TRUE)) + [93]) == Ascii("[1,true]")
  {
  }

  lemma EmptyObjectText(fmt: bool)
    ensures Render(Object([]), fmt, 1) == Ascii(if fmt then "{\n\t}" else "{}")
  {
  }

  lemma SmallParts()
    ensures Tabs(true, 1) == Ascii("\t") && NameSeparator(true) == Ascii(":\t") && NameSeparator(false) == Ascii(":")
    ensures MemberEnd(true, false) == Ascii(",\n") && MemberEnd(false, false) == Ascii(",")
    ensures MemberEnd(true, true) == Ascii("\n") && MemberEnd(false, true) == Ascii("") == Tabs(false, 1)
  {
  }

  /** The text of a member whose parts are known. */
  lemma MemberText(m: Member, fmt: bool, last: bool, tabs: string, name: string, sep: string, value: string, end: string)
    requires Tabs(fmt, 1) == Ascii(tabs) && RenderString(m.name) == Ascii(name) && NameSeparator(fmt) == Ascii(sep)
    requires Render(m.value, fmt, 1) == Ascii(value) && MemberEnd(fmt, last) == Ascii(end)
    ensures RenderMember(m, fmt, 1, last) == Ascii(tabs + (name + (sep + (value + end))))
  {
    hide Ascii, Tabs, RenderString, NameSeparator, Render, MemberEnd;
    AsciiJoin(value, end);
    AsciiJoin(sep, value + end);
    AsciiJoin(name, sep + (value + end));
    AsciiJoin(tabs, name + (sep + (value + end)));
  }

  lemma FirstFormatted()
    ensures "\t" + ("\"a\"" + (":\t" + ("[1, true]" + ",\n"))) == "\t\"a\":\t[1, true],\n"
  {
    assert ":\t" + ("[1, true]" + ",\n") == ":\t[1, true],\n";
  }

  lemma FirstCompact()
    ensures "" + ("\"a\"" + (":" + ("[1,true]" + ","))) == "\"a\":[1,true],"
  {
  }

  lemma FirstLine(fmt: bool)
    ensures RenderMember(Member(Text(Ascii("a")), SampleArray()), fmt, 1, false)
         == Ascii(if fmt then "\t\"a\":\t[1, true],\n" else "\"a\":[1,true],")
  {
    hide Ascii, Render, RenderMember, RenderString, SampleArray;
    Quoted('a');
    ArrayText(fmt, 1);
    SmallParts();
    var m := Member(Text(Ascii("a")), SampleArray());
    if fmt {
      MemberText(m, true, false, "\t", "\"a\"", ":\t", "[1, true]", ",\n");
      FirstFormatted();
    } else {
      MemberText(m, false, false, "", "\"a\"", ":", "[1,true]", ",");
      FirstCompact();
    }
  }

  lemma SecondFormatted()
    ensures "\t" + ("\"b\"" + (":\t" + ("{\n\t}" + "\n"))) == "\t\"b\":\t{\n\t}\n"
  {
  }

  lemma SecondCompact()
    ensures "" + ("\"b\"" + (":" + ("{}" + ""))) == "\"b\":{}"
  {
  }

  lemma SecondLine(fmt: bool)
    ensures RenderMember(Member(Text(Ascii("b")), Object([])), fmt, 1, true)
         == Ascii(if fmt then "\t\"b\":\t{\n\t}\n" else "\"b\":{}")
  {
    hide Ascii, Render, RenderMember, RenderString;
    Quoted('b');
    EmptyObjectText(fmt);
    SmallParts();
    var m := Member(Text(Ascii("b")), Object([]));
    if fmt {
      MemberText(m, true, true, "\t", "\"b\"", ":\t", "{\n\t}", "\n");
      SecondFormatted();
    } else {
      MemberText(m, false, true, "", "\"b\"", ":", "{}", "");
      SecondCompact();
    }
  }

  lemma TwoMembers(a: Member, b: Member, fmt: bool)
    ensures Render(Object([a, b]), fmt, 0) ==
            ([123] + Newline(fmt)) + (RenderMember(a, fmt, 1, false) + (RenderMember(b, fmt, 1, true) + [125]))
  {
    hide RenderMember;
    var ms := [a, b];
    assert ms[1..] == [b] && [b][1..] == [];
    assert RenderMembers([b], fmt, 1) == RenderMember(b, fmt, 1, true);
    assert RenderMembers(ms, fmt, 1) == RenderMember(a, fmt, 1, false) + RenderMember(b, fmt, 1, true);
  }

  lemma Opening(fmt: bool)
    ensures [123] + Newline(fmt) == Ascii(if fmt then "{\n" else "{") && [125] == Ascii("}")
  {
  }

  /** A text in full: unformatted, and formatted line by line. */
  lemma SampleText()
    ensures Render(Sample(), false, 0) == Ascii("{\"a\":[1,true],\"b\":{}}")
    ensures Render(Sample(), true, 0) ==
            Ascii("{\n") + (Ascii("\t\"a\":\t[1, true],\n") + (Ascii("\t\"b\":\t{\n\t}\n") + Ascii("}")))
  {
    hide *;
    SampleLines(false);
    SampleLines(true);
    OneLine();
  }

  lemma OneLine()
    ensures Ascii("{") + (Ascii("\"a\":[1,true],") + (Ascii("\"b\":{}") + Ascii("}"))) == Ascii("{\"a\":[1,true],\"b\":{}}")
  {
    hide *;
    AsciiJoin("\"b\":{}", "}");
    AsciiJoin("\"a\":[1,true],", "\"b\":{}" + "}");
    AsciiJoin("{", "\"a\":[1,true]," + ("\"b\":{}" + "}"));
    OneString();
  }

  lemma OneString()
    ensures "{" + ("\"a\":[1,true]," + ("\"b\":{}" + "}")) == "{\"a\":[1,true],\"b\":{}}"
  {
  }

  lemma SampleLines(fmt: bool)
    ensures Render(Sample(), fmt, 0) ==
            Ascii(if fmt then "{\n" else "{")
            + (Ascii(if fmt then "\t\"a\":\t[1, true],\n" else "\"a\":[1,true],")
               + (Ascii(if fmt then "\t\"b\":\t{\n\t}\n" else "\"b\":{}") + Ascii("}")))
  {
    hide Ascii, Render, RenderMember, SampleArray;
    Opening(fmt);
    FirstLine(fmt);
    SecondLine(fmt);
    TwoMembers(Member(Text(Ascii("a")), SampleArray()), Member(Text(Ascii("b")), Object([])), fmt);
  }

  /** The three words in full, and what a string without a text is printed as. */
  lemma Words(fmt: bool, d: nat)
    ensures Render(String(NullPtr), fmt, d) == Ascii("\"\"")
    ensures Render(Null, fmt, d) == Ascii("null")
    ensures Render(True, fmt, d) == Ascii("true")
    ensures Render(False, fmt, d) == Ascii("false")
  {
  }
}

/**
 The JSON tree of cJSON and the text `print_value` produces for it.
 */
module Json {
  import opened Bytes
  import opened Numbers
  import opened Literals

  /** An item by its type tag.  `Invalid` is the tag of a freshly allocated item. */
  datatype Json =
    | Invalid
    | Null
    | False
    | True
    | Number(lexeme: bytes)
    | String(text: CString)
    | Raw(text: CString)
    | Array(items: seq<Json>)
    | Object(members: seq<Member>)

  /** A child of an object: its `string` and the rest of the item. */
  datatype Member = Member(name: CString, value: Json)

  const NESTING_LIMIT: nat := 1000

  predicate IsCString(c: CString) {
    c.Text? ==> NulFree(c.chars)
  }

  /** What the C structure can hold: strings end at their first NUL, numbers print as lexemes. */
  predicate Representable(v: Json)
    decreases v
  {
    match v
    case Number(t) => ValidLexeme(t)
    case String(c) => IsCString(c)
    case Raw(c) => IsCString(c)
    case Array(items) => forall i :: 0 <= i < |items| ==> Representable(items[i])
    case Object(ms) => forall i :: 0 <= i < |ms| ==> IsCString(ms[i].name) && Representable(ms[i].value)
    case _ => true
  }

  /** `print_value` refuses items without a valid type and Raw items without a text. */
  predicate Printable(v: Json)
    decreases v
  {
    match v
    case Invalid => false
    case Raw(c) => c.Text?
    case Array(items) => forall i :: 0 <= i < |items| ==> Printable(items[i])
    case Object(ms) => forall i :: 0 <= i < |ms| ==> Printable(ms[i].value)
    case _ => true
  }

  /** Trees a text can stand for: no Raw items, no null strings or names. */
  predicate Plain(v: Json)
    decreases v
  {
    match v
    case Invalid => false
    case String(c) => c.Text?
    case Raw(c) => false
    case Array(items) => forall i :: 0 <= i < |items| ==> Plain(items[i])
    case Object(ms) => forall i :: 0 <= i < |ms| ==> ms[i].name.Text? && Plain(ms[i].value)
    case _ => true
  }

  /** Levels of arrays and objects. */
  function Nesting(v: Json): (n: nat)
    decreases v
  {
    match v
    case Array(items) => 1 + NestingOfItems(items)
    case Object(ms) => 1 + NestingOfMembers(ms)
    case _ => 0
  }

  function NestingOfItems(items: seq<Json>): (n: nat)
    ensures forall i :: 0 <= i < |items| ==> Nesting(items[i]) <= n
    decreases items
  {
    if items == [] then 0
    else
      var a, b := Nesting(items[0]), NestingOfItems(items[1..]);
      if a < b then b else a
  }

  function NestingOfMember(m: Member): (n: nat)
    decreases m
  {
    Nesting(m.value)
  }

  function NestingOfMembers(ms: seq<Member>): (n: nat)
    ensures forall i :: 0 <= i < |ms| ==> NestingOfMember(ms[i]) <= n
    decreases ms
  {
    if ms == [] then 0
    else
      var a, b := NestingOfMember(ms[0]), NestingOfMembers(ms[1..]);
      if a < b then b else a
  }

  // ---------------------------------------------------------------- rendering

  function ItemSeparator(fmt: bool): (r: bytes)
  {
    if fmt then [COMMA, SPACE] else [COMMA]
  }

  function Newline(fmt: bool): (r: bytes)
  {
    if fmt then [LF] else []
  }

  function Tabs(fmt: bool, n: nat): (r: bytes)
    ensures NulFree(r)
  {
    if fmt then Repeat(TAB, n) else []
  }

  function NameSeparator(fmt: bool): (r: bytes)
  {
    if fmt then [COLON, TAB] else [COLON]
  }

  /** What follows a member's value: a comma unless it is the last, and the end of the line. */
  function MemberEnd(fmt: bool, last: bool): (r: bytes)
  {
    (if last then [] else [COMMA]) + Newline(fmt)
  }

  /** The text of `v` printed at nesting depth `depth`. */
  function Render(v: Json, fmt: bool, depth: nat): (r: bytes)
    decreases v
  {
    match v
    case Invalid => []
    case Null => WORD_NULL
    case False => WORD_FALSE
    case True => WORD_TRUE
    case Number(t) => t
    case String(c) => RenderString(c)
    case Raw(c) => if c.Text? then c.chars else []
    case Array(items) => [LBRACKET] + (RenderItems(items, fmt, depth + 1) + [RBRACKET])
    case Object(ms) =>
      [LBRACE] + (Newline(fmt) + (RenderMembers(ms, fmt, depth + 1) + (Tabs(fmt, depth) + [RBRACE])))
  }

  function RenderItems(items: seq<Json>, fmt: bool, depth: nat): (r: bytes)
    decreases items
  {
    if items == [] then []
    else if |items| == 1 then Render(items[0], fmt, depth)
    else Render(items[0], fmt, depth) + (ItemSeparator(fmt) + RenderItems(items[1..], fmt, depth))
  }

  function RenderMembers(ms: seq<Member>, fmt: bool, depth: nat): (r: bytes)
    decreases ms
  {
    if ms == [] then []
    else RenderMember(ms[0], fmt, depth, |ms| == 1) + RenderMembers(ms[1..], fmt, depth)
  }

  /** One line of an object: indentation, name, value and line end. */
  function RenderMember(m: Member, fmt: bool, depth: nat, last: bool): (r: bytes)
    decreases m
  {
    Tabs(fmt, depth)
    + (RenderString(m.name) + (NameSeparator(fmt) + (Render(m.value, fmt, depth) + MemberEnd(fmt, last))))
  }

  lemma RenderStringNulFree(c: CString)
    requires IsCString(c)
    ensures NulFree(RenderString(c))
  {
  }

  /** No rendering contains a NUL, so `strlen` measures it. */
  lemma {:induction false} RenderNulFree(v: Json, fmt: bool, depth: nat)
    requires Representable(v)
    ensures NulFree(Render(v, fmt, depth))
    decreases v
  {
    match v
    case Number(t) => assert forall k :: 0 <= k < |t| ==> IsNumberByte(t[k]);
    case String(c) => RenderStringNulFree(c);
    case Array(items) => RenderItemsNulFree(items, fmt, depth + 1);
    case Object(ms) => RenderMembersNulFree(ms, fmt, depth + 1);
    case _ =>
  }

  lemma {:induction false} RenderItemsNulFree(items: seq<Json>, fmt: bool, depth: nat)
    requires forall i :: 0 <= i < |items| ==> Representable(items[i])
    ensures NulFree(RenderItems(items, fmt, depth))
    decreases items
  {
    if items != [] {
      RenderNulFree(items[0], fmt, depth);
      RenderItemsNulFree(items[1..], fmt, depth);
    }
  }

  lemma {:induction false} RenderMembersNulFree(ms: seq<Member>, fmt: bool, depth: nat)
    requires forall i :: 0 <= i < |ms| ==> IsCString(ms[i].name) && Representable(ms[i].value)
    ensures NulFree(RenderMembers(ms, fmt, depth))
    decreases ms
  {
    if ms != [] {
      RenderMemberNulFree(ms[0], fmt, depth, |ms| == 1);
      RenderMembersNulFree(ms[1..], fmt, depth);
    }
  }

  lemma {:induction false} RenderMemberNulFree(m: Member, fmt: bool, depth: nat, last: bool)
    requires IsCString(m.name) && Representable(m.value)
    ensures NulFree(RenderMember(m, fmt, depth, last))
    decreases m
  {
    RenderStringNulFree(m.name);
    RenderNulFree(m.value, fmt, depth);
  }
}

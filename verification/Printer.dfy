/**
 The printer as it runs: text is stored through a growable or fixed buffer, most routines leave
 `offset` behind and let `update_offset` find the end of what they stored.  Printing is proved
 to store exactly the rendering, and to succeed exactly when there is room for it.
 */
module Printer {
  import opened Bytes
  import opened Literals
  import opened Json

  const INT_MAX: nat := 2147483647

  class PrintBuffer {
    var buffer: array<byte>
    var length: nat
    var offset: nat
    var depth: nat
    const noalloc: bool
    const format: bool

    ghost predicate Valid()
      reads this`buffer, this`length, this`offset
    {
      && length <= buffer.Length && length <= INT_MAX
      && (offset < length || (offset == 0 && length == 0))
    }

    /** The size the buffer may reach: its own when it is fixed, else what an `int` can count. */
    ghost function Limit(): (n: nat)
      reads this`length
    {
      if noalloc then length else INT_MAX
    }

    /** The bytes in front of the write position. */
    ghost function Written(): (t: bytes)
      requires Valid()
      reads this`buffer, this`length, this`offset, buffer
      ensures |t| == offset
    {
      buffer[..offset]
    }

    /** The buffer holds `t` as a NUL-terminated string. */
    ghost predicate Holds(t: bytes)
      reads this`buffer, this`length, buffer
    {
      |t| < length <= buffer.Length && buffer[..|t|] == t && buffer[|t|] == NUL
    }

    constructor (buffer: array<byte>, length: nat, noalloc: bool, format: bool)
      requires length <= buffer.Length && length <= INT_MAX
      ensures Valid() && this.buffer == buffer && this.length == length && offset == 0 && depth == 0
      ensures this.noalloc == noalloc && this.format == format
    {
      this.buffer, this.length, this.noalloc, this.format := buffer, length, noalloc, format;
      offset, depth := 0, 0;
    }

    /** `ensure`: makes room for `needed` bytes and one more behind `offset`, doubling the total
        when the buffer has to grow. */
    method Ensure(needed: nat) returns (ok: bool)
      requires Valid()
      modifies this`buffer, this`length
      ensures Valid() && Limit() == old(Limit())
      ensures buffer == old(buffer) || (!noalloc && fresh(buffer))
      ensures Written() == old(Written())
      ensures ok <==> offset + needed + 1 <= Limit()
      ensures ok ==> offset + needed + 1 <= length
    {
      if length > 0 && offset >= length {
        return false;
      }
      if needed > INT_MAX {
        return false;
      }
      var total := needed + offset + 1;
      if total <= length {
        return true;
      }
      if noalloc {
        return false;
      }
      var newsize := total * 2;
      if total > INT_MAX / 2 {
        if total > INT_MAX {
          return false;
        }
        newsize := INT_MAX;
      }
      var newbuffer := new byte[newsize];
      forall i | 0 <= i < length {
        newbuffer[i] := buffer[i];
      }
      buffer, length := newbuffer, newsize;
      ok := true;
    }

    /** Stores `t` from the write position on, as `strcpy`, `memcpy` or single stores do. */
    method Store(t: bytes)
      requires Valid() && offset + |t| <= length
      modifies buffer
      ensures buffer[..offset + |t|] == old(Written()) + t
    {
      forall i | 0 <= i < |t| {
        buffer[offset + i] := t[i];
      }
      assert buffer[..offset] == old(buffer[..offset]);
      assert buffer[offset..offset + |t|] == t;
      assert buffer[..offset + |t|] == buffer[..offset] + buffer[offset..offset + |t|];
    }

    /** `update_offset`: moves the write position to the terminator of the string in the buffer. */
    method UpdateOffset(ghost t: bytes)
      requires Valid() && Holds(t) && offset <= |t|
      requires forall k :: offset <= k < |t| ==> t[k] != NUL
      modifies this`offset
      ensures Valid() && offset == |t| && Written() == t
    {
      var i := offset;
      while buffer[i] != NUL
        invariant offset <= i <= |t|
        invariant i < |t| ==> buffer[i] == t[i]
        decreases |t| - i
      {
        i := i + 1;
      }
      offset := i;
    }

    // -------------------------------------------------------------- strings

    /** `print_string_ptr` */
    method PrintString(s: CString) returns (ok: bool)
      requires Valid() && IsCString(s)
      modifies this`buffer, this`length, buffer
      ensures Valid() && Limit() == old(Limit())
      ensures buffer == old(buffer) || (!noalloc && fresh(buffer))
      ensures ok <==> offset + |RenderString(s)| + 2 <= Limit()
      ensures ok ==> Holds(old(Written()) + RenderString(s))
    {
      hide Escape;
      if s.NullPtr? {
        ok := Ensure(3);
        if ok {
          Store([QUOTE, QUOTE, NUL]);
        }
        return;
      }
      var escapes := CountEscapes(s.chars);
      var outputLength := |s.chars| + escapes;
      ok := Ensure(outputLength + 3);
      if !ok {
        return;
      }
      StoreQuoted(s.chars, escapes);
      Assoc(old(Written()), RenderString(s), [NUL]);
      ghost var t := old(Written()) + RenderString(s);
      assert buffer[..|t| + 1] == t + [NUL];
      HeldBy(t);
    }

    lemma HeldBy(t: bytes)
      requires |t| < length <= buffer.Length && buffer[..|t| + 1] == t + [NUL]
      ensures Holds(t)
    {
      assert buffer[..|t|] == buffer[..|t| + 1][..|t|];
      assert buffer[|t|] == buffer[..|t| + 1][|t|];
    }

    /** The two ways `print_string_ptr` stores a string: in one piece, or escaped byte by byte. */
    method StoreQuoted(chars: bytes, escapes: nat)
      requires Valid() && |Escape(chars)| == |chars| + escapes
      requires offset + |Escape(chars)| + 3 < length
      modifies buffer
      ensures buffer[..offset + |Escape(chars)| + 3] == old(Written()) + ([QUOTE] + (Escape(chars) + [QUOTE]) + [NUL])
    {
      hide Escape;
      var n := |chars| + escapes;
      if escapes == 0 {
        NothingToEscape(chars);
        Store([QUOTE] + (chars + [QUOTE]) + [NUL]);
      } else {
        buffer[offset] := QUOTE;
        assert buffer[..offset + 1] == old(Written()) + [QUOTE];
        CopyEscaped(buffer, offset + 1, chars);
        buffer[offset + 1 + n] := QUOTE;
        buffer[offset + 2 + n] := NUL;
        assert buffer[..offset + 1 + n] == old(Written()) + [QUOTE] + Escape(chars);
        assert buffer[..offset + 3 + n] == buffer[..offset + 1 + n] + [QUOTE, NUL];
      }
    }

    // -------------------------------------------------------------- values

    /** Stores `t` and its terminator, leaving `offset` behind. */
    method Emit(t: bytes) returns (ok: bool)
      requires Valid()
      modifies this`buffer, this`length, buffer
      ensures Valid() && Limit() == old(Limit())
      ensures buffer == old(buffer) || (!noalloc && fresh(buffer))
      ensures ok <==> offset + |t| + 2 <= Limit()
      ensures ok ==> Holds(old(Written()) + t)
    {
      ok := Ensure(|t| + 1);
      if ok {
        Store(t + [NUL]);
        assert old(Written()) + (t + [NUL]) == (old(Written()) + t) + [NUL];
      }
    }

    /** Stores `t` and a terminator and moves up to the terminator. */
    method EmitOn(t: bytes) returns (ok: bool)
      requires Valid()
      modifies this`buffer, this`length, this`offset, buffer
      ensures buffer == old(buffer) || (!noalloc && fresh(buffer))
      ensures Valid() && Limit() == old(Limit())
      ensures ok <==> old(offset) + |t| + 2 <= Limit()
      ensures ok ==> Written() == old(Written()) + t
    {
      ok := Emit(t);
      if ok {
        offset := offset + |t|;
      }
    }

    /** Stores `t` without a terminator and moves past it, having asked for `spare` more bytes. */
    method Append(t: bytes, spare: nat) returns (ok: bool)
      requires Valid()
      modifies this`buffer, this`length, this`offset, buffer
      ensures buffer == old(buffer) || (!noalloc && fresh(buffer))
      ensures Valid() && Limit() == old(Limit())
      ensures ok <==> old(offset) + |t| + spare + 1 <= Limit()
      ensures ok ==> offset == old(offset) + |t| && Written() == old(Written()) + t
    {
      ok := Ensure(|t| + spare);
      if ok {
        Store(t);
        offset := offset + |t|;
      }
    }

    /** `print_number`, the one leaf printer that moves `offset` itself. */
    method PrintNumber(lexeme: bytes) returns (ok: bool)
      requires Valid()
      modifies this`buffer, this`length, this`offset, buffer
      ensures buffer == old(buffer) || (!noalloc && fresh(buffer))
      ensures Valid() && Limit() == old(Limit())
      ensures ok <==> old(offset) + |lexeme| + 2 <= Limit()
      ensures ok ==> offset == old(offset) + |lexeme| && Holds(old(Written()) + lexeme)
    {
      ok := Emit(lexeme);
      if ok {
        offset := offset + |lexeme|;
      }
    }

    /** `print_value` */
    method PrintValue(v: Json) returns (ok: bool)
      requires Valid() && Representable(v)
      modifies this, buffer
      ensures buffer == old(buffer) || (!noalloc && fresh(buffer))
      ensures ok <==> Printable(v) && old(offset) + |Render(v, format, old(depth))| + 2 <= old(Limit())
      ensures ok ==> Valid() && Limit() == old(Limit()) && depth == old(depth)
      ensures ok ==> old(offset) <= offset <= old(offset) + |Render(v, format, old(depth))|
      ensures ok ==> Holds(old(Written()) + Render(v, format, old(depth)))
      decreases v, 1
    {
      match v
      case Null => ok := Emit(WORD_NULL);
      case False => ok := Emit(WORD_FALSE);
      case True => ok := Emit(WORD_TRUE);
      case Number(t) => ok := PrintNumber(t);
      case String(c) => ok := PrintString(c);
      case Raw(c) =>
        if c.NullPtr? {
          return false;
        }
        ok := Emit(c.chars);
      case Array(items) => ok := PrintArray(v);
      case Object(ms) => ok := PrintObject(v);
      case Invalid => ok := false;
    }

    /** `print_array` */
    method PrintArray(v: Json) returns (ok: bool)
      requires Valid() && Representable(v) && v.Array?
      modifies this, buffer
      ensures buffer == old(buffer) || (!noalloc && fresh(buffer))
      ensures ok <==> Printable(v) && old(offset) + |Render(v, format, old(depth))| + 2 <= old(Limit())
      ensures ok ==> Valid() && Limit() == old(Limit()) && depth == old(depth)
      ensures ok ==> old(offset) <= offset <= old(offset) + |Render(v, format, old(depth))|
      ensures ok ==> Holds(old(Written()) + Render(v, format, old(depth)))
      decreases v, 0
    {
      hide Render, RenderItems;
      ArrayText(Written(), v.items, format, depth);
      ok := Append([LBRACKET], 0);
      if !ok {
        return;
      }
      depth := depth + 1;
      ok := PrintElements(v.items);
      if !ok {
        return;
      }
      ok := Emit([RBRACKET]);
      if ok {
        depth := depth - 1;
      }
    }

    /** The loop of `print_array`; with no items there is nothing to make room for. */
    method PrintElements(items: seq<Json>) returns (ok: bool)
      requires Valid() && forall i :: 0 <= i < |items| ==> Representable(items[i])
      modifies this, buffer
      ensures buffer == old(buffer) || (!noalloc && fresh(buffer))
      ensures ok <==> items == [] || (AllPrintable(items) && old(offset) + |RenderItems(items, format, old(depth))| + 2 <= old(Limit()))
      ensures ok ==> Valid() && Limit() == old(Limit()) && depth == old(depth)
      ensures ok ==> Written() == old(Written()) + RenderItems(items, format, old(depth))
      decreases items
    {
      hide Render, RenderItems, Representable, Printable;
      ghost var goal := Written() + RenderItems(items, format, depth);
      ok := true;
      var i := 0;
      assert items[0..] == items;
      while i < |items|
        invariant 0 <= i <= |items| && ok
        invariant Valid() && Limit() == old(Limit()) && depth == old(depth)
        invariant buffer == old(buffer) || (!noalloc && fresh(buffer))
        invariant Written() + RenderItems(items[i..], format, depth) == goal
        invariant forall k :: 0 <= k < i ==> Printable(items[k])
        invariant i == |items| > 0 ==> offset + 2 <= Limit()
      {
        ItemsText(Written(), items, i, format, depth);
        ok := PrintElement(items[i], i + 1 < |items|);
        if !ok {
          return;
        }
        i := i + 1;
      }
      NoItemsLeft(items, format, depth);
    }

    /** The body of the loop of `print_array`: a value, and a separator if more follow. */
    method PrintElement(item: Json, more: bool) returns (ok: bool)
      requires Valid() && Representable(item)
      modifies this, buffer
      ensures buffer == old(buffer) || (!noalloc && fresh(buffer))
      ensures ok <==> Printable(item) && old(offset) + |ElementText(item, more, format, old(depth))| + 2 <= old(Limit())
      ensures ok ==> Valid() && Limit() == old(Limit()) && depth == old(depth)
      ensures ok ==> Written() == old(Written()) + ElementText(item, more, format, old(depth))
      decreases item, 2
    {
      hide Render, Written, Valid, Limit, Holds, Printable, Representable;
      ghost var t := Written() + Render(item, format, depth);
      RenderNulFree(item, format, depth);
      ok := PrintValue(item);
      if !ok {
        return;
      }
      UpdateOffset(t);
      if more {
        ok := EmitOn(ItemSeparator(format));
      }
    }

    /** `print_object` */
    method PrintObject(v: Json) returns (ok: bool)
      requires Valid() && Representable(v) && v.Object?
      modifies this, buffer
      ensures buffer == old(buffer) || (!noalloc && fresh(buffer))
      ensures ok <==> Printable(v) && old(offset) + |Render(v, format, old(depth))| + 2 <= old(Limit())
      ensures ok ==> Valid() && Limit() == old(Limit()) && depth == old(depth)
      ensures ok ==> old(offset) <= offset <= old(offset) + |Render(v, format, old(depth))|
      ensures ok ==> Holds(old(Written()) + Render(v, format, old(depth)))
      decreases v, 0
    {
      hide Render, RenderMembers, Tabs, Limit, Written, Valid, Holds;
      ObjectText(Written(), v.members, format, depth);
      ok := Append([LBRACE] + Newline(format), 1);
      if !ok {
        return;
      }
      depth := depth + 1;
      ok := PrintMembers(v.members);
      if !ok {
        return;
      }
      ok := Emit(Tabs(format, depth - 1) + [RBRACE]);
      if ok {
        depth := depth - 1;
      }
    }

    /** The loop of `print_object`. */
    method PrintMembers(ms: seq<Member>) returns (ok: bool)
      requires Valid() && forall i :: 0 <= i < |ms| ==> IsCString(ms[i].name) && Representable(ms[i].value)
      modifies this, buffer
      ensures buffer == old(buffer) || (!noalloc && fresh(buffer))
      ensures ok <==> ms == [] || (ValuesPrintable(ms) && old(offset) + |RenderMembers(ms, format, old(depth))| + 2 <= old(Limit()))
      ensures ok ==> Valid() && Limit() == old(Limit()) && depth == old(depth)
      ensures ok ==> Written() == old(Written()) + RenderMembers(ms, format, old(depth))
      decreases ms
    {
      hide RenderMember, RenderMembers, Representable, Printable;
      ghost var goal := Written() + RenderMembers(ms, format, depth);
      ok := true;
      var i := 0;
      assert ms[0..] == ms;
      while i < |ms|
        invariant 0 <= i <= |ms| && ok
        invariant Valid() && Limit() == old(Limit()) && depth == old(depth)
        invariant buffer == old(buffer) || (!noalloc && fresh(buffer))
        invariant Written() + RenderMembers(ms[i..], format, depth) == goal
        invariant forall k :: 0 <= k < i ==> Printable(ms[k].value)
        invariant i == |ms| > 0 ==> offset + 2 <= Limit()
      {
        MembersText(Written(), ms, i, format, depth);
        ok := PrintMember(ms[i], i + 1 == |ms|);
        if !ok {
          return;
        }
        i := i + 1;
      }
      NoMembersLeft(ms, format, depth);
    }

    /** The body of the loop of `print_object`: indentation, name, colon, value and line end. */
    method PrintMember(m: Member, last: bool) returns (ok: bool)
      requires Valid() && IsCString(m.name) && Representable(m.value)
      modifies this, buffer
      ensures buffer == old(buffer) || (!noalloc && fresh(buffer))
      ensures ok <==> Printable(m.value) && old(offset) + |RenderMember(m, format, old(depth), last)| + 2 <= old(Limit())
      ensures ok ==> Valid() && Limit() == old(Limit()) && depth == old(depth)
      ensures ok ==> Written() == old(Written()) + RenderMember(m, format, old(depth), last)
      decreases m
    {
      hide Render, RenderMember, Representable, Printable, Tabs, RenderString;
      MemberText(Written(), m, format, depth, last);
      ok := PrintName(m.name);
      if !ok {
        return;
      }
      ok := PrintMemberValue(m.value, last);
    }

    /** The tabs in front of a member, in formatted output only. */
    method PrintIndent() returns (ok: bool)
      requires Valid()
      modifies this`buffer, this`length, this`offset, buffer
      ensures buffer == old(buffer) || (!noalloc && fresh(buffer))
      ensures Valid() && Limit() == old(Limit())
      ensures !ok ==> old(offset) + |Tabs(format, depth)| + 1 > Limit()
      ensures ok ==> offset == old(offset) + |Tabs(format, depth)| && Written() == old(Written()) + Tabs(format, depth)
    {
      ok := true;
      if format {
        ok := Append(Repeat(TAB, depth), 0);
      }
    }

    /** Indentation, name and colon of a member. */
    method PrintName(name: CString) returns (ok: bool)
      requires Valid() && IsCString(name)
      modifies this, buffer
      ensures buffer == old(buffer) || (!noalloc && fresh(buffer))
      ensures !ok ==> old(offset) + |NameText(name, format, old(depth))| + 2 > old(Limit())
      ensures ok ==> Valid() && Limit() == old(Limit()) && depth == old(depth)
      ensures ok ==> Written() == old(Written()) + NameText(name, format, old(depth))
    {
      hide RenderString, Tabs, Written, Valid, Limit;
      ok := PrintIndent();
      if !ok {
        return;
      }
      ok := PrintKey(name);
      if !ok {
        return;
      }
      ok := Append(NameSeparator(format), 0);
    }

    /** A name in quotes, with the write position moved behind it. */
    method PrintKey(name: CString) returns (ok: bool)
      requires Valid() && IsCString(name)
      modifies this`buffer, this`length, this`offset, buffer
      ensures buffer == old(buffer) || (!noalloc && fresh(buffer))
      ensures Valid() && Limit() == old(Limit())
      ensures !ok ==> old(offset) + |RenderString(name)| + 2 > Limit()
      ensures ok ==> offset == old(offset) + |RenderString(name)| && Written() == old(Written()) + RenderString(name)
    {
      hide RenderString;
      RenderStringNulFree(name);
      ghost var t := Written() + RenderString(name);
      ok := PrintString(name);
      if ok {
        UpdateOffset(t);
      }
    }

    /** Value and line end of a member. */
    method PrintMemberValue(value: Json, last: bool) returns (ok: bool)
      requires Valid() && Representable(value)
      modifies this, buffer
      ensures buffer == old(buffer) || (!noalloc && fresh(buffer))
      ensures ok <==> Printable(value) && old(offset) + |Render(value, format, old(depth))| + |MemberEnd(format, last)| + 2 <= old(Limit())
      ensures ok ==> Valid() && Limit() == old(Limit()) && depth == old(depth)
      ensures ok ==> Written() == old(Written()) + (Render(value, format, old(depth)) + MemberEnd(format, last))
      decreases value, 2
    {
      hide Render, Representable, Printable, Written, Valid, Limit, Holds;
      ghost var t := Written() + Render(value, format, depth);
      RenderNulFree(value, format, depth);
      ok := PrintValue(value);
      if !ok {
        return;
      }
      UpdateOffset(t);
      ok := EmitOn(MemberEnd(format, last));
    }
  }

  function NameText(name: CString, fmt: bool, d: nat): (r: bytes)
  {
    Tabs(fmt, d) + RenderString(name) + NameSeparator(fmt)
  }

  lemma MemberText(before: bytes, m: Member, fmt: bool, d: nat, last: bool)
    ensures before + RenderMember(m, fmt, d, last) ==
            (before + NameText(m.name, fmt, d)) + (Render(m.value, fmt, d) + MemberEnd(fmt, last))
  {
    hide Render, Tabs, RenderString, MemberEnd;
  }

  /** After the opening brace the members, the indentation and the closing brace are to come. */
  lemma ObjectText(before: bytes, ms: seq<Member>, fmt: bool, d: nat)
    ensures before + Render(Object(ms), fmt, d) ==
            ((before + ([LBRACE] + Newline(fmt))) + RenderMembers(ms, fmt, d + 1)) + (Tabs(fmt, d) + [RBRACE])
  {
    hide RenderMembers, Tabs;
  }

  lemma MembersText(before: bytes, ms: seq<Member>, i: nat, fmt: bool, d: nat)
    requires i < |ms|
    ensures before + RenderMembers(ms[i..], fmt, d) ==
            (before + RenderMember(ms[i], fmt, d, i + 1 == |ms|)) + RenderMembers(ms[i + 1..], fmt, d)
  {
    hide RenderMember;
    assert ms[i..][0] == ms[i] && ms[i..][1..] == ms[i + 1..];
  }

  lemma NoMembersLeft(ms: seq<Member>, fmt: bool, d: nat)
    ensures RenderMembers(ms[|ms|..], fmt, d) == []
  {
  }

  predicate ValuesPrintable(ms: seq<Member>) {
    forall i :: 0 <= i < |ms| ==> Printable(ms[i].value)
  }

  predicate AllPrintable(items: seq<Json>) {
    forall i :: 0 <= i < |items| ==> Printable(items[i])
  }

  /** After the opening bracket the items and the closing bracket are still to come. */
  lemma ArrayText(before: bytes, items: seq<Json>, fmt: bool, d: nat)
    ensures before + Render(Array(items), fmt, d) ==
            ((before + [LBRACKET]) + RenderItems(items, fmt, d + 1)) + [RBRACKET]
  {
    hide RenderItems;
  }

  function ElementText(item: Json, more: bool, fmt: bool, d: nat): (r: bytes)
  {
    Render(item, fmt, d) + if more then ItemSeparator(fmt) else []
  }

  /** After item `i` and its separator the rest is still to come. */
  lemma ItemsText(before: bytes, items: seq<Json>, i: nat, fmt: bool, d: nat)
    requires i < |items|
    ensures before + RenderItems(items[i..], fmt, d) ==
            (before + ElementText(items[i], i + 1 < |items|, fmt, d)) + RenderItems(items[i + 1..], fmt, d)
  {
    hide Render;
    assert items[i..][0] == items[i] && items[i..][1..] == items[i + 1..];
  }

  lemma NoItemsLeft(items: seq<Json>, fmt: bool, d: nat)
    ensures RenderItems(items[|items|..], fmt, d) == []
  {
  }

  // ---------------------------------------------------------------- entry points

  /** `cJSON_PrintPreallocated`: it succeeds exactly when the buffer has two bytes to spare, so
      the five bytes the header advises to add are always enough. */
  method PrintPreallocated(item: Json, buf: array<byte>, len: int, fmt: bool) returns (ok: bool)
    requires Representable(item) && len <= buf.Length && len <= INT_MAX
    modifies buf
    ensures ok <==> Printable(item) && |Render(item, fmt, 0)| + 2 <= len
    ensures ok ==> buf[..|Render(item, fmt, 0)|] == Render(item, fmt, 0) && buf[|Render(item, fmt, 0)|] == NUL
  {
    if len < 0 {
      return false;
    }
    var p := new PrintBuffer(buf, len, true, fmt);
    ok := p.PrintValue(item);
    assert [] + Render(item, fmt, 0) == Render(item, fmt, 0);
  }

  /** `cJSON_PrintBuffered`: any initial size gives the same text. */
  method PrintBuffered(item: Json, prebuffer: int, fmt: bool) returns (text: array?<byte>)
    requires Representable(item) && prebuffer <= INT_MAX
    ensures text != null <==> prebuffer >= 0 && Printable(item) && |Render(item, fmt, 0)| + 2 <= 2147483647
    ensures text != null ==> fresh(text)
    ensures text != null ==>
              |Render(item, fmt, 0)| < text.Length
              && text[..|Render(item, fmt, 0)|] == Render(item, fmt, 0) && text[|Render(item, fmt, 0)|] == NUL
  {
    if prebuffer < 0 {
      return null;
    }
    var buffer := new byte[prebuffer];
    var p := new PrintBuffer(buffer, prebuffer, false, fmt);
    var ok := p.PrintValue(item);
    if !ok {
      return null;
    }
    assert [] + Render(item, fmt, 0) == Render(item, fmt, 0);
    text := p.buffer;
  }

  /** `print`, behind `cJSON_Print` and `cJSON_PrintUnformatted`: the result is cut to size. */
  method Print(item: Json, fmt: bool) returns (text: array?<byte>)
    requires Representable(item)
    ensures text != null <==> Printable(item) && |Render(item, fmt, 0)| + 2 <= 2147483647
    ensures text != null ==> fresh(text) && text[..] == Render(item, fmt, 0) + [NUL]
  {
    hide Render, Representable, Printable;
    var buffer := new byte[256];
    var p := new PrintBuffer(buffer, 256, false, fmt);
    var ok := p.PrintValue(item);
    if !ok {
      return null;
    }
    ghost var t := Render(item, fmt, 0);
    assert [] + t == t;
    RenderNulFree(item, fmt, 0);
    p.UpdateOffset(t);
    text := CutTo(p.buffer, p.offset + 1);
    assert p.buffer[..p.offset + 1] == p.buffer[..p.offset] + [NUL];
  }

  /** `realloc` to a smaller size. */
  method CutTo(buffer: array<byte>, size: nat) returns (copy: array<byte>)
    requires size <= buffer.Length
    ensures fresh(copy) && copy[..] == buffer[..size]
  {
    copy := new byte[size];
    forall i | 0 <= i < size {
      copy[i] := buffer[i];
    }
  }
}

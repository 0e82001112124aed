/**
 The parser as it runs: a cursor and a depth counter over a NUL-terminated buffer, moved
 forward and stepped back by every routine.  Each routine is proved to compute what
 `ParseSpec` says and to leave the cursor inside the buffer.
 */
module Parser {
  import opened Bytes
  import opened Numbers
  import opened Literals
  import opened Json
  import opened ParseSpec

  class ParseBuffer {
    const content: bytes
    var offset: nat
    var depth: nat

    /** The cursor stands on a byte of the buffer (on the terminator at the furthest). */
    ghost predicate Valid()
      reads this
    {
      NulTerminated(content) && offset < |content| && depth <= NESTING_LIMIT
    }

    constructor (text: bytes)
      requires NulFree(text)
      ensures Valid() && content == Terminate(text) && offset == 0 && depth == 0
    {
      content := Terminate(text);
      offset, depth := 0, 0;
    }

    /** `skip_utf8_bom` */
    method SkipUtf8Bom()
      requires Valid() && offset == 0
      modifies this`offset
      ensures Valid() && offset == AfterBom(content)
    {
      if offset + 4 < |content| && content[offset..offset + 3] == [0xEF, 0xBB, 0xBF] {
        offset := offset + 3;
      }
    }

    /** `buffer_skip_whitespace`: the terminator counts as white space, so the cursor may step
        off the end and is then moved back onto it. */
    method SkipWhitespace()
      requires Valid()
      modifies this`offset
      ensures Valid() && offset == SkipWs(content, old(offset))
    {
      while offset < |content| && content[offset] <= 32
        invariant old(offset) <= offset <= |content|
        invariant offset < |content| ==> SkipWs(content, offset) == SkipWs(content, old(offset))
        invariant offset == |content| ==> SkipWs(content, old(offset)) == |content| - 1
      {
        offset := offset + 1;
      }
      if offset == |content| {
        offset := offset - 1;
      }
    }

    /** `parse_number`: copies at most 63 number bytes and lets `strtod` say how many count. */
    method ParseNumberItem() returns (item: Option<Json>)
      requires Valid()
      modifies this`offset
      ensures Valid()
      ensures match ParseSpec.ParseNumber(content, old(offset))
              case Parsed(v, next) => item == Some(v) && offset == next
              case Failed(at) => item == None && offset == at
    {
      hide NumberSpan, StrtodLen, NulTerminated;
      var copy := new byte[64];
      var length := CopyNumber(content, offset, copy);
      var number := copy[..length];
      var used := StrtodLen(number);
      if used == 0 {
        return None;
      }
      assert number[..used] == content[offset..offset + used];
      assert ParseSpec.ParseNumber(content, offset) == Parsed(Number(number[..used]), offset + used);
      item := Some(Number(number[..used]));
      offset := offset + used;
    }

    /** `parse_string`: on success the cursor is after the closing quote, on failure at the byte
        the input pointer had reached, which can be one past the terminator. */
    method ParseStringItem() returns (item: Option<bytes>)
      requires Valid()
      modifies this`offset
      ensures match ParseSpec.ParseString(content, old(offset))
              case Name(chars, next) => item == Some(chars) && offset == next && Valid()
              case NoString(at) => item == None && offset == at
    {
      var input := offset + 1;
      if content[offset] != QUOTE {
        offset := input;
        return None;
      }
      var end, skipped := FindEnd(content, input);
      if end.None? {
        offset := input;
        return None;
      }
      var allocation := (end.value - offset) - skipped;
      var output := new byte[allocation + 1];
      var decoded := DecodeInto(content, input, end.value, output);
      if decoded.BadEscape? {
        offset := decoded.at;
        return None;
      }
      item := Some(UpToNul(decoded.out));
      offset := end.value + 1;
    }

    /** `parse_value` */
    method ParseValueItem() returns (item: Option<Json>)
      requires Valid()
      modifies this
      ensures depth <= NESTING_LIMIT
      ensures match ParseSpec.ParseValue(content, old(offset), old(depth))
              case Parsed(v, next) => item == Some(v) && offset == next && depth == old(depth) && Valid()
              case Failed(at) => item == None && offset == at
      decreases |content| - offset, 3
    {
      if At(content, offset, WORD_NULL) {
        offset := offset + 4;
        return Some(Null);
      }
      if At(content, offset, WORD_FALSE) {
        offset := offset + 5;
        return Some(False);
      }
      if At(content, offset, WORD_TRUE) {
        offset := offset + 4;
        return Some(True);
      }
      if content[offset] == QUOTE {
        var text := ParseStringItem();
        return if text.Some? then Some(String(Text(text.value))) else None;
      }
      if content[offset] == MINUS || IsDigit(content[offset]) {
        item := ParseNumberItem();
        return;
      }
      if content[offset] == LBRACKET {
        item := ParseArrayItem();
        return;
      }
      if content[offset] == LBRACE {
        item := ParseObjectItem();
        return;
      }
      return None;
    }

    /** `parse_array`: after the bracket the cursor steps back in front of the first element, so
        that every round of the loop can start by stepping forward. */
    method ParseArrayItem() returns (item: Option<Json>)
      requires Valid() && content[offset] == LBRACKET
      modifies this
      ensures depth <= NESTING_LIMIT
      ensures match ParseSpec.ParseValue(content, old(offset), old(depth))
              case Parsed(v, next) => item == Some(v) && offset == next && depth == old(depth) && Valid()
              case Failed(at) => item == None && offset == at
      decreases |content| - offset, 2
    {
      hide ParseSpec.ParseValue, ParseSpec.ParseItems, SkipWs, NulTerminated;
      ghost var start, goal := offset, ParseSpec.ParseValue(content, offset, depth);
      ArrayUnfold(content, offset, depth);
      if depth >= NESTING_LIMIT {
        return None;
      }
      depth := depth + 1;
      offset := offset + 1;
      SkipWhitespace();
      if content[offset] == RBRACKET {
        depth := depth - 1;
        offset := offset + 1;
        return Some(Array([]));
      }
      offset := offset - 1;
      var items := ParseElements(goal);
      if items.None? || content[offset] != RBRACKET {
        return None;
      }
      depth := depth - 1;
      offset := offset + 1;
      item := Some(Array(items.value));
    }

    /** The loop of `parse_array`: stops in front of whatever is not a comma. */
    method ParseElements(ghost goal: Parsed) returns (items: Option<seq<Json>>)
      requires Valid() && offset + 1 < |content| && depth <= NESTING_LIMIT
      requires goal == ParseItems(content, offset + 1, depth, [])
      modifies this
      ensures depth <= NESTING_LIMIT
      ensures items.None? ==> goal == Failed(offset)
      ensures items.Some? ==> Valid() && depth == old(depth)
      ensures items.Some? ==> goal == if content[offset] == RBRACKET then Parsed(Array(items.value), offset + 1) else Failed(offset)
      decreases |content| - offset, 1
    {
      hide ParseSpec.ParseValue, ParseSpec.ParseItems, SkipWs, NulTerminated;
      var values: seq<Json> := [];
      var more := true;
      while more
        invariant old(offset) <= offset < |content| && NulTerminated(content) && depth == old(depth)
        invariant more ==> offset + 1 < |content| && goal == ParseItems(content, offset + 1, depth, values)
        invariant !more ==> goal == if content[offset] == RBRACKET then Parsed(Array(values), offset + 1) else Failed(offset)
        decreases more, |content| - offset
      {
        ghost var from := offset + 1;
        var value := ParseElement();
        ItemsUnfold(content, from, old(depth), values, offset);
        if value.None? {
          return None;
        }
        values := values + [value.value];
        more := content[offset] == COMMA;
      }
      items := Some(values);
    }

    /** The body of the loop of `parse_array`: a value with the white space around it. */
    method ParseElement() returns (value: Option<Json>)
      requires Valid() && offset + 1 < |content|
      modifies this
      ensures depth <= NESTING_LIMIT
      ensures match ParseSpec.ParseValue(content, SkipWs(content, old(offset) + 1), old(depth))
              case Parsed(v, next) =>
                value == Some(v) && offset == SkipWs(content, next) && depth == old(depth) && Valid()
              case Failed(at) => value == None && offset == at
      decreases |content| - offset, 0
    {
      hide ParseSpec.ParseValue, SkipWs;
      offset := offset + 1;
      SkipWhitespace();
      value := ParseValueItem();
      if value.Some? {
        SkipWhitespace();
      }
    }

    /** `parse_object` */
    method ParseObjectItem() returns (item: Option<Json>)
      requires Valid() && content[offset] == LBRACE
      modifies this
      ensures depth <= NESTING_LIMIT
      ensures match ParseSpec.ParseValue(content, old(offset), old(depth))
              case Parsed(v, next) => item == Some(v) && offset == next && depth == old(depth) && Valid()
              case Failed(at) => item == None && offset == at
      decreases |content| - offset, 2
    {
      hide ParseSpec.ParseValue, ParseSpec.ParseMembers, ParseSpec.ParseMember, SkipWs, NulTerminated;
      ghost var start, goal := offset, ParseSpec.ParseValue(content, offset, depth);
      ObjectUnfold(content, offset, depth);
      if depth >= NESTING_LIMIT {
        return None;
      }
      depth := depth + 1;
      offset := offset + 1;
      SkipWhitespace();
      if content[offset] == RBRACE {
        depth := depth - 1;
        offset := offset + 1;
        return Some(Object([]));
      }
      offset := offset - 1;
      var members: seq<Member> := [];
      var more := true;
      while more
        invariant start <= offset < |content| && NulTerminated(content)
        invariant depth == old(depth) + 1 <= NESTING_LIMIT
        invariant more ==> offset + 1 < |content| && goal == ParseMembers(content, offset + 1, depth, members)
        invariant !more ==> goal == if content[offset] == RBRACE then Parsed(Object(members), offset + 1) else Failed(offset)
        decreases more, |content| - offset
      {
        ghost var from := offset + 1;
        var member := ParseMemberItem();
        MembersUnfold(content, from, old(depth) + 1, members, offset);
        if member.None? {
          return None;
        }
        members := members + [member.value];
        more := content[offset] == COMMA;
      }
      if content[offset] != RBRACE {
        return None;
      }
      depth := depth - 1;
      offset := offset + 1;
      item := Some(Object(members));
    }

    /** The body of the loop of `parse_object`: a name, a colon and a value, with the white space around them. */
    method ParseMemberItem() returns (member: Option<Member>)
      requires Valid() && offset + 1 < |content|
      modifies this
      ensures depth <= NESTING_LIMIT
      ensures match ParseSpec.ParseMember(content, old(offset) + 1, old(depth))
              case OneMember(m, next) =>
                member == Some(m) && offset == SkipWs(content, next) && depth == old(depth) && Valid()
              case NoMember(at) => member == None && offset == at
      decreases |content| - offset, 0
    {
      hide ParseSpec.ParseValue, ParseSpec.ParseString, SkipWs, NulTerminated;
      offset := offset + 1;
      SkipWhitespace();
      var name := ParseStringItem();
      if name.None? {
        return None;
      }
      SkipWhitespace();
      if content[offset] != COLON {
        return None;
      }
      NotLast(content, offset);
      offset := offset + 1;
      SkipWhitespace();
      var value := ParseValueItem();
      if value.None? {
        return None;
      }
      member := Some(Member(Text(name.value), value.value));
      SkipWhitespace();
    }
  }

  /** `cJSON_ParseWithOpts`: a null pointer is refused without an error position. */
  method ParseWithOpts(text: CString, requireNullTerminated: bool) returns (item: Option<Json>, position: nat)
    requires IsCString(text)
    ensures text.NullPtr? ==> item == None && position == 0
    ensures text.Text? ==>
              match ParseText(text.chars, requireNullTerminated)
              case Document(v, end) => item == Some(v) && position == end
              case SyntaxError(p) => item == None && position == p
  {
    if text.NullPtr? {
      return None, 0;
    }
    var buffer := new ParseBuffer(text.chars);
    buffer.SkipUtf8Bom();
    buffer.SkipWhitespace();
    item := buffer.ParseValueItem();
    if item.Some? && requireNullTerminated {
      buffer.SkipWhitespace();
      if buffer.content[buffer.offset] != NUL {
        item := None;
      }
    }
    if item.Some? || buffer.offset < |buffer.content| {
      position := buffer.offset;
    } else {
      position := |buffer.content| - 1;
    }
  }
}

/**
 `\uXXXX` literals: hexadecimal digits, UTF-16 surrogate pairs and the UTF-8 bytes that
 `utf16_literal_to_utf8` stores for them.  The source works with shifts and masks on disjoint
 bit ranges; here they are written as division, remainder and sum.
 */
module Unicode {
  import opened Bytes

  /** Value of a hexadecimal digit of either case, or -1. */
  function HexDigit(c: byte): (d: int)
    ensures -1 <= d < 16
  {
    if IsDigit(c) then c - ZERO
    else if 65 <= c <= 70 then c - 65 + 10
    else if 97 <= c <= 102 then c - 97 + 10
    else -1
  }

  const LOWER_DIGITS: bytes := Ascii("0123456789abcdef")
  const UPPER_DIGITS: bytes := Ascii("0123456789ABCDEF")

  predicate IsHexByte(c: byte) {
    c in LOWER_DIGITS || c in UPPER_DIGITS
  }

  /** A hexadecimal digit of either case for `d`. */
  predicate SpellsDigit(c: byte, d: nat)
    requires d < 16
  {
    c == LOWER_DIGITS[d] || c == UPPER_DIGITS[d]
  }

  /** Four hexadecimal digits, each of either case, for `u`. */
  predicate SpellsUnit(w: bytes, u: nat) {
    && |w| == 4 && u < 0x10000
    && SpellsDigit(w[0], u / 0x1000) && SpellsDigit(w[1], u / 0x100 % 16)
    && SpellsDigit(w[2], u / 16 % 16) && SpellsDigit(w[3], u % 16)
  }

  lemma DigitIsRead(c: byte, d: nat)
    requires d < 16 && SpellsDigit(c, d)
    ensures HexDigit(c) == d
  {
    assert LOWER_DIGITS[d] == if d < 10 then 48 + d else 87 + d;
    assert UPPER_DIGITS[d] == if d < 10 then 48 + d else 55 + d;
  }

  lemma DigitIsSpelled(c: byte)
    requires HexDigit(c) >= 0
    ensures IsHexByte(c)
  {
    var d := HexDigit(c);
    assert LOWER_DIGITS[d] == if d < 10 then 48 + d else 87 + d;
    assert UPPER_DIGITS[d] == if d < 10 then 48 + d else 55 + d;
    assert c == LOWER_DIGITS[d] || c == UPPER_DIGITS[d];
  }

  predicate SpellsAt(s: bytes, p: nat, u: nat)
    requires p + 4 <= |s|
  {
    SpellsUnit(s[p..p + 4], u)
  }

  /** One of the four bytes is no hexadecimal digit. */
  predicate Misspelled(s: bytes, p: nat)
    requires p + 4 <= |s|
  {
    exists k :: p <= k < p + 4 && !IsHexByte(s[k])
  }

  predicate AllHex(s: bytes, p: nat)
    requires p + 4 <= |s|
  {
    && HexDigit(s[p]) >= 0 && HexDigit(s[p + 1]) >= 0
    && HexDigit(s[p + 2]) >= 0 && HexDigit(s[p + 3]) >= 0
  }

  /** The number four hexadecimal digits denote; 0 if any of them is not one. */
  function Hex4(s: bytes, p: nat): (h: nat)
    requires p + 4 <= |s|
    ensures h < 0x10000
  {
    if AllHex(s, p) then
      HexDigit(s[p]) * 0x1000 + HexDigit(s[p + 1]) * 0x100 + HexDigit(s[p + 2]) * 0x10 + HexDigit(s[p + 3])
    else 0
  }

  lemma SpelledIsRead(s: bytes, p: nat, u: nat)
    requires p + 4 <= |s| && SpellsAt(s, p, u)
    ensures Hex4(s, p) == u
  {
    hide SpellsDigit, HexDigit;
    var w := s[p..p + 4];
    assert w[0] == s[p] && w[1] == s[p + 1] && w[2] == s[p + 2] && w[3] == s[p + 3];
    DigitIsRead(w[0], u / 0x1000);
    DigitIsRead(w[1], u / 0x100 % 16);
    DigitIsRead(w[2], u / 16 % 16);
    DigitIsRead(w[3], u % 16);
    Nibbles(u);
  }

  /** Any spelling of a number in four digits is read as the number, and any other byte makes it 0. */
  lemma UnitIsRead(s: bytes, p: nat)
    requires p + 4 <= |s|
    ensures forall u: nat :: SpellsAt(s, p, u) ==> Hex4(s, p) == u
    ensures Misspelled(s, p) ==> Hex4(s, p) == 0
  {
    hide SpellsAt, HexDigit, IsHexByte;
    forall u: nat | SpellsAt(s, p, u) ensures Hex4(s, p) == u {
      SpelledIsRead(s, p, u);
    }
    if AllHex(s, p) {
      DigitIsSpelled(s[p]);
      DigitIsSpelled(s[p + 1]);
      DigitIsSpelled(s[p + 2]);
      DigitIsSpelled(s[p + 3]);
    }
  }

  /** The number in terms of the digits. */
  predicate DigitsRead(s: bytes, p: nat, h: nat)
    requires p + 4 <= |s|
  {
    var a, b, c, d := HexDigit(s[p]), HexDigit(s[p + 1]), HexDigit(s[p + 2]), HexDigit(s[p + 3]);
    h == if a >= 0 && b >= 0 && c >= 0 && d >= 0 then a * 0x1000 + b * 0x100 + c * 0x10 + d else 0
  }

  /** `parse_hex4`: adds a digit, shifts left by a nibble except after the last one. */
  method ParseHex4(s: bytes, p: nat) returns (h: nat)
    requires p + 4 <= |s|
    ensures h == Hex4(s, p)
    ensures forall u: nat :: SpellsAt(s, p, u) ==> h == u
    ensures Misspelled(s, p) ==> h == 0
  {
    hide SpellsAt, Misspelled;
    UnitIsRead(s, p);
    ghost var read := Hex4(s, p);
    assert DigitsRead(s, p, read);
    hide Hex4, AllHex;
    h := 0;
    var i := 0;
    while i < 4
      invariant 0 <= i <= 4
      invariant forall k :: p <= k < p + i ==> HexDigit(s[k]) >= 0
      invariant i == 0 ==> h == 0
      invariant i == 1 ==> h == HexDigit(s[p]) * 0x10
      invariant i == 2 ==> h == HexDigit(s[p]) * 0x100 + HexDigit(s[p + 1]) * 0x10
      invariant i == 3 ==> h == HexDigit(s[p]) * 0x1000 + HexDigit(s[p + 1]) * 0x100 + HexDigit(s[p + 2]) * 0x10
      invariant i == 4 ==> h == HexDigit(s[p]) * 0x1000 + HexDigit(s[p + 1]) * 0x100 + HexDigit(s[p + 2]) * 0x10 + HexDigit(s[p + 3])
    {
      var d := HexDigit(s[p + i]);
      if d < 0 {
        return 0;
      }
      h := h + d;
      if i < 3 {
        h := h * 16;
      }
      i := i + 1;
    }
  }

  predicate IsHighSurrogate(u: nat) { 0xD800 <= u <= 0xDBFF }

  predicate IsLowSurrogate(u: nat) { 0xDC00 <= u <= 0xDFFF }

  /** The code points UTF-8 may encode. */
  predicate IsScalar(c: nat) {
    c <= 0x10FFFF && !IsHighSurrogate(c) && !IsLowSurrogate(c)
  }

  function FromPair(hi: nat, lo: nat): (c: nat)
    requires IsHighSurrogate(hi) && IsLowSurrogate(lo)
    ensures 0x10000 <= c <= 0x10FFFF
  {
    0x10000 + (hi - 0xD800) * 0x400 + (lo - 0xDC00)
  }

  /** The pair formula of the source, on the low ten bits of each half. */
  lemma LowTenBits(hi: nat, lo: nat)
    requires IsHighSurrogate(hi) && IsLowSurrogate(lo)
    ensures 0x10000 + hi % 0x400 * 0x400 + lo % 0x400 == FromPair(hi, lo)
  {
    assert hi == 54 * 0x400 + (hi - 0xD800);
    assert lo == 55 * 0x400 + (lo - 0xDC00);
  }

  /** Outcome of reading a literal: a code point and the bytes it took, or rejection. */
  datatype Literal = Rejected | Accepted(codepoint: nat, length: nat)

  /** Reads the literal at `p`, where `s[p]` is the backslash and `end` the closing quote. */
  function ReadLiteral(s: bytes, p: nat, end: nat): (r: Literal)
    requires p <= end <= |s|
    ensures r.Accepted? ==> IsScalar(r.codepoint) && p + r.length <= end
    ensures r.Accepted? ==> r.length == if r.codepoint < 0x10000 then 6 else 12
  {
    if end - p < 6 then Rejected
    else
      var first := Hex4(s, p + 2);
      if IsLowSurrogate(first) then Rejected
      else if IsHighSurrogate(first) then
        if end - p < 12 || s[p + 6] != BACKSLASH || s[p + 7] != LOWER_U then Rejected
        else
          var second := Hex4(s, p + 8);
          if IsLowSurrogate(second) then Accepted(FromPair(first, second), 12) else Rejected
      else Accepted(first, 6)
  }

  /** UTF-8 encoding of a code point, section 3 of RFC 3629. */
  function EncodeUtf8(c: nat): (r: bytes)
    requires c <= 0x10FFFF
    ensures 1 <= |r| <= 4
  {
    if c < 0x80 then [c]
    else if c < 0x800 then [0xC0 + c / 64, 0x80 + c % 64]
    else if c < 0x10000 then [0xE0 + c / 4096, 0x80 + c / 64 % 64, 0x80 + c % 64]
    else [0xF0 + c / 262144, 0x80 + c / 4096 % 64, 0x80 + c / 64 % 64, 0x80 + c % 64]
  }

  predicate IsTail(b: byte) { 0x80 <= b < 0xC0 }

  /** The payload bits of a byte below its mark. */
  function Bits(b: byte, mark: int): (d: int) { b - mark }

  /**
   A strict UTF-8 decoder for one code point, independent of the encoder: it refuses
   overlong forms, surrogates and values beyond U+10FFFF.
   */
  function DecodeUtf8(b: bytes): (r: Option<nat>)
    ensures r.Some? ==> IsScalar(r.value)
  {
    if |b| == 1 && b[0] < 0x80 then Some(b[0])
    else if |b| == 2 && 0xC0 <= b[0] < 0xE0 && IsTail(b[1]) then
      var c: int := Bits(b[0], 0xC0) * 64 + Bits(b[1], 0x80);
      if c >= 0x80 then Some(c) else None
    else if |b| == 3 && 0xE0 <= b[0] < 0xF0 && IsTail(b[1]) && IsTail(b[2]) then
      var c: int := Bits(b[0], 0xE0) * 4096 + Bits(b[1], 0x80) * 64 + Bits(b[2], 0x80);
      if c >= 0x800 && IsScalar(c) then Some(c) else None
    else if |b| == 4 && 0xF0 <= b[0] < 0xF8 && IsTail(b[1]) && IsTail(b[2]) && IsTail(b[3]) then
      var c: int := Bits(b[0], 0xF0) * 262144 + Bits(b[1], 0x80) * 4096 + Bits(b[2], 0x80) * 64 + Bits(b[3], 0x80);
      if c >= 0x10000 && IsScalar(c) then Some(c) else None
    else None
  }

  /** The encoding of a scalar value is the one byte string that decodes to it. */
  lemma Utf8IsUnique(c: nat, b: bytes)
    requires IsScalar(c)
    ensures DecodeUtf8(b) == Some(c) <==> b == EncodeUtf8(c)
  {
    if b == EncodeUtf8(c) {
      DecodeInvertsEncode(c);
    } else if DecodeUtf8(b) == Some(c) {
      EncodeInvertsDecode(b);
    }
  }

  lemma EncodeInvertsDecode(b: bytes)
    requires DecodeUtf8(b).Some?
    ensures EncodeUtf8(DecodeUtf8(b).value) == b
  {
    if |b| == 2 {
      Split(Bits(b[0], 0xC0), b[1] - 0x80);
    } else if |b| == 3 {
      Split3(Bits(b[0], 0xE0), Bits(b[1], 0x80), Bits(b[2], 0x80));
    } else if |b| == 4 {
      Split4(Bits(b[0], 0xF0), Bits(b[1], 0x80), Bits(b[2], 0x80), Bits(b[3], 0x80));
    }
  }

  lemma Split3(x: nat, y: nat, z: nat)
    requires y < 64 && z < 64
    ensures var c := x * 4096 + y * 64 + z; c / 4096 == x && c / 64 % 64 == y && c % 64 == z
  {
    Split(x, y);
    Split(x * 64 + y, z);
    Twice(x * 4096 + y * 64 + z);
  }

  lemma Split4(w: nat, x: nat, y: nat, z: nat)
    requires x < 64 && y < 64 && z < 64
    ensures var c := w * 262144 + x * 4096 + y * 64 + z;
            c / 262144 == w && c / 4096 % 64 == x && c / 64 % 64 == y && c % 64 == z
  {
    var c := w * 262144 + x * 4096 + y * 64 + z;
    Split(w, x);
    Split(w * 64 + x, y);
    Split(w * 4096 + x * 64 + y, z);
    Twice(c);
  }

  lemma Split(x: nat, y: nat)
    requires y < 64
    ensures (x * 64 + y) / 64 == x && (x * 64 + y) % 64 == y
  {
  }

  lemma Twice(c: nat)
    ensures c / 4096 == c / 64 / 64
    ensures c / 262144 == c / 64 / 64 / 64
  {
  }

  lemma DecodeInvertsEncode(c: nat)
    requires IsScalar(c)
    ensures DecodeUtf8(EncodeUtf8(c)) == Some(c)
  {
    assert c == c / 64 * 64 + c % 64;
    assert c / 64 == c / 4096 * 64 + c / 64 % 64;
    assert c / 4096 == c / 262144 * 64 + c / 4096 % 64;
  }

  /** Four lower-case hexadecimal digits, as `%04x` prints them. */
  function HexChar(d: nat): (c: byte)
    requires d < 16
    ensures HexDigit(c) == d
  {
    if d < 10 then ZERO + d else 97 + d - 10
  }

  function HexText(u: nat): (r: bytes)
    requires u < 0x10000
    ensures |r| == 4
  {
    [HexChar(u / 0x1000), HexChar(u / 0x100 % 16), HexChar(u / 0x10 % 16), HexChar(u % 16)]
  }

  /** `\uXXXX` for one UTF-16 code unit. */
  function UnitText(u: nat): (r: bytes)
    requires u < 0x10000
    ensures |r| == 6
  {
    [BACKSLASH, LOWER_U] + HexText(u)
  }

  /** The escape sequence of a scalar value: one unit, or a surrogate pair (RFC 2781, section 2.1). */
  function EscapeText(c: nat): (r: bytes)
    requires IsScalar(c)
  {
    if c < 0x10000 then UnitText(c)
    else UnitText(0xD800 + (c - 0x10000) / 0x400) + UnitText(0xDC00 + (c - 0x10000) % 0x400)
  }

  lemma Hex4OfUnit(s: bytes, p: nat, u: nat)
    requires u < 0x10000
    requires At(s, p, UnitText(u))
    ensures s[p] == BACKSLASH && s[p + 1] == LOWER_U
    ensures Hex4(s, p + 2) == u
  {
    var t := UnitText(u);
    AtIndex(s, p, t, 0);
    AtIndex(s, p, t, 1);
    AtIndex(s, p, t, 2);
    AtIndex(s, p, t, 3);
    AtIndex(s, p, t, 4);
    AtIndex(s, p, t, 5);
    Nibbles(u);
  }

  lemma Nibbles(u: nat)
    requires u < 0x10000
    ensures u / 0x1000 * 0x1000 + u / 0x100 % 16 * 0x100 + u / 0x10 % 16 * 0x10 + u % 16 == u
  {
    assert u / 0x100 == u / 0x1000 * 16 + u / 0x100 % 16;
    assert u / 0x10 == u / 0x100 * 16 + u / 0x10 % 16;
  }

  /** Reading the escape sequence of any scalar value accepts exactly that value. */
  lemma LiteralRoundTrip(s: bytes, p: nat, end: nat, c: nat)
    requires IsScalar(c)
    requires At(s, p, EscapeText(c)) && p + |EscapeText(c)| <= end <= |s|
    ensures ReadLiteral(s, p, end) == Accepted(c, |EscapeText(c)|)
  {
    if c < 0x10000 {
      Hex4OfUnit(s, p, c);
    } else {
      var hi := 0xD800 + (c - 0x10000) / 0x400;
      var lo := 0xDC00 + (c - 0x10000) % 0x400;
      AtConcat(s, p, UnitText(hi), UnitText(lo));
      Hex4OfUnit(s, p, hi);
      Hex4OfUnit(s, p + 6, lo);
    }
  }

  /** Conversely a literal of hexadecimal digits is accepted only as one of the two UTF-16 forms
      of its value: a lone surrogate, or a high surrogate without its low half, is rejected. */
  lemma AcceptedIsUtf16(s: bytes, p: nat, end: nat)
    requires p + 6 <= end <= |s|
    ensures var r := ReadLiteral(s, p, end);
            var first := Hex4(s, p + 2);
            match r
            case Accepted(c, 6) => c == first && !IsHighSurrogate(first) && !IsLowSurrogate(first)
            case Accepted(c, n) => n == 12 && p + 12 <= end && s[p + 6] == BACKSLASH && s[p + 7] == LOWER_U &&
                                   first == 0xD800 + (c - 0x10000) / 0x400 &&
                                   Hex4(s, p + 8) == 0xDC00 + (c - 0x10000) % 0x400
            case Rejected => IsLowSurrogate(first) ||
                             (IsHighSurrogate(first) &&
                              (p + 12 > end || s[p + 6] != BACKSLASH || s[p + 7] != LOWER_U || !IsLowSurrogate(Hex4(s, p + 8))))
  {
  }

  /**
   `utf16_literal_to_utf8`: stores the encoding back to front from `output[at]` on, or
   rejects the literal and stores nothing.
   */
  method StoreLiteral(s: bytes, p: nat, end: nat, output: array<byte>, at: nat) returns (length: nat, next: nat)
    requires p <= end <= |s|
    requires ReadLiteral(s, p, end).Accepted? ==>
               at + |EncodeUtf8(ReadLiteral(s, p, end).codepoint)| <= output.Length
    modifies output
    ensures ReadLiteral(s, p, end).Rejected? ==> length == 0 && next == at && output[..] == old(output[..])
    ensures ReadLiteral(s, p, end).Accepted? ==>
              var r := ReadLiteral(s, p, end);
              && length == r.length
              && next == at + |EncodeUtf8(r.codepoint)| <= output.Length
              && output[at..next] == EncodeUtf8(r.codepoint)
              && output[..at] == old(output[..at])
  {
    var codepoint;
    length, codepoint := CodePointAt(s, p, end);
    next := at;
    if length != 0 {
      next := StoreUtf8(codepoint, output, at);
    }
  }

  /** The part of `utf16_literal_to_utf8` before the encoding: length 0 marks a rejected literal. */
  method CodePointAt(s: bytes, p: nat, end: nat) returns (length: nat, codepoint: nat)
    requires p <= end <= |s|
    ensures length == 0 <==> ReadLiteral(s, p, end).Rejected?
    ensures length != 0 ==> ReadLiteral(s, p, end) == Accepted(codepoint, length)
  {
    hide SpellsAt, Misspelled, Hex4;
    length, codepoint := 0, 0;
    if end - p < 6 {
      return;
    }
    var first := ParseHex4(s, p + 2);
    if 0xDC00 <= first <= 0xDFFF {
      return;
    }
    if 0xD800 <= first <= 0xDBFF {
      if end - (p + 6) < 6 {
        return;
      }
      if s[p + 6] != BACKSLASH || s[p + 7] != LOWER_U {
        return;
      }
      var second := ParseHex4(s, p + 8);
      if second < 0xDC00 || second > 0xDFFF {
        return;
      }
      LowTenBits(first, second);
      length, codepoint := 12, 0x10000 + (first % 0x400) * 0x400 + second % 0x400;
    } else {
      length, codepoint := 6, first;
    }
  }

  /** The encoding loop: continuation bytes from the last position down, then the first byte. */
  method StoreUtf8(codepoint: nat, output: array<byte>, at: nat) returns (next: nat)
    requires codepoint <= 0x10FFFF
    requires at + |EncodeUtf8(codepoint)| <= output.Length
    modifies output
    ensures next == at + |EncodeUtf8(codepoint)|
    ensures output[at..next] == EncodeUtf8(codepoint)
    ensures output[..at] == old(output[..at])
  {
    var utf8Length, firstByteMark := 1, 0;
    if codepoint < 0x80 {
    } else if codepoint < 0x800 {
      utf8Length, firstByteMark := 2, 0xC0;
    } else if codepoint < 0x10000 {
      utf8Length, firstByteMark := 3, 0xE0;
    } else {
      utf8Length, firstByteMark := 4, 0xF0;
    }
    ghost var goal := EncodeUtf8(codepoint);
    assert utf8Length == |goal|;
    var c := codepoint;
    var position := utf8Length - 1;
    while position > 0
      invariant 0 <= position < utf8Length
      invariant position == 3 ==> c == codepoint
      invariant position == 2 ==> c == if utf8Length == 3 then codepoint else codepoint / 64
      invariant position == 1 ==> c == if utf8Length == 2 then codepoint else if utf8Length == 3 then codepoint / 64 else codepoint / 4096
      invariant position == 0 ==> firstByteMark + c == goal[0]
      invariant forall k :: position < k < utf8Length ==> output[at + k] == goal[k]
      invariant output[..at] == old(output[..at])
    {
      output[at + position] := 0x80 + c % 64;
      c := c / 64;
      position := position - 1;
    }
    output[at] := firstByteMark + c;
    next := at + utf8Length;
  }
}

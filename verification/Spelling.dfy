/**
 String literals piece by piece, as section 7 of RFC 8259 spells them, with the digits and letters of
 the escapes in tables.  Whatever the pieces, the parser reads the text they mean.
 */
module Spelling {
  import opened Bytes
  import opened Unicode
  import opened Literals
  import opened ParseSpec

  /** The letters of the two-byte escapes, and the bytes they stand for. */
  const SHORT_LETTERS: bytes := Ascii("\"\\/bfnrt")
  const SHORT_BYTES: bytes := [34, 92, 47, 8, 12, 10, 13, 9]

  /** A byte for itself, a two-byte escape, an escape in four digits, or two of them for one scalar. */
  datatype Piece =
    | Plain(c: byte)
    | Short(k: nat)
    | Single(digits: bytes, u: nat)
    | Pair(digits: bytes, hi: nat, digits2: bytes, lo: nat)

  predicate Proper(x: Piece) {
    match x
    case Plain(c) => c != 34 && c != 92 && c != 0
    case Short(k) => k < 8
    case Single(w, u) => SpellsUnit(w, u) && !(0xD800 <= u <= 0xDFFF)
    case Pair(w, hi, w2, lo) => SpellsUnit(w, hi) && SpellsUnit(w2, lo) && 0xD800 <= hi <= 0xDBFF && 0xDC00 <= lo <= 0xDFFF
  }

  function Spelled(x: Piece): (t: bytes)
    requires Proper(x)
  {
    match x
    case Plain(c) => [c]
    case Short(k) => [92, SHORT_LETTERS[k]]
    case Single(w, _) => [92, 117] + w
    case Pair(w, _, w2, _) => [92, 117] + w + [92, 117] + w2
  }

  function Meant(x: Piece): (t: bytes)
    requires Proper(x)
  {
    match x
    case Plain(c) => [c]
    case Short(k) => [SHORT_BYTES[k]]
    case Single(_, u) => EncodeUtf8(u)
    case Pair(_, hi, _, lo) => EncodeUtf8(0x10000 + (hi - 0xD800) * 0x400 + (lo - 0xDC00))
  }

  predicate AllProper(xs: seq<Piece>) {
    forall k :: 0 <= k < |xs| ==> Proper(xs[k])
  }

  function SpelledAll(xs: seq<Piece>): (t: bytes)
    requires AllProper(xs)
  {
    if xs == [] then [] else Spelled(xs[0]) + SpelledAll(xs[1..])
  }

  function MeantAll(xs: seq<Piece>): (t: bytes)
    requires AllProper(xs)
  {
    if xs == [] then [] else Meant(xs[0]) + MeantAll(xs[1..])
  }

  // ---------------------------------------------------------------- one piece

  lemma ShortIsRead(k: nat)
    requires k < 8
    ensures ShortUnescape(SHORT_LETTERS[k]) == Some(SHORT_BYTES[k]) && SHORT_LETTERS[k] != 117
  {
  }

  /** No other letter makes an escape. */
  lemma OtherLetterFails(s: bytes, p: nat, end: nat, acc: bytes)
    requires p < end < |s| && s[p] == 92 && s[p + 1] != 117 && s[p + 1] !in SHORT_LETTERS
    ensures Unescape(s, p, end, acc) == BadEscape(p)
  {
    var c := s[p + 1];
    assert SHORT_LETTERS[0] == 34 && SHORT_LETTERS[1] == 92 && SHORT_LETTERS[2] == 47 && SHORT_LETTERS[3] == 98;
    assert SHORT_LETTERS[4] == 102 && SHORT_LETTERS[5] == 110 && SHORT_LETTERS[6] == 114 && SHORT_LETTERS[7] == 116;
    assert ShortUnescape(c).None?;
  }

  lemma DigitsAt(s: bytes, p: nat, w: bytes, u: nat)
    requires At(s, p, w) && SpellsUnit(w, u)
    ensures p + 4 <= |s| && Hex4(s, p) == u
  {
    hide Hex4, SpellsUnit;
    assert s[p..p + 4] == w by { hide *; LengthOfUnit(w, u); WholeAt(s, p, w); }
    LengthOfUnit(w, u);
    UnitIsRead(s, p);
    assert SpellsAt(s, p, u);
  }

  lemma LengthOfUnit(w: bytes, u: nat)
    requires SpellsUnit(w, u)
    ensures |w| == 4
  {
  }

  lemma WholeAt(s: bytes, p: nat, w: bytes)
    requires At(s, p, w)
    ensures p + |w| <= |s| && s[p..p + |w|] == w
  {
  }

  lemma SingleIsRead(s: bytes, p: nat, end: nat, w: bytes, u: nat)
    requires Proper(Single(w, u)) && At(s, p, [92, 117] + w) && p + 6 <= end <= |s|
    ensures ReadLiteral(s, p, end) == Accepted(u, 6)
  {
    hide SpellsUnit, Hex4;
    AtConcat(s, p, [92, 117], w);
    DigitsAt(s, p + 2, w, u);
  }

  lemma PairIsRead(s: bytes, p: nat, end: nat, x: Piece)
    requires x.Pair? && Proper(x) && At(s, p, Spelled(x)) && p + 12 <= end <= |s|
    ensures ReadLiteral(s, p, end) == Accepted(0x10000 + (x.hi - 0xD800) * 0x400 + (x.lo - 0xDC00), 12)
  {
    hide SpellsUnit, Hex4, At;
    LengthOfUnit(x.digits, x.hi);
    LengthOfUnit(x.digits2, x.lo);
    AtConcat(s, p, [92, 117] + x.digits + [92, 117], x.digits2);
    AtConcat(s, p, [92, 117] + x.digits, [92, 117]);
    AtConcat(s, p, [92, 117], x.digits);
    AtIndex(s, p + 6, [92, 117], 0);
    AtIndex(s, p + 6, [92, 117], 1);
    DigitsAt(s, p + 2, x.digits, x.hi);
    DigitsAt(s, p + 8, x.digits2, x.lo);
  }

  lemma PieceLength(x: Piece)
    requires Proper(x)
    ensures |Spelled(x)| == (match x case Plain(_) => 1 case Short(_) => 2 case Single(_, _) => 6 case Pair(_, _, _, _) => 12)
    ensures Spelled(x)[0] == if x.Plain? then x.c else 92
    ensures !x.Plain? ==> Spelled(x)[1] == if x.Short? then SHORT_LETTERS[x.k] else 117
  {
  }

  /** Decoding goes over one piece, and adds what it means. */
  lemma PieceIsDecoded(s: bytes, p: nat, end: nat, acc: bytes, x: Piece)
    requires Proper(x) && At(s, p, Spelled(x)) && p + |Spelled(x)| <= end < |s|
    ensures Unescape(s, p, end, acc) == Unescape(s, p + |Spelled(x)|, end, acc + Meant(x))
  {
    hide At, SpellsUnit, ReadLiteral, EncodeUtf8, ShortUnescape;
    PieceLength(x);
    AtIndex(s, p, Spelled(x), 0);
    match x
    case Plain(_) =>
    case Short(k) =>
      AtIndex(s, p, Spelled(x), 1);
      ShortIsRead(k);
    case Single(w, u) =>
      AtIndex(s, p, Spelled(x), 1);
      SingleIsRead(s, p, end, w, u);
    case Pair(_, _, _, _) =>
      AtIndex(s, p, Spelled(x), 1);
      PairIsRead(s, p, end, x);
  }

  /** A hexadecimal digit neither closes nor escapes. */
  lemma DigitIsPlain(w: bytes, u: nat, k: nat)
    requires SpellsUnit(w, u) && k < 4
    ensures w[k] != 34 && w[k] != 92
  {
    assert forall d :: 0 <= d < 16 ==> LOWER_DIGITS[d] != 34 && LOWER_DIGITS[d] != 92 && UPPER_DIGITS[d] != 34 && UPPER_DIGITS[d] != 92;
  }

  lemma UnitIsPassed(s: bytes, p: nat, w: bytes, u: nat)
    requires SpellsUnit(w, u) && At(s, p, [92, 117] + w)
    ensures p + 6 <= |s| && CloseQuote(s, p) == CloseQuote(s, p + 6)
  {
    hide SpellsUnit, At;
    LengthOfUnit(w, u);
    var x := [92, 117] + w;
    DigitIsPlain(w, u, 0);
    DigitIsPlain(w, u, 1);
    DigitIsPlain(w, u, 2);
    DigitIsPlain(w, u, 3);
    AtIndex(s, p, x, 0);
    AtIndex(s, p, x, 1);
    AtIndex(s, p, x, 2);
    AtIndex(s, p, x, 3);
    AtIndex(s, p, x, 4);
    AtIndex(s, p, x, 5);
    assert CloseQuote(s, p) == CloseQuote(s, p + 2) == CloseQuote(s, p + 3) == CloseQuote(s, p + 4);
    assert CloseQuote(s, p + 4) == CloseQuote(s, p + 5) == CloseQuote(s, p + 6);
  }

  /** The search for the closing quote goes over one piece. */
  lemma PieceIsPassed(s: bytes, p: nat, x: Piece)
    requires Proper(x) && At(s, p, Spelled(x))
    ensures p + |Spelled(x)| <= |s| && CloseQuote(s, p) == CloseQuote(s, p + |Spelled(x)|)
  {
    hide At, SpellsUnit;
    PieceLength(x);
    AtIndex(s, p, Spelled(x), 0);
    match x
    case Plain(_) =>
    case Short(_) => AtIndex(s, p, Spelled(x), 1);
    case Single(w, u) => UnitIsPassed(s, p, w, u);
    case Pair(w, hi, w2, lo) =>
      LengthOfUnit(w, hi);
      Assoc([92, 117] + w, [92, 117], w2);
      AtConcat(s, p, [92, 117] + w, [92, 117] + w2);
      UnitIsPassed(s, p, w, hi);
      UnitIsPassed(s, p + 6, w2, lo);
  }

  // ---------------------------------------------------------------- whole literals

  lemma {:induction false} PiecesArePassed(s: bytes, p: nat, xs: seq<Piece>)
    requires AllProper(xs) && At(s, p, SpelledAll(xs) + [34])
    ensures CloseQuote(s, p) == Some(p + |SpelledAll(xs)|)
    decreases |xs|
  {
    hide At, Spelled, Proper;
    if xs == [] {
      assert SpelledAll(xs) + [34] == [34];
      AtIndex(s, p, [34], 0);
    } else {
      Assoc(Spelled(xs[0]), SpelledAll(xs[1..]), [34]);
      AtConcat(s, p, Spelled(xs[0]), SpelledAll(xs[1..]) + [34]);
      PieceIsPassed(s, p, xs[0]);
      PiecesArePassed(s, p + |Spelled(xs[0])|, xs[1..]);
    }
  }

  lemma {:induction false} PiecesAreDecoded(s: bytes, p: nat, end: nat, acc: bytes, xs: seq<Piece>)
    requires AllProper(xs) && At(s, p, SpelledAll(xs)) && p + |SpelledAll(xs)| == end < |s|
    ensures Unescape(s, p, end, acc) == Chars(acc + MeantAll(xs))
    decreases |xs|
  {
    hide At, Spelled, Proper, Meant, Unescape;
    if xs == [] {
      assert acc + [] == acc;
      NothingToDecode(s, end, acc);
    } else {
      AtConcat(s, p, Spelled(xs[0]), SpelledAll(xs[1..]));
      PieceIsDecoded(s, p, end, acc, xs[0]);
      PiecesAreDecoded(s, p + |Spelled(xs[0])|, end, acc + Meant(xs[0]), xs[1..]);
      Assoc(acc, Meant(xs[0]), MeantAll(xs[1..]));
    }
  }

  lemma NothingToDecode(s: bytes, end: nat, acc: bytes)
    requires end < |s|
    ensures Unescape(s, end, end, acc) == Chars(acc)
  {
  }

  /** A literal of any pieces between two quotes is read as the text they mean, up to its first NUL,
      and with exactly its bytes. */
  lemma LiteralIsRead(s: bytes, i: nat, xs: seq<Piece>)
    requires NulTerminated(s) && AllProper(xs) && At(s, i, [34] + (SpelledAll(xs) + [34]))
    requires i + |SpelledAll(xs)| + 2 < |s|
    ensures ParseString(s, i) == Name(UpToNul(MeantAll(xs)), i + |SpelledAll(xs)| + 2)
  {
    hide At, NulTerminated, CloseQuote, Unescape, SpelledAll, MeantAll, Proper, UpToNul;
    AtIndex(s, i, [34] + (SpelledAll(xs) + [34]), 0);
    AtConcat(s, i, [34], SpelledAll(xs) + [34]);
    PiecesArePassed(s, i + 1, xs);
    AtConcat(s, i + 1, SpelledAll(xs), [34]);
    PiecesAreDecoded(s, i + 1, i + 1 + |SpelledAll(xs)|, [], xs);
    assert [] + MeantAll(xs) == MeantAll(xs);
  }

  // ---------------------------------------------------------------- printing

  lemma LowerDigit(d: nat)
    requires d < 16
    ensures HexChar(d) == LOWER_DIGITS[d]
  {
    assert LOWER_DIGITS[d] == if d < 10 then 48 + d else 87 + d;
  }

  /** How each byte is printed: the seven bytes with a letter of their own by that letter, the slash not
      being one of them, every other byte below 32 by four lower-case digits, and the rest as it is. */
  lemma EscapesAre(c: byte)
    ensures forall k :: 0 <= k < 8 && k != 2 && c == SHORT_BYTES[k] ==> EscapeByte(c) == [92, SHORT_LETTERS[k]]
    ensures c < 32 && c !in SHORT_BYTES ==> EscapeByte(c) == [92, 117, 48, 48, LOWER_DIGITS[c / 16], LOWER_DIGITS[c % 16]]
    ensures c >= 32 && c != 34 && c != 92 ==> EscapeByte(c) == [c]
  {
    assert SHORT_LETTERS[0] == 34 && SHORT_LETTERS[1] == 92 && SHORT_LETTERS[2] == 47 && SHORT_LETTERS[3] == 98;
    assert SHORT_LETTERS[4] == 102 && SHORT_LETTERS[5] == 110 && SHORT_LETTERS[6] == 114 && SHORT_LETTERS[7] == 116;
    if c < 32 && c !in SHORT_BYTES {
      assert forall k :: 0 <= k < 8 ==> c != SHORT_BYTES[k];
      LowerDigit(0);
      LowerDigit(c / 16);
      LowerDigit(c % 16);
      assert LOWER_DIGITS[0] == 48;
    }
  }

  /** The encodings that section 7 of RFC 3629 gives as examples. */
  lemma Utf8Samples()
    ensures EncodeUtf8(0x41) == [0x41] && EncodeUtf8(0x391) == [0xCE, 0x91]
    ensures EncodeUtf8(0x2262) == [0xE2, 0x89, 0xA2] && EncodeUtf8(0xD55C) == [0xED, 0x95, 0x9C]
    ensures EncodeUtf8(0x233B4) == [0xF0, 0xA3, 0x8E, 0xB4]
  {
  }
}

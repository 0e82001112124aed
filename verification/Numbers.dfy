/**
 The text side of numbers: which bytes `parse_number` copies, and how many of them `strtod`
 consumes.  A number is represented by its decimal text; `sprintf` and `strtod` are taken to
 be inverse on the texts the printer produces.
 */
module Numbers {
  import opened Bytes

  /** The copy loop of `parse_number` stops at the first byte outside this set. */
  predicate IsNumberByte(c: byte) {
    IsDigit(c) || c == PLUS || c == MINUS || c == LOWER_E || c == UPPER_E || c == DOT
  }

  /** `number_c_string` holds 64 bytes, one of them the terminator. */
  const COPY_LIMIT: nat := 63

  /** How many of the `room` bytes of `s` from `i` on the copy loop takes. */
  function NumberSpan(s: bytes, i: nat, room: nat): (n: nat)
    requires i <= |s|
    ensures n <= room && i + n <= |s|
    ensures forall k :: i <= k < i + n ==> IsNumberByte(s[k])
    ensures n < room && i + n < |s| ==> !IsNumberByte(s[i + n])
    decreases room
  {
    if room == 0 || i == |s| || !IsNumberByte(s[i]) then 0
    else 1 + NumberSpan(s, i + 1, room - 1)
  }

  lemma NumberSpanStep(s: bytes, i: nat, room: nat)
    requires i <= |s|
    ensures NumberSpan(s, i, room) ==
            if room == 0 || i == |s| || !IsNumberByte(s[i]) then 0 else 1 + NumberSpan(s, i + 1, room - 1)
  {
  }

  lemma {:induction false} NumberSpanExact(s: bytes, i: nat, room: nat, n: nat)
    requires i + n < |s| && n <= room
    requires forall k :: i <= k < i + n ==> IsNumberByte(s[k])
    requires !IsNumberByte(s[i + n])
    ensures NumberSpan(s, i, room) == n
    decreases n
  {
    if n > 0 {
      NumberSpanExact(s, i + 1, room - 1, n - 1);
    }
  }

  /** The copy loop of `parse_number`, with room for the terminator. */
  method CopyNumber(s: bytes, at: nat, copy: array<byte>) returns (i: nat)
    requires at <= |s| && copy.Length == COPY_LIMIT + 1
    modifies copy
    ensures i == NumberSpan(s, at, COPY_LIMIT) < copy.Length
    ensures copy[..i] == s[at..at + i] && copy[i] == NUL
  {
    hide *;
    ghost var span := NumberSpan(s, at, COPY_LIMIT);
    i := 0;
    while i < copy.Length - 1 && at + i < |s| && IsNumberByte(s[at + i])
      invariant i < copy.Length && at + i <= |s|
      invariant forall k {:trigger copy[k]} :: 0 <= k < i ==> copy[k] == s[at + k]
      invariant span == i + NumberSpan(s, at + i, COPY_LIMIT - i)
    {
      NumberSpanStep(s, at + i, COPY_LIMIT - i);
      copy[i] := s[at + i];
      i := i + 1;
    }
    NumberSpanStep(s, at + i, COPY_LIMIT - i);
    copy[i] := NUL;
    assert copy[..i] == s[at..at + i];
  }

  /** Position after the run of digits starting at `i`. */
  function DigitsEnd(t: bytes, i: nat): (j: nat)
    requires i <= |t|
    ensures i <= j <= |t|
    ensures forall k :: i <= k < j ==> IsDigit(t[k])
    ensures j < |t| ==> !IsDigit(t[j])
    decreases |t| - i
  {
    if i < |t| && IsDigit(t[i]) then DigitsEnd(t, i + 1) else i
  }

  function SkipSign(t: bytes, i: nat): (j: nat)
    requires i <= |t|
    ensures i <= j <= |t|
  {
    if i < |t| && (t[i] == PLUS || t[i] == MINUS) then i + 1 else i
  }

  /** End of sign, digits, optional point and digits; 0 when there is no digit at all. */
  function MantissaEnd(t: bytes): (j: nat)
    ensures j <= |t|
  {
    var i0 := SkipSign(t, 0);
    var i1 := DigitsEnd(t, i0);
    if i1 < |t| && t[i1] == DOT then
      var i2 := DigitsEnd(t, i1 + 1);
      if i1 == i0 && i2 == i1 + 1 then 0 else i2
    else if i1 == i0 then 0 else i1
  }

  /** Number of bytes `strtod` consumes of a text made of number bytes; 0 means no conversion. */
  function StrtodLen(t: bytes): (n: nat)
    ensures n <= |t|
  {
    var m := MantissaEnd(t);
    if m == 0 then 0
    else if m < |t| && (t[m] == LOWER_E || t[m] == UPPER_E) then
      var e := SkipSign(t, m + 1);
      var k := DigitsEnd(t, e);
      if k > e then k else m
    else m
  }

  /** The texts `print_number` emits: at most 25 bytes (the temporary holds 26), read back whole. */
  predicate ValidLexeme(t: bytes) {
    && 1 <= |t| <= 25
    && (t[0] == MINUS || IsDigit(t[0]))
    && (forall k :: 0 <= k < |t| ==> IsNumberByte(t[k]))
    && StrtodLen(t) == |t|
  }

  /** Decimal digits of a natural number, as `%llu` and `%1.15g` print it. */
  function Decimal(n: nat): (r: bytes)
    ensures |r| >= 1
    ensures forall k :: 0 <= k < |r| ==> IsDigit(r[k])
  {
    if n < 10 then [ZERO + n] else Decimal(n / 10) + [ZERO + n % 10]
  }

  function DecimalValue(t: bytes): (n: nat)
    requires forall k :: 0 <= k < |t| ==> IsDigit(t[k])
  {
    if t == [] then 0
    else
      assert IsDigit(t[|t| - 1]);
      10 * DecimalValue(t[..|t| - 1]) + (t[|t| - 1] - ZERO)
  }

  /** Reading the digits back gives the number, so distinct numbers have distinct texts. */
  lemma {:induction false} DecimalRoundTrip(n: nat)
    ensures DecimalValue(Decimal(n)) == n
    decreases n
  {
    if n >= 10 {
      DecimalRoundTrip(n / 10);
      var r := Decimal(n);
      assert r[..|r| - 1] == Decimal(n / 10);
    } else {
      assert DecimalValue([]) == 0;
      assert Decimal(n)[..0] == [];
    }
  }

  lemma {:induction false} DigitsEndAll(t: bytes, i: nat)
    requires i <= |t|
    requires forall k :: i <= k < |t| ==> IsDigit(t[k])
    ensures DigitsEnd(t, i) == |t|
  {
  }

  lemma {:induction false} DecimalLength(n: nat, d: nat, bound: nat)
    requires n < bound && bound == Pow10(d) && d >= 1
    ensures |Decimal(n)| <= d
    decreases d
  {
    if n >= 10 {
      assert d > 1 by { assert Pow10(0) == 1; }
      DecimalLength(n / 10, d - 1, Pow10(d - 1));
    }
  }

  function Pow10(d: nat): (p: nat)
    ensures p >= 1
  {
    if d == 0 then 1 else 10 * Pow10(d - 1)
  }

  /** Text of an integer: an optional minus sign and the decimal digits. */
  function IntText(n: int): (r: bytes)
  {
    if n < 0 then [MINUS] + Decimal(-n) else Decimal(n)
  }

  /** Every integer of up to 15 digits, which `%1.15g` prints in full, has a valid lexeme. */
  lemma IntTextIsValid(n: int)
    requires n < Pow10(15) && -n < Pow10(15)
    ensures ValidLexeme(IntText(n))
  {
    hide Pow10;
    var m: nat := if n < 0 then -n else n;
    DecimalLength(m, 15, Pow10(15));
    var t := IntText(n);
    var i0 := if n < 0 then 1 else 0;
    assert forall k :: i0 <= k < |t| ==> IsDigit(t[k]);
    SignedDigits(t, i0);
  }

  /** `strtod` consumes a whole text of digits with or without a leading minus. */
  lemma SignedDigits(t: bytes, i0: nat)
    requires i0 < |t| && forall k :: i0 <= k < |t| ==> IsDigit(t[k])
    requires i0 == 0 || (i0 == 1 && t[0] == MINUS)
    ensures StrtodLen(t) == |t|
  {
    DigitsEndAll(t, i0);
    assert SkipSign(t, 0) == i0;
    assert MantissaEnd(t) == |t|;
  }
}

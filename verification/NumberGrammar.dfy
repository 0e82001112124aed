/**
 What the number reader takes: the longest prefix of a run of number bytes that is a sign, digits with
 an optional point, and an optional exponent; so every number of section 6 of RFC 8259 is taken whole.
 */
module NumberGrammar {
  import opened Bytes
  import opened Numbers
  import opened Json
  import opened ParseSpec

  /** Sign, digits, point with digits, and exponent, each a text of its own. */
  datatype Parts = Parts(sign: bytes, whole: bytes, fraction: bytes, exponent: bytes)

  predicate AllDigits(t: bytes) {
    forall k :: 0 <= k < |t| ==> 48 <= t[k] <= 57
  }

  predicate Sign(t: bytes) {
    t == [] || t == Ascii("+") || t == Ascii("-")
  }

  predicate Fraction(t: bytes) {
    t == [] || (t[0] == 46 && AllDigits(t[1..]))
  }

  predicate Exponent(t: bytes) {
    t == [] ||
    ((t[0] == 69 || t[0] == 101) && exists n :: 1 <= n < |t| && n <= 2 && Sign(t[1..n]) && AllDigits(t[n..]))
  }

  /** At least one digit stands around the point. */
  predicate Number(x: Parts) {
    Sign(x.sign) && AllDigits(x.whole) && Fraction(x.fraction) && Exponent(x.exponent) && (x.whole != [] || |x.fraction| > 1)
  }

  function Text(x: Parts): (t: bytes)
  {
    x.sign + (x.whole + (x.fraction + x.exponent))
  }

  // ---------------------------------------------------------------- what is taken is a number

  lemma SignSplits(t: bytes)
    ensures Sign(t[..SkipSign(t, 0)])
  {
    var n := SkipSign(t, 0);
    if n == 1 {
      assert t[..1] == [t[0]] && Ascii("+") == [43] && Ascii("-") == [45];
    }
  }

  lemma SignAfter(t: bytes, i: nat)
    requires i <= |t|
    ensures Sign(t[i..SkipSign(t, i)])
  {
    var n := SkipSign(t, i);
    if n == i + 1 {
      assert t[i..n] == [t[i]] && Ascii("+") == [43] && Ascii("-") == [45];
    }
  }

  lemma DigitsFrom(t: bytes, i: nat)
    requires i <= |t|
    ensures AllDigits(t[i..DigitsEnd(t, i)])
  {
  }

  /** The mantissa is sign, digits, and a point with digits. */
  lemma MantissaHasParts(t: bytes) returns (x: Parts)
    requires MantissaEnd(t) > 0
    ensures Number(x) && x.exponent == [] && Text(x) == t[..MantissaEnd(t)]
  {
    hide Sign;
    var i0, m := SkipSign(t, 0), MantissaEnd(t);
    var i1 := DigitsEnd(t, i0);
    SignSplits(t);
    DigitsFrom(t, i0);
    x := Parts(t[..i0], t[i0..i1], t[i1..m], []);
    if m > i1 {
      DigitsFrom(t, i1 + 1);
      assert t[i1..m][1..] == t[i1 + 1..m];
    }
    ThreeSlices(t, i0, i1, m);
  }

  lemma Inner(t: bytes, m: nat, n: nat, a: nat, b: nat)
    requires m <= n <= |t| && a <= b <= n - m
    ensures t[m..n][a..b] == t[m + a..m + b]
  {
    assert |t[m..n]| == n - m;
    assert |t[m..n][a..b]| == b - a;
    forall k | 0 <= k < b - a ensures t[m..n][a..b][k] == t[m + a..m + b][k] {
      assert t[m..n][a..b][k] == t[m..n][a + k] == t[m + a + k];
    }
  }

  lemma ThreeSlices(t: bytes, a: nat, b: nat, c: nat)
    requires a <= b <= c <= |t|
    ensures t[..a] + (t[a..b] + (t[b..c] + [])) == t[..c]
  {
  }

  lemma TailIsExponent(t: bytes)
    requires 0 < MantissaEnd(t) < StrtodLen(t)
    ensures Exponent(t[MantissaEnd(t)..StrtodLen(t)])
  {
    var m, n := MantissaEnd(t), StrtodLen(t);
    var e := SkipSign(t, m + 1);
    assert e < n && n == DigitsEnd(t, e);
    SignAfter(t, m + 1);
    DigitsFrom(t, e);
    hide StrtodLen, MantissaEnd, DigitsEnd, Sign, AllDigits;
    Inner(t, m, n, 1, e - m);
    Inner(t, m, n, e - m, n - m);
    var tail := t[m..n];
    assert tail[e - m..n - m] == tail[e - m..];
  }

  /** What `strtod` takes is a number. */
  lemma TakenIsNumber(t: bytes) returns (x: Parts)
    requires StrtodLen(t) > 0
    ensures Number(x) && Text(x) == t[..StrtodLen(t)]
  {
    var m, n := MantissaEnd(t), StrtodLen(t);
    assert 0 < m <= n;
    x := MantissaHasParts(t);
    if n > m {
      TailIsExponent(t);
      hide Sign, AllDigits, StrtodLen, MantissaEnd, Exponent, Fraction;
      WithExponent(x, t[m..n]);
      assert t[..m] + t[m..n] == t[..n];
      x := x.(exponent := t[m..n]);
    }
  }

  lemma WithExponent(x: Parts, tail: bytes)
    requires x.exponent == []
    ensures Text(x.(exponent := tail)) == Text(x) + tail
  {
  }

  lemma TextIs(x: Parts)
    ensures Text(x) == x.sign + (x.whole + (x.fraction + x.exponent))
  {
  }

  // ---------------------------------------------------------------- nothing longer is

  lemma {:induction false} DigitsGoOn(t: bytes, i: nat, n: nat)
    requires i <= n <= |t| && AllDigits(t[i..n])
    ensures DigitsEnd(t, i) == DigitsEnd(t, n)
    decreases n - i
  {
    if i < n {
      assert t[i..n][0] == t[i] && t[i..n][1..] == t[i + 1..n];
      DigitsGoOn(t, i + 1, n);
    }
  }

  /** Sign and digits of a number that stands in front are passed, and the point and its digits. */
  lemma MantissaIsPassed(t: bytes, x: Parts)
    requires Number(x) && At(t, 0, x.sign + (x.whole + x.fraction))
    ensures var a, b, c := |x.sign|, |x.sign| + |x.whole|, |x.sign| + |x.whole| + |x.fraction|;
            && c <= |t| && SkipSign(t, 0) == a && DigitsEnd(t, a) == DigitsEnd(t, b)
            && (x.fraction != [] ==> t[b] == DOT && DigitsEnd(t, b) == b && DigitsEnd(t, b + 1) == DigitsEnd(t, c))
  {
    hide Exponent, At, SkipSign, DigitsEnd, Sign, AllDigits, Fraction;
    var a, b := |x.sign|, |x.sign| + |x.whole|;
    AtConcat(t, 0, x.sign, x.whole + x.fraction);
    AtConcat(t, a, x.whole, x.fraction);
    SignIsSkipped(t, x);
    SliceAt(t, a, x.whole);
    DigitsGoOn(t, a, b);
    SliceAt(t, b, x.fraction);
    if x.fraction != [] {
      FractionIsPassed(t, b, x.fraction);
    }
  }

  lemma FractionIsPassed(t: bytes, b: nat, f: bytes)
    requires Fraction(f) && f != [] && At(t, b, f)
    ensures b + |f| <= |t| && t[b] == DOT && DigitsEnd(t, b) == b && DigitsEnd(t, b + 1) == DigitsEnd(t, b + |f|)
  {
    hide At, DigitsEnd, AllDigits;
    SliceAt(t, b, f);
    AtIndex(t, b, f, 0);
    NoDigits(t, b);
    Inner(t, b, b + |f|, 1, |f|);
    assert f[1..|f|] == f[1..];
    DigitsGoOn(t, b + 1, b + |f|);
  }

  lemma NoDigits(t: bytes, i: nat)
    requires i < |t| && !IsDigit(t[i])
    ensures DigitsEnd(t, i) == i
  {
  }

  lemma SliceAt(t: bytes, i: nat, w: bytes)
    requires At(t, i, w)
    ensures i + |w| <= |t| && t[i..i + |w|] == w
  {
  }

  /** The reader finds the mantissa of a number that stands in front, with every digit behind it. */
  lemma MantissaIsFound(t: bytes, x: Parts)
    requires Number(x) && At(t, 0, x.sign + (x.whole + x.fraction))
    ensures |x.sign| + |x.whole| + |x.fraction| <= MantissaEnd(t)
  {
    MantissaIsPassed(t, x);
    hide DigitsEnd, SkipSign, At, Exponent, Fraction, Sign, AllDigits;
  }

  lemma SignIsSkipped(t: bytes, x: Parts)
    requires Number(x) && At(t, 0, x.sign) && At(t, |x.sign|, x.whole + x.fraction)
    ensures SkipSign(t, 0) == |x.sign|
  {
    assert Ascii("+") == [43] && Ascii("-") == [45];
    if x.sign == [] {
      AtIndex(t, 0, x.whole + x.fraction, 0);
    } else {
      AtIndex(t, 0, x.sign, 0);
    }
  }

  /** A number that stands in front is taken at least as far as it goes. */
  lemma LongestIsTaken(t: bytes, x: Parts)
    requires Number(x) && At(t, 0, Text(x))
    ensures |Text(x)| <= StrtodLen(t)
  {
    hide Number, MantissaEnd, DigitsEnd, SkipSign;
    var front := x.sign + (x.whole + x.fraction);
    assert Text(x) == front + x.exponent by { TextSplits(x); }
    AtConcat(t, 0, front, x.exponent);
    MantissaIsFound(t, x);
    if x.exponent != [] {
      MantissaStops(t, x);
      ExponentIsTaken(t, |front|, x.exponent, x);
    }
  }

  lemma TextSplits(x: Parts)
    ensures Text(x) == (x.sign + (x.whole + x.fraction)) + x.exponent
  {
  }

  /** Before an exponent the mantissa ends. */
  lemma MantissaStops(t: bytes, x: Parts)
    requires Number(x) && x.exponent != []
    requires At(t, 0, x.sign + (x.whole + x.fraction)) && At(t, |x.sign + (x.whole + x.fraction)|, x.exponent)
    ensures MantissaEnd(t) == |x.sign + (x.whole + x.fraction)| > 0
  {
    MantissaIsPassed(t, x);
    var c := |x.sign| + |x.whole| + |x.fraction|;
    AtIndex(t, c, x.exponent, 0);
    assert DigitsEnd(t, c) == c && t[c] != DOT;
    hide DigitsEnd, SkipSign, At, Exponent, Fraction, Sign, AllDigits;
  }

  lemma SignIsPassed(t: bytes, i: nat, w: bytes)
    requires Sign(w) && At(t, i, w) && i + |w| < |t| && 48 <= t[i + |w|] <= 57
    ensures SkipSign(t, i) == i + |w|
  {
    assert Ascii("+") == [43] && Ascii("-") == [45];
    if w != [] {
      AtIndex(t, i, w, 0);
    }
  }

  lemma ExponentParts(t: bytes, m: nat, e: bytes) returns (n: nat)
    requires Exponent(e) && e != [] && At(t, m, e)
    ensures 1 <= n < |e| && m + |e| <= |t| && (t[m] == 69 || t[m] == 101)
    ensures SkipSign(t, m + 1) == m + n && forall k :: m + n <= k < m + |e| ==> 48 <= t[k] <= 57
  {
    hide SkipSign, Sign;
    var l :| 1 <= l < |e| && l <= 2 && Sign(e[1..l]) && AllDigits(e[l..]);
    n := l;
    forall k | 0 <= k < |e| ensures t[m + k] == e[k] {
      AtIndex(t, m, e, k);
    }
    assert t[m + 0] == e[0];
    forall k | m + n <= k < m + |e| ensures 48 <= t[k] <= 57 {
      assert t[m + (k - m)] == e[k - m] == e[n..][k - m - n];
    }
    assert t[m + 1..m + n] == e[1..n];
    SignIsPassed(t, m + 1, e[1..n]);
  }

  lemma ExponentIsTaken(t: bytes, m: nat, e: bytes, x: Parts)
    requires Number(x) && e == x.exponent != [] && MantissaEnd(t) == m > 0 && At(t, m, e)
    ensures m + |e| <= StrtodLen(t)
  {
    hide MantissaEnd, SkipSign, At, Exponent;
    var n := ExponentParts(t, m, e);
    DigitsGoOn(t, m + n, m + |e|);
  }

  // ---------------------------------------------------------------- numbers of RFC 8259

  /** The number grammar of JSON: an optional minus, digits without a leading zero, and fraction and
      exponent with at least one digit each. */
  predicate JsonNumber(x: Parts) {
    && Number(x) && (x.sign == [] || x.sign == Ascii("-")) && x.whole != []
    && (x.whole[0] == 48 ==> |x.whole| == 1) && (x.fraction == [] || |x.fraction| > 1)
  }

  lemma NumberBytes(x: Parts)
    requires Number(x)
    ensures forall k :: 0 <= k < |Text(x)| ==> IsNumberByte(Text(x)[k])
  {
    hide Text;
    assert Ascii("+") == [43] && Ascii("-") == [45];
    assert forall k :: 0 <= k < |x.sign| ==> IsNumberByte(x.sign[k]);
    assert forall k :: 0 <= k < |x.whole| ==> IsNumberByte(x.whole[k]);
    forall k | 0 <= k < |x.fraction| ensures IsNumberByte(x.fraction[k]) {
      assert k > 0 ==> x.fraction[k] == x.fraction[1..][k - 1];
    }
    forall k | 0 <= k < |x.exponent| ensures IsNumberByte(x.exponent[k]) {
      var n :| 1 <= n < |x.exponent| && n <= 2 && Sign(x.exponent[1..n]) && AllDigits(x.exponent[n..]);
      assert k >= n ==> x.exponent[k] == x.exponent[n..][k - n];
      assert 1 <= k < n ==> x.exponent[k] == x.exponent[1..n][k - 1];
    }
    TextIs(x);
  }

  /** A JSON number of up to 63 bytes, in front of anything but a number byte, is read whole. */
  lemma JsonNumberIsRead(s: bytes, i: nat, x: Parts)
    requires NulTerminated(s) && JsonNumber(x) && At(s, i, Text(x)) && |Text(x)| <= 63
    requires i + |Text(x)| < |s| && !IsNumberByte(s[i + |Text(x)|])
    ensures StartsNumber(s[i]) && ParseNumber(s, i) == Parsed(Json.Number(Text(x)), i + |Text(x)|)
  {
    hide Number, Text, StrtodLen, NumberSpan, IsNumberByte, NulTerminated;
    var t := Text(x);
    NumberBytes(x);
    NonEmpty(x);
    WholeRun(s, i, t);
    NumberSpanExact(s, i, COPY_LIMIT, |t|);
    assert At(t, 0, t) by { hide *; ItselfAt(t); }
    LongestIsTaken(t, x);
    FirstOf(s, i, x);
  }

  lemma ItselfAt(t: bytes)
    ensures At(t, 0, t)
  {
    assert t[0..|t|] == t;
  }

  lemma WholeRun(s: bytes, i: nat, t: bytes)
    requires At(s, i, t) && forall k :: 0 <= k < |t| ==> IsNumberByte(t[k])
    ensures i + |t| <= |s| && s[i..i + |t|] == t
    ensures forall k :: i <= k < i + |t| ==> IsNumberByte(s[k])
  {
    forall k | i <= k < i + |t| ensures IsNumberByte(s[k]) {
      assert s[k] == t[k - i] by { AtIndex(s, i, t, k - i); }
    }
  }

  lemma NonEmpty(x: Parts)
    requires Number(x)
    ensures |Text(x)| > 0
  {
  }

  lemma FirstOf(s: bytes, i: nat, x: Parts)
    requires JsonNumber(x) && At(s, i, Text(x))
    ensures i < |s| && StartsNumber(s[i])
  {
    assert Ascii("-") == [45];
    AtIndex(s, i, Text(x), 0);
  }

  /** Of a number of more than 63 digits only the first 63 are read. */
  lemma LongNumberIsCut(s: bytes, i: nat)
    requires NulTerminated(s) && i + 64 < |s| && forall k :: i <= k < i + 64 ==> 48 <= s[k] <= 57
    ensures ParseNumber(s, i) == Parsed(Json.Number(s[i..i + 63]), i + 63)
  {
    hide NumberSpan, StrtodLen;
    SpanIsFull(s, i, 63);
    var t := s[i..i + 63];
    assert forall k :: 0 <= k < |t| ==> IsDigit(t[k]);
    SignedDigits(t, 0);
  }

  lemma {:induction false} SpanIsFull(s: bytes, i: nat, room: nat)
    requires i + room < |s| && forall k :: i <= k < i + room ==> 48 <= s[k] <= 57
    ensures NumberSpan(s, i, room) == room
    decreases room
  {
    if room > 0 {
      SpanIsFull(s, i + 1, room - 1);
    }
  }
}

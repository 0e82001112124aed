/**
 Bytes as the C code sees them: octets, the ASCII codes the codec tests for, C strings, and the
 relation "text `t` stands at position `i` of buffer `s`".
 */
module Bytes {

  datatype Option<+T> = None | Some(value: T)

  type byte = b: int | 0 <= b < 256

  type bytes = seq<byte>

  const NUL: byte := 0
  const BACKSPACE: byte := 8
  const TAB: byte := 9
  const LF: byte := 10
  const FORMFEED: byte := 12
  const CR: byte := 13
  const SPACE: byte := 32
  const QUOTE: byte := 34
  const STAR: byte := 42
  const PLUS: byte := 43
  const COMMA: byte := 44
  const MINUS: byte := 45
  const DOT: byte := 46
  const SLASH: byte := 47
  const ZERO: byte := 48
  const NINE: byte := 57
  const COLON: byte := 58
  const UPPER_E: byte := 69
  const LBRACKET: byte := 91
  const BACKSLASH: byte := 92
  const RBRACKET: byte := 93
  const LOWER_B: byte := 98
  const LOWER_E: byte := 101
  const LOWER_F: byte := 102
  const LOWER_N: byte := 110
  const LOWER_R: byte := 114
  const LOWER_T: byte := 116
  const LOWER_U: byte := 117
  const LBRACE: byte := 123
  const RBRACE: byte := 125

  /** The words "null", "false" and "true". */
  const WORD_NULL: bytes := [110, 117, 108, 108]
  const WORD_FALSE: bytes := [102, 97, 108, 115, 101]
  const WORD_TRUE: bytes := [116, 114, 117, 101]

  /** A `char *`: either a null pointer or the bytes before the terminating NUL. */
  datatype CString = NullPtr | Text(chars: bytes)

  predicate NulFree(s: bytes) {
    NUL !in s
  }

  /** What a NUL-terminated reader sees of a buffer: everything before the first NUL. */
  function UpToNul(s: bytes): (r: bytes)
    ensures NulFree(r)
    ensures r <= s
    ensures NulFree(s) ==> r == s
  {
    if s == [] || s[0] == NUL then [] else [s[0]] + UpToNul(s[1..])
  }

  /** The bytes of an ASCII text. */
  function Ascii(t: string): (r: bytes)
    ensures |r| == |t|
    ensures forall i :: 0 <= i < |t| ==> r[i] == if t[i] < 128 as char then t[i] as int else 0
  {
    seq(|t|, i requires 0 <= i < |t| => if t[i] < 128 as char then t[i] as int else 0)
  }

  /** `s` is a NUL-terminated buffer: NUL at the last position and nowhere before it. */
  predicate NulTerminated(s: bytes) {
    |s| > 0 && s[|s| - 1] == NUL && NulFree(s[..|s| - 1])
  }

  /** Text `t` stands in `s` at position `i`. */
  predicate At(s: bytes, i: nat, t: bytes) {
    i + |t| <= |s| && s[i..i + |t|] == t
  }

  lemma Assoc(a: bytes, b: bytes, c: bytes)
    ensures (a + b) + c == a + (b + c)
  {
  }

  lemma AtConcat(s: bytes, i: nat, a: bytes, b: bytes)
    ensures At(s, i, a + b) <==> At(s, i, a) && At(s, i + |a|, b)
  {
    if At(s, i, a + b) {
      assert s[i..i + |a|] == s[i..i + |a + b|][..|a|];
      assert s[i + |a|..i + |a| + |b|] == s[i..i + |a + b|][|a|..];
    }
    if At(s, i, a) && At(s, i + |a|, b) {
      assert s[i..i + |a + b|] == s[i..i + |a|] + s[i + |a|..i + |a| + |b|];
    }
  }

  lemma AtIndex(s: bytes, i: nat, t: bytes, k: nat)
    requires At(s, i, t) && k < |t|
    ensures i + k < |s| && s[i + k] == t[k]
  {
    assert s[i..i + |t|][k] == t[k];
  }

  predicate IsDigit(c: byte) {
    ZERO <= c <= NINE
  }

  function Repeat(c: byte, n: nat): (r: bytes)
    ensures |r| == n
    ensures forall i :: 0 <= i < n ==> r[i] == c
  {
    seq(n, _ => c)
  }
}

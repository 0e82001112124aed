/**
 `cJSON_Minify`: white space and comments are removed in place, string literals are copied.
 */
module Minify {
  import opened Bytes
  import opened Literals

  predicate IsBlank(c: byte) {
    c == SPACE || c == TAB || c == CR || c == LF
  }

  predicate StartsComment(t: bytes, i: nat, mark: byte) {
    i + 1 < |t| && t[i] == SLASH && t[i + 1] == mark
  }

  /** End of the line `i` is on, or of the text. */
  function LineEnd(t: bytes, i: nat): (j: nat)
    requires i <= |t|
    ensures i <= j <= |t|
    ensures j < |t| ==> t[j] == LF
    decreases |t| - i
  {
    if i == |t| || t[i] == LF then i else LineEnd(t, i + 1)
  }

  /** Position of the first star-slash from `i` on; the star of an opening mark counts. */
  function CommentClose(t: bytes, i: nat): (r: Option<nat>)
    requires i <= |t|
    ensures r.Some? ==> i <= r.value && r.value + 1 < |t|
    decreases |t| - i
  {
    if i + 1 >= |t| then None
    else if t[i] == STAR && t[i + 1] == SLASH then Some(i)
    else CommentClose(t, i + 1)
  }

  function Then(out: bytes, r: Option<bytes>): (r': Option<bytes>)
  {
    if r.None? then None else Some(out + r.value)
  }

  /** What the text becomes from `i` on; None if a literal or a comment is left open, when the
      loop would run past the terminator. */
  function Minified(t: bytes, i: nat): (r: Option<bytes>)
    requires i <= |t|
    ensures r.Some? ==> |r.value| <= |t| - i
    decreases |t| - i
  {
    if i == |t| then Some([])
    else if IsBlank(t[i]) then Minified(t, i + 1)
    else if StartsComment(t, i, SLASH) then Minified(t, LineEnd(t, i))
    else if StartsComment(t, i, STAR) then
      match CommentClose(t, i)
      case None => None
      case Some(j) => Minified(t, j + 2)
    else if t[i] == QUOTE then
      match CloseQuote(t, i + 1)
      case None => None
      case Some(j) => Then(t[i..j + 1], Minified(t, j + 1))
    else Then([t[i]], Minified(t, i + 1))
  }

  // ---------------------------------------------------------------- in place

  /** The array holds `out` in front, still untouched text from `i` on, and the write position
      never passes the read position. */
  ghost predicate Halfway(a: array<byte>, t: bytes, i: nat, out: bytes)
    reads a
  {
    |out| <= i <= |t| < a.Length && a[..|out|] == out && a[i..|t| + 1] == t[i..] + [NUL]
  }

  lemma NothingLeft(t: bytes)
    ensures Minified(t, |t|) == Some([])
  {
  }

  /** What one round of the loop adds to the output `out` so far. */
  lemma OneRound(t: bytes, i: nat, out: bytes)
    requires i < |t|
    ensures var r := Then(out, Minified(t, i));
            if IsBlank(t[i]) then r == Then(out, Minified(t, i + 1))
            else if StartsComment(t, i, SLASH) then r == Then(out, Minified(t, LineEnd(t, i)))
            else if StartsComment(t, i, STAR) then
              r == if CommentClose(t, i).None? then None else Then(out, Minified(t, CommentClose(t, i).value + 2))
            else if t[i] == QUOTE then
              if CloseQuote(t, i + 1).None? then r == None
              else
                var j := CloseQuote(t, i + 1).value + 1;
                r == Then(out + t[i..j], Minified(t, j))
            else r == Then(out + [t[i]], Minified(t, i + 1))
  {
    hide CloseQuote, LineEnd, CommentClose;
    if t[i] == QUOTE {
      if CloseQuote(t, i + 1).Some? {
        var j := CloseQuote(t, i + 1).value + 1;
        if Minified(t, j).Some? {
          Assoc(out, t[i..j], Minified(t, j).value);
        }
      }
    } else if !IsBlank(t[i]) && !StartsComment(t, i, SLASH) && !StartsComment(t, i, STAR) && Minified(t, i + 1).Some? {
      Assoc(out, [t[i]], Minified(t, i + 1).value);
    }
  }

  /** The whole loop, on any text, comments included.  It steps over the terminator exactly if the
      text leaves a literal or a block comment open; otherwise the array then holds the minified text
      and its terminator. */
  method MinifyInPlace(json: array<byte>, ghost t: bytes) returns (overrun: bool)
    requires |t| < json.Length && json[..|t| + 1] == t + [NUL] && NulFree(t)
    modifies json
    ensures overrun <==> Minified(t, 0).None?
    ensures !overrun ==> var m := Minified(t, 0).value; json[..|m| + 1] == m + [NUL]
  {
    hide CloseQuote, LineEnd, CommentClose, Halfway, Minified;
    Starting(json, t);
    var i, into := 0, 0;
    ghost var out: bytes := [];
    ghost var goal := Minified(t, 0);
    assert goal.Some? ==> [] + goal.value == goal.value;
    while Peek(json, t, i, out) != NUL
      invariant into == |out| && i <= |t| && Halfway(json, t, i, out)
      invariant Then(out, Minified(t, i)) == goal
      decreases |t| - i
    {
      var c, c1 := Peek(json, t, i, out), PeekNext(json, t, i, out);
      OneRound(t, i, out);
      if c == SPACE || c == TAB || c == CR || c == LF {
        Skipping(json, t, i, i + 1, out);
        i := i + 1;
      } else if c == SLASH && c1 == SLASH {
        i := SkipLine(json, t, i, out);
      } else if c == SLASH && c1 == STAR {
        var inside;
        inside, i := SkipComment(json, t, i, out);
        if !inside {
          return true;
        }
      } else if c == QUOTE {
        ghost var from := i;
        var inside;
        inside, i, into := CopyLiteral(json, t, i, into, out);
        if !inside {
          return true;
        }
        out := out + t[from..i];
      } else {
        assert out + t[i..i] == out && t[i..i + 1] == [t[i]];
        CopyByte(json, t, i, i, into, out);
        out := out + [t[i]];
        i, into := i + 1, into + 1;
      }
    }
    assert Minified(t, |t|) == Some([]) by { NothingLeft(t); }
    assert out + [] == out;
    StoreTerminator(json, t, into, out);
    overrun := false;
  }

  /** A text that opens a literal and never closes it makes the loop leave the text. */
  lemma OpenLiteralOverruns(t: bytes)
    requires forall i :: 0 <= i < |t| ==> t[i] != QUOTE && t[i] != BACKSLASH
    ensures Minified([QUOTE] + t, 0).None?
  {
    var s := [QUOTE] + t;
    NoQuote(s, 1);
  }

  lemma {:induction false} NoQuote(s: bytes, i: nat)
    requires i <= |s| && forall k :: i <= k < |s| ==> s[k] != QUOTE && s[k] != BACKSLASH
    ensures CloseQuote(s, i).None?
    decreases |s| - i
  {
    if i < |s| {
      NoQuote(s, i + 1);
    }
  }

  /** The array and the text agree at the read position; NUL is read only at the end. */
  lemma Reading(a: array<byte>, t: bytes, i: nat, out: bytes)
    requires Halfway(a, t, i, out) && NulFree(t)
    ensures a[i] == NUL <==> i == |t|
    ensures i < |t| ==> a[i] == t[i] && a[i + 1] == (if i + 1 < |t| then t[i + 1] else NUL)
  {
    assert a[i] == a[i..|t| + 1][0];
    if i < |t| {
      assert a[i + 1] == a[i..|t| + 1][1];
    }
  }

  /** The byte at the read position. */
  function Peek(a: array<byte>, ghost t: bytes, i: nat, ghost out: bytes): (c: byte)
    requires Halfway(a, t, i, out) && NulFree(t)
    reads a
    ensures c == if i < |t| then t[i] else NUL
  {
    Reading(a, t, i, out);
    a[i]
  }

  /** The byte after it, which is there whenever the text goes on. */
  function PeekNext(a: array<byte>, ghost t: bytes, i: nat, ghost out: bytes): (c: byte)
    requires Halfway(a, t, i, out) && NulFree(t) && i < |t|
    reads a
    ensures c == if i + 1 < |t| then t[i + 1] else NUL
  {
    Reading(a, t, i, out);
    a[i + 1]
  }

  lemma Starting(a: array<byte>, t: bytes)
    requires |t| < a.Length && a[..|t| + 1] == t + [NUL]
    ensures Halfway(a, t, 0, [])
  {
    assert t[0..] == t && a[0..|t| + 1] == a[..|t| + 1];
  }

  /** Moving the read position alone keeps the array half done. */
  lemma Skipping(a: array<byte>, t: bytes, i: nat, j: nat, out: bytes)
    requires Halfway(a, t, i, out) && i <= j <= |t|
    ensures Halfway(a, t, j, out)
  {
    assert a[j..|t| + 1] == a[i..|t| + 1][j - i..];
    assert t[j..] + [NUL] == (t[i..] + [NUL])[j - i..];
  }

  /** Copying the byte at the read position `j` behind the bytes copied since `i`. */
  method CopyByte(json: array<byte>, ghost t: bytes, ghost i: nat, j: nat, into: nat, ghost out: bytes)
    requires i <= j < |t| && NulFree(t)
    requires Halfway(json, t, j, out + t[i..j]) && into == |out| + (j - i)
    modifies json
    ensures Halfway(json, t, j + 1, out + t[i..j + 1])
  {
    Reading(json, t, j, out + t[i..j]);
    Skipping(json, t, j, j + 1, out + t[i..j]);
    assert out + t[i..j + 1] == (out + t[i..j]) + [t[j]];
    json[into] := json[j];
  }

  method StoreTerminator(json: array<byte>, ghost t: bytes, into: nat, ghost out: bytes)
    requires Halfway(json, t, |t|, out) && into == |out|
    modifies json
    ensures json[..into + 1] == out + [NUL]
  {
    json[into] := NUL;
  }

  /** A double-slash comment, up to but not including the newline. */
  method SkipLine(json: array<byte>, ghost t: bytes, i: nat, ghost out: bytes) returns (j: nat)
    requires Halfway(json, t, i, out) && NulFree(t)
    ensures j == LineEnd(t, i) && Halfway(json, t, j, out)
  {
    j := i;
    while Peek(json, t, j, out) != NUL && Peek(json, t, j, out) != LF
      invariant i <= j <= |t| && Halfway(json, t, j, out)
      invariant LineEnd(t, j) == LineEnd(t, i)
      decreases |t| - j
    {
      Skipping(json, t, j, j + 1, out);
      j := j + 1;
    }
  }

  /** A block comment, together with the mark that closes it.  Without one the code steps two bytes
      on from the terminator. */
  method SkipComment(json: array<byte>, ghost t: bytes, i: nat, ghost out: bytes) returns (inside: bool, j: nat)
    requires Halfway(json, t, i, out) && NulFree(t)
    ensures inside <==> CommentClose(t, i).Some?
    ensures inside ==> j == CommentClose(t, i).value + 2 && Halfway(json, t, j, out)
    ensures !inside ==> j == |t| + 2
  {
    j := i;
    while Peek(json, t, j, out) != NUL && !(Peek(json, t, j, out) == STAR && PeekNext(json, t, j, out) == SLASH)
      invariant i <= j <= |t| && Halfway(json, t, j, out)
      invariant CommentClose(t, j) == CommentClose(t, i)
      decreases |t| - j
    {
      Skipping(json, t, j, j + 1, out);
      j := j + 1;
    }
    inside := Peek(json, t, j, out) != NUL;
    if inside {
      Skipping(json, t, j, j + 2, out);
    }
    j := j + 2;
  }

  /** A string literal with both its quotes; a backslash takes the next byte along.  Without a closing
      quote the code copies the terminator and goes on behind it. */
  method CopyLiteral(json: array<byte>, ghost t: bytes, i: nat, from: nat, ghost out: bytes)
    returns (inside: bool, j: nat, into: nat)
    requires Halfway(json, t, i, out) && from == |out| && NulFree(t)
    requires i < |t| && t[i] == QUOTE
    modifies json
    ensures inside <==> CloseQuote(t, i + 1).Some?
    ensures inside ==> j == CloseQuote(t, i + 1).value + 1
    ensures inside ==> into == |out| + (j - i) && Halfway(json, t, j, out + t[i..j])
    ensures !inside ==> j == |t| + 1
  {
    hide Halfway, CloseQuote, NulFree;
    assert out + t[i..i] == out;
    CopyByte(json, t, i, i, from, out);
    inside, j, into := true, i + 1, from + 1;
    while Peek(json, t, j, out + t[i..j]) != NUL && Peek(json, t, j, out + t[i..j]) != QUOTE
      invariant i < j <= |t| && into == |out| + (j - i)
      invariant Halfway(json, t, j, out + t[i..j])
      invariant CloseQuote(t, j) == CloseQuote(t, i + 1)
      decreases |t| - j
    {
      CloseQuoteGoesOn(t, j);
      inside, j, into := CopyUnit(json, t, i, j, into, out);
      if !inside {
        return;
      }
    }
    CloseQuoteGoesOn(t, j);
    if Peek(json, t, j, out + t[i..j]) == NUL {
      inside, j := false, j + 1;
    } else {
      CopyByte(json, t, i, j, into, out);
      j, into := j + 1, into + 1;
    }
  }

  /** A byte of a literal, with the one behind it if it is a backslash, be it the terminator. */
  method CopyUnit(json: array<byte>, ghost t: bytes, ghost i: nat, j: nat, into: nat, ghost out: bytes)
    returns (inside: bool, j': nat, into': nat)
    requires i <= j < |t| && NulFree(t)
    requires Halfway(json, t, j, out + t[i..j]) && into == |out| + (j - i)
    modifies json
    ensures j' == j + if t[j] == BACKSLASH then 2 else 1
    ensures inside <==> j' <= |t|
    ensures inside ==> into' == |out| + (j' - i) && Halfway(json, t, j', out + t[i..j'])
  {
    hide Halfway;
    j', into' := j, into;
    if Peek(json, t, j', out + t[i..j']) == BACKSLASH {
      CopyByte(json, t, i, j', into', out);
      j', into' := j' + 1, into' + 1;
    }
    inside := Peek(json, t, j', out + t[i..j']) != NUL;
    if inside {
      CopyByte(json, t, i, j', into', out);
    }
    j', into' := j' + 1, into' + 1;
  }

  /** One round of the search for the closing quote. */
  lemma CloseQuoteGoesOn(t: bytes, j: nat)
    requires j <= |t|
    ensures CloseQuote(t, |t|).None?
    ensures NulFree(t) && j < |t| ==> t[j] != NUL
    ensures j < |t| && t[j] == QUOTE ==> CloseQuote(t, j) == Some(j)
    ensures j < |t| && t[j] == BACKSLASH ==> CloseQuote(t, j) == if j + 2 <= |t| then CloseQuote(t, j + 2) else None
    ensures j < |t| && t[j] != QUOTE && t[j] != BACKSLASH ==> CloseQuote(t, j) == CloseQuote(t, j + 1)
  {
  }
}

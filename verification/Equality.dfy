/**
 When `cJSON_Compare` finds two items equal, case by case, with the letters of either case spelled out.
 */
module Equality {
  import opened Bytes
  import opened Json
  import opened Compare

  /** The same letter, in either case. */
  predicate SameLetter(a: byte, b: byte) {
    || a == b
    || ('A' as int <= a <= 'Z' as int && b == a + 32)
    || ('A' as int <= b <= 'Z' as int && a == b + 32)
  }

  predicate SameName(a: CString, b: CString, cs: bool) {
    && a.Text? && b.Text?
    && if cs then a.chars == b.chars
       else |a.chars| == |b.chars| && forall i :: 0 <= i < |a.chars| ==> SameLetter(a.chars[i], b.chars[i])
  }

  /** The first member of that name has an equal value. */
  predicate Finds(m: Member, others: seq<Member>, mode: Mode) {
    exists j :: 0 <= j < |others| && FoundAt(m, others, j, mode)
  }

  predicate FoundAt(m: Member, others: seq<Member>, j: nat, mode: Mode)
    requires j < |others|
  {
    && SameName(m.name, others[j].name, mode.cs) && Same(m.value, others[j].value, mode)
    && forall k :: 0 <= k < j ==> !SameName(m.name, others[k].name, mode.cs)
  }

  predicate Alike(a: Json, b: Json, mode: Mode) {
    match a
    case Invalid => false
    case Null => b == Null
    case False => b == False
    case True => b == True
    case Number(t) => b.Number? && mode.read(t) == mode.read(b.lexeme)
    case String(c) => b.String? && c.Text? && b.text == c
    case Raw(c) => b.Raw? && c.Text? && b.text == c
    case Array(items) =>
      b.Array? && |items| == |b.items| && forall i :: 0 <= i < |items| ==> Same(items[i], b.items[i], mode)
    case Object(ms) =>
      && b.Object?
      && (forall i :: 0 <= i < |ms| ==> Finds(ms[i], b.members, mode))
      && (forall i :: 0 <= i < |b.members| ==> Finds(b.members[i], ms, mode))
  }

  lemma SameKeyIff(a: CString, b: CString, mode: Mode)
    requires a.Text? && b.Text?
    ensures Key(a.chars, mode) == Key(b.chars, mode) <==> SameName(a, b, mode.cs)
  {
    if !mode.cs {
      var x, y := Lower(a.chars), Lower(b.chars);
      if x == y {
        forall i | 0 <= i < |a.chars| ensures SameLetter(a.chars[i], b.chars[i]) {
          assert x[i] == y[i];
        }
      } else if |x| == |y| {
        var i :| 0 <= i < |x| && x[i] != y[i];
        assert !SameLetter(a.chars[i], b.chars[i]);
      }
    }
  }

  lemma CoveredIff(m: Member, others: seq<Member>, mode: Mode)
    ensures Covered(m, others, mode) <==> Finds(m, others, mode)
  {
    hide Same, Key;
    if m.name.Text? {
      var key := Key(m.name.chars, mode);
      forall j | 0 <= j < |others| ensures HasKey(others[j], key, mode) <==> SameName(m.name, others[j].name, mode.cs) {
        if others[j].name.Text? {
          SameKeyIff(m.name, others[j].name, mode);
        }
      }
      var r := FirstWith(others, key, mode);
      if r.Some? {
        assert Same(m.value, others[r.value].value, mode) <==> FoundAt(m, others, r.value, mode);
      }
      forall j | 0 <= j < |others| && FoundAt(m, others, j, mode) ensures r == Some(j) {
        assert HasKey(others[j], key, mode);
      }
    }
  }

  /** Two items are equal exactly if they are of one type and: their numbers are read as the same, their
      strings are there and the same, their arrays have equal elements at equal places, or of each object
      the name of every member is first found in the other at an equal value. */
  lemma SameIff(a: Json, b: Json, mode: Mode)
    ensures Same(a, b, mode) <==> Alike(a, b, mode)
  {
    if a.Array? && b.Array? {
      ArraysIff(a, b, mode);
    } else if a.Object? && b.Object? {
      ObjectsIff(a, b, mode);
    }
  }

  lemma ArraysIff(a: Json, b: Json, mode: Mode)
    requires a.Array? && b.Array?
    ensures Same(a, b, mode) <==> Alike(a, b, mode)
  {
    assert |Denote(a, mode).elements| == |a.items| && |Denote(b, mode).elements| == |b.items|;
    hide Denote, Meaningful;
    if Same(a, b, mode) {
      forall i | 0 <= i < |a.items| ensures Same(a.items[i], b.items[i], mode) {
        SameElements(a, b, i, mode);
      }
    }
    if Alike(a, b, mode) {
      ArraysAgree(a, b, mode);
    }
  }

  lemma SameBack(a: Json, b: Json, mode: Mode)
    requires Same(a, b, mode)
    ensures Same(b, a, mode)
  {
  }

  lemma ObjectsIff(a: Json, b: Json, mode: Mode)
    requires a.Object? && b.Object?
    ensures Same(a, b, mode) <==> Alike(a, b, mode)
  {
    hide Same, Covered, Finds;
    var xs, ys := a.members, b.members;
    forall i | 0 <= i < |xs| ensures Covered(xs[i], ys, mode) <==> Finds(xs[i], ys, mode) {
      CoveredIff(xs[i], ys, mode);
    }
    forall i | 0 <= i < |ys| ensures Covered(ys[i], xs, mode) <==> Finds(ys[i], xs, mode) {
      CoveredIff(ys[i], xs, mode);
    }
    if Same(a, b, mode) {
      SameBack(a, b, mode);
      forall i | 0 <= i < |xs| ensures Covered(xs[i], ys, mode) {
        UncoveredDiffers(a, b, i, mode);
      }
      forall i | 0 <= i < |ys| ensures Covered(ys[i], xs, mode) {
        UncoveredDiffers(b, a, i, mode);
      }
    }
    if Alike(a, b, mode) {
      ObjectsAgree(a, b, mode);
    }
  }
}

/**
 `cJSON_Compare`: a structural walk over two trees, and the value a tree denotes when objects
 are read as maps.  The walk is proved to decide equality of denotations on all trees, including
 the ones with repeated names, missing strings or items without a type.
 */
module Compare {
  import opened Bytes
  import opened Json

  // ---------------------------------------------------------------- what a tree denotes

  /** Whether names are compared byte by byte, and the number `strtod` reads a lexeme as.  Nothing is
      assumed of the latter: 1 and 1.0 may be one number, and so may lexemes that differ otherwise. */
  datatype Mode = Mode(cs: bool, read: bytes -> real)

  datatype Value =
    | VNull
    | VFalse
    | VTrue
    | VNumber(number: real)
    | VString(chars: bytes)
    | VRaw(chars: bytes)
    | VArray(elements: seq<Value>)
    | VObject(fields: map<bytes, Value>)
    | Nothing

  /** `tolower` in the C locale. */
  function LowerByte(c: byte): (r: byte)
  {
    if 65 <= c <= 90 then c + 32 else c
  }

  function Lower(s: bytes): (r: bytes)
    ensures |r| == |s|
    ensures forall i :: 0 <= i < |s| ==> r[i] == LowerByte(s[i])
  {
    seq(|s|, i requires 0 <= i < |s| => LowerByte(s[i]))
  }

  /** A name as far as the comparison tells names apart. */
  function Key(name: bytes, mode: Mode): (k: bytes)
  {
    if mode.cs then name else Lower(name)
  }

  function Denote(v: Json, mode: Mode): (d: Value)
    decreases v
  {
    match v
    case Invalid => Nothing
    case Null => VNull
    case False => VFalse
    case True => VTrue
    case Number(t) => VNumber(mode.read(t))
    case String(c) => if c.Text? then VString(c.chars) else Nothing
    case Raw(c) => if c.Text? then VRaw(c.chars) else Nothing
    case Array(items) => VArray(seq(|items|, i requires 0 <= i < |items| => Denote(items[i], mode)))
    case Object(ms) => VObject(Fields(ms, mode))
  }

  /** The map of an object: the first member of a name counts, as for `get_object_item`. */
  function Fields(ms: seq<Member>, mode: Mode): (f: map<bytes, Value>)
    decreases ms
  {
    if ms == [] then map[]
    else if ms[0].name.NullPtr? then Fields(ms[1..], mode)
    else Fields(ms[1..], mode)[Key(ms[0].name.chars, mode) := Field(ms[0], mode)]
  }

  function Field(m: Member, mode: Mode): (d: Value)
    decreases m
  {
    Denote(m.value, mode)
  }

  /** Trees that denote something: every item typed, every string and name there, and members
      that repeat a name repeat its value. */
  predicate Meaningful(v: Json, mode: Mode)
    decreases v
  {
    match v
    case Invalid => false
    case String(c) => c.Text?
    case Raw(c) => c.Text?
    case Array(items) => forall i :: 0 <= i < |items| ==> Meaningful(items[i], mode)
    case Object(ms) =>
      && (forall i :: 0 <= i < |ms| ==> ms[i].name.Text? && Meaningful(ms[i].value, mode))
      && (forall i :: 0 <= i < |ms| ==> Agrees(ms, i, mode))
    case _ => true
  }

  predicate Agrees(ms: seq<Member>, i: nat, mode: Mode)
    requires i < |ms|
  {
    && ms[i].name.Text?
    && Key(ms[i].name.chars, mode) in Fields(ms, mode)
    && Fields(ms, mode)[Key(ms[i].name.chars, mode)] == Denote(ms[i].value, mode)
  }

  /** Both trees denote something, and the same thing. */
  predicate Same(a: Json, b: Json, mode: Mode) {
    Meaningful(a, mode) && Meaningful(b, mode) && Denote(a, mode) == Denote(b, mode)
  }

  // ---------------------------------------------------------------- lookup by name

  predicate HasKey(m: Member, key: bytes, mode: Mode) {
    m.name.Text? && Key(m.name.chars, mode) == key
  }

  /** Index of the first member with the key. */
  function FirstWith(ms: seq<Member>, key: bytes, mode: Mode): (r: Option<nat>)
    ensures r.Some? ==> r.value < |ms| && HasKey(ms[r.value], key, mode)
    ensures r.Some? ==> forall i :: 0 <= i < r.value ==> !HasKey(ms[i], key, mode)
    ensures r.None? ==> forall i :: 0 <= i < |ms| ==> !HasKey(ms[i], key, mode)
  {
    if ms == [] then None
    else if HasKey(ms[0], key, mode) then Some(0)
    else
      match FirstWith(ms[1..], key, mode)
      case None => assert forall i :: 1 <= i < |ms| ==> ms[i] == ms[1..][i - 1]; None
      case Some(i) => assert forall k :: 1 <= k < |ms| ==> ms[k] == ms[1..][k - 1]; Some(i + 1)
  }

  lemma {:induction false} FieldsAreFirst(ms: seq<Member>, key: bytes, mode: Mode)
    ensures key in Fields(ms, mode) <==> FirstWith(ms, key, mode).Some?
    ensures FirstWith(ms, key, mode).Some? ==> Fields(ms, mode)[key] == Denote(ms[FirstWith(ms, key, mode).value].value, mode)
    decreases ms
  {
    if ms != [] {
      FieldsAreFirst(ms[1..], key, mode);
    }
  }

  /** `get_object_item`: the first member of the name.  The case-sensitive search gives up at a child
      without a name in front of it. */
  method GetObjectItem(ms: seq<Member>, name: CString, mode: Mode) returns (r: Option<nat>)
    ensures r.Some? ==> name.Text? && r == FirstWith(ms, Key(name.chars, mode), mode)
    ensures r.Some? <==>
              && name.Text? && FirstWith(ms, Key(name.chars, mode), mode).Some?
              && (mode.cs ==> forall i :: 0 <= i < FirstWith(ms, Key(name.chars, mode), mode).value ==> ms[i].name.Text?)
  {
    if name.NullPtr? {
      return None;
    }
    var key := Key(name.chars, mode);
    var i := 0;
    if mode.cs {
      while i < |ms| && ms[i].name.Text? && ms[i].name.chars != name.chars
        invariant 0 <= i <= |ms|
        invariant forall k :: 0 <= k < i ==> ms[k].name.Text? && !HasKey(ms[k], key, mode)
      {
        i := i + 1;
      }
    } else {
      while i < |ms| && !(ms[i].name.Text? && Lower(ms[i].name.chars) == Lower(name.chars))
        invariant 0 <= i <= |ms|
        invariant forall k :: 0 <= k < i ==> !HasKey(ms[k], key, mode)
      {
        i := i + 1;
      }
    }
    if i == |ms| || ms[i].name.NullPtr? {
      return None;
    }
    r := Some(i);
  }

  // ---------------------------------------------------------------- the comparison

  function Size(v: Json): (n: nat)
    ensures n > 0
    decreases v
  {
    match v
    case Array(items) => 1 + SizeOfItems(items)
    case Object(ms) => 1 + SizeOfMembers(ms)
    case _ => 1
  }

  function SizeOfItems(items: seq<Json>): (n: nat)
    ensures forall i :: 0 <= i < |items| ==> Size(items[i]) <= n
    decreases items
  {
    if items == [] then 0 else Size(items[0]) + SizeOfItems(items[1..])
  }

  function SizeOfMember(m: Member): (n: nat)
    decreases m
  {
    Size(m.value)
  }

  function SizeOfMembers(ms: seq<Member>): (n: nat)
    ensures forall i :: 0 <= i < |ms| ==> SizeOfMember(ms[i]) <= n
    decreases ms
  {
    if ms == [] then 0 else SizeOfMember(ms[0]) + SizeOfMembers(ms[1..])
  }

  predicate SameType(a: Json, b: Json) {
    match a
    case Invalid => b.Invalid?
    case Null => b.Null?
    case False => b.False?
    case True => b.True?
    case Number(_) => b.Number?
    case String(_) => b.String?
    case Raw(_) => b.Raw?
    case Array(_) => b.Array?
    case Object(_) => b.Object?
  }

  /** `cJSON_Compare` on two distinct items: true exactly if both denote the same value. */
  method CompareItems(a: Json, b: Json, mode: Mode) returns (equal: bool)
    ensures equal <==> Same(a, b, mode)
    decreases Size(a) + Size(b), 2
  {
    if !SameType(a, b) || a.Invalid? {
      return false;
    }
    match a
    case Number(t) => equal := mode.read(t) == mode.read(b.lexeme);
    case String(c) => equal := c.Text? && b.text.Text? && c.chars == b.text.chars;
    case Raw(c) => equal := c.Text? && b.text.Text? && c.chars == b.text.chars;
    case Array(items) => equal := CompareArrays(a, b, mode);
    case Object(ms) => equal := CompareObjects(a, b, mode);
    case _ => equal := true;
  }

  method CompareArrays(a: Json, b: Json, mode: Mode) returns (equal: bool)
    requires a.Array? && b.Array?
    ensures equal <==> Same(a, b, mode)
    decreases Size(a) + Size(b), 1
  {
    var i := 0;
    while i < |a.items| && i < |b.items|
      invariant 0 <= i <= |a.items| && i <= |b.items|
      invariant forall k :: 0 <= k < i ==> Same(a.items[k], b.items[k], mode)
    {
      var same := CompareItems(a.items[i], b.items[i], mode);
      if !same {
        ArraysDiffer(a, b, i, mode);
        return false;
      }
      i := i + 1;
    }
    equal := i == |a.items| && i == |b.items|;
    assert |Denote(a, mode).elements| == |a.items| && |Denote(b, mode).elements| == |b.items|;
    if equal {
      ArraysAgree(a, b, mode);
    }
  }

  lemma ArraysDiffer(a: Json, b: Json, i: nat, mode: Mode)
    requires a.Array? && b.Array? && i < |a.items| && i < |b.items| && !Same(a.items[i], b.items[i], mode)
    ensures !Same(a, b, mode)
  {
    if Same(a, b, mode) {
      SameElements(a, b, i, mode);
    }
  }

  lemma SameElements(a: Json, b: Json, i: nat, mode: Mode)
    requires a.Array? && b.Array? && i < |a.items| && i < |b.items| && Same(a, b, mode)
    ensures Same(a.items[i], b.items[i], mode)
  {
    assert Denote(a, mode).elements[i] == Denote(b, mode).elements[i];
  }

  lemma ArraysAgree(a: Json, b: Json, mode: Mode)
    requires a.Array? && b.Array? && |a.items| == |b.items|
    requires forall k :: 0 <= k < |a.items| ==> Same(a.items[k], b.items[k], mode)
    ensures Same(a, b, mode)
  {
    assert Denote(a, mode).elements == Denote(b, mode).elements;
  }

  method CompareObjects(a: Json, b: Json, mode: Mode) returns (equal: bool)
    requires a.Object? && b.Object?
    ensures equal <==> Same(a, b, mode)
    decreases Size(a) + Size(b), 1
  {
    equal := Covers(a, b, mode);
    if !equal {
      return;
    }
    equal := Covers(b, a, mode);
    if equal {
      ObjectsAgree(a, b, mode);
    }
  }

  /** The member's name leads to an equal value in the other object. */
  predicate Covered(m: Member, others: seq<Member>, mode: Mode) {
    && m.name.Text?
    && var r := FirstWith(others, Key(m.name.chars, mode), mode);
       r.Some? && Same(m.value, others[r.value].value, mode)
  }

  /** One of the two loops over members: every member of `a` is looked up in `b`. */
  method Covers(a: Json, b: Json, mode: Mode) returns (ok: bool)
    requires a.Object? && b.Object?
    ensures ok ==> forall i :: 0 <= i < |a.members| ==> Covered(a.members[i], b.members, mode)
    ensures !ok ==> !Same(a, b, mode)
    decreases Size(a) + Size(b), 0
  {
    hide Same, Size, Key;
    var i := 0;
    while i < |a.members|
      invariant 0 <= i <= |a.members|
      invariant forall k :: 0 <= k < i ==> Covered(a.members[k], b.members, mode)
    {
      var m := a.members[i];
      var r := GetObjectItem(b.members, m.name, mode);
      if r.None? {
        UncoveredDiffers(a, b, i, mode);
        return false;
      }
      SmallerMembers(a, i);
      SmallerMembers(b, r.value);
      var same := CompareItems(m.value, b.members[r.value].value, mode);
      if !same {
        UncoveredDiffers(a, b, i, mode);
        return false;
      }
      i := i + 1;
    }
    ok := true;
  }

  lemma SmallerMembers(v: Json, i: nat)
    requires v.Object? && i < |v.members|
    ensures Size(v.members[i].value) < Size(v)
  {
    assert SizeOfMember(v.members[i]) <= SizeOfMembers(v.members);
  }

  /** In objects that denote the same map every member is covered, and the search finds it. */
  lemma UncoveredDiffers(a: Json, b: Json, i: nat, mode: Mode)
    requires a.Object? && b.Object? && i < |a.members|
    ensures Same(a, b, mode) ==> Covered(a.members[i], b.members, mode)
    ensures Same(a, b, mode) ==> forall k :: 0 <= k < |b.members| ==> b.members[k].name.Text?
  {
    if Same(a, b, mode) {
      assert Agrees(a.members, i, mode);
      FieldsAreFirst(b.members, Key(a.members[i].name.chars, mode), mode);
    }
  }

  /** Objects that cover each other denote the same map. */
  lemma ObjectsAgree(a: Json, b: Json, mode: Mode)
    requires a.Object? && b.Object?
    requires forall i :: 0 <= i < |a.members| ==> Covered(a.members[i], b.members, mode)
    requires forall i :: 0 <= i < |b.members| ==> Covered(b.members[i], a.members, mode)
    ensures Same(a, b, mode)
  {
    forall k | k in Fields(a.members, mode)
      ensures k in Fields(b.members, mode) && Fields(a.members, mode)[k] == Fields(b.members, mode)[k]
    {
      FieldsCovered(a.members, b.members, k, mode);
    }
    forall k | k in Fields(b.members, mode)
      ensures k in Fields(a.members, mode)
    {
      FieldsCovered(b.members, a.members, k, mode);
    }
    assert Fields(a.members, mode) == Fields(b.members, mode);
    CoveredIsMeaningful(a.members, b.members, mode);
    CoveredIsMeaningful(b.members, a.members, mode);
  }

  lemma FieldsCovered(ms: seq<Member>, others: seq<Member>, k: bytes, mode: Mode)
    requires forall i :: 0 <= i < |ms| ==> Covered(ms[i], others, mode)
    requires k in Fields(ms, mode)
    ensures k in Fields(others, mode) && Fields(ms, mode)[k] == Fields(others, mode)[k]
  {
    FieldsAreFirst(ms, k, mode);
    FieldsAreFirst(others, k, mode);
    assert Covered(ms[FirstWith(ms, k, mode).value], others, mode);
  }

  /** Members of one name are all equal to the same member of the other object, so to each other. */
  lemma CoveredIsMeaningful(ms: seq<Member>, others: seq<Member>, mode: Mode)
    requires forall i :: 0 <= i < |ms| ==> Covered(ms[i], others, mode)
    ensures Meaningful(Object(ms), mode)
  {
    forall i | 0 <= i < |ms| ensures Agrees(ms, i, mode) && Meaningful(ms[i].value, mode) {
      assert Covered(ms[i], others, mode);
      var k := Key(ms[i].name.chars, mode);
      FieldsAreFirst(ms, k, mode);
      assert HasKey(ms[i], k, mode);
      FieldsCovered(ms, others, k, mode);
      FieldsAreFirst(others, k, mode);
    }
  }

  // ---------------------------------------------------------------- consequences

  /** Two members of one name with different values make an object unequal to its own copy. */
  lemma RepeatedNameDiffers(name: bytes, x: Json, y: Json, mode: Mode)
    requires Denote(x, mode) != Denote(y, mode)
    ensures var v := Object([Member(Text(name), x), Member(Text(name), y)]); !Same(v, v, mode)
  {
    var ms := [Member(Text(name), x), Member(Text(name), y)];
    FieldsAreFirst(ms, Key(name, mode), mode);
    assert HasKey(ms[0], Key(name, mode), mode);
    assert FirstWith(ms, Key(name, mode), mode) == Some(0);
    assert !Agrees(ms, 1, mode);
  }

  /** The order of an object's members does not matter. */
  lemma OrderOfMembers(ms: seq<Member>, ms': seq<Member>, mode: Mode)
    requires multiset(ms) == multiset(ms') && Meaningful(Object(ms), mode)
    ensures Same(Object(ms), Object(ms'), mode)
  {
    forall i | 0 <= i < |ms'| ensures Covered(ms'[i], ms, mode) {
      var j := IndexIn(ms'[i], ms', ms);
      PermutedCovered(ms, ms, j, mode);
    }
    forall i | 0 <= i < |ms| ensures Covered(ms[i], ms', mode) {
      PermutedCovered(ms, ms', i, mode);
    }
    ObjectsAgree(Object(ms), Object(ms'), mode);
  }

  lemma IndexIn(m: Member, ms: seq<Member>, ms': seq<Member>) returns (j: nat)
    requires multiset(ms) == multiset(ms') && m in ms
    ensures j < |ms'| && ms'[j] == m
  {
    assert m in multiset(ms) && m in multiset(ms');
    j :| 0 <= j < |ms'| && ms'[j] == m;
  }

  lemma PermutedCovered(ms: seq<Member>, ms': seq<Member>, i: nat, mode: Mode)
    requires multiset(ms) == multiset(ms') && Meaningful(Object(ms), mode) && i < |ms|
    ensures Covered(ms[i], ms', mode)
  {
    assert Agrees(ms, i, mode);
    var k := Key(ms[i].name.chars, mode);
    var j := IndexIn(ms[i], ms, ms');
    assert HasKey(ms'[j], k, mode);
    var f := FirstWith(ms', k, mode).value;
    var j' := IndexIn(ms'[f], ms', ms);
    assert Agrees(ms, j', mode);
  }
}

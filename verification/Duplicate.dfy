/**
 `cJSON_Duplicate` on the linked items: the copy is made of new items only, holds the same tree
 with no reference flag left, and the source is not touched.
 */
module Duplicate {
  import opened Json
  import opened ChildList
  import Compare

  datatype Tree = Tree(data: Data, kids: seq<Tree>)

  /** The list entered at `first` holds the trees, all of it within `heap`. */
  ghost predicate Holds(first: Item?, items: seq<Item>, ts: seq<Tree>, heap: set<Item>)
    reads heap
    decreases ts
  {
    && |items| == |ts|
    && (forall i :: 0 <= i < |items| ==> items[i] in heap)
    && Linked(first, items)
    && forall i :: 0 <= i < |items| ==> HoldsItem(items[i], ts[i], heap)
  }

  ghost predicate HoldsItem(n: Item, t: Tree, heap: set<Item>)
    reads n, heap
    decreases t
  {
    n.Carries() == t.data && Holds(n.child, n.children, t.kids, heap)
  }

  lemma {:induction false} HoldsInMore(first: Item?, items: seq<Item>, ts: seq<Tree>, heap: set<Item>, more: set<Item>)
    requires Holds(first, items, ts, heap) && heap <= more
    ensures Holds(first, items, ts, more)
    decreases ts
  {
    forall i | 0 <= i < |items| ensures HoldsItem(items[i], ts[i], more) {
      assert HoldsItem(items[i], ts[i], heap);
      HoldsInMore(items[i].child, items[i].children, ts[i].kids, heap, more);
    }
  }

  /** The tree a duplicate holds: no item of it refers to another's content. */
  function Owned(t: Tree, recurse: bool): (t': Tree)
    decreases t
  {
    Tree(t.data.(reference := false),
         if recurse then seq(|t.kids|, i requires 0 <= i < |t.kids| => Owned(t.kids[i], true)) else [])
  }

  /** Each of the items holds its tree within `below`, and is not itself part of that. */
  ghost predicate Copies(made: seq<Item>, ts: seq<Tree>, below: set<Item>)
    reads made, below
  {
    && |made| <= |ts|
    && forall i :: 0 <= i < |made| ==> made[i] !in below && HoldsItem(made[i], ts[i], below)
  }

  /** `cJSON_Duplicate` of an item that is there. */
  method DuplicateItem(item: Item, recurse: bool, ghost t: Tree, ghost heap: set<Item>)
    returns (copy: Item, ghost below: set<Item>)
    requires HoldsItem(item, t, heap)
    ensures fresh(copy) && fresh(below) && copy !in below
    ensures copy.next == null && copy.prev == null
    ensures HoldsItem(copy, Owned(t, recurse), below)
    ensures copy.tag == item.tag && !copy.reference && copy.constName == item.constName && copy.lexeme == item.lexeme
    ensures copy.valuestring == item.valuestring && copy.name == item.name
    ensures !recurse ==> copy.child == null
    decreases t, 1
  {
    copy := CopyItem(item);
    below := {};
    if recurse {
      below := DuplicateChildren(item, copy, t, heap);
    }
  }

  /** The first part: everything but the children. */
  method CopyItem(item: Item) returns (copy: Item)
    ensures fresh(copy) && copy.Carries() == item.Carries().(reference := false)
    ensures copy.tag == item.tag && !copy.reference && copy.constName == item.constName && copy.lexeme == item.lexeme
    ensures copy.valuestring == item.valuestring && copy.name == item.name
    ensures copy.next == null && copy.prev == null && copy.child == null && copy.children == []
  {
    copy := new Item();
    copy.tag, copy.reference, copy.constName, copy.lexeme := item.tag, false, item.constName, item.lexeme;
    if item.valuestring.Text? {
      copy.valuestring := item.valuestring;
    }
    if item.name.Text? {
      copy.name := item.name;
    }
  }

  /** The walk along the children. */
  method DuplicateChildren(item: Item, copy: Item, ghost t: Tree, ghost heap: set<Item>) returns (ghost below: set<Item>)
    requires HoldsItem(item, t, heap) && copy !in heap && copy != item
    requires copy.child == null && copy.children == []
    modifies copy`child, copy`children
    ensures fresh(below)
    ensures Holds(copy.child, copy.children, Owned(t, true).kids, below)
    decreases t, 0
  {
    hide Owned, Holds, Linked, Copies;
    ghost var ts := Owned(t, true).kids;
    OwnedKids(t);
    KidsOf(item, t, heap);
    below := {};
    var child := item.child;
    var last: Item? := null;
    ghost var made: seq<Item> := [];
    NoneYet(ts);
    while child != null
      invariant |made| <= |item.children| == |t.kids| == |ts|
      invariant child == if |made| < |item.children| then item.children[|made|] else null
      invariant last == if made == [] then null else made[|made| - 1]
      invariant copy !in made && copy !in below && fresh(below) && copy.children == []
      invariant forall i :: 0 <= i < |made| ==> fresh(made[i])
      invariant HoldsItem(item, t, heap)
      invariant Linked(copy.child, made) && Copies(made, ts, below)
      decreases |item.children| - |made|
    {
      KidAt(item, t, heap, |made|);
      var newchild; ghost var under;
      newchild, under := DuplicateItem(child, true, t.kids[|made|], heap);
      Widen(made, ts, below, newchild, under);
      below := below + under;
      Link(copy, last, newchild, made, ts, below);
      last := newchild;
      made := made + [newchild];
      child := child.next;
    }
    copy.children := made;
    HoldsMade(copy.child, made, ts, below);
    below := below + set n | n in made;
  }

  /** The new child becomes the first one or follows the last one. */
  method Link(copy: Item, last: Item?, newchild: Item, ghost made: seq<Item>, ghost ts: seq<Tree>, ghost below: set<Item>)
    requires Linked(copy.child, made) && last == if made == [] then null else made[|made| - 1]
    requires copy !in made && copy !in below && copy != newchild && newchild !in made
    requires newchild.next == null && newchild.prev == null
    requires Copies(made, ts, below) && |made| < |ts| && Copies([newchild], [ts[|made|]], below)
    modifies copy`child, newchild`prev, last
    ensures Linked(copy.child, made + [newchild]) && Copies(made + [newchild], ts, below)
  {
    if last != null {
      last.next := newchild;
      newchild.prev := last;
    } else {
      copy.child := newchild;
    }
  }

  lemma KidsOf(item: Item, t: Tree, heap: set<Item>)
    requires HoldsItem(item, t, heap)
    ensures |item.children| == |t.kids| && item.child == if item.children == [] then null else item.children[0]
  {
  }

  lemma KidAt(item: Item, t: Tree, heap: set<Item>, i: nat)
    requires HoldsItem(item, t, heap) && i < |item.children| == |t.kids|
    ensures var kid := item.children[i];
            && kid in heap && HoldsItem(kid, t.kids[i], heap)
            && kid.next == if i + 1 == |item.children| then null else item.children[i + 1]
  {
  }

  lemma NoneYet(ts: seq<Tree>)
    ensures Linked(null, []) && Copies([], ts, {})
  {
  }

  lemma OwnedKids(t: Tree)
    ensures |Owned(t, true).kids| == |t.kids|
    ensures forall i :: 0 <= i < |t.kids| ==> Owned(t, true).kids[i] == Owned(t.kids[i], true)
  {
  }

  /** Copies stay what they are when more items are taken into view. */
  lemma Widen(made: seq<Item>, ts: seq<Tree>, below: set<Item>, n: Item, under: set<Item>)
    requires |made| < |ts| && Copies(made, ts, below) && n !in below + under
    requires HoldsItem(n, ts[|made|], under) && forall i :: 0 <= i < |made| ==> made[i] !in under
    ensures Copies(made, ts, below + under) && Copies([n], [ts[|made|]], below + under)
  {
    forall i | 0 <= i < |made| ensures HoldsItem(made[i], ts[i], below + under) {
      HoldsInMore(made[i].child, made[i].children, ts[i].kids, below, below + under);
    }
    HoldsInMore(n.child, n.children, ts[|made|].kids, under, below + under);
  }

  /** The finished list holds the copied children. */
  lemma HoldsMade(first: Item?, made: seq<Item>, ts: seq<Tree>, below: set<Item>)
    requires |made| == |ts| && Linked(first, made) && Copies(made, ts, below)
    ensures Holds(first, made, ts, below + set n | n in made)
  {
    var all := below + set n | n in made;
    forall i | 0 <= i < |made| ensures HoldsItem(made[i], ts[i], all) {
      HoldsInMore(made[i].child, made[i].children, ts[i].kids, below, all);
    }
  }

  // ---------------------------------------------------------------- meaning of a copy

  /** The value an item stands for; names count below objects only. */
  function JsonOf(t: Tree): (v: Json)
    decreases t
  {
    match t.data.tag
    case InvalidTag => Invalid
    case NullTag => Null
    case FalseTag => False
    case TrueTag => True
    case NumberTag => Number(t.data.lexeme)
    case StringTag => String(t.data.text)
    case RawTag => Raw(t.data.text)
    case ArrayTag => Array(seq(|t.kids|, i requires 0 <= i < |t.kids| => JsonOf(t.kids[i])))
    case ObjectTag =>
      Object(seq(|t.kids|, i requires 0 <= i < |t.kids| => Member(t.kids[i].data.name, JsonOf(t.kids[i]))))
  }

  lemma {:induction false} CopyMeansTheSame(t: Tree)
    ensures JsonOf(Owned(t, true)) == JsonOf(t)
    decreases t
  {
    var t' := Owned(t, true);
    OwnedKids(t);
    forall i | 0 <= i < |t.kids|
      ensures JsonOf(t'.kids[i]) == JsonOf(t.kids[i]) && t'.kids[i].data.name == t.kids[i].data.name
    {
      CopyMeansTheSame(t.kids[i]);
    }
  }

  /** `cJSON_Compare` finds a recursive duplicate equal to its source exactly if the source denotes
      something. */
  lemma DuplicateComparesEqual(t: Tree, mode: Compare.Mode)
    ensures Compare.Same(JsonOf(Owned(t, true)), JsonOf(t), mode) <==> Compare.Meaningful(JsonOf(t), mode)
  {
    CopyMeansTheSame(t);
  }

  /** `cJSON_Duplicate`; there is no copy of nothing. */
  method DuplicateTree(item: Item?, recurse: bool, ghost t: Tree, ghost heap: set<Item>)
    returns (copy: Item?, ghost below: set<Item>)
    requires item != null ==> HoldsItem(item, t, heap)
    ensures copy == null <==> item == null
    ensures copy != null ==> fresh(copy) && fresh(below) && HoldsItem(copy, Owned(t, recurse), below)
  {
    copy, below := null, {};
    if item != null {
      copy, below := DuplicateItem(item, recurse, t, heap);
    }
  }
}

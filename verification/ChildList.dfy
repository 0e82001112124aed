/**
 The children of an array or object: a list linked through `next` and `prev`, with a null
 `prev` at the head and a null `next` at the tail.  The list operations are proved to keep it
 linked and to act on the sequence of children as append, insert, remove and update.
 */
module ChildList {
  import opened Bytes

  datatype Tag = InvalidTag | FalseTag | TrueTag | NullTag | NumberTag | StringTag | ArrayTag | ObjectTag | RawTag

  /** What one item carries; `reference` and `constName` are the flags beside the type. */
  datatype Data = Data(tag: Tag, reference: bool, constName: bool, lexeme: bytes, text: CString, name: CString)

  /** Nodes `items` are linked in this order, and `first` is where the list is entered. */
  ghost predicate Linked(first: Item?, items: seq<Item>)
    reads items
  {
    && first == (if items == [] then null else items[0])
    && (forall i, j :: 0 <= i < j < |items| ==> items[i] != items[j])
    && (forall i {:trigger items[i].prev} :: 0 <= i < |items| ==> items[i].prev == if i == 0 then null else items[i - 1])
    && (forall i {:trigger items[i].next} ::
          0 <= i < |items| ==> items[i].next == if i + 1 == |items| then null else items[i + 1])
  }

  function InsertAt<T>(s: seq<T>, k: nat, x: T): (r: seq<T>)
    requires k <= |s|
    ensures |r| == |s| + 1 && r[k] == x
  {
    s[..k] + [x] + s[k..]
  }

  function RemoveAt<T>(s: seq<T>, k: nat): (r: seq<T>)
    requires k < |s|
    ensures |r| == |s| - 1
  {
    s[..k] + s[k + 1..]
  }

  /** What one operation puts in, its counterpart takes out. */
  lemma RemoveUndoesInsert<T>(s: seq<T>, k: nat, x: T)
    requires k <= |s|
    ensures RemoveAt(InsertAt(s, k, x), k) == s
  {
    assert InsertAt(s, k, x)[..k] == s[..k];
    assert InsertAt(s, k, x)[k + 1..] == s[k..];
  }

  lemma InsertUndoesRemove<T>(s: seq<T>, k: nat)
    requires k < |s|
    ensures InsertAt(RemoveAt(s, k), k, s[k]) == s
  {
    assert RemoveAt(s, k)[..k] == s[..k];
    assert RemoveAt(s, k)[k..] == s[k + 1..];
  }

  class Item {
    var next: Item?
    var prev: Item?
    var child: Item?
    var tag: Tag
    var reference: bool
    var constName: bool
    var lexeme: bytes
    var valuestring: CString
    var name: CString
    ghost var children: seq<Item>

    ghost function Carries(): (d: Data)
      reads this`tag, this`reference, this`constName, this`lexeme, this`valuestring, this`name
    {
      Data(tag, reference, constName, lexeme, valuestring, name)
    }

    ghost predicate Valid()
      reads this, children
    {
      Linked(child, children) && this !in children
    }

    /** An item in no list, as the constructors and the detach operation leave it. */
    ghost predicate Loose()
      reads this
    {
      next == null && prev == null
    }

    /** `cJSON_New_Item` */
    constructor ()
      ensures Valid() && Loose() && child == null && children == []
      ensures Carries() == Data(InvalidTag, false, false, [], NullPtr, NullPtr)
    {
      next, prev, child, children := null, null, null, [];
      tag, reference, constName, lexeme, valuestring, name := InvalidTag, false, false, [], NullPtr, NullPtr;
    }

    /** `get_array_item`: walks `index` steps, or off the end. */
    method GetArrayItem(index: nat) returns (item: Item?)
      requires Valid()
      ensures item == if index < |children| then children[index] else null
    {
      item := child;
      var left := index;
      ghost var at := 0;
      while item != null && left > 0
        invariant 0 <= left && 0 <= at <= |children| && at + left == index
        invariant item == if at < |children| then children[at] else null
      {
        left := left - 1;
        item := item.next;
        at := at + 1;
      }
    }

    /** `add_item_to_array` */
    method AddItemToArray(item: Item?) returns (added: bool)
      requires Valid() && (item != null ==> item.Loose() && item !in children && item != this)
      modifies this`child, this`children, children`next, (if item == null then {} else {item})`prev
      ensures added <==> item != null
      ensures Valid() && children == old(children) + if item == null then [] else [item]
    {
      if item == null {
        return false;
      }
      if child == null {
        child := item;
      } else {
        var last := child;
        ghost var at := 0;
        while last.next != null
          invariant 0 <= at < |children| && last == children[at]
          decreases |children| - at
        {
          last := last.next;
          at := at + 1;
        }
        last.next := item;
        item.prev := last;
      }
      children := children + [item];
      added := true;
    }

    /** `cJSON_InsertItemInArray`: in front of the child at `which`, or at the end. */
    method InsertItemInArray(which: int, newitem: Item)
      requires Valid() && newitem.Loose() && newitem !in children && newitem != this
      modifies this`child, this`children, children`next, children`prev, newitem`next, newitem`prev
      ensures Valid()
      ensures children == if which < 0 then old(children)
                          else InsertAt(old(children), if which < |old(children)| then which else |old(children)|, newitem)
    {
      if which < 0 {
        return;
      }
      var after := GetArrayItem(which);
      if after == null {
        var added := AddItemToArray(newitem);
        return;
      }
      LinkBefore(after, newitem, which);
    }

    /** The rewiring in front of the child at `k`. */
    method LinkBefore(after: Item, newitem: Item, ghost k: nat)
      requires Valid() && k < |children| && children[k] == after
      requires newitem.Loose() && newitem !in children && newitem != this
      modifies this`child, this`children, children`next, children`prev, newitem`next, newitem`prev
      ensures Valid() && children == InsertAt(old(children), k, newitem)
    {
      newitem.next := after;
      newitem.prev := after.prev;
      after.prev := newitem;
      if after == child {
        child := newitem;
      } else {
        newitem.prev.next := newitem;
      }
      children := InsertAt(children, k, newitem);
    }

    /** `cJSON_DetachItemViaPointer` on the child at `k`, on an item in no list, or on null.  For an
        item in no list none of the tests of the rewiring holds. */
    method DetachItemViaPointer(item: Item?, ghost k: nat) returns (detached: Item?)
      requires Valid()
      requires item != null ==> if item in children then k < |children| && children[k] == item else item.Loose()
      modifies this`child, this`children, children`next, children`prev
      ensures Valid() && detached == item && (item != null ==> item.Loose())
      ensures children == if item != null && item in old(children) then RemoveAt(old(children), k) else old(children)
    {
      detached := item;
      if item == null || (item.prev == null && item.next == null && item != child) {
        return;
      }
      Unlink(item, k);
    }

    /** The rewiring around the child at `k`. */
    method Unlink(item: Item, ghost k: nat)
      requires Valid() && k < |children| && children[k] == item
      modifies this`child, this`children, children`next, children`prev
      ensures Valid() && item.Loose() && children == RemoveAt(old(children), k)
    {
      if item.prev != null {
        item.prev.next := item.next;
      }
      if item.next != null {
        item.next.prev := item.prev;
      }
      if item == child {
        child := item.next;
      }
      item.prev, item.next := null, null;
      children := RemoveAt(children, k);
    }

    /** `cJSON_DetachItemFromArray`: a position outside the list changes nothing. */
    method DetachItemFromArray(which: int) returns (item: Item?)
      requires Valid()
      modifies this`child, this`children, children`next, children`prev
      ensures Valid()
      ensures if 0 <= which < |old(children)|
              then item == old(children)[which] && item.Loose() && children == RemoveAt(old(children), which)
              else item == null && children == old(children)
    {
      if which < 0 {
        return null;
      }
      item := GetArrayItem(which);
      item := DetachItemViaPointer(item, which);
    }

    /** `cJSON_ReplaceItemViaPointer` on the child at `k`, up to the deletion of the replaced item;
        null arguments are refused. */
    method ReplaceItemViaPointer(item: Item?, replacement: Item?, ghost k: nat) returns (replaced: bool)
      requires Valid() && (item != null ==> k < |children| && children[k] == item)
      requires replacement != null ==> replacement == item || (replacement !in children && replacement != this)
      modifies this`child, this`children, children`next, children`prev, (if replacement == null then {} else {replacement})`next,
               (if replacement == null then {} else {replacement})`prev
      ensures Valid() && (replaced <==> item != null && replacement != null)
      ensures children == if replaced then old(children)[k := replacement] else old(children)
      ensures replaced && replacement != item ==> item.Loose()
    {
      if replacement == null || item == null {
        return false;
      }
      if replacement == item {
        return true;
      }
      replacement.next := item.next;
      replacement.prev := item.prev;
      if replacement.next != null {
        replacement.next.prev := replacement;
      }
      if replacement.prev != null {
        replacement.prev.next := replacement;
      }
      if child == item {
        child := replacement;
      }
      item.next, item.prev := null, null;
      children := children[k := replacement];
      replaced := true;
    }
  }

  /** What is inserted at a position is what is detached there, and the list is as before. */
  method InsertThenDetach(parent: Item, which: nat, newitem: Item) returns (item: Item?)
    requires parent.Valid() && which <= |parent.children|
    requires newitem.Loose() && newitem !in parent.children && newitem != parent
    modifies parent`child, parent`children, parent.children`next, parent.children`prev, newitem`next, newitem`prev
    ensures parent.Valid() && parent.children == old(parent.children) && item == newitem && newitem.Loose()
  {
    RemoveUndoesInsert(parent.children, which, newitem);
    parent.InsertItemInArray(which, newitem);
    item := parent.DetachItemFromArray(which);
  }

  /** A child detached and put back where it was leaves the list as before. */
  method DetachThenInsert(parent: Item, which: nat)
    requires parent.Valid() && which < |parent.children|
    modifies parent`child, parent`children, parent.children`next, parent.children`prev
    ensures parent.Valid() && parent.children == old(parent.children)
  {
    InsertUndoesRemove(parent.children, which);
    var item := parent.DetachItemFromArray(which);
    parent.InsertItemInArray(which, item);
  }
}

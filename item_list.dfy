/** The doubly linked list of choices (fbrowser.c, lines 58-65 and 208-263,
    312-326), modelled as a sequence: the node at position p has the node
    at p - 1 as its `back` and the node at p + 1 as its `next`. */
module ItemList {

  /** One LISTCHOICE node without its links. */
  datatype Item = Item(index: nat, item: string, path: string, isDirectory: bool)

  /** A fresh node carrying a label, a path and its kind; `addend` gives it
      its index. */
  function NewElement(text: string, itemPath: string, isDirectory: bool): (r: Item)
    ensures r.item == text && r.path == itemPath && r.isDirectory == isDirectory
  {
    Item(0, text, itemPath, isDirectory)
  }

  /** Every node's index is its position in the list. */
  ghost predicate Contiguous(s: seq<Item>)
  {
    forall p :: 0 <= p < |s| ==> s[p].index == p
  }

  /** Appends `newp` after the last node, found by walking the `next` links
      from the head; an empty list makes `newp` the head with index 0. */
  method AddEnd(head: seq<Item>, newp: Item) returns (r: seq<Item>)
    ensures |r| == |head| + 1 && r[..|head|] == head
    ensures head == [] ==> r[0] == newp.(index := 0)
    ensures head != [] ==> r[|head|] == newp.(index := head[|head| - 1].index + 1)
    ensures Contiguous(head) ==> Contiguous(r)
  {
    if head == [] {
      r := [newp.(index := 0)];
      return;
    }
    var p2 := 0;
    while p2 + 1 < |head|
      invariant p2 < |head|
    {
      p2 := p2 + 1;
    }
    r := head + [newp.(index := head[p2].index + 1)];
  }

  /** Counts the `next` links from the head: one less than the number of
      nodes. The head is dereferenced, so the list must not be empty. */
  method QueryLength(head: seq<Item>) returns (itemCount: nat)
    requires head != []
    ensures itemCount == |head| - 1
  {
    itemCount := 0;
    var aux := 0;
    while aux + 1 < |head|
      invariant aux < |head| && itemCount == aux
    {
      aux := aux + 1;
      itemCount := itemCount + 1;
    }
  }

  /** Frees every node and leaves the head empty; an empty list is fine.
      The loop is the walk along the `next` links that frees each node in
      turn; freeing itself has no counterpart in a model without a heap. */
  method DeleteList(head: seq<Item>) returns (r: seq<Item>)
    ensures r == []
  {
    var current := 0;
    while current < |head|
      invariant current <= |head|
    {
      current := current + 1;
    }
    r := [];
  }
}

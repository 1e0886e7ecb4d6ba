/** The intrusive doubly linked list that holds the boot drivers.

    Nodes are numbered; node 0 is the list head and is never a driver.  The two
    link maps are what the kernel's LIST_ENTRY macros read and write; the ghost
    field `order` is the sequence of drivers a forward walk meets. */
module DriverLinks {
  import opened Lists

  const HEAD: nat := 0

  /** The node at position `i` of the ring, where both ends are the head. */
  function At(order: seq<nat>, i: int): nat {
    if 0 <= i < |order| then order[i] else HEAD
  }

  ghost predicate Distinct(order: seq<nat>) {
    && (forall i :: 0 <= i < |order| ==> order[i] != HEAD)
    && (forall i, j :: 0 <= i < j < |order| ==> order[i] != order[j])
  }

  ghost predicate Forward(flink: map<nat, nat>, order: seq<nat>) {
    forall i :: -1 <= i < |order| ==> At(order, i) in flink && flink[At(order, i)] == At(order, i + 1)
  }

  ghost predicate Backward(blink: map<nat, nat>, order: seq<nat>) {
    forall i :: 0 <= i <= |order| ==> At(order, i) in blink && blink[At(order, i)] == At(order, i - 1)
  }

  /** `s` with `x` put in at position `k`. */
  function With(s: seq<nat>, k: nat, x: nat): seq<nat>
    requires k <= |s|
  {
    s[..k] + [x] + s[k..]
  }

  class DriverList {
    var flink: map<nat, nat>
    var blink: map<nat, nat>
    ghost var order: seq<nat>

    ghost predicate Valid()
      reads this
    {
      Distinct(order) && Forward(flink, order) && Backward(blink, order)
    }

    /** InitializeListHead. */
    constructor ()
      ensures Valid() && order == []
    {
      flink, blink, order := map[HEAD := HEAD], map[HEAD := HEAD], [];
    }

    /** Reads a node's forward link. */
    method Flink(node: nat, ghost k: int) returns (next: nat)
      requires Valid() && -1 <= k < |order| && At(order, k) == node
      ensures next == At(order, k + 1)
    {
      next := flink[node];
    }

    /** Reads a node's backward link. */
    method Blink(node: nat, ghost k: int) returns (previous: nat)
      requires Valid() && 0 <= k <= |order| && At(order, k) == node
      ensures previous == At(order, k - 1)
    {
      previous := blink[node];
    }

    /** RemoveEntryList. */
    method RemoveEntryList(node: nat, ghost k: nat)
      requires Valid()
      requires k < |order| && order[k] == node
      modifies this
      ensures Valid()
      ensures order == Cut(old(order), k) && |order| == |old(order)| - 1 && node !in order
    {
      assert At(order, k) == node;
      var before, after := blink[node], flink[node];
      RemoveForward(flink, order, k);
      RemoveBackward(blink, order, k);
      flink := flink[before := after];
      blink := blink[after := before];
      order := Cut(order, k);
    }

    /** InsertTailList(&anchor, &node): `node` goes just in front of `anchor`,
        which sits at position `k` of the ring (the head when `k` is the length). */
    method InsertTailList(anchor: nat, node: nat, ghost k: nat)
      requires Valid()
      requires k <= |order| && At(order, k) == anchor
      requires node != HEAD && node !in order
      modifies this
      ensures Valid()
      ensures order == With(old(order), k, node) && |order| == |old(order)| + 1
    {
      var before := blink[anchor];
      InsertForward(flink, order, k, node);
      InsertBackward(blink, order, k, node);
      flink := flink[node := anchor][before := node];
      blink := blink[node := before][anchor := node];
      order := With(order, k, node);
    }

    /** InsertHeadList on the list head. */
    method InsertHeadList(node: nat)
      requires Valid()
      requires node != HEAD && node !in order
      modifies this
      ensures Valid()
      ensures order == With(old(order), 0, node) && |order| == |old(order)| + 1
    {
      assert At(order, -1) == HEAD;
      var first := flink[HEAD];
      assert first == At(order, 0);
      InsertTailList(first, node, 0);
    }
  }

  /** Within one turn of the ring no node is met twice. */
  lemma RingDistinct(order: seq<nat>, i: int, j: int)
    requires Distinct(order)
    requires -1 <= i < j <= |order| && j - i <= |order|
    ensures At(order, i) != At(order, j)
  {
  }

  lemma RemoveForward(flink: map<nat, nat>, order: seq<nat>, k: nat)
    requires Distinct(order) && Forward(flink, order) && k < |order|
    ensures Forward(flink[At(order, k - 1) := At(order, k + 1)], Cut(order, k))
  {
    var s, f := Cut(order, k), flink[At(order, k - 1) := At(order, k + 1)];
    assert forall i :: -1 <= i <= |s| ==> At(s, i) == At(order, if i < k then i else i + 1);
    forall i | -1 <= i < |s| ensures At(s, i) in f && f[At(s, i)] == At(s, i + 1) {
      var o := if i < k then i else i + 1;
      if o < k - 1 { RingDistinct(order, o, k - 1); } else if o > k { RingDistinct(order, k - 1, o); }
    }
  }

  lemma RemoveBackward(blink: map<nat, nat>, order: seq<nat>, k: nat)
    requires Distinct(order) && Backward(blink, order) && k < |order|
    ensures Backward(blink[At(order, k + 1) := At(order, k - 1)], Cut(order, k))
  {
    var s, b := Cut(order, k), blink[At(order, k + 1) := At(order, k - 1)];
    assert forall i :: -1 <= i <= |s| ==> At(s, i) == At(order, if i < k then i else i + 1);
    forall i | 0 <= i <= |s| ensures At(s, i) in b && b[At(s, i)] == At(s, i - 1) {
      var o := if i < k then i else i + 1;
      if o < k { RingDistinct(order, o, k + 1); } else if o > k + 1 { RingDistinct(order, k + 1, o); }
    }
  }

  lemma InsertForward(flink: map<nat, nat>, order: seq<nat>, k: nat, node: nat)
    requires Distinct(order) && Forward(flink, order) && k <= |order|
    requires node != HEAD && node !in order
    ensures Forward(flink[node := At(order, k)][At(order, k - 1) := node], With(order, k, node))
  {
    var s, f := With(order, k, node), flink[node := At(order, k)][At(order, k - 1) := node];
    assert forall i :: -1 <= i <= |s| ==> At(s, i) == if i == k then node else At(order, if i < k then i else i - 1);
    forall i | -1 <= i < |s| ensures At(s, i) in f && f[At(s, i)] == At(s, i + 1) {
      var o := if i < k then i else i - 1;
      if o < k - 1 { RingDistinct(order, o, k - 1); } else if o >= k { RingDistinct(order, k - 1, o); }
    }
  }

  lemma InsertBackward(blink: map<nat, nat>, order: seq<nat>, k: nat, node: nat)
    requires Distinct(order) && Backward(blink, order) && k <= |order|
    requires node != HEAD && node !in order
    ensures Backward(blink[node := At(order, k - 1)][At(order, k) := node], With(order, k, node))
  {
    var s, b := With(order, k, node), blink[node := At(order, k - 1)][At(order, k) := node];
    assert forall i :: -1 <= i <= |s| ==> At(s, i) == if i == k then node else At(order, if i < k then i else i - 1);
    forall i | 0 <= i <= |s| ensures At(s, i) in b && b[At(s, i)] == At(s, i - 1) {
      if i != k {
        var o := if i < k then i else i - 1;
        if o < k { RingDistinct(order, o, k); } else if o > k { RingDistinct(order, k, o); }
      }
    }
  }
}

/** list.h: intrusive circular doubly linked lists, and what an interrupt sees of an
    insertion that is only partly done. */
module List {
  /** `entry` is the record the node is embedded in: what list_entry computes. */
  class ListHead<T> {
    var next: ListHead?<T>
    var prev: ListHead?<T>
    var entry: T

    constructor (e: T)
      ensures entry == e
    {
      entry, next, prev := e, null, null;
    }
  }

  /** The node after position i - 1: the i-th element, or the head once past the end. */
  function NodeAt<T>(head: ListHead<T>, s: seq<ListHead<T>>, i: nat): ListHead<T> {
    if i < |s| then s[i] else head
  }

  predicate Unique<T>(head: ListHead<T>, s: seq<ListHead<T>>) {
    head !in s && forall i, j :: 0 <= i < j < |s| ==> s[i] != s[j]
  }

  /** Following `next` from the head visits s and comes back. */
  ghost predicate Forward<T>(head: ListHead<T>, s: seq<ListHead<T>>)
    reads head`next, s`next
  {
    && Unique(head, s)
    && head.next == NodeAt(head, s, 0)
    && forall i {:trigger s[i]} :: 0 <= i < |s| ==> s[i].next == NodeAt(head, s, i + 1)
  }

  /** Following `prev` leads back the same way. */
  ghost predicate Backward<T>(head: ListHead<T>, s: seq<ListHead<T>>)
    reads head`prev, s`prev
  {
    && head.prev == (if s == [] then head else s[|s| - 1])
    && forall i {:trigger s[i]} :: 0 <= i < |s| ==> s[i].prev == PrevOf(head, s, i)
  }

  ghost predicate Ring<T>(head: ListHead<T>, s: seq<ListHead<T>>)
    reads head`next, s`next, head`prev, s`prev
  {
    Forward(head, s) && Backward(head, s)
  }

  function PrevOf<T>(head: ListHead<T>, s: seq<ListHead<T>>, k: nat): ListHead<T>
    requires k < |s|
  {
    if k == 0 then head else s[k - 1]
  }

  /** INIT_LIST_HEAD */
  method InitListHead<T>(list: ListHead<T>)
    modifies list`next, list`prev
    ensures Ring(list, [])
  {
    list.next := list;
    list.prev := list;
  }

  /** After the first k stores of __list_add(node, head, first of s). */
  ghost predicate Adding<T>(node: ListHead<T>, head: ListHead<T>, s: seq<ListHead<T>>, k: nat)
    reads node`next, node`prev, head`next, head`prev, s`next, s`prev
  {
    && node != head && node !in s && Forward(head, if k < 4 then s else [node] + s)
    && (if k == 0 then Backward(head, s) else BackwardBeyond(node, head, s))
    && (k >= 2 ==> node.next == NodeAt(head, s, 0)) && (k >= 3 ==> node.prev == head)
  }

  /** The backward links of s, the first of which already leads to node. */
  ghost predicate BackwardBeyond<T>(node: ListHead<T>, head: ListHead<T>, s: seq<ListHead<T>>)
    reads head`prev, s`prev
  {
    && NodeAt(head, s, 0).prev == node && (s != [] ==> head.prev == s[|s| - 1])
    && forall i {:trigger s[i]} :: 1 <= i < |s| ==> s[i].prev == s[i - 1]
  }

  /** The first three stores of __list_add: none of them is on a forward path. */
  method ListAddPrivate<T>(node: ListHead<T>, prev: ListHead<T>, next: ListHead<T>, k: nat,
                           ghost s: seq<ListHead<T>>)
    requires Adding(node, prev, s, k) && k < 3 && next == NodeAt(prev, s, 0)
    modifies node`next, node`prev, next`prev
    ensures Adding(node, prev, s, k + 1)
  {
    ForwardUnique(prev, s);
    NodesDiffer(prev, s);
    hide Forward, Unique;
    if k == 0 { next.prev := node; } else if k == 1 { node.next := next; } else { node.prev := prev; }
  }

  /** The last store: from here on the forward links lead through node. */
  method ListAddPublish<T>(node: ListHead<T>, prev: ListHead<T>, ghost s: seq<ListHead<T>>)
    requires Adding(node, prev, s, 3)
    modifies prev`next
    ensures Adding(node, prev, s, 4)
  {
    ForwardUnique(prev, s);
    UniqueCons(prev, node, s);
    hide Unique, BackwardBeyond;
    prev.next := node;
    ghost var r := [node] + s;
    forall i | 0 <= i < |r| ensures r[i].next == NodeAt(prev, r, i + 1) {
      if i > 0 { assert r[i] == s[i - 1] && old(s[i - 1].next) == NodeAt(prev, s, i); }
    }
  }

  /** One store of __list_add(node, prev, next), with prev the head. */
  method ListAddStore<T>(node: ListHead<T>, prev: ListHead<T>, next: ListHead<T>, k: nat,
                         ghost s: seq<ListHead<T>>)
    requires Adding(node, prev, s, k) && k < 4 && next == NodeAt(prev, s, 0)
    modifies node`next, node`prev, prev`next, next`prev
    ensures Adding(node, prev, s, k + 1)
  {
    hide Adding;
    if k < 3 { ListAddPrivate(node, prev, next, k, s); } else { ListAddPublish(node, prev, s); }
  }

  /** All four stores make a ring. */
  lemma AddingDone<T>(node: ListHead<T>, head: ListHead<T>, s: seq<ListHead<T>>)
    requires Adding(node, head, s, 4)
    ensures Ring(head, [node] + s)
  {
    var r := [node] + s;
    forall i | 0 <= i < |r| ensures r[i].prev == PrevOf(head, r, i) {
      if i > 0 { assert r[i] == s[i - 1]; }
    }
  }

  /** __list_add(node, prev, next) with prev the head, cut off after its first `writes` stores. */
  method ListAddWrites<T>(node: ListHead<T>, prev: ListHead<T>, next: ListHead<T>, writes: nat,
                          ghost s: seq<ListHead<T>>)
    requires Ring(prev, s) && next == NodeAt(prev, s, 0) && node != prev && node !in s
    modifies node`next, node`prev, prev`next, next`prev
    ensures Forward(prev, if writes < 4 then s else [node] + s)
    ensures writes >= 4 ==> Ring(prev, [node] + s)
  {
    hide Forward, Backward, BackwardBeyond;
    if writes >= 1 { ListAddStore(node, prev, next, 0, s); }
    if writes >= 2 { ListAddStore(node, prev, next, 1, s); }
    if writes >= 3 { ListAddStore(node, prev, next, 2, s); }
    if writes >= 4 {
      ListAddStore(node, prev, next, 3, s);
      AddingDone(node, prev, s);
    }
  }

  lemma UniqueCons<T>(head: ListHead<T>, node: ListHead<T>, s: seq<ListHead<T>>)
    requires Forward(head, s) && node != head && node !in s
    ensures Unique(head, [node] + s)
  {
  }

  /** list_add: insertion right after the head. */
  method ListAdd<T>(node: ListHead<T>, head: ListHead<T>, ghost s: seq<ListHead<T>>)
    requires Ring(head, s) && node != head && node !in s
    modifies node`next, node`prev, head`next, NodeAt(head, s, 0)`prev
    ensures Ring(head, [node] + s)
  {
    ListAddWrites(node, head, head.next, 4, s);
  }

  function Removed<T>(s: seq<T>, k: nat): seq<T>
    requires k < |s|
  {
    s[..k] + s[k + 1..]
  }

  lemma RemovedAt<T>(s: seq<T>, k: nat, i: nat)
    requires k < |s| && i < |s| - 1
    ensures |Removed(s, k)| == |s| - 1 && Removed(s, k)[i] == s[if i < k then i else i + 1]
    ensures i > 0 ==> Removed(s, k)[i - 1] == s[if i <= k then i - 1 else i]
    ensures i + 1 < |s| - 1 ==> Removed(s, k)[i + 1] == s[if i + 1 < k then i + 1 else i + 2]
  {
  }

  lemma RemovedMembers<T>(s: seq<T>, k: nat)
    requires k < |s|
    ensures forall x :: x in Removed(s, k) ==> x in s
  {
  }

  lemma RemovedNodes<T>(head: ListHead<T>, s: seq<ListHead<T>>, k: nat)
    requires k < |s| && Unique(head, s)
    ensures Unique(head, Removed(s, k)) && s[k] !in Removed(s, k)
    ensures |Removed(s, k)| == |s| - 1
    ensures forall i :: 0 <= i < |s| - 1 ==> Removed(s, k)[i] == if i < k then s[i] else s[i + 1]
  {
  }

  lemma ForwardUnique<T>(head: ListHead<T>, s: seq<ListHead<T>>)
    requires Forward(head, s)
    ensures Unique(head, s)
  {
  }

  lemma NodesDiffer<T>(head: ListHead<T>, s: seq<ListHead<T>>)
    requires Unique(head, s)
    ensures forall i, j :: 0 <= i < |s| && 0 <= j < |s| && i != j ==> s[i] != s[j]
    ensures forall i :: 0 <= i < |s| ==> s[i] != head
  {
  }

  /** The first store of __list_del takes node k out of the backward links ... */
  method UnlinkPrev<T>(prev: ListHead<T>, next: ListHead<T>, head: ListHead<T>, ghost s: seq<ListHead<T>>,
                       ghost k: nat)
    requires Unique(head, s) && Backward(head, s)
    requires k < |s| && prev == PrevOf(head, s, k) && next == NodeAt(head, s, k + 1)
    modifies next`prev
    ensures Backward(head, Removed(s, k))
  {
    hide Removed, Unique;
    ghost var r := Removed(s, k);
    RemovedNodes(head, s, k);
    NodesDiffer(head, s);
    assert forall j :: 0 <= j < |s| && j != k + 1 ==> s[j] != next;
    next.prev := prev;
    assert |r| == |s| - 1;
    forall i | 0 <= i < |r| ensures r[i].prev == PrevOf(head, r, i) {
      var j := if i < k then i else i + 1;
      RemovedAt(s, k, i);
      assert old(s[j].prev) == PrevOf(head, s, j);
    }
    assert head.prev == (if r == [] then head else r[|r| - 1]);
  }

  /** ... and the second out of the forward ones. */
  method UnlinkNext<T>(prev: ListHead<T>, next: ListHead<T>, head: ListHead<T>, ghost s: seq<ListHead<T>>,
                       ghost k: nat)
    requires Forward(head, s) && k < |s| && prev == PrevOf(head, s, k) && next == NodeAt(head, s, k + 1)
    modifies prev`next
    ensures Forward(head, Removed(s, k))
  {
    hide Removed, Unique;
    ghost var r := Removed(s, k);
    RemovedNodes(head, s, k);
    NodesDiffer(head, s);
    prev.next := next;
    forall i | 0 <= i < |r| ensures r[i].next == NodeAt(head, r, i + 1) {
      var j := if i < k then i else i + 1;
      RemovedAt(s, k, i);
      assert old(s[j].next) == NodeAt(head, s, j + 1);
    }
    assert head.next == NodeAt(head, r, 0);
  }

  /** __list_del */
  method ListUnlink<T>(prev: ListHead<T>, next: ListHead<T>, head: ListHead<T>, ghost s: seq<ListHead<T>>,
                       ghost k: nat)
    requires Ring(head, s) && k < |s| && prev == PrevOf(head, s, k) && next == NodeAt(head, s, k + 1)
    modifies prev`next, next`prev
    ensures Ring(head, Removed(s, k))
  {
    hide Backward, Removed, Unique;
    RemovedMembers(s, k);
    assert forall x :: x in s ==> allocated(x);
    assert forall x :: x in Removed(s, k) ==> allocated(x);
    UnlinkPrev(prev, next, head, s, k);
    assert Backward(head, Removed(s, k));
    UnlinkNext(prev, next, head, s, k);
    assert Forward(head, Removed(s, k));
    assert Backward(head, Removed(s, k));
  }

  lemma RingLinks<T>(head: ListHead<T>, s: seq<ListHead<T>>, k: nat)
    requires Ring(head, s) && k < |s|
    ensures s[k].prev == PrevOf(head, s, k) && s[k].next == NodeAt(head, s, k + 1)
    ensures s[k] != head && s[k] !in Removed(s, k)
  {
    RemovedNodes(head, s, k);
  }

  /** list_del: the node's own links are poisoned. */
  method ListDel<T>(node: ListHead<T>, head: ListHead<T>, ghost s: seq<ListHead<T>>, ghost k: nat)
    requires Ring(head, s) && k < |s| && s[k] == node
    modifies node`next, node`prev, PrevOf(head, s, k)`next, NodeAt(head, s, k + 1)`prev
    ensures Ring(head, Removed(s, k))
    ensures node.next == null && node.prev == null
  {
    hide Ring, Forward, Removed, Unique;
    RingLinks(head, s, k);
    ListUnlink(node.prev, node.next, head, s, k);
    node.next := null;
    node.prev := null;
  }

  /** list_for_each: the nodes it visits, in order. It needs the forward links only. */
  method ListForEach<T>(head: ListHead<T>, ghost s: seq<ListHead<T>>) returns (seen: seq<ListHead<T>>)
    requires Forward(head, s)
    ensures seen == s
  {
    seen := [];
    var pos := head.next;
    while pos != head
      invariant |seen| <= |s| && seen == s[..|seen|]
      invariant pos == NodeAt(head, s, |seen|)
      decreases |s| - |seen|
    {
      seen := seen + [pos];
      pos := pos.next;
    }
  }

  /** An interrupt after any prefix of the four stores traverses exactly the old list or
      exactly the new one. */
  method ListAddInterrupted<T>(node: ListHead<T>, head: ListHead<T>, writes: nat, ghost s: seq<ListHead<T>>)
    returns (seen: seq<ListHead<T>>)
    requires Ring(head, s) && node != head && node !in s
    modifies node`next, node`prev, head`next, NodeAt(head, s, 0)`prev
    ensures seen == if writes < 4 then s else [node] + s
  {
    ListAddWrites(node, head, head.next, writes, s);
    seen := ListForEach(head, if writes < 4 then s else [node] + s);
  }
}

/**
 * The tail queue of queue.h over heap nodes. A back link is the address of the
 * slot that points at the node: the head's first-slot or another node's next-slot.
 */
module TailQueues {

  /** Where a pointer to a node is stored. */
  datatype Slot = Nowhere | HeadSlot(q: TailQ) | NextSlot(e: Client)

  /** A connection record with its queue links. `live` turns false when the record is freed. */
  class Client {
    var connfd: int
    var fd: int
    var threadId: int
    var taskFinished: bool
    var next: Client?
    var prev: Slot
    var live: bool

    constructor (connfd: int, fd: int)
      ensures this.connfd == connfd && this.fd == fd && !taskFinished && live
    {
      this.connfd, this.fd, taskFinished, live := connfd, fd, false, true;
      threadId, next, prev := 0, null, Nowhere;
    }
  }

  class TailQ {
    var first: Client?
    var last: Slot

    constructor ()
      ensures Links(this, [])
    {
      first, last := null, Nowhere;
      new;
      Init(this);
    }
  }

  /** The node at position `i`, or null past the end. */
  function NodeAt(s: seq<Client>, i: nat): (r: Client?)
    ensures r == null <==> |s| <= i
  {
    if i < |s| then s[i] else null
  }

  /** The slot that points at position `i`. */
  function SlotOf(q: TailQ, s: seq<Client>, i: nat): Slot
    requires i <= |s|
  {
    if i == 0 then HeadSlot(q) else NextSlot(s[i - 1])
  }

  /**
   * The memory of `q` and its nodes represents `s`: a forward chain through `s` that ends in null, each back
   * link the slot that points at the node, and the head's `last` the slot holding the final null.
   */
  ghost predicate Links(q: TailQ, s: seq<Client>)
    reads q, s
  {
    && q.first == NodeAt(s, 0)
    && q.last == SlotOf(q, s, |s|)
    && (forall i {:trigger s[i].next} :: 0 <= i < |s| ==> s[i].next == NodeAt(s, i + 1))
    && (forall i {:trigger s[i].prev} :: 0 <= i < |s| ==> s[i].prev == SlotOf(q, s, i))
  }

  ghost predicate NoRepeats(s: seq<Client>) {
    forall i, j :: 0 <= i < j < |s| ==> s[i] != s[j]
  }

  /** What a slot holds. */
  function Deref(slot: Slot): Client?
    reads match slot case HeadSlot(q) => {q as object} case NextSlot(e) => {e} case Nowhere => {}
  {
    match slot case HeadSlot(q) => q.first case NextSlot(e) => e.next case Nowhere => null
  }

  /** The word after a slot, which the macros read as a head's `tqh_last`: for a node it is its back link. */
  function LastOf(slot: Slot): Slot
    reads match slot case HeadSlot(q) => {q as object} case NextSlot(e) => {e} case Nowhere => {}
  {
    match slot case HeadSlot(q) => q.last case NextSlot(e) => e.prev case Nowhere => Nowhere
  }

  /** A forward chain that ends in null cannot revisit a node, so traversal always ends. */
  lemma {:induction false} ChainIsDistinct(s: seq<Client>, i: nat, j: nat)
    requires forall k {:trigger s[k].next} :: 0 <= k < |s| ==> s[k].next == NodeAt(s, k + 1)
    requires i < j < |s|
    ensures s[i] != s[j]
    decreases |s| - j
  {
    if s[i] == s[j] {
      assert NodeAt(s, i + 1) == s[i].next == s[j].next == NodeAt(s, j + 1);
      if j + 1 < |s| {
        ChainIsDistinct(s, i + 1, j + 1);
      }
    }
  }

  /** So the nodes of a queue are distinct. */
  lemma {:induction false} LinksDistinct(q: TailQ, s: seq<Client>)
    requires Links(q, s)
    ensures NoRepeats(s)
  {
    forall i, j | 0 <= i < j < |s| ensures s[i] != s[j] {
      ChainIsDistinct(s, i, j);
    }
  }

  lemma {:induction false} OnlyAt(q: TailQ, s: seq<Client>, k: nat)
    requires Links(q, s) && k < |s|
    ensures forall i :: 0 <= i < |s| && i != k ==> s[i] != s[k]
  {
    LinksDistinct(q, s);
  }

  method Init(q: TailQ)
    modifies q
    ensures Links(q, [])
  {
    q.first := null;
    q.last := HeadSlot(q);
  }

  method InsertHead(q: TailQ, e: Client, ghost s: seq<Client>)
    requires Links(q, s) && e !in s
    modifies q, e`next, e`prev, s`prev
    ensures Links(q, [e] + s)
  {
    LinksDistinct(q, s);
    e.next := q.first;
    if e.next != null {
      q.first.prev := NextSlot(e);
    } else {
      q.last := NextSlot(e);
    }
    q.first := e;
    e.prev := HeadSlot(q);
    ghost var t := [e] + s;
    forall i | 0 <= i < |t| ensures t[i].next == NodeAt(t, i + 1) && t[i].prev == SlotOf(q, t, i) {
      if i > 0 {
        assert t[i] == s[i - 1];
      }
    }
  }

  method InsertTail(q: TailQ, e: Client, ghost s: seq<Client>)
    requires Links(q, s) && e !in s
    modifies q, e`next, e`prev, s`next
    ensures Links(q, s + [e])
  {
    LinksDistinct(q, s);
    e.next := null;
    e.prev := q.last;
    match q.last {
      case HeadSlot(h) => h.first := e;
      case NextSlot(n) => n.next := e;
    }
    q.last := NextSlot(e);
  }

  /** Insertion after the node at position `k`. */
  method InsertAfter(q: TailQ, listElm: Client, e: Client, ghost s: seq<Client>, ghost k: nat)
    requires Links(q, s) && e !in s && k < |s| && s[k] == listElm
    modifies q, e`next, e`prev, s`next, s`prev
    ensures Links(q, s[..k + 1] + [e] + s[k + 1..])
  {
    LinksDistinct(q, s);
    e.next := listElm.next;
    if e.next != null {
      e.next.prev := NextSlot(e);
    } else {
      q.last := NextSlot(e);
    }
    listElm.next := e;
    e.prev := NextSlot(listElm);
    ghost var t := s[..k + 1] + [e] + s[k + 1..];
    Inserted(s, e, k + 1);
    forall i | 0 <= i < |t| ensures t[i].next == NodeAt(t, i + 1) && t[i].prev == SlotOf(q, t, i) {
      if i != k + 1 {
        ghost var j := if i <= k then i else i - 1;
        assert t[i] == s[j] && old(s[j].next) == NodeAt(s, j + 1) && old(s[j].prev) == SlotOf(q, s, j);
      }
    }
  }

  method InsertBefore(ghost q: TailQ, listElm: Client, e: Client, ghost s: seq<Client>, ghost k: nat)
    requires Links(q, s) && e !in s && k < |s| && s[k] == listElm
    modifies q`first, e`next, e`prev, s`next, s`prev
    ensures Links(q, s[..k] + [e] + s[k..])
  {
    LinksDistinct(q, s);
    ghost var t := s[..k] + [e] + s[k..];
    Inserted(s, e, k);
    assert listElm.prev == SlotOf(q, s, k);
    e.prev := listElm.prev;
    e.next := listElm;
    match listElm.prev {
      case HeadSlot(h) => h.first := e;
      case NextSlot(n) => n.next := e;
    }
    listElm.prev := NextSlot(e);
    forall i | 0 <= i < |t| ensures t[i].next == NodeAt(t, i + 1) && t[i].prev == SlotOf(q, t, i) {
      if i < k {
        assert t[i] == s[i] && old(s[i].next) == NodeAt(s, i + 1) && old(s[i].prev) == SlotOf(q, s, i);
      } else if i > k {
        ghost var j := i - 1;
        assert t[i] == s[j] && old(s[j].next) == NodeAt(s, j + 1) && old(s[j].prev) == SlotOf(q, s, j);
      }
    }
  }

  lemma {:induction false} Inserted(s: seq<Client>, e: Client, k: nat)
    requires k <= |s| && e !in s && NoRepeats(s)
    ensures var t := s[..k] + [e] + s[k..];
            && (forall i :: 0 <= i < |t| ==> t[i] == if i < k then s[i] else if i == k then e else s[i - 1])
            && NoRepeats(t)
  {
  }

  lemma {:induction false} Removed(s: seq<Client>, k: nat)
    requires k < |s|
    ensures var t := s[..k] + s[k + 1..];
            |t| == |s| - 1 && forall i :: 0 <= i < |t| ==> t[i] == if i < k then s[i] else s[i + 1]
  {
  }

  /** Removal at any position. The removed node's own links are left as they were. */
  method Remove(q: TailQ, e: Client, ghost s: seq<Client>, ghost k: nat)
    requires Links(q, s) && k < |s| && s[k] == e
    modifies q, s`next, s`prev
    ensures Links(q, s[..k] + s[k + 1..])
    ensures e.next == old(e.next) && e.prev == old(e.prev)
  {
    OnlyAt(q, s, k);
    OnlyAt(q, s, if k > 0 then k - 1 else k);
    OnlyAt(q, s, if k + 1 < |s| then k + 1 else k);
    assert e.prev == SlotOf(q, s, k) && e.next == NodeAt(s, k + 1);
    if e.next != null {
      e.next.prev := e.prev;
    } else {
      q.last := e.prev;
    }
    match e.prev {
      case HeadSlot(h) => h.first := e.next;
      case NextSlot(n) => n.next := e.next;
    }
    ghost var t := s[..k] + s[k + 1..];
    Removed(s, k);
    assert q.first == NodeAt(t, 0) && q.last == SlotOf(q, t, |t|);
    forall i | 0 <= i < |t| ensures t[i].next == NodeAt(t, i + 1) && t[i].prev == SlotOf(q, t, i) {
      ghost var j := if i < k then i else i + 1;
      assert t[i] == s[j] && old(s[j].next) == NodeAt(s, j + 1) && old(s[j].prev) == SlotOf(q, s, j);
    }
  }

  method Concat(q1: TailQ, q2: TailQ, ghost s1: seq<Client>, ghost s2: seq<Client>)
    requires q1 != q2 && Links(q1, s1) && Links(q2, s2)
    requires forall e :: e in s1 ==> e !in s2
    modifies q1, q2, s1`next, s2`prev
    ensures Links(q1, s1 + s2) && Links(q2, [])
  {
    LinksDistinct(q1, s1);
    LinksDistinct(q2, s2);
    if q2.first != null {
      match q1.last {
        case HeadSlot(h) => h.first := q2.first;
        case NextSlot(n) => n.next := q2.first;
      }
      q2.first.prev := q1.last;
      q1.last := q2.last;
      Init(q2);
      ghost var t := s1 + s2;
      Joined(s1, s2);
      forall i | 0 <= i < |t| ensures t[i].next == NodeAt(t, i + 1) && t[i].prev == SlotOf(q1, t, i) {
        if i < |s1| {
          assert t[i] == s1[i] && old(s1[i].next) == NodeAt(s1, i + 1) && old(s1[i].prev) == SlotOf(q1, s1, i);
        } else {
          ghost var j := i - |s1|;
          assert t[i] == s2[j] && old(s2[j].next) == NodeAt(s2, j + 1) && old(s2[j].prev) == SlotOf(q2, s2, j);
        }
      }
    } else {
      assert s1 + s2 == s1;
    }
  }

  lemma {:induction false} Joined(s1: seq<Client>, s2: seq<Client>)
    requires NoRepeats(s1) && NoRepeats(s2)
    requires forall e :: e in s1 ==> e !in s2
    ensures var t := s1 + s2;
            && (forall i :: 0 <= i < |t| ==> t[i] == if i < |s1| then s1[i] else s2[i - |s1|])
            && NoRepeats(t)
  {
    var t := s1 + s2;
    forall i, j | 0 <= i < j < |t| ensures t[i] != t[j] {
      if i < |s1| <= j {
        assert s1[i] in s1 && s2[j - |s1|] in s2;
      }
    }
  }

  method Swap(q1: TailQ, q2: TailQ, ghost s1: seq<Client>, ghost s2: seq<Client>)
    requires q1 != q2 && Links(q1, s1) && Links(q2, s2)
    requires forall e :: e in s1 ==> e !in s2
    modifies q1, q2, s1`prev, s2`prev
    ensures Links(q1, s2) && Links(q2, s1)
  {
    LinksDistinct(q1, s1);
    LinksDistinct(q2, s2);
    var swapFirst, swapLast := q1.first, q1.last;
    q1.first := q2.first;
    q1.last := q2.last;
    q2.first := swapFirst;
    q2.last := swapLast;
    swapFirst := q1.first;
    if swapFirst != null {
      swapFirst.prev := HeadSlot(q1);
    } else {
      q1.last := HeadSlot(q1);
    }
    swapFirst := q2.first;
    if swapFirst != null {
      swapFirst.prev := HeadSlot(q2);
    } else {
      q2.last := HeadSlot(q2);
    }
    forall i | 0 <= i < |s2| ensures s2[i].next == NodeAt(s2, i + 1) && s2[i].prev == SlotOf(q1, s2, i) {
      assert old(s2[i].next) == NodeAt(s2, i + 1) && old(s2[i].prev) == SlotOf(q2, s2, i);
    }
    forall i | 0 <= i < |s1| ensures s1[i].next == NodeAt(s1, i + 1) && s1[i].prev == SlotOf(q2, s1, i) {
      assert old(s1[i].next) == NodeAt(s1, i + 1) && old(s1[i].prev) == SlotOf(q1, s1, i);
    }
  }

  // ---------------------------------------------------------------- reading the links as a head

  /** The last node: two loads from the head, whatever the length. */
  method Last(q: TailQ, ghost s: seq<Client>) returns (e: Client?)
    requires Links(q, s)
    ensures e == if s == [] then null else s[|s| - 1]
  {
    e := Deref(LastOf(q.last));
  }

  /** The node before the one at position `k`, or null at the front. */
  method Prev(q: TailQ, e: Client, ghost s: seq<Client>, ghost k: nat) returns (p: Client?)
    requires Links(q, s) && k < |s| && s[k] == e
    ensures p == if k == 0 then null else s[k - 1]
  {
    p := Deref(LastOf(e.prev));
  }

  method Foreach(q: TailQ, ghost s: seq<Client>) returns (visited: seq<Client>)
    requires Links(q, s)
    ensures visited == s
  {
    visited := [];
    var e := q.first;
    while e != null
      invariant |visited| <= |s| && visited == s[..|visited|] && e == NodeAt(s, |visited|)
      decreases |s| - |visited|
    {
      visited := visited + [e];
      e := e.next;
    }
  }

  /** The reverse loop ends and visits exactly the reverse of the forward order. */
  method ForeachReverse(q: TailQ, ghost s: seq<Client>) returns (visited: seq<Client>)
    requires Links(q, s)
    ensures |visited| == |s| && forall i :: 0 <= i < |s| ==> visited[i] == s[|s| - 1 - i]
  {
    visited := [];
    var e := Last(q, s);
    while e != null
      invariant |visited| <= |s| && e == (if |visited| == |s| then null else s[|s| - 1 - |visited|])
      invariant forall i :: 0 <= i < |visited| ==> visited[i] == s[|s| - 1 - i]
      decreases |s| - |visited|
    {
      visited := visited + [e];
      e := Prev(q, e, s, |s| - |visited|);
    }
  }

  // ---------------------------------------------------------------- what the memory determines

  /** The represented sequence is a function of the memory. */
  lemma {:induction false} LinksUnique(q: TailQ, s1: seq<Client>, s2: seq<Client>)
    requires Links(q, s1) && Links(q, s2)
    ensures s1 == s2
  {
    if |s1| <= |s2| {
      SamePrefix(q, s1, s2, |s1|);
    } else {
      SamePrefix(q, s2, s1, |s2|);
    }
  }

  lemma {:induction false} SamePrefix(q: TailQ, s1: seq<Client>, s2: seq<Client>, n: nat)
    requires Links(q, s1) && Links(q, s2) && n <= |s1| <= |s2|
    ensures s1[..n] == s2[..n] && NodeAt(s1, n) == NodeAt(s2, n)
  {
    if n > 0 {
      SamePrefix(q, s1, s2, n - 1);
      assert s1[n - 1].next == NodeAt(s1, n) && s2[n - 1].next == NodeAt(s2, n) && s1[n - 1] == s2[n - 1];
      assert s1[..n] == s1[..n - 1] + [s1[n - 1]] && s2[..n] == s2[..n - 1] + [s2[n - 1]];
    }
  }
}

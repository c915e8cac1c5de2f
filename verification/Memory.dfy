/**
 * The kernel heap. Freeing or reading memory that is not allocated does not get
 * stuck: it raises `fault`, so that its absence is something to prove.
 */
module Memory {

  type byte = b: int | 0 <= b < 0x100
  type Bytes = seq<byte>

  const NEWLINE: byte := 10

  /** A zero-size request is answered by one shared non-null pointer that is never a block. */
  datatype Ptr = Null | ZeroSize | At(addr: nat)

  datatype Heap = Heap(blocks: map<nat, Bytes>, fault: bool)

  /** A block of size |content| at address `a`, filled at once by the copy that follows every allocation. */
  function Kmalloc(h: Heap, a: nat, content: Bytes): (Heap, Ptr) {
    if content == [] then (h, ZeroSize) else (h.(blocks := h.blocks[a := content]), At(a))
  }

  function Kfree(h: Heap, p: Ptr): Heap {
    match p
    case At(a) => if a in h.blocks then h.(blocks := h.blocks - {a}) else h.(fault := true)
    case _ => h
  }

  /** Whether `[from, to)` of the block at `p` may be read. */
  predicate Readable(h: Heap, p: Ptr, from: nat, to: nat) {
    match p
    case At(a) => a in h.blocks && from <= to <= |h.blocks[a]|
    case _ => from == to
  }

  function Load(h: Heap, p: Ptr, from: nat, to: nat): Bytes {
    if p.At? && Readable(h, p, from, to) then h.blocks[p.addr][from..to] else []
  }

  /** Reading leaves the heap alone except for raising the fault on a bad access. */
  function Touch(h: Heap, p: Ptr, from: nat, to: nat): Heap {
    if Readable(h, p, from, to) then h else h.(fault := true)
  }

  /** Exactly the freeing of a block that is not allocated is a fault; otherwise that block alone goes. */
  lemma {:induction false} KfreeMeaning(h: Heap, p: Ptr)
    ensures Kfree(h, p).fault <==> h.fault || (p.At? && p.addr !in h.blocks)
    ensures Kfree(h, p).blocks == if p.At? then h.blocks - {p.addr} else h.blocks
  {
  }

  /** Exactly a read outside an allocated block is a fault; it changes nothing else. */
  lemma {:induction false} TouchMeaning(h: Heap, p: Ptr, from: nat, to: nat)
    ensures Touch(h, p, from, to).fault <==>
              h.fault || (if p.At? then p.addr !in h.blocks || !(from <= to <= |h.blocks[p.addr]|) else from != to)
    ensures Touch(h, p, from, to).blocks == h.blocks
  {
  }

  /** The heap after freeing the pointers `ps` one after the other. */
  function FreeAll(h: Heap, ps: seq<Ptr>): Heap {
    if ps == [] then h else Kfree(FreeAll(h, ps[..|ps| - 1]), ps[|ps| - 1])
  }

  /** Every block among `ps` is allocated and occurs once. */
  ghost predicate FreeableOnce(h: Heap, ps: multiset<Ptr>) {
    forall a: nat :: At(a) in ps ==> ps[At(a)] == 1 && a in h.blocks
  }

  ghost predicate Removes(h: Heap, h': Heap, ps: multiset<Ptr>) {
    && h'.fault == h.fault
    && (forall a: nat :: a in h'.blocks <==> a in h.blocks && At(a) !in ps)
    && (forall a: nat :: a in h'.blocks ==> h'.blocks[a] == h.blocks[a])
  }

  /** Freeing distinct allocated blocks, in any order, removes exactly those and raises no fault. */
  lemma {:induction false} FreeAllRemoves(h: Heap, ps: seq<Ptr>)
    requires FreeableOnce(h, multiset(ps))
    ensures Removes(h, FreeAll(h, ps), multiset(ps))
    ensures FreeAll(h, ps).fault == h.fault
    ensures forall a: nat :: a in FreeAll(h, ps).blocks <==> a in h.blocks && At(a) !in ps
  {
    if ps != [] {
      var init, last := ps[..|ps| - 1], ps[|ps| - 1];
      assert ps == init + [last];
      assert multiset(ps) == multiset(init) + multiset{last};
      assert FreeableOnce(h, multiset(init)) by {
        forall a: nat | At(a) in multiset(init) ensures multiset(init)[At(a)] == 1 && a in h.blocks {
          assert At(a) in multiset(ps);
        }
      }
      FreeAllRemoves(h, init);
      assert last.At? ==> last in multiset(ps);
    }
  }

  /** Two lists with the same blocks leave the same heap, in whatever order and with whatever nulls. */
  lemma {:induction false} FreeAllSame(h: Heap, ps: seq<Ptr>, qs: seq<Ptr>)
    requires FreeableOnce(h, multiset(ps))
    requires forall a: nat :: multiset(ps)[At(a)] == multiset(qs)[At(a)]
    ensures FreeAll(h, ps) == FreeAll(h, qs)
  {
    FreeAllRemoves(h, ps);
    FreeAllRemoves(h, qs);
    assert FreeAll(h, ps).blocks == FreeAll(h, qs).blocks;
  }
}

/** The ring of entries (aesd-circular-buffer.c), over an array of any capacity. */
module CircularBuffers {
  import opened Sequences
  import opened Positions
  import opened Memory

  datatype Entry = Entry(buffptr: Ptr, size: nat)

  function EntrySizes(es: seq<Entry>): (r: seq<nat>)
    ensures |r| == |es| && forall i :: 0 <= i < |es| ==> r[i] == es[i].size
  {
    seq(|es|, i requires 0 <= i < |es| => es[i].size)
  }

  function EntryPtrs(es: seq<Entry>): (r: seq<Ptr>)
    ensures |r| == |es| && forall i :: 0 <= i < |es| ==> r[i] == es[i].buffptr
  {
    seq(|es|, i requires 0 <= i < |es| => es[i].buffptr)
  }

  /** The pointer that leaves the window when one more entry is added, or null. */
  function Evicted(added: seq<Entry>, capacity: nat): Ptr
    requires capacity >= 1
  {
    if |added| < capacity then Null else added[|added| - capacity].buffptr
  }

  /** That is the oldest entry of a full window, which the new one pushes out. */
  lemma {:induction false} EvictedLeaves(added: seq<Entry>, capacity: nat, e: Entry)
    requires capacity >= 1
    ensures var live, live' := Window(added, capacity), Window(added + [e], capacity);
            if |live| == capacity then live' == live[1..] + [e] && Evicted(added, capacity) == live[0].buffptr
            else live' == live + [e] && Evicted(added, capacity) == Null
  {
    WindowAppend(added, e, capacity);
  }

  /** Physical index of the `i`-th entry from `out`. */
  function Slot(out: nat, i: nat, capacity: nat): nat {
    if out + i < capacity then out + i else out + i - capacity
  }

  function NextPtr(ptr: nat, capacity: nat): nat {
    if ptr + 1 >= capacity then 0 else ptr + 1
  }

  /** The slots from `out` on, wrapping, hold `live`. */
  ghost predicate Holds(phys: seq<Entry>, out: nat, live: seq<Entry>) {
    forall i :: 0 <= i < |live| ==> Slot(out, i, |phys|) < |phys| && phys[Slot(out, i, |phys|)] == live[i]
  }

  lemma {:induction false} HoldsGrow(phys: seq<Entry>, live: seq<Entry>, e: Entry)
    requires Holds(phys, 0, live) && |live| < |phys|
    ensures Holds(phys[|live| := e], 0, live + [e])
  {
  }

  lemma {:induction false} HoldsRotate(phys: seq<Entry>, out: nat, live: seq<Entry>, e: Entry)
    requires Holds(phys, out, live) && |live| == |phys| && out < |phys|
    ensures Holds(phys[out := e], NextPtr(out, |phys|), live[1..] + [e])
  {
    var out', live' := NextPtr(out, |phys|), live[1..] + [e];
    forall i | 0 <= i < |live'| ensures phys[out := e][Slot(out', i, |phys|)] == live'[i] {
      if i < |live| - 1 {
        assert Slot(out', i, |phys|) == Slot(out, i + 1, |phys|);
      }
    }
  }

  lemma {:induction false} PermutedHalves(p: seq<Ptr>, q: seq<Ptr>, j: nat, k: nat)
    requires j <= |p| && k <= |q| && p[j..] == q[..k] && p[..j] == q[k..]
    ensures multiset(p) == multiset(q)
  {
    assert p == p[..j] + p[j..] && q == q[..k] + q[k..];
  }

  lemma {:induction false} RotationKeepsPtrs(phys: seq<Entry>, out: nat, live: seq<Entry>)
    requires Holds(phys, out, live) && |live| == |phys| && out < |phys|
    ensures multiset(EntryPtrs(phys)) == multiset(EntryPtrs(live))
  {
    var p, q, k := EntryPtrs(phys), EntryPtrs(live), |phys| - out;
    assert p[out..] == q[..k] by {
      forall i | 0 <= i < k ensures p[out + i] == q[i] { assert phys[Slot(out, i, |phys|)] == live[i]; }
    }
    assert p[..out] == q[k..] by {
      forall i | 0 <= i < out ensures p[i] == q[k + i] { assert phys[Slot(out, k + i, |phys|)] == live[k + i]; }
    }
    PermutedHalves(p, q, out, k);
  }

  lemma {:induction false} ModStep(n: nat, capacity: nat)
    requires capacity >= 1
    ensures (n + 1) % capacity == NextPtr(n % capacity, capacity)
  {
    var q, r := n / capacity, n % capacity;
    if r + 1 < capacity {
      DivModUnique(n + 1, capacity, q, r + 1);
    } else {
      assert (q + 1) * capacity == q * capacity + capacity;
      DivModUnique(n + 1, capacity, q + 1, 0);
    }
  }

  lemma {:induction false} DivModUnique(n: nat, d: nat, q: nat, r: nat)
    requires d >= 1 && r < d && n == q * d + r
    ensures n % d == r
  {
    var q', r' := n / d, n % d;
    assert n == q' * d + r';
    if q' < q {
      MulGap(q', q, d);
    } else if q < q' {
      MulGap(q, q', d);
    }
  }

  /** Where `in_offs` stands after `n` adds. */
  function InOffs(n: nat, capacity: nat): (r: nat)
    requires capacity >= 1
    ensures r < capacity && (n < capacity ==> r == n)
  {
    if n == 0 then 0 else NextPtr(InOffs(n - 1, capacity), capacity)
  }

  lemma {:induction false} InOffsIsModulo(n: nat, capacity: nat)
    requires capacity >= 1
    ensures InOffs(n, capacity) == n % capacity
  {
    if n == 0 {
      DivModUnique(0, capacity, 0, 0);
    } else {
      InOffsIsModulo(n - 1, capacity);
      ModStep(n - 1, capacity);
    }
  }

  lemma {:induction false} SlotIsModulo(out: nat, i: nat, capacity: nat)
    requires out < capacity && i < capacity
    ensures Slot(out, i, capacity) == (out + i) % capacity
  {
    DivModUnique(out + i, capacity, if out + i < capacity then 0 else 1, Slot(out, i, capacity));
  }

  lemma {:induction false} MulGap(a: nat, b: nat, d: nat)
    requires a < b
    ensures a * d + d <= b * d
  {
    assert b * d == a * d + d + (b - a - 1) * d;
    assert (b - a - 1) * d >= 0;
  }

  lemma {:induction false} SameModulo(x: int, y: int, q: int)
    requires x == y + q * TWO32
    ensures x % TWO32 == y % TWO32
  {
  }

  /** The `uint32_t` total follows the true total modulo 2^32, whatever the sizes. */
  lemma {:induction false} CachedTotalStep(total: nat, size: nat, removed: nat)
    requires removed <= total
    ensures (total % TWO32 + ToSizeT(size - ToInt32(removed))) % TWO32 == (total + size - removed) % TWO32
  {
    var r := ToInt32(removed);
    var s := ToSizeT(size - r);
    var a, b, c := total / TWO32, (removed - r) / TWO32, (size - r) / TWO64;
    assert total % TWO32 == total - a * TWO32;
    assert removed - r == b * TWO32;
    assert size - r - s == c * TWO64;
    SameModulo(total % TWO32 + s, total + size - removed, b - a - c * TWO32);
  }

  lemma {:induction false} WindowTotal(added: seq<Entry>, e: Entry, capacity: nat)
    requires capacity >= 1
    ensures Total(EntrySizes(Window(added + [e], capacity))) ==
            Total(EntrySizes(Window(added, capacity))) + e.size -
            (if |added| < capacity then 0 else Window(added, capacity)[0].size)
  {
    WindowAppend(added, e, capacity);
    var w := Window(added, capacity);
    var kept := if |added| < capacity then w else w[1..];
    TotalAppend(EntrySizes(kept), e.size);
    assert EntrySizes(kept + [e]) == EntrySizes(kept) + [e.size];
    if |added| >= capacity {
      BeforeTail(EntrySizes(w), |w|);
      assert EntrySizes(w)[1..] == EntrySizes(kept);
    }
  }

  /** The update of `cb_size`: a `size_t` is added to a `uint32_t`. */
  function Recount(cbSize: nat, size: nat, removed: int): nat {
    (cbSize + ToSizeT(size - removed)) % TWO32
  }

  /** What `cb_size` must become when `e` is added, from what it was. */
  lemma {:induction false} CachedTotalAdd(added: seq<Entry>, e: Entry, capacity: nat, removed: int)
    requires capacity >= 1
    requires removed == if |added| < capacity then 0 else ToInt32(Window(added, capacity)[0].size)
    ensures Recount(Total(EntrySizes(Window(added, capacity))) % TWO32, e.size, removed) ==
            Total(EntrySizes(Window(added + [e], capacity))) % TWO32
  {
    var sizes := EntrySizes(Window(added, capacity));
    WindowTotal(added, e, capacity);
    if |added| < capacity {
      CachedTotalStep(Total(sizes), e.size, 0);
    } else {
      BeforeMonotone(sizes, 1, |sizes|);
      assert Before(sizes, 1) == Before(sizes, 0) + sizes[0];
      CachedTotalStep(Total(sizes), e.size, sizes[0]);
    }
  }

  datatype Registers = Registers(inOffs: nat, outOffs: nat, full: bool, cbSize: nat)

  /** What the four scalar fields must be after the entries `added`. */
  ghost function RegistersOf(added: seq<Entry>, capacity: nat): Registers
    requires capacity >= 1
  {
    var n := |added|;
    Registers(InOffs(n, capacity),
              if n >= capacity then InOffs(n, capacity) else 0,
              n >= capacity,
              Total(EntrySizes(Window(added, capacity))) % TWO32)
  }

  /** The fields of the ring describe the history `added`. */
  ghost predicate Describes(phys: seq<Entry>, r: Registers, added: seq<Entry>) {
    && |phys| >= 1
    && r == RegistersOf(added, |phys|)
    && Holds(phys, r.outOffs, Window(added, |phys|))
    && BlankFrom(phys, |added|)
  }

  /** Slots not yet written are as `memset` left them. */
  ghost predicate BlankFrom(phys: seq<Entry>, n: nat) {
    forall k :: n <= k < |phys| ==> phys[k] == Entry(Null, 0)
  }

  lemma {:induction false} DescribesAdd(phys: seq<Entry>, r: Registers, added: seq<Entry>, e: Entry)
    returns (r': Registers)
    requires Describes(phys, r, added)
    ensures r.inOffs < |phys| && r.outOffs < |phys|
    ensures r.full ==> phys[r.outOffs] == added[|added| - |phys|]
    ensures r'.inOffs == NextPtr(r.inOffs, |phys|)
    ensures r'.outOffs == if r.full then r'.inOffs else r.outOffs
    ensures r'.full == (r.full || r'.inOffs == r.outOffs)
    ensures r'.cbSize ==
            Recount(r.cbSize, e.size, if r.full then ToInt32(phys[r.outOffs].size) else 0)
    ensures Describes(phys[r.inOffs := e], r', added + [e])
  {
    var n, live := |phys|, Window(added, |phys|);
    r' := RegistersOf(added + [e], n);
    assert |added + [e]| == |added| + 1;
    WindowAppend(added, e, n);
    if r.full {
      assert phys[Slot(r.outOffs, 0, n)] == live[0];
      HoldsRotate(phys, r.outOffs, live, e);
      CachedTotalAdd(added, e, n, ToInt32(live[0].size));
    } else {
      HoldsGrow(phys, live, e);
      CachedTotalAdd(added, e, n, 0);
    }
  }

  /** One step of a walk from `out_offs`: where it stands, where it goes, and when it is at the end. */
  lemma {:induction false} WalkStep(phys: seq<Entry>, r: Registers, added: seq<Entry>, i: nat)
    requires Describes(phys, r, added)
    requires i < |Window(added, |phys|)|
    ensures var at, live := Slot(r.outOffs, i, |phys|), Window(added, |phys|);
            && at < |phys|
            && phys[at] == live[i]
            && (NextPtr(at, |phys|) == r.inOffs <==> i + 1 == |live|)
            && (i + 1 < |live| ==> NextPtr(at, |phys|) == Slot(r.outOffs, i + 1, |phys|))
  {
  }

  lemma {:induction false} FreeNext(h: Heap, ps: seq<Ptr>, i: nat)
    requires i < |ps|
    ensures FreeAll(h, ps[..i + 1]) == Kfree(FreeAll(h, ps[..i]), ps[i])
  {
    assert ps[..i + 1][..i] == ps[..i];
  }

  class CircularBuffer {
    const capacity: nat
    const entry: array<Entry>
    var inOffs: nat
    var outOffs: nat
    var full: bool
    var cbSize: nat
    /** Every entry ever added, oldest first. */
    ghost var added: seq<Entry>

    ghost predicate Valid()
      reads this, entry
    {
      entry.Length == capacity && Describes(entry[..], Fields(), added)
    }

    ghost function Fields(): Registers
      reads this
    {
      Registers(inOffs, outOffs, full, cbSize)
    }

    /** The abstract contents: the last `capacity` entries added. */
    ghost function Live(): seq<Entry>
      reads this
    {
      Window(added, capacity)
    }

    ghost function LiveSizes(): seq<nat>
      reads this
    {
      EntrySizes(Live())
    }

    /** The fields after any number of adds, in terms of that number and the entries added. */
    lemma {:induction false} StateAfterAdds(i: nat)
      requires Valid()
      ensures inOffs == |added| % capacity && (full <==> |added| >= capacity)
      ensures |Live()| == (if |added| < capacity then |added| else capacity)
      ensures i < |Live()| ==> entry[(outOffs + i) % capacity] == added[|added| - |Live()| + i]
      ensures cbSize == Total(LiveSizes()) % TWO32
    {
      InOffsIsModulo(|added|, capacity);
      if i < |Live()| {
        WalkStep(entry[..], Fields(), added, i);
        SlotIsModulo(outOffs, i, capacity);
      }
    }

    constructor (capacity: nat)
      requires capacity >= 1
      ensures Valid() && fresh(entry) && this.capacity == capacity && added == []
    {
      this.capacity := capacity;
      entry := new Entry[capacity](_ => Entry(Null, 0));
      inOffs, outOffs, full, cbSize := 0, 0, false, 0;
      added := [];
      new;
    }

    /** Adds an entry and hands back the pointer of the entry it displaced, or null. */
    method AddEntry(e: Entry) returns (removed: Ptr)
      requires Valid()
      modifies this, entry
      ensures Valid() && added == old(added) + [e]
      ensures removed == Evicted(old(added), capacity)
    {
      ghost var fields := DescribesAdd(entry[..], Fields(), added, e);
      ghost var slots, at := entry[..], inOffs;
      removed := Null;
      var removedSize := 0;
      var next := NextPtr(inOffs, capacity);
      if full {
        removed := entry[outOffs].buffptr;
        removedSize := ToInt32(entry[outOffs].size);
        outOffs := next;
      } else if next == outOffs {
        full := true;
      }
      entry[inOffs] := e;
      inOffs := next;
      cbSize := Recount(cbSize, e.size, removedSize);
      added := added + [e];
      assert entry[..] == slots[at := e];
      assert inOffs == fields.inOffs && outOffs == fields.outOffs && full == fields.full;
      assert cbSize == fields.cbSize;
    }

    /** No live entry: the condition every walk looks at first. */
    predicate IsEmpty()
      reads this
    {
      inOffs == outOffs && !full
    }

    /** Finds the slot and in-entry offset holding byte `charOffset` of the live data. */
    method FindEntryOffset(charOffset: nat) returns (r: Option<Place>)
      requires Valid()
      ensures r.Some? <==> CFind(LiveSizes(), charOffset).Some?
      ensures r.Some? ==>
                var p := CFind(LiveSizes(), charOffset).value;
                p.index < |Live()| && r.value.index < capacity &&
                entry[r.value.index] == Live()[p.index] && r.value.offset == p.offset
    {
      if IsEmpty() {
        return None;
      }
      var charPos := ToInt32(charOffset);
      var index := outOffs;
      var next := NextPtr(outOffs, capacity);
      ghost var i := 0;
      while true
        invariant 0 <= i < |Live()|
        invariant index == Slot(outOffs, i, capacity) && next == NextPtr(index, capacity)
        invariant CFindFrom(LiveSizes(), i, charPos) == CFind(LiveSizes(), charOffset)
        decreases |Live()| - i
      {
        WalkStep(entry[..], Fields(), added, i);
        if entry[index].size > ToSizeT(charPos) {
          return Some(Place(index, ToSizeT(charPos)));
        }
        charPos := ToInt32(ToSizeT(charPos) - entry[index].size);
        if next == inOffs {
          return None;
        }
        index := next;
        next := NextPtr(next, capacity);
        i := i + 1;
      }
    }

    /** The command seek: result code and the handle's new position. */
    method AdjustFileOffset(fpos: nat, cmd: nat, offset: nat) returns (rc: int, newPos: nat)
      requires Valid()
      ensures (rc, newPos) == Seek(LiveSizes(), fpos, cmd, offset)
      ensures rc == 0 <==> Live() == [] || (cmd < |Live()| && offset <= Live()[cmd].size)
      ensures rc != 0 ==> rc == -22 && newPos == fpos
      ensures Live() == [] ==> newPos == 0
      ensures rc == 0 && Live() != [] ==> cmd < |Live()| && newPos == Before(LiveSizes(), cmd) + offset
    {
      SeekMeaning(LiveSizes(), fpos, cmd, offset);
      if IsEmpty() {
        return 0, 0;
      }
      SeekFromIsSeek(LiveSizes(), 0, fpos, cmd, offset);
      rc, newPos := SeekLoop(fpos, cmd, offset, Seek(LiveSizes(), fpos, cmd, offset));
    }

    /** Its loop over a ring that is not empty, on the way to `goal`. */
    method SeekLoop(fpos: nat, cmd: nat, offset: nat, ghost goal: (int, nat)) returns (rc: int, newPos: nat)
      requires Valid() && Live() != []
      requires goal == SeekFrom(LiveSizes(), 0, 0, fpos, cmd, offset)
      ensures (rc, newPos) == goal
    {
      ghost var sizes, live := LiveSizes(), Live();
      var sum: nat, cmdNum: nat := 0, 0;
      var index := outOffs;
      var next := NextPtr(outOffs, capacity);
      while true
        invariant cmdNum < |live| == |sizes|
        invariant index == Slot(outOffs, cmdNum, capacity) && next == NextPtr(index, capacity)
        invariant goal == SeekFrom(sizes, cmdNum, sum, fpos, cmd, offset)
        decreases |live| - cmdNum
      {
        WalkStep(entry[..], Fields(), added, cmdNum);
        var size := entry[index].size;
        assert size == sizes[cmdNum];
        if cmdNum == cmd {
          if size >= offset {
            return 0, sum + offset;
          }
          return -EINVAL, fpos;
        }
        if next == inOffs {
          assert cmdNum + 1 == |sizes|;
          return -EINVAL, fpos;
        }
        sum, cmdNum := sum + size, cmdNum + 1;
        index, next := next, NextPtr(next, capacity);
      }
    }

    /** Frees the live entries along the wrapping walk. */
    method Cleanup(heap: Heap) returns (h: Heap)
      requires Valid()
      ensures h == FreeAll(heap, EntryPtrs(Live()))
    {
      h := heap;
      if IsEmpty() {
        return;
      }
      var index := outOffs;
      var next := NextPtr(outOffs, capacity);
      ghost var i := 0;
      ghost var ptrs := EntryPtrs(Live());
      while true
        invariant 0 <= i < |Live()| && h == FreeAll(heap, ptrs[..i])
        invariant index == Slot(outOffs, i, capacity) && next == NextPtr(index, capacity)
        decreases |Live()| - i
      {
        WalkStep(entry[..], Fields(), added, i);
        FreeNext(heap, ptrs, i);
        h := Kfree(h, entry[index].buffptr);
        if next == inOffs {
          assert ptrs[..i + 1] == ptrs;
          return;
        }
        index := next;
        next := NextPtr(next, capacity);
        i := i + 1;
      }
    }

    /** Frees every slot in physical order, as the FOREACH macro is documented to be used. */
    method SweepFree(heap: Heap) returns (h: Heap)
      requires Valid()
      ensures h == FreeAll(heap, EntryPtrs(entry[..]))
    {
      h := heap;
      ghost var ptrs := EntryPtrs(entry[..]);
      var index := 0;
      while index < capacity
        invariant index <= capacity && h == FreeAll(heap, ptrs[..index])
      {
        FreeNext(heap, ptrs, index);
        h := Kfree(h, entry[index].buffptr);
        index := index + 1;
      }
      assert ptrs[..index] == ptrs;
    }

    /** The sweep meets the live pointers, each as often as the walk, and null in every other slot. */
    lemma {:induction false} SweepMeetsLive()
      requires Valid()
      ensures multiset(EntryPtrs(entry[..])) ==
              multiset(EntryPtrs(Live())) + multiset(seq(capacity - |Live()|, _ => Null))
    {
      if full {
        RotationKeepsPtrs(entry[..], outOffs, Live());
      } else {
        assert EntryPtrs(entry[..]) == EntryPtrs(Live()) + seq(capacity - |Live()|, _ => Null);
      }
    }

    /** The wrapping walk and the sweep leave the same heap. */
    lemma {:induction false} WalkAndSweepAgree(heap: Heap)
      requires Valid()
      requires FreeableOnce(heap, multiset(EntryPtrs(Live())))
      ensures FreeAll(heap, EntryPtrs(entry[..])) == FreeAll(heap, EntryPtrs(Live()))
    {
      SweepMeetsLive();
      FreeAllSame(heap, EntryPtrs(Live()), EntryPtrs(entry[..]));
    }
  }
}

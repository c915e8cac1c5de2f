/** The driver's entry points over the real ring and heap, each call running undisturbed (main.c). */
module CharDevice {
  import opened Sequences
  import opened Positions
  import opened Memory
  import opened CircularBuffers
  import opened DeviceSpec
  import opened Interleaving
  import opened SoloWrites
  import HeapAccounting

  const ERESTARTSYS: int := 512
  const EFAULT: int := 14

  /** The three ways the ioctl entry point is called: a readable seek request, an unreadable one, another command. */
  datatype IoctlRequest = SeekTo(cmd: nat, offset: nat) | BadAddress | UnknownCommand

  /** A seek that moves lands inside the data or right at its end, and only there does the next read find nothing. */
  lemma {:induction false} LlseekLandsInFile(d: Device, capacity: nat, pos: nat, offset: int, whence: Whence)
    requires FitsInt(d, capacity) && |File(d, capacity)| < TWO32
    requires !(whence.SeekCur? && offset == 0)
    ensures var size := |File(d, capacity)|;
            var (ret, newPos) := FixedSizeLlseek(pos, offset, whence, CachedSize(d, capacity));
            if ret < 0 then newPos == pos
            else ret == newPos <= size && (ReadAt(d, capacity, newPos) == [] <==> newPos == size)
  {
    var size := |File(d, capacity)|;
    CachedSizeExact(d, capacity);
    var (ret, newPos) := FixedSizeLlseek(pos, offset, whence, size);
    if ret >= 0 {
      ReadableIff(d, capacity, newPos);
    }
  }

  /** Whether the data holds no newline. */
  method IsDataPartial(data: Bytes) returns (partial: bool)
    ensures partial <==> forall i :: 0 <= i < |data| ==> data[i] != 10
    ensures partial <==> !Complete(data)
  {
    partial := true;
    var n := 0;
    while n < |data|
      invariant n <= |data| && (partial <==> NEWLINE !in data[..n])
    {
      assert data[..n + 1] == data[..n] + [data[n]];
      if data[n] == NEWLINE {
        partial := false;
      }
      n := n + 1;
    }
    assert data[..n] == data;
  }

  class AesdDevice {
    const ring: CircularBuffer
    var heap: Heap
    var partMemPtr: Ptr
    var partBufSize: nat
    /** The writes that took effect, in order. */
    ghost var log: seq<Bytes>
    /** The steps of the state machine that brought the device here. */
    ghost var trace: seq<Event>

    /** The device as a world in which one handle is idle and nobody holds the lock. */
    ghost function View(): World
      reads this, ring
    {
      World(ring.capacity, Core(heap, ring.added, partMemPtr, partBufSize), None, map[0 := Handle(0, Idle)],
            log, Spec().cmds, [])
    }

    ghost predicate Valid()
      reads this, ring, ring.entry
    {
      ring.Valid() && View() == Run(Boot(ring.capacity), trace)
    }

    lemma {:induction false} Reachable()
      requires Valid()
      ensures Inv(View())
    {
      RunKeeps(Boot(ring.capacity), trace);
    }

    ghost function Spec(): Device
      reads this
    {
      WriteAll(EMPTY, log)
    }

    /** The live entries as they stand in memory. */
    ghost function Contents(): seq<Bytes>
      reads this, ring
    {
      RingBytes(View())
    }

    constructor (capacity: nat)
      requires capacity >= 1
      ensures Valid() && fresh(ring) && fresh(ring.entry) && ring.capacity == capacity
      ensures log == [] && heap == Heap(map[], false)
    {
      ring := new CircularBuffer(capacity);
      heap, partMemPtr, partBufSize := Heap(map[], false), Null, 0;
      log, trace := [], [Open(0)];
      new;
      assert [Open(0)][..0] == [];
      assert View() == Step(Boot(capacity), Open(0));
    }

    /** Every allocated block is held by the ring or the partial buffer, or was abandoned by one of the steps taken. */
    lemma {:induction false} BlocksAccounted()
      requires Valid()
      ensures forall a :: a in heap.blocks <==>
                HeapAccounting.Held(View(), a) || a in HeapAccounting.AbandonedIn(ring.capacity, trace)
    {
      Reachable();
      HeapAccounting.LostIsAbandoned(ring.capacity, trace);
      forall a ensures HeapAccounting.Held(View(), a) ==> a in heap.blocks {
        if HeapAccounting.Held(View(), a) {
          var h :| PtrOf(View(), h) == At(a);
        }
      }
    }

    lemma {:induction false} ContentsFollowSpec()
      requires Valid()
      ensures Contents() == Live(Spec(), ring.capacity)
      ensures Load(heap, partMemPtr, 0, partBufSize) == Pending(Spec())
      ensures ring.LiveSizes() == Sizes(Live(Spec(), ring.capacity))
    {
      Reachable();
      MemoryHoldsDevice(View());
    }

    /** `interrupted`: the wait for the lock ended with a signal. */
    method Write(pos: nat, data: Bytes, interrupted: bool) returns (ret: nat, newPos: nat)
      requires Valid()
      modifies this, ring, ring.entry
      ensures Valid()
      ensures log == if interrupted then old(log) else old(log) + [data]
      ensures Spec() == if interrupted then old(Spec()) else DeviceSpec.Write(old(Spec()), data)
      ensures Contents() == Live(Spec(), ring.capacity)
      ensures ret == if interrupted then 0 else |data|
      ensures newPos == pos + if interrupted then 0 else Advance(old(Spec()), data)
      ensures !interrupted && 10 in data ==>
                && Spec().cmds == old(Spec()).cmds + [Pending(old(Spec())) + data] && Pending(Spec()) == []
                && newPos == pos + |Pending(old(Spec()))| + |data|
      ensures !interrupted && 10 !in data ==>
                && Spec().cmds == old(Spec()).cmds && Pending(Spec()) == Pending(old(Spec())) + data
                && newPos == pos
      ensures interrupted && 10 in data ==> heap == old(heap)
    {
      WriteAllPlus(EMPTY, log, data);
      var advance, _, _ := WriteAsRun(data, interrupted);
      ret, newPos := if interrupted then 0 else |data|, pos + advance;
      ContentsFollowSpec();
    }

    /** The call is a run of the state machine: `a` and `b` are the addresses that the allocator picks in it. */
    method WriteAsRun(data: Bytes, interrupted: bool) returns (advance: nat, ghost a: nat, ghost b: nat)
      requires Valid()
      modifies this, ring, ring.entry
      ensures Valid() && trace == old(trace) + WriteEvents(data, interrupted, a, b)
      ensures log == if interrupted then old(log) else old(log) + [data]
      ensures advance == if interrupted then 0 else Advance(old(Spec()), data)
      ensures interrupted && 10 in data ==> heap == old(heap)
    {
      ghost var w := View();
      Reachable();
      ghost var free := FreshAddress(heap.blocks);
      var staging: nat :| staging !in heap.blocks;
      free := FreshAddress(Kmalloc(heap, staging, data).0.blocks);
      var merged: nat :| merged !in Kmalloc(heap, staging, data).0.blocks;
      a, b := staging, merged;
      SoloWrite(w, data, interrupted, a, b);
      if interrupted && 10 in data {
        InterruptedFrees(w, data, a, b);
      }
      if Complete(data) {
        EntrySizeIsAdvance(w, data);
      }
      advance := Perform(data, interrupted, staging, merged);
      RunPlus(Boot(ring.capacity), trace, WriteEvents(data, interrupted, a, b));
      trace := trace + WriteEvents(data, interrupted, a, b);
    }

    /** The whole call, the allocator picking `a` for the staging buffer and `b` for a merged one. */
    method Perform(data: Bytes, interrupted: bool, a: nat, b: nat) returns (advance: nat)
      requires ring.Valid()
      modifies `heap, `partMemPtr, `partBufSize, `log, ring, ring.entry
      ensures ring.Valid() && log == if interrupted then old(log) else old(log) + [data]
      ensures View() == AfterWrite(old(View()), data, interrupted, a, b)
      ensures advance == if !interrupted && Complete(data) then EntrySize(old(View()).core, data) else 0
    {
      var (staged, buf) := Kmalloc(heap, a, data);
      var partial := IsDataPartial(data);
      advance := 0;
      if interrupted {
        heap := if partial then staged else Kfree(staged, buf);
      } else if !partial {
        heap := staged;
        advance := CommitComplete(data, buf, b);
      } else {
        heap := staged;
        CommitPartial(data, buf, b);
      }
    }

    /** Prepends the pending data, if any, to a staged buffer and resets the partial buffer. */
    method TakePending(buf: Ptr, count: nat, b: nat) returns (entry: Ptr, total: nat)
      modifies `heap, `partMemPtr, `partBufSize
      ensures total == (if old(partMemPtr) == Null then 0 else old(partBufSize) + count)
      ensures (heap, entry) ==
              HandlePartialData(old(heap), old(partMemPtr), old(partBufSize), buf, old(partBufSize) + count, b)
      ensures partMemPtr == Null && partBufSize == if old(partMemPtr) == Null then old(partBufSize) else 0
    {
      entry, total := buf, 0;
      if partMemPtr != Null {
        total := partBufSize + count;
        var (merged, joined) := HandlePartialData(heap, partMemPtr, partBufSize, buf, total, b);
        heap, entry := merged, joined;
        partMemPtr, partBufSize := Null, 0;
      }
    }

    /** The part of a complete write from taking the lock on. */
    method CommitComplete(data: Bytes, buf: Ptr, b: nat) returns (size: nat)
      requires ring.Valid()
      modifies `heap, `partMemPtr, `partBufSize, `log, ring, ring.entry
      ensures ring.Valid() && log == old(log) + [data]
      ensures size == EntrySize(old(View()).core, data)
      ensures View().core == CoreAfterCommit(old(View()).core, ring.capacity, data, buf, b)
    {
      var entry, total := TakePending(buf, |data|, b);
      size := if total != 0 then total else |data|;
      AddAndFree(Entry(entry, size));
      log := log + [data];
    }

    /** Adds an entry and frees the one it displaces. */
    method AddAndFree(e: Entry)
      requires ring.Valid()
      modifies `heap, ring, ring.entry
      ensures ring.Valid() && ring.added == old(ring.added) + [e]
      ensures heap == Kfree(old(heap), Evicted(old(ring.added), ring.capacity))
    {
      var rm := ring.AddEntry(e);
      if rm != Null {
        heap := Kfree(heap, rm);
      }
    }

    /** The part of a partial write from taking the lock on. */
    method CommitPartial(data: Bytes, buf: Ptr, b: nat)
      modifies `heap, `partMemPtr, `partBufSize, `log
      ensures log == old(log) + [data]
      ensures View().core == CoreAfterAppend(old(View()).core, data, buf, b)
    {
      var total := partBufSize + |data|;
      var (grown, part) := HandlePartialData(heap, partMemPtr, partBufSize, buf, total, b);
      heap, partMemPtr, partBufSize := grown, part, total;
      log := log + [data];
    }

    /**
     * The rest of the entry holding the handle's position; the copy is proved to stay inside allocated kernel memory.
     * `overrun`: it went past the `count` bytes of the caller's buffer, which the code does not compare with.
     */
    method Read(pos: nat, count: nat, interrupted: bool)
      returns (ret: int, data: Bytes, newPos: nat, overrun: bool)
      requires Valid()
      ensures overrun <==> |data| > count
      ensures interrupted ==> ret == -512 && data == [] && newPos == pos
      ensures !interrupted ==>
                data == ReadAt(Spec(), ring.capacity, pos) && ret == |data| && newPos == pos + |data|
    {
      if interrupted {
        return -ERESTARTSYS, [], pos, false;
      }
      ContentsFollowSpec();
      CFindInRange(ring.LiveSizes(), 0, ToInt32(pos));
      var found := ring.FindEntryOffset(pos);
      if found == None {
        return 0, [], pos, false;
      }
      var entry, offset := ring.entry[found.value.index], found.value.offset;
      ghost var i := CFind(ring.LiveSizes(), pos).value.index;
      Reachable();
      LiveEntry(View(), i);
      assert Readable(heap, entry.buffptr, offset, entry.size);
      data := Load(heap, entry.buffptr, offset, entry.size);
      ret := entry.size - offset;
      newPos, overrun := pos + ret, ret > count;
    }

    /** The position is found from the size kept in `cb_size`, read under the lock. */
    method Llseek(pos: nat, offset: int, whence: Whence, interrupted: bool) returns (ret: int, newPos: nat)
      requires Valid()
      ensures whence.OtherWhence? ==> (ret, newPos) == (-22, pos)
      ensures !whence.OtherWhence? && interrupted ==> (ret, newPos) == (-512, pos)
      ensures !whence.OtherWhence? && !interrupted ==>
                (ret, newPos) == FixedSizeLlseek(pos, offset, whence, CachedSize(Spec(), ring.capacity))
      ensures var size := CachedSize(Spec(), ring.capacity);
              var ahead, back := pos + offset, size + offset;
              !interrupted ==>
                && (whence.SeekSet? ==> (ret, newPos) == if 0 <= offset <= size then (offset, offset) else (-22, pos))
                && (whence.SeekCur? && offset == 0 ==> (ret, newPos) == (pos, pos))
                && (whence.SeekCur? && offset != 0 ==>
                      (ret, newPos) == if 0 <= ahead <= size then (ahead, ahead) else (-22, pos))
                && (whence.SeekEnd? ==> (ret, newPos) == if 0 <= back <= size then (back, back) else (-22, pos))
    {
      if whence.OtherWhence? {
        return -EINVAL, pos;
      }
      if interrupted {
        return -ERESTARTSYS, pos;
      }
      CbSizeIsCachedSize();
      LlseekMeaning(pos, offset, whence, ring.cbSize);
      var (r, p) := FixedSizeLlseek(pos, offset, whence, ring.cbSize);
      ret, newPos := r, p;
    }

    lemma {:induction false} CbSizeIsCachedSize()
      requires Valid()
      ensures ring.cbSize == CachedSize(Spec(), ring.capacity)
    {
      ContentsFollowSpec();
      TotalIsLength(Live(Spec(), ring.capacity));
    }

    method Ioctl(pos: nat, request: IoctlRequest, interrupted: bool) returns (ret: int, newPos: nat)
      requires Valid()
      ensures request.SeekTo? && !interrupted ==>
                (ret, newPos) == Seek(Sizes(Live(Spec(), ring.capacity)), pos, request.cmd, request.offset)
      ensures request.SeekTo? && !interrupted ==>
                var live, cmd, offset := Live(Spec(), ring.capacity), request.cmd, request.offset;
                && (ret == 0 <==> live == [] || (cmd < |live| && offset <= |live[cmd]|))
                && (ret != 0 ==> ret == -22 && newPos == pos)
                && (live == [] ==> newPos == 0)
                && (ret == 0 && live != [] ==> newPos == |Concat(live[..cmd])| + offset)
      ensures request.SeekTo? && interrupted ==> (ret, newPos) == (-512, pos)
      ensures request.BadAddress? ==> (ret, newPos) == (14, pos)
      ensures request.UnknownCommand? ==> (ret, newPos) == (-1, pos)
    {
      match request
      case UnknownCommand => return -1, pos;
      case BadAddress => return EFAULT, pos;
      case SeekTo(cmd, offset) =>
        if interrupted {
          return -ERESTARTSYS, pos;
        }
        ContentsFollowSpec();
        ret, newPos := ring.AdjustFileOffset(pos, cmd, offset);
        SeekMeansBytes(Live(Spec(), ring.capacity), pos, cmd, offset);
    }

    /** Each live entry's block is freed once and nothing else is; sweeping the slots would do the same. */
    method Cleanup()
      requires Valid()
      modifies `heap
      ensures !heap.fault && Removes(old(heap), heap, multiset(EntryPtrs(ring.Live())))
      ensures forall a :: a in heap.blocks <==> a in old(heap).blocks && At(a) !in EntryPtrs(ring.Live())
      ensures heap == FreeAll(old(heap), EntryPtrs(ring.entry[..]))
      ensures partMemPtr.At? ==> partMemPtr.addr in heap.blocks
    {
      Reachable();
      LiveFreeable(View());
      assert PtrOf(View(), InPart) == partMemPtr;
      FreeAllRemoves(heap, EntryPtrs(ring.Live()));
      ring.WalkAndSweepAgree(heap);
      heap := ring.Cleanup(heap);
    }
  }
}

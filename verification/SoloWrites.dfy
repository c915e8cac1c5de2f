/**
 * A write during which no other handle moves, as a run of the state machine: the steps it takes and the shared
 * memory it leaves. The one handle is put back to position 0, since the caller keeps the position.
 */
module SoloWrites {
  import opened Sequences
  import opened Memory
  import opened CircularBuffers
  import opened DeviceSpec
  import opened Interleaving

  /** The size a complete write's entry gets: pending bytes included. */
  function EntrySize(c: Core, data: Bytes): nat {
    var total := if c.part == Null then 0 else c.partSize + |data|;
    if total != 0 then total else |data|
  }

  /** The shared memory after a complete write staged at `buf` has been merged, added, and its victim freed. */
  function CoreAfterCommit(c: Core, capacity: nat, data: Bytes, buf: Ptr, b: nat): Core
    requires capacity >= 1
  {
    var (h, entry) := HandlePartialData(c.heap, c.part, c.partSize, buf, c.partSize + |data|, b);
    Core(Kfree(h, Evicted(c.added, capacity)), c.added + [Entry(entry, EntrySize(c, data))], Null,
         if c.part == Null then c.partSize else 0)
  }

  /** The shared memory after a partial write staged at `buf` has been added to the pending data. */
  function CoreAfterAppend(c: Core, data: Bytes, buf: Ptr, b: nat): Core {
    var total := c.partSize + |data|;
    var (h, part) := HandlePartialData(c.heap, c.part, c.partSize, buf, total, b);
    Core(h, c.added, part, total)
  }

  /** One handle, idle at position 0, and nobody holding the lock. */
  ghost predicate Alone(w: World) {
    Inv(w) && w.lock == None && w.handles == map[0 := Handle(0, Idle)] && w.served == []
  }

  /** The world in which the only handle is at `pc`, holding the lock or not. */
  ghost function At0(w: World, core: Core, pc: Pc): World {
    w.(core := core, lock := if HoldsLock(pc) then Some(0) else None, handles := map[0 := Handle(0, pc)])
  }

  ghost function AfterInterrupted(w: World, data: Bytes, a: nat): World {
    var (h, buf) := Kmalloc(w.core.heap, a, data);
    w.(core := w.core.(heap := if Complete(data) then Kfree(h, buf) else h))
  }

  ghost function AfterComplete(w: World, data: Bytes, a: nat, b: nat): World
    requires w.capacity >= 1
  {
    var (h, buf) := Kmalloc(w.core.heap, a, data);
    w.(core := CoreAfterCommit(w.core.(heap := h), w.capacity, data, buf, b), log := w.log + [data],
       stored := WriteAll(EMPTY, w.log + [data]).cmds)
  }

  ghost function AfterPartial(w: World, data: Bytes, a: nat, b: nat): World {
    var (h, buf) := Kmalloc(w.core.heap, a, data);
    w.(core := CoreAfterAppend(w.core.(heap := h), data, buf, b), log := w.log + [data],
       stored := WriteAll(EMPTY, w.log + [data]).cmds)
  }

  ghost function AfterWrite(w: World, data: Bytes, interrupted: bool, a: nat, b: nat): World
    requires w.capacity >= 1
  {
    if interrupted then AfterInterrupted(w, data, a)
    else if Complete(data) then AfterComplete(w, data, a, b)
    else AfterPartial(w, data, a, b)
  }

  /** An interrupted write that holds a newline frees what it staged. */
  lemma {:induction false} InterruptedFrees(w: World, data: Bytes, a: nat, b: nat)
    requires w.capacity >= 1 && a !in w.core.heap.blocks && 10 in data
    ensures AfterWrite(w, data, true, a, b).core == w.core
  {
    assert w.core.heap.blocks[a := data] - {a} == w.core.heap.blocks;
  }

  // ---------------------------------------------------------------- the steps of a write

  function LockEvents(data: Bytes, a: nat): seq<Event> {
    [Stage(0, data, a), Acquire(0)]
  }

  const LEAVE: seq<Event> := [Release(0), Finish(0), SetPos(0, 0)]

  /** `a` and `b`: the addresses the allocator picks for the staging buffer and for a merged one. */
  function WriteEvents(data: Bytes, interrupted: bool, a: nat, b: nat): seq<Event> {
    if interrupted then [Stage(0, data, a), Interrupt(0)]
    else if Complete(data) then LockEvents(data, a) + ([Merge(0, b), Commit(0)] + LEAVE)
    else LockEvents(data, a) + ([Append(0, b)] + LEAVE)
  }

  lemma {:induction false} RunsToLock(w: World, data: Bytes, a: nat)
    requires w.lock == None && w.handles == map[0 := Handle(0, Idle)] && a !in w.core.heap.blocks
    ensures var (h, buf) := Kmalloc(w.core.heap, a, data);
            Run(w, LockEvents(data, a)) == At0(w, w.core.(heap := h), Locked(data, buf))
  {
    RunTwo(w, Stage(0, data, a), Acquire(0));
    assert StageStep(w, 0, data, a).lock == None;
  }

  lemma {:induction false} RunsToCommit(locked: World, b: nat)
    requires 0 in locked.handles && locked.handles[0].pc.Locked? && Complete(locked.handles[0].pc.data)
    requires b !in locked.core.heap.blocks && locked.capacity >= 1
    ensures Run(locked, [Merge(0, b), Commit(0)]) == CommitStep(MergeStep(locked, 0, b), 0)
  {
    RunTwo(locked, Merge(0, b), Commit(0));
  }

  lemma {:induction false} RunsToIdle(leaving: World, rm: Ptr, to: nat)
    requires leaving == At0(leaving, leaving.core, Leaving(rm, to))
    ensures Run(leaving, LEAVE) == At0(leaving, leaving.core.(heap := Kfree(leaving.core.heap, rm)), Idle)
  {
    RunTwo(leaving, Release(0), Finish(0));
    RunThen(leaving, [Release(0), Finish(0)], SetPos(0, 0));
    assert [Release(0), Finish(0)] + [SetPos(0, 0)] == LEAVE;
    assert Step(leaving, Release(0)) == At0(leaving, leaving.core, Left(rm, to));
  }

  // ---------------------------------------------------------------- the three outcomes

  /** Interrupted at the lock. */
  lemma {:induction false} SoloInterrupted(w: World, data: Bytes, a: nat)
    requires Alone(w) && a !in w.core.heap.blocks
    ensures Run(w, [Stage(0, data, a), Interrupt(0)]) == AfterInterrupted(w, data, a)
    ensures Inv(AfterInterrupted(w, data, a))
  {
    RunTwo(w, Stage(0, data, a), Interrupt(0));
    RunKeeps(w, [Stage(0, data, a), Interrupt(0)]);
  }

  /** Everything of a complete write after the lock is taken. */
  lemma {:induction false} CommitAndLeave(w: World, core: Core, data: Bytes, buf: Ptr, b: nat)
    requires w.capacity >= 1 && (core.part == Null ==> core.partSize == 0)
    requires b !in core.heap.blocks && Complete(data)
    ensures var locked := At0(w, core, Locked(data, buf));
            var left := CommitStep(MergeStep(locked, 0, b), 0);
            Run(locked, [Merge(0, b), Commit(0)] + LEAVE)
            == At0(w.(log := w.log + [data], stored := left.stored),
                   CoreAfterCommit(core, w.capacity, data, buf, b), Idle)
  {
    var locked := At0(w, core, Locked(data, buf));
    var left := CommitStep(MergeStep(locked, 0, b), 0);
    CommitShape(w, core, data, buf, b);
    RunsToCommit(locked, b);
    RunsToIdle(left, Evicted(core.added, w.capacity), EntrySize(core, data));
    RunPlus(locked, [Merge(0, b), Commit(0)], LEAVE);
  }

  lemma {:induction false} CommitShape(w: World, core: Core, data: Bytes, buf: Ptr, b: nat)
    requires w.capacity >= 1 && (core.part == Null ==> core.partSize == 0)
    ensures var rm, size := Evicted(core.added, w.capacity), EntrySize(core, data);
            var left := CommitStep(MergeStep(At0(w, core, Locked(data, buf)), 0, b), 0);
            && left == At0(left, left.core, Leaving(rm, size))
            && At0(left, left.core.(heap := Kfree(left.core.heap, rm)), Idle)
               == At0(w.(log := w.log + [data], stored := left.stored),
                      CoreAfterCommit(core, w.capacity, data, buf, b), Idle)
  {
  }

  lemma {:induction false} EntrySizeIsAdvance(w: World, data: Bytes)
    requires Alone(w) && Complete(data)
    ensures EntrySize(w.core, data) == Advance(Dev(w), data)
    ensures w.core.part == Null ==> w.core.partSize == 0
  {
    assert !TakenOver(w) && PartMatches(w);
  }

  /** Complete, and not interrupted. */
  lemma {:induction false} SoloComplete(w: World, data: Bytes, a: nat, b: nat)
    requires Alone(w) && a !in w.core.heap.blocks && Complete(data)
    requires b !in Kmalloc(w.core.heap, a, data).0.blocks
    ensures Run(w, WriteEvents(data, false, a, b)) == AfterComplete(w, data, a, b)
    ensures Inv(AfterComplete(w, data, a, b))
  {
    var (h, buf) := Kmalloc(w.core.heap, a, data);
    var core, after := w.core.(heap := h), [Merge(0, b), Commit(0)] + LEAVE;
    RunsToLock(w, data, a);
    EntrySizeIsAdvance(w, data);
    CommitAndLeave(w, core, data, buf, b);
    RunPlus(w, LockEvents(data, a), after);
    RunKeeps(w, LockEvents(data, a) + after);
    assert Run(w, LockEvents(data, a) + after).stored == WriteAll(EMPTY, w.log + [data]).cmds;
  }

  /** Without a newline, and not interrupted. */
  lemma {:induction false} SoloPartial(w: World, data: Bytes, a: nat, b: nat)
    requires Alone(w) && a !in w.core.heap.blocks && !Complete(data)
    requires b !in Kmalloc(w.core.heap, a, data).0.blocks
    ensures Run(w, WriteEvents(data, false, a, b)) == AfterPartial(w, data, a, b)
    ensures Inv(AfterPartial(w, data, a, b))
  {
    var (h, buf) := Kmalloc(w.core.heap, a, data);
    var core, after := w.core.(heap := h), [Append(0, b)] + LEAVE;
    RunsToLock(w, data, a);
    AppendAndLeave(w, core, data, buf, b);
    RunPlus(w, LockEvents(data, a), after);
    RunKeeps(w, LockEvents(data, a) + after);
    assert Run(w, LockEvents(data, a) + after).stored == WriteAll(EMPTY, w.log + [data]).cmds;
  }

  lemma {:induction false} AppendAndLeave(w: World, core: Core, data: Bytes, buf: Ptr, b: nat)
    requires b !in core.heap.blocks && !Complete(data)
    ensures Run(At0(w, core, Locked(data, buf)), [Append(0, b)] + LEAVE)
            == At0(w.(log := w.log + [data]), CoreAfterAppend(core, data, buf, b), Idle)
  {
    var locked := At0(w, core, Locked(data, buf));
    var left := At0(w.(log := w.log + [data]), CoreAfterAppend(core, data, buf, b), Leaving(Null, 0));
    RunOne(locked, Append(0, b));
    assert AppendStep(locked, 0, b) == left;
    RunsToIdle(left, Null, 0);
    RunPlus(locked, [Append(0, b)], LEAVE);
  }

  /** Each outcome is a run of the state machine in which no other handle moves. */
  lemma {:induction false} SoloWrite(w: World, data: Bytes, interrupted: bool, a: nat, b: nat)
    requires Alone(w) && a !in w.core.heap.blocks
    requires b !in Kmalloc(w.core.heap, a, data).0.blocks
    ensures Run(w, WriteEvents(data, interrupted, a, b)) == AfterWrite(w, data, interrupted, a, b)
    ensures Inv(AfterWrite(w, data, interrupted, a, b))
  {
    if interrupted {
      SoloInterrupted(w, data, a);
    } else if Complete(data) {
      SoloComplete(w, data, a, b);
    } else {
      SoloPartial(w, data, a, b);
    }
  }
}

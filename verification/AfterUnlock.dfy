/**
 * What a reader may not do once it has released the lock: the entry it found may be gone. The debug print at the
 * end of `aesd_read` (main.c:96) looks at that entry and its bytes then; it is the one access the model leaves out.
 */
module AfterUnlock {
  import opened Sequences
  import opened Positions
  import opened Memory
  import opened CircularBuffers
  import opened DeviceSpec
  import opened Interleaving

  /** A complete write by `t`, with nothing pending and nobody interfering. */
  function WriteBy(t: nat, data: Bytes, a: nat, b: nat): seq<Event> {
    [Stage(t, data, a), Acquire(t)] + ([Merge(t, b), Commit(t)] + [Release(t), Finish(t)])
  }

  ghost predicate Quiet(w: World, t: nat) {
    w.capacity >= 1 && w.lock == None && w.core.part == Null && t in w.handles && w.handles[t].pc == Idle
  }

  /** The world with `t` at `pc` in the middle of its write. */
  function Midway(w: World, t: nat, h: Heap, pc: Pc): World
    requires t in w.handles
  {
    Goto(w, t, pc).(core := w.core.(heap := h), lock := if HoldsLock(pc) then Some(t) else None)
  }

  function WrittenBy(w: World, t: nat, data: Bytes, a: nat): World
    requires w.capacity >= 1 && t in w.handles
  {
    var h := Kmalloc(w.core.heap, a, data).0;
    w.(core := w.core.(heap := Kfree(h, Evicted(w.core.added, w.capacity)),
                       added := w.core.added + [Entry(At(a), |data|)]),
       handles := w.handles[t := Handle(w.handles[t].pos + |data|, Idle)],
       log := w.log + [data], stored := w.stored + [data])
  }

  lemma {:induction false} RunsWriteToLock(w: World, t: nat, data: Bytes, a: nat)
    requires Quiet(w, t) && Complete(data) && a !in w.core.heap.blocks
    ensures Run(w, [Stage(t, data, a), Acquire(t)])
         == Midway(w, t, Kmalloc(w.core.heap, a, data).0, Locked(data, At(a)))
  {
    RunTwo(w, Stage(t, data, a), Acquire(t));
  }

  /** The world once the write is in the ring, the displaced entry not yet freed. */
  function Committed(w: World, t: nat, data: Bytes, a: nat): World
    requires w.capacity >= 1 && t in w.handles
  {
    var h, to := Kmalloc(w.core.heap, a, data).0, w.handles[t].pos + |data|;
    Goto(w, t, Leaving(Evicted(w.core.added, w.capacity), to))
      .(core := w.core.(heap := h, added := w.core.added + [Entry(At(a), |data|)]), lock := Some(t),
        log := w.log + [data], stored := w.stored + [data])
  }

  lemma {:induction false} RunsWriteToCommit(w: World, t: nat, data: Bytes, a: nat, b: nat)
    requires Quiet(w, t) && Complete(data) && b !in Kmalloc(w.core.heap, a, data).0.blocks
    ensures Run(Midway(w, t, Kmalloc(w.core.heap, a, data).0, Locked(data, At(a))), [Merge(t, b), Commit(t)])
         == Committed(w, t, data, a)
  {
    var h := Kmalloc(w.core.heap, a, data).0;
    var locked := Midway(w, t, h, Locked(data, At(a)));
    RunTwo(locked, Merge(t, b), Commit(t));
    var ready := Midway(w, t, h, Ready(data, At(a), 0));
    assert Step(locked, Merge(t, b)) == ready;
    CommitsAlone(w, t, data, a);
  }

  lemma {:induction false} CommitsAlone(w: World, t: nat, data: Bytes, a: nat)
    requires Quiet(w, t) && data != []
    ensures Step(Midway(w, t, Kmalloc(w.core.heap, a, data).0, Ready(data, At(a), 0)), Commit(t))
         == Committed(w, t, data, a)
  {
    assert data[0..|data|] == data;
  }

  lemma {:induction false} RunsWriteToEnd(w: World, t: nat, data: Bytes, a: nat)
    requires Quiet(w, t)
    ensures Run(Committed(w, t, data, a), [Release(t), Finish(t)]) == WrittenBy(w, t, data, a)
  {
    var left := Committed(w, t, data, a);
    RunTwo(left, Release(t), Finish(t));
    assert Step(left, Release(t)) == ReleaseStep(left, t);
  }

  lemma {:induction false} RunsWrite(w: World, t: nat, data: Bytes, a: nat, b: nat)
    requires Quiet(w, t) && Complete(data) && a !in w.core.heap.blocks && b !in w.core.heap.blocks && a != b
    ensures Run(w, WriteBy(t, data, a, b)) == WrittenBy(w, t, data, a)
  {
    RunsWriteToLock(w, t, data, a);
    RunsWriteToCommit(w, t, data, a, b);
    RunsWriteToEnd(w, t, data, a);
    RunPlus(w, [Stage(t, data, a), Acquire(t)], [Merge(t, b), Commit(t)] + [Release(t), Finish(t)]);
    RunPlus(Run(w, [Stage(t, data, a), Acquire(t)]), [Merge(t, b), Commit(t)], [Release(t), Finish(t)]);
  }

  const LINE: Bytes := [NEWLINE]
  const STORE_LINE: seq<Event> := [Open(0), Open(1)] + WriteBy(0, LINE, 0, 9)
  const FIND_LINE: seq<Event> := STORE_LINE + [StartRead(1), Find(1)]
  const LEAVE_READ: seq<Event> := FIND_LINE + [Copy(1), Release(1)]

  lemma {:induction false} LineStored()
    ensures var w := Run(Boot(1), STORE_LINE);
            && Quiet(w, 0) && w.capacity == 1 && w.core.added == [Entry(At(0), 1)]
            && w.core.heap.blocks == map[0 := LINE] && 1 in w.handles && w.handles[1] == Handle(0, Idle)
  {
    RunTwo(Boot(1), Open(0), Open(1));
    RunPlus(Boot(1), [Open(0), Open(1)], WriteBy(0, LINE, 0, 9));
    RunsWrite(Run(Boot(1), [Open(0), Open(1)]), 0, LINE, 0, 9);
  }

  /** Handle 1 has found the one entry, whose block is the one at address 0. */
  lemma {:induction false} LineFound()
    ensures var w := Run(Boot(1), FIND_LINE);
            && w.core == Run(Boot(1), STORE_LINE).core && w.capacity == 1 && w.lock == Some(1)
            && 0 in w.handles && w.handles[0].pc == Idle
            && 1 in w.handles && w.handles[1] == Handle(0, Found(Entry(At(0), 1), 0))
  {
    LineStored();
    FindsOne(Run(Boot(1), STORE_LINE));
    RunPlus(Boot(1), STORE_LINE, [StartRead(1), Find(1)]);
  }

  lemma {:induction false} FirstByteFound()
    ensures CFind([1], 0) == Some(Place(0, 0))
  {
    assert ToInt32(0) == 0 && ToSizeT(0) == 0;
  }

  lemma {:induction false} FindsOne(w: World)
    requires w.capacity == 1 && w.lock == None && w.core.added == [Entry(At(0), 1)]
    requires 1 in w.handles && w.handles[1] == Handle(0, Idle)
    ensures Run(w, [StartRead(1), Find(1)]) == Goto(w, 1, Found(Entry(At(0), 1), 0)).(lock := Some(1))
  {
    var reading := Goto(w, 1, Reading).(lock := Some(1));
    RunTwo(w, StartRead(1), Find(1));
    assert Step(w, StartRead(1)) == reading;
    assert Window(w.core.added, 1) == [Entry(At(0), 1)];
    assert EntrySizes([Entry(At(0), 1)]) == [1];
    FirstByteFound();
    assert Lookup(reading, 1) == Found(Entry(At(0), 1), 0);
  }

  lemma {:induction false} LineLeft()
    ensures var w := Run(Boot(1), LEAVE_READ);
            && Quiet(w, 0) && w.capacity == 1 && w.core == Run(Boot(1), STORE_LINE).core
            && 1 in w.handles && w.handles[1].pc.Left?
  {
    LineStored();
    LineFound();
    var w := Run(Boot(1), FIND_LINE);
    RunTwo(w, Copy(1), Release(1));
    RunPlus(Boot(1), FIND_LINE, [Copy(1), Release(1)]);
  }

  /** Before that reader returns, a write by handle 0 has freed the block and overwritten the entry. */
  lemma {:induction false} EntryGoneBeforeReturn()
    ensures var w := Run(Boot(1), FIND_LINE); 1 in w.handles && w.handles[1].pc == Found(Entry(At(0), 1), 0)
    ensures var w := Run(Boot(1), LEAVE_READ + WriteBy(0, LINE, 1, 9));
            && 1 in w.handles && w.handles[1].pc.Left?
            && 0 !in w.core.heap.blocks && Window(w.core.added, 1) == [Entry(At(1), 1)]
  {
    LineStored();
    LineFound();
    LineLeft();
    var w := Run(Boot(1), LEAVE_READ);
    RunsWrite(w, 0, LINE, 1, 9);
    RunPlus(Boot(1), LEAVE_READ, WriteBy(0, LINE, 1, 9));
  }
}

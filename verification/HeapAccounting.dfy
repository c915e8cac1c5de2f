/**
 * Where every allocated block is. The driver does not free everything it allocates:
 * a write that joins pending data abandons its staging buffer (main.c:125-129), and so
 * does a partial write interrupted at the lock (main.c:225-227). Nothing else is lost.
 */
module HeapAccounting {
  import opened Sequences
  import opened Memory
  import opened DeviceSpec
  import opened Interleaving

  /** Some ring entry, the partial buffer or a call in progress holds the block at `a`. */
  ghost predicate Held(w: World, a: nat) {
    exists h :: PtrOf(w, h) == At(a)
  }

  /** Allocated, and out of everyone's reach. */
  ghost predicate Lost(w: World, a: nat) {
    a in w.core.heap.blocks && !Held(w, a)
  }

  /** The staging buffer that a step abandons, if it abandons one. */
  function Abandoned(w: World, e: Event): set<nat> {
    if e.t !in w.handles || Step(w, e) == w then {}
    else
      match w.handles[e.t].pc
      case Staged(data, At(a)) => if e.Interrupt? && !Complete(data) then {a} else {}
      case Locked(data, At(a)) => if w.core.part != Null then {a} else {}
      case _ => {}
  }

  /** A step that only touches its own handle and what it carries. */
  lemma {:induction false} SameHolders(w: World, w': World)
    requires w'.core.heap.blocks == w.core.heap.blocks
    requires forall h :: PtrOf(w', h) == PtrOf(w, h)
    ensures forall a :: Lost(w', a) <==> Lost(w, a)
  {
    forall a ensures Held(w', a) <==> Held(w, a) {
      if Held(w, a) {
        var h :| PtrOf(w, h) == At(a);
        assert PtrOf(w', h) == At(a);
      }
    }
  }

  /** Holder `h0` lets go of its block, which is freed or not. */
  lemma {:induction false} LetGo(w: World, w': World, h0: Holder, freed: bool)
    requires Owns(w) && PtrOf(w', h0) == Null
    requires forall h :: h != h0 ==> PtrOf(w', h) == PtrOf(w, h)
    requires w'.core.heap.blocks ==
             w.core.heap.blocks - if freed && PtrOf(w, h0).At? then {PtrOf(w, h0).addr} else {}
    ensures forall a :: Lost(w', a) <==> Lost(w, a) || (!freed && PtrOf(w, h0) == At(a))
  {
    forall a ensures Lost(w', a) <==> Lost(w, a) || (!freed && PtrOf(w, h0) == At(a)) {
      if Held(w, a) && PtrOf(w, h0) != At(a) {
        var h :| PtrOf(w, h) == At(a);
        assert PtrOf(w', h) == At(a);
      }
    }
  }

  /** A pointer passes from one holder to another that held none. */
  lemma {:induction false} PassedOn(w: World, w': World, from: Holder, to: Holder)
    requires w'.core.heap.blocks == w.core.heap.blocks && from != to
    requires PtrOf(w', from) == Null && PtrOf(w', to) == PtrOf(w, from) && PtrOf(w, to) == Null
    requires forall h :: h != from && h != to ==> PtrOf(w', h) == PtrOf(w, h)
    ensures forall a :: Lost(w', a) <==> Lost(w, a)
  {
    forall a ensures Held(w', a) <==> Held(w, a) {
      if Held(w, a) {
        var h :| PtrOf(w, h) == At(a);
        assert PtrOf(w', if h == from then to else h) == At(a);
      }
      if Held(w', a) {
        var h :| PtrOf(w', h) == At(a);
        assert PtrOf(w, if h == to then from else h) == At(a);
      }
    }
  }

  lemma {:induction false} StageAccounts(w: World, t: nat, data: Bytes, a: nat)
    requires Inv(w) && t in w.handles && w.handles[t].pc.Idle? && a !in w.core.heap.blocks
    ensures forall x :: Lost(StageStep(w, t, data, a), x) <==> Lost(w, x)
  {
    var w' := StageStep(w, t, data, a);
    assert forall h :: h != InCall(t) ==> PtrOf(w', h) == PtrOf(w, h);
    assert PtrOf(w, InCall(t)) == Null;
    forall x ensures Lost(w', x) <==> Lost(w, x) {
      if Held(w, x) {
        var h :| PtrOf(w, h) == At(x);
        assert PtrOf(w', h) == At(x);
      }
      if data != [] {
        assert PtrOf(w', InCall(t)) == At(a);
      }
    }
  }

  lemma {:induction false} CommitAccounts(w: World, t: nat)
    requires Inv(w) && t in w.handles && w.handles[t].pc.Ready?
    ensures forall x :: Lost(CommitStep(w, t), x) <==> Lost(w, x)
  {
    var w', n := CommitStep(w, t), |w.core.added|;
    assert PtrOf(w', InRing(n)) == PtrOf(w, InCall(t));
    if n >= w.capacity {
      assert PtrOf(w', InCall(t)) == PtrOf(w, InRing(n - w.capacity));
    }
    forall x ensures Held(w', x) <==> Held(w, x) {
      if Held(w, x) {
        var h :| PtrOf(w, h) == At(x);
        var h' := if h == InCall(t) then InRing(n)
                  else if n >= w.capacity && h == InRing(n - w.capacity) then InCall(t) else h;
        assert PtrOf(w', h') == At(x);
      }
      if Held(w', x) {
        var h' :| PtrOf(w', h') == At(x);
        var h := if h' == InRing(n) then InCall(t)
                 else if n >= w.capacity && h' == InCall(t) then InRing(n - w.capacity) else h';
        assert PtrOf(w, h) == At(x);
      }
    }
  }

  /** Two contents are joined in a new block held by `to`: the old partial buffer is freed, the staging buffer not. */
  lemma {:induction false} JoinAccounts(w: World, w': World, buf: Ptr, part: Ptr, a: nat, t: nat, to: Holder)
    requires Owns(w) && a !in w.core.heap.blocks
    requires PtrOf(w, InCall(t)) == buf && PtrOf(w, InPart) == part && (to == InCall(t) || to == InPart)
    requires forall h :: h != InCall(t) && h != InPart ==> PtrOf(w', h) == PtrOf(w, h)
    requires forall h :: (h == InCall(t) || h == InPart) && h != to ==> PtrOf(w', h) == Null
    requires PtrOf(w', to) == At(a) || PtrOf(w', to) == ZeroSize
    requires forall x :: x in w'.core.heap.blocks <==>
               (x in w.core.heap.blocks && At(x) != part) || PtrOf(w', to) == At(x)
    ensures forall x :: Lost(w', x) <==> Lost(w, x) || buf == At(x)
  {
    forall x ensures Lost(w', x) <==> Lost(w, x) || buf == At(x) {
      if Held(w, x) && buf != At(x) && part != At(x) {
        var h :| PtrOf(w, h) == At(x);
        assert PtrOf(w', h) == At(x);
      }
      if Held(w', x) && x != a {
        var h :| PtrOf(w', h) == At(x);
        assert PtrOf(w, h) == At(x);
      }
    }
  }

  lemma {:induction false} MergeAccounts(w: World, t: nat, a: nat)
    requires Inv(w) && t in w.handles && w.handles[t].pc.Locked? && Complete(w.handles[t].pc.data)
    requires a !in w.core.heap.blocks
    ensures var pc := w.handles[t].pc;
            forall x :: Lost(MergeStep(w, t, a), x) <==> Lost(w, x) || (w.core.part != Null && pc.buf == At(x))
  {
    WriterGrasps(w, t);
    var w', pc := MergeStep(w, t, a), w.handles[t].pc;
    if w.core.part == Null {
      SameHolders(w, w');
    } else {
      PartialDataJoins(w.core.heap, w.core.part, Pending(Dev(w)), pc.buf, pc.data, a);
      JoinAccounts(w, w', pc.buf, w.core.part, a, t, InCall(t));
    }
  }

  lemma {:induction false} AppendAccounts(w: World, t: nat, a: nat)
    requires Inv(w) && t in w.handles && w.handles[t].pc.Locked? && !Complete(w.handles[t].pc.data)
    requires a !in w.core.heap.blocks
    ensures var pc := w.handles[t].pc;
            forall x :: Lost(AppendStep(w, t, a), x) <==> Lost(w, x) || (w.core.part != Null && pc.buf == At(x))
  {
    WriterGrasps(w, t);
    var w', pc := AppendStep(w, t, a), w.handles[t].pc;
    if w.core.part == Null {
      PassedOn(w, w', InCall(t), InPart);
    } else {
      PartialDataJoins(w.core.heap, w.core.part, Pending(Dev(w)), pc.buf, pc.data, a);
      JoinAccounts(w, w', pc.buf, w.core.part, a, t, InPart);
    }
  }

  lemma {:induction false} InterruptAccounts(w: World, t: nat)
    requires Inv(w) && t in w.handles && w.handles[t].pc.Staged?
    ensures var pc := w.handles[t].pc;
            forall x :: Lost(InterruptStep(w, t), x) <==> Lost(w, x) || (!Complete(pc.data) && pc.buf == At(x))
  {
    assert PtrOf(w, InCall(t)) == w.handles[t].pc.buf;
    LetGo(w, InterruptStep(w, t), InCall(t), Complete(w.handles[t].pc.data));
  }

  lemma {:induction false} FinishAccounts(w: World, t: nat)
    requires Inv(w) && t in w.handles && w.handles[t].pc.Left?
    ensures forall x :: Lost(FinishStep(w, t), x) <==> Lost(w, x)
  {
    assert PtrOf(w, InCall(t)) == w.handles[t].pc.rm;
    LetGo(w, FinishStep(w, t), InCall(t), true);
  }

  lemma {:induction false} CopyAccounts(w: World, t: nat)
    requires Inv(w) && t in w.handles && (w.handles[t].pc.Found? || w.handles[t].pc.NotFound?)
    ensures forall x :: Lost(CopyStep(w, t), x) <==> Lost(w, x)
  {
    SameHolders(w, CopyStep(w, t));
  }

  lemma {:induction false} QuietAccounts(w: World, e: Event)
    requires e.Open? || e.SetPos? || e.Acquire? || e.Release? || e.StartRead? || e.Find? ||
             e.StartSeek? || e.AdjustOffset? || e.StartLlseek? || e.ReadSize?
    ensures forall x :: Lost(Step(w, e), x) <==> Lost(w, x)
  {
    SameHolders(w, Step(w, e));
  }

  /** Only an interrupted call, a merge and an append abandon anything. */
  lemma {:induction false} AbandonedBy(w: World, e: Event)
    requires Step(w, e) != w
    ensures !e.Interrupt? && !e.Merge? && !e.Append? ==> Abandoned(w, e) == {}
    ensures e.Interrupt? ==>
              var pc := w.handles[e.t].pc;
              Abandoned(w, e) == if !Complete(pc.data) && pc.buf.At? then {pc.buf.addr} else {}
    ensures e.Merge? || e.Append? ==>
              var pc := w.handles[e.t].pc;
              Abandoned(w, e) == if w.core.part != Null && pc.buf.At? then {pc.buf.addr} else {}
  {
  }

  /** One step loses exactly what it abandons, and nothing lost is ever touched again. */
  lemma {:induction false} StepAccounts(w: World, e: Event)
    requires Inv(w)
    ensures forall x :: Lost(Step(w, e), x) <==> Lost(w, x) || x in Abandoned(w, e)
  {
    if Step(w, e) != w {
      AbandonedBy(w, e);
      match e
      case Stage(t, data, a) => StageAccounts(w, t, data, a);
      case Interrupt(t) => InterruptAccounts(w, t);
      case Merge(t, a) => MergeAccounts(w, t, a);
      case Append(t, a) => AppendAccounts(w, t, a);
      case Commit(t) => CommitAccounts(w, t);
      case Finish(t) => FinishAccounts(w, t);
      case Copy(t) => CopyAccounts(w, t);
      case _ => QuietAccounts(w, e);
    }
  }

  /** Which blocks a step loses: the data of a partial write it interrupts, or of a write it joins to pending data. */
  lemma {:induction false} NewlyLost(w: World, e: Event, x: nat)
    requires Inv(w) && Lost(Step(w, e), x) && !Lost(w, x)
    ensures e.t in w.handles && x in w.core.heap.blocks
    ensures var pc := w.handles[e.t].pc;
            || (e.Interrupt? && pc.Staged? && 10 !in pc.data && pc.buf == At(x))
            || ((e.Merge? || e.Append?) && pc.Locked? && w.core.part != Null && pc.buf == At(x))
  {
    StepAccounts(w, e);
    AbandonedBy(w, e);
    assert PtrOf(w, InCall(e.t)) == At(x);
  }

  /** An interrupted write frees its staging buffer if it holds a newline, and loses it if it does not. */
  lemma {:induction false} InterruptedBuffer(w: World, t: nat)
    requires Inv(w) && t in w.handles && w.handles[t].pc.Staged? && w.handles[t].pc.buf.At?
    ensures var pc, w' := w.handles[t].pc, Step(w, Interrupt(t));
            if 10 in pc.data then pc.buf.addr !in w'.core.heap.blocks
            else Lost(w', pc.buf.addr) && w'.core.heap == w.core.heap
  {
    StepAccounts(w, Interrupt(t));
    assert PtrOf(w, InCall(t)) == w.handles[t].pc.buf;
  }

  /** The accesses that raise a fault: freeing or reading what is not allocated, and nothing else. */
  lemma {:induction false} BadAccessFaults(w: World, t: nat)
    requires t in w.handles
    ensures var pc, h := w.handles[t].pc, w.core.heap;
            && (pc.Left? ==>
                  (Step(w, Finish(t)).core.heap.fault <==> h.fault || (pc.rm.At? && pc.rm.addr !in h.blocks)))
            && (pc.Staged? && 10 in pc.data ==>
                  (Step(w, Interrupt(t)).core.heap.fault <==> h.fault || (pc.buf.At? && pc.buf.addr !in h.blocks)))
            && (pc.Found? && pc.entry.buffptr.At? ==>
                  (Step(w, Copy(t)).core.heap.fault <==>
                     h.fault || pc.entry.buffptr.addr !in h.blocks ||
                     !(pc.offset <= pc.entry.size <= |h.blocks[pc.entry.buffptr.addr]|)))
  {
  }

  /** So does joining: both buffers are read, and the old one freed. */
  lemma {:induction false} BadJoinFaults(h: Heap, part: nat, partSize: nat, buf: nat, newSize: nat, a: nat)
    requires partSize <= newSize && a !in h.blocks && part != a
    ensures HandlePartialData(h, At(part), partSize, At(buf), newSize, a).0.fault <==>
              h.fault || part !in h.blocks || buf !in h.blocks ||
              partSize > |h.blocks[part]| || newSize - partSize > |h.blocks[buf]|
  {
  }

  /** All staging buffers abandoned in the course of a run. */
  function AbandonedIn(capacity: nat, events: seq<Event>): set<nat> {
    if events == [] then {}
    else
      var init := events[..|events| - 1];
      AbandonedIn(capacity, init) + Abandoned(Run(Boot(capacity), init), events[|events| - 1])
  }

  /** In every run, the blocks out of reach are exactly the abandoned staging buffers. */
  lemma {:induction false} LostIsAbandoned(capacity: nat, events: seq<Event>)
    requires capacity >= 1
    ensures forall a :: Lost(Run(Boot(capacity), events), a) <==> a in AbandonedIn(capacity, events)
  {
    if events != [] {
      var init := events[..|events| - 1];
      LostIsAbandoned(capacity, init);
      RunKeeps(Boot(capacity), init);
      StepAccounts(Run(Boot(capacity), init), events[|events| - 1]);
    }
  }

  // ---------------------------------------------------------------- such buffers exist

  lemma {:induction false} AbandonedAtEnd(events: seq<Event>, e: Event, a: nat)
    requires a in Abandoned(Run(Boot(1), events), e)
    ensures Lost(Run(Boot(1), events + [e]), a)
  {
    assert (events + [e])[..|events|] == events;
    LostIsAbandoned(1, events + [e]);
  }

  /** A ring of one slot, nothing added yet, and one handle at position 0. */
  function Solo(blocks: map<nat, Bytes>, part: Ptr, partSize: nat, pc: Pc, log: seq<Bytes>): World {
    World(1, Core(Heap(blocks, false), [], part, partSize), if HoldsLock(pc) then Some(0) else None,
          map[0 := Handle(0, pc)], log, [], [])
  }

  const LETTER: Bytes := [65]
  const STAGE_PIECE: seq<Event> := [Open(0), Stage(0, LETTER, 0)]

  lemma {:induction false} PieceStaged()
    ensures Run(Boot(1), STAGE_PIECE) == Solo(map[0 := LETTER], Null, 0, Staged(LETTER, At(0)), [])
  {
    var idle := Solo(map[], Null, 0, Idle, []);
    RunTwo(Boot(1), Open(0), Stage(0, LETTER, 0));
    assert Step(Boot(1), Open(0)) == idle;
    assert Step(idle, Stage(0, LETTER, 0)) == StageStep(idle, 0, LETTER, 0);
  }

  /** Interrupted at the lock, a write of one letter loses its staging buffer. */
  lemma {:induction false} InterruptedPieceIsLost()
    ensures Lost(Run(Boot(1), STAGE_PIECE + [Interrupt(0)]), 0)
  {
    PieceStaged();
    var w := Run(Boot(1), STAGE_PIECE);
    assert Step(w, Interrupt(0)).handles[0].pc == Idle;
    AbandonedAtEnd(STAGE_PIECE, Interrupt(0), 0);
  }

  const APPEND_PIECE: seq<Event> := STAGE_PIECE + [Acquire(0)] + [Append(0, 1)]

  lemma {:induction false} PieceAppended()
    ensures Run(Boot(1), APPEND_PIECE) == Solo(map[0 := LETTER], At(0), 1, Leaving(Null, 0), [LETTER])
  {
    PieceStaged();
    RunThen(Boot(1), STAGE_PIECE, Acquire(0));
    var locked := STAGE_PIECE + [Acquire(0)];
    assert Run(Boot(1), locked) == Solo(map[0 := LETTER], Null, 0, Locked(LETTER, At(0)), []);
    RunThen(Boot(1), locked, Append(0, 1));
  }

  const WRITE_PIECE: seq<Event> := APPEND_PIECE + [Release(0)] + [Finish(0)]

  lemma {:induction false} PieceWritten()
    ensures Run(Boot(1), WRITE_PIECE) == Solo(map[0 := LETTER], At(0), 1, Idle, [LETTER])
  {
    PieceAppended();
    RunThen(Boot(1), APPEND_PIECE, Release(0));
    RunThen(Boot(1), APPEND_PIECE + [Release(0)], Finish(0));
  }

  const NEWLINE_ALONE: Bytes := [NEWLINE]
  const BOTH: map<nat, Bytes> := map[0 := LETTER][1 := NEWLINE_ALONE]
  const LOCK_NEWLINE: seq<Event> := WRITE_PIECE + [Stage(0, NEWLINE_ALONE, 1)] + [Acquire(0)]

  lemma {:induction false} NewlineLocked()
    ensures Run(Boot(1), LOCK_NEWLINE) == Solo(BOTH, At(0), 1, Locked(NEWLINE_ALONE, At(1)), [LETTER])
  {
    PieceWritten();
    var staged := WRITE_PIECE + [Stage(0, NEWLINE_ALONE, 1)];
    RunThen(Boot(1), WRITE_PIECE, Stage(0, NEWLINE_ALONE, 1));
    assert Run(Boot(1), staged) == Solo(BOTH, At(0), 1, Staged(NEWLINE_ALONE, At(1)), [LETTER]);
    RunThen(Boot(1), staged, Acquire(0));
  }

  /** A newline written after that letter joins it, and loses its own staging buffer. */
  lemma {:induction false} JoiningWriteIsLost()
    ensures Lost(Run(Boot(1), LOCK_NEWLINE + [Merge(0, 2)]), 1)
  {
    NewlineLocked();
    var w := Run(Boot(1), LOCK_NEWLINE);
    assert Step(w, Merge(0, 2)).core.part == Null;
    AbandonedAtEnd(LOCK_NEWLINE, Merge(0, 2), 1);
  }
}

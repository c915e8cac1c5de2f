/**
 * The driver's entry points as a state machine over any number of open handles.
 * A call is cut at every point where another handle can run: staging the user's
 * data, taking the lock, each action under the lock, releasing it, and freeing
 * the displaced entry after release (main.c:60-295).
 */
module Interleaving {
  import opened Sequences
  import opened Positions
  import opened Memory
  import opened CircularBuffers
  import opened DeviceSpec

  /** The memory shared by all handles: the kernel heap and `struct aesd_dev`. */
  datatype Core = Core(heap: Heap, added: seq<Entry>, part: Ptr, partSize: nat)

  datatype Pc =
    | Idle
    | Staged(data: Bytes, buf: Ptr)               // copied from the user, lock not yet taken
    | Locked(data: Bytes, buf: Ptr)               // writer, lock held
    | Ready(data: Bytes, buf: Ptr, total: nat)    // lock held, pending data merged into buf
    | Leaving(rm: Ptr, to: nat)                   // lock held, work under the lock done
    | Left(rm: Ptr, to: nat)                      // lock released, nothing freed yet, handle not yet at `to`
    | Reading                                     // reader, lock held
    | Found(entry: Entry, offset: nat)            // reader, lock held, about to copy
    | NotFound                                    // reader, lock held, no data at its position
    | Seeking(cmd: nat, offset: nat)              // command seek, lock held
    | Sizing(shift: int, whence: Whence)          // seek by bytes, lock held

  datatype Handle = Handle(pos: nat, pc: Pc)

  /** A read or seek served: the handle, the writes committed before it, where it was, what was asked and answered. */
  datatype Record =
    | ReadRecord(t: nat, commits: nat, pos: nat, data: Bytes)
    | SeekRecord(t: nat, commits: nat, pos: nat, cmd: nat, offset: nat, ret: int, newPos: nat)
    | LlseekRecord(t: nat, commits: nat, pos: nat, shift: int, whence: Whence, ret: int, newPos: nat)

  /**
   * `log`, `stored` and `served` are histories in lock order: the committed writes, the bytes that each entry
   * added to the ring had in memory at that moment, and the reads and seeks served.
   */
  datatype World = World(capacity: nat, core: Core, lock: Option<nat>, handles: map<nat, Handle>,
                         log: seq<Bytes>, stored: seq<Bytes>, served: seq<Record>)

  datatype Event =
    | Open(t: nat)
    | SetPos(t: nat, pos: nat)                    // a positioned call starts where it is told to
    | Stage(t: nat, data: Bytes, a: nat)          // `a`: the allocator's choice of a free address
    | Interrupt(t: nat)                           // the wait for the lock is interrupted
    | Acquire(t: nat)
    | Merge(t: nat, a: nat)
    | Append(t: nat, a: nat)
    | Commit(t: nat)
    | Release(t: nat)
    | Finish(t: nat)
    | StartRead(t: nat)
    | Find(t: nat)
    | Copy(t: nat)
    | StartSeek(t: nat, cmd: nat, offset: nat)
    | AdjustOffset(t: nat)
    | StartLlseek(t: nat, shift: int, whence: Whence)
    | ReadSize(t: nat)

  function Goto(w: World, t: nat, pc: Pc): World
    requires t in w.handles
  {
    w.(handles := w.handles[t := w.handles[t].(pc := pc)])
  }

  /** The partial-data buffer grown by `newSize - partSize` bytes of `buf`; the old one is freed. */
  function HandlePartialData(h: Heap, part: Ptr, partSize: nat, buf: Ptr, newSize: nat, a: nat): (Heap, Ptr)
    requires partSize <= newSize
  {
    if part == Null then (h, buf)
    else
      var joined := Load(h, part, 0, partSize) + Load(h, buf, 0, newSize - partSize);
      var (h', p) := Kmalloc(Touch(Touch(h, part, 0, partSize), buf, 0, newSize - partSize), a, joined);
      (Kfree(h', part), p)
  }

  /** A disabled event leaves the world alone. */
  function Step(w: World, e: Event): World {
    if e.Open? then
      if e.t in w.handles then w else w.(handles := w.handles[e.t := Handle(0, Idle)])
    else if e.t !in w.handles then w
    else
      var pc := w.handles[e.t].pc;
      match e
      case SetPos(t, pos) => if pc.Idle? then w.(handles := w.handles[t := Handle(pos, Idle)]) else w
      case Stage(t, data, a) => if pc.Idle? && a !in w.core.heap.blocks then StageStep(w, t, data, a) else w
      case Interrupt(t) => if pc.Staged? then InterruptStep(w, t) else w
      case Acquire(t) => if pc.Staged? && w.lock.None? then AcquireStep(w, t) else w
      case Merge(t, a) => if pc.Locked? && Complete(pc.data) && a !in w.core.heap.blocks then MergeStep(w, t, a) else w
      case Append(t, a) =>
        if pc.Locked? && !Complete(pc.data) && a !in w.core.heap.blocks then AppendStep(w, t, a) else w
      case Commit(t) => if pc.Ready? && w.capacity >= 1 then CommitStep(w, t) else w
      case Release(t) => if pc.Leaving? then ReleaseStep(w, t) else w
      case Finish(t) => if pc.Left? then FinishStep(w, t) else w
      case StartRead(t) => if pc.Idle? && w.lock.None? then Goto(w, t, Reading).(lock := Some(t)) else w
      case Find(t) => if pc.Reading? then Goto(w, t, Lookup(w, t)) else w
      case Copy(t) => if pc.Found? || pc.NotFound? then CopyStep(w, t) else w
      case StartSeek(t, cmd, offset) =>
        if pc.Idle? && w.lock.None? then Goto(w, t, Seeking(cmd, offset)).(lock := Some(t)) else w
      case AdjustOffset(t) => if pc.Seeking? then SeekStep(w, t) else w
      case StartLlseek(t, shift, whence) =>
        if pc.Idle? && w.lock.None? && !whence.OtherWhence?
        then Goto(w, t, Sizing(shift, whence)).(lock := Some(t)) else w
      case ReadSize(t) => if pc.Sizing? then SizeStep(w, t) else w
  }

  function StageStep(w: World, t: nat, data: Bytes, a: nat): World
    requires t in w.handles
  {
    var (h, p) := Kmalloc(w.core.heap, a, data);
    Goto(w, t, Staged(data, p)).(core := w.core.(heap := h))
  }

  /** A complete write frees its staging buffer when interrupted; a partial one abandons it. */
  function InterruptStep(w: World, t: nat): World
    requires t in w.handles && w.handles[t].pc.Staged?
  {
    var pc := w.handles[t].pc;
    var h := if Complete(pc.data) then Kfree(w.core.heap, pc.buf) else w.core.heap;
    Goto(w, t, Idle).(core := w.core.(heap := h))
  }

  function AcquireStep(w: World, t: nat): World
    requires t in w.handles && w.handles[t].pc.Staged?
  {
    var pc := w.handles[t].pc;
    Goto(w, t, Locked(pc.data, pc.buf)).(lock := Some(t))
  }

  function ReleaseStep(w: World, t: nat): World
    requires t in w.handles && w.handles[t].pc.Leaving?
  {
    var pc := w.handles[t].pc;
    Goto(w, t, Left(pc.rm, pc.to)).(lock := None)
  }

  function MergeStep(w: World, t: nat, a: nat): World
    requires t in w.handles && w.handles[t].pc.Locked?
  {
    var pc := w.handles[t].pc;
    if w.core.part == Null then Goto(w, t, Ready(pc.data, pc.buf, 0))
    else
      var total := w.core.partSize + |pc.data|;
      var (h, p) := HandlePartialData(w.core.heap, w.core.part, w.core.partSize, pc.buf, total, a);
      Goto(w, t, Ready(pc.data, p, total)).(core := w.core.(heap := h, part := Null, partSize := 0))
  }

  function AppendStep(w: World, t: nat, a: nat): World
    requires t in w.handles && w.handles[t].pc.Locked?
  {
    var pc := w.handles[t].pc;
    var total := w.core.partSize + |pc.data|;
    var (h, p) := HandlePartialData(w.core.heap, w.core.part, w.core.partSize, pc.buf, total, a);
    Goto(w, t, Leaving(Null, w.handles[t].pos))
      .(core := w.core.(heap := h, part := p, partSize := total), log := w.log + [pc.data])
  }

  function CommitStep(w: World, t: nat): World
    requires t in w.handles && w.handles[t].pc.Ready? && w.capacity >= 1
  {
    var pc := w.handles[t].pc;
    var size := if pc.total != 0 then pc.total else |pc.data|;
    Goto(w, t, Leaving(Evicted(w.core.added, w.capacity), w.handles[t].pos + size))
      .(core := w.core.(added := w.core.added + [Entry(pc.buf, size)]), log := w.log + [pc.data],
        stored := w.stored + [Load(w.core.heap, pc.buf, 0, size)])
  }

  function FinishStep(w: World, t: nat): World
    requires t in w.handles && w.handles[t].pc.Left?
  {
    var pc := w.handles[t].pc;
    w.(core := w.core.(heap := Kfree(w.core.heap, pc.rm)), handles := w.handles[t := Handle(pc.to, Idle)])
  }

  function Lookup(w: World, t: nat): Pc
    requires t in w.handles
  {
    var live := Window(w.core.added, w.capacity);
    match CFind(EntrySizes(live), w.handles[t].pos)
    case None => NotFound
    case Some(p) => if p.index < |live| then Found(live[p.index], p.offset) else NotFound
  }

  function CopyStep(w: World, t: nat): World
    requires t in w.handles && (w.handles[t].pc.Found? || w.handles[t].pc.NotFound?)
  {
    var Handle(pos, pc) := w.handles[t];
    if pc.NotFound? then
      Goto(w, t, Leaving(Null, pos)).(served := w.served + [ReadRecord(t, |w.log|, pos, [])])
    else
      var p, to := pc.entry.buffptr, pc.entry.size;
      var data := Load(w.core.heap, p, pc.offset, to);
      w.(core := w.core.(heap := Touch(w.core.heap, p, pc.offset, to)),
         handles := w.handles[t := Handle(pos + |data|, Leaving(Null, pos + |data|))],
         served := w.served + [ReadRecord(t, |w.log|, pos, data)])
  }

  function LiveSizes(w: World): seq<nat> {
    EntrySizes(Window(w.core.added, w.capacity))
  }

  /** The command seek sets the position before it releases the lock. */
  function SeekStep(w: World, t: nat): World
    requires t in w.handles && w.handles[t].pc.Seeking?
  {
    var Handle(pos, pc) := w.handles[t];
    var (ret, to) := Seek(LiveSizes(w), pos, pc.cmd, pc.offset);
    w.(handles := w.handles[t := Handle(to, Leaving(Null, to))],
       served := w.served + [SeekRecord(t, |w.log|, pos, pc.cmd, pc.offset, ret, to)])
  }

  /** The seek by bytes reads the cached size under the lock, and moves the handle after releasing it. */
  function SizeStep(w: World, t: nat): World
    requires t in w.handles && w.handles[t].pc.Sizing?
  {
    var Handle(pos, pc) := w.handles[t];
    var (ret, to) := FixedSizeLlseek(pos, pc.shift, pc.whence, Total(LiveSizes(w)) % TWO32);
    Goto(w, t, Leaving(Null, to)).(served := w.served + [LlseekRecord(t, |w.log|, pos, pc.shift, pc.whence, ret, to)])
  }

  function Run(w: World, events: seq<Event>): World {
    if events == [] then w else Step(Run(w, events[..|events| - 1]), events[|events| - 1])
  }

  function Boot(capacity: nat): World {
    World(capacity, Core(Heap(map[], false), [], Null, 0), None, map[], [], [], [])
  }

  /** The device that the committed writes, taken one at a time, would have produced. */
  function Dev(w: World): Device {
    WriteAll(EMPTY, w.log)
  }

  // ---------------------------------------------------------------- the invariant

  /** Whoever may hold a pointer to a block: a live ring entry, the partial buffer, a call in progress. */
  datatype Holder = InRing(i: nat) | InPart | InCall(t: nat)

  function Carried(pc: Pc): Ptr {
    match pc
    case Staged(_, buf) => buf
    case Locked(_, buf) => buf
    case Ready(_, buf, _) => buf
    case Leaving(rm, _) => rm
    case Left(rm, _) => rm
    case _ => Null
  }

  predicate HoldsLock(pc: Pc) {
    pc.Locked? || pc.Ready? || pc.Leaving? || pc.Reading? || pc.Found? || pc.NotFound? ||
    pc.Seeking? || pc.Sizing?
  }

  function PtrOf(w: World, h: Holder): Ptr {
    match h
    case InRing(i) => if i < |w.core.added| <= i + w.capacity then w.core.added[i].buffptr else Null
    case InPart => w.core.part
    case InCall(t) => if t in w.handles then Carried(w.handles[t].pc) else Null
  }

  /** The bytes a holder counts on finding in its block. */
  function Expected(w: World, h: Holder): Option<Bytes> {
    match h
    case InRing(i) => if i < |Dev(w).cmds| then Some(Dev(w).cmds[i]) else None
    case InPart => Dev(w).pending
    case InCall(t) =>
      if t !in w.handles then None
      else match w.handles[t].pc
           case Staged(data, _) => Some(data)
           case Locked(data, _) => Some(data)
           case Ready(data, _, _) => Some(Pending(Dev(w)) + data)
           case _ => None
  }

  /** Every pointer held is allocated and its block holds what is expected of it. */
  ghost predicate Allocated(w: World) {
    forall h :: PtrOf(w, h).At? ==>
      var a := PtrOf(w, h).addr;
      a in w.core.heap.blocks && (Expected(w, h).Some? ==> w.core.heap.blocks[a] == Expected(w, h).value)
  }

  /** No block is held twice. */
  ghost predicate Distinct(w: World) {
    forall h1, h2 :: PtrOf(w, h1).At? && PtrOf(w, h1) == PtrOf(w, h2) ==> h1 == h2
  }

  ghost predicate LockDiscipline(w: World) {
    && (w.lock.Some? ==> w.lock.value in w.handles)
    && forall t :: t in w.handles ==> (HoldsLock(w.handles[t].pc) <==> w.lock == Some(t))
  }

  ghost predicate RingMatches(w: World) {
    && w.stored == Dev(w).cmds
    && |w.core.added| == |Dev(w).cmds|
    && forall i :: 0 <= i < |w.core.added| ==>
         w.core.added[i].buffptr.At? && w.core.added[i].size == |Dev(w).cmds[i]|
  }

  /** A writer has taken over the pending data and not yet committed it. */
  ghost predicate TakenOver(w: World) {
    w.lock.Some? && w.lock.value in w.handles && w.handles[w.lock.value].pc.Ready?
  }

  ghost predicate PartMatches(w: World) {
    if TakenOver(w) then w.core.part == Null && w.core.partSize == 0
    else
      && (w.core.part == Null <==> Dev(w).pending == None)
      && w.core.partSize == |Pending(Dev(w))|
      && (w.core.part == ZeroSize ==> Pending(Dev(w)) == [])
  }

  ghost predicate CallMatches(w: World, t: nat)
    requires t in w.handles
  {
    match w.handles[t].pc
    case Staged(data, buf) => buf != Null && (buf == ZeroSize ==> data == [])
    case Locked(data, buf) => buf != Null && (buf == ZeroSize ==> data == [])
    case Ready(data, buf, total) =>
      buf.At? && Complete(data) && (if total != 0 then total else |data|) == |Pending(Dev(w)) + data|
    case Found(_, _) => w.handles[t].pc == Lookup(w, t)
    case NotFound => w.handles[t].pc == Lookup(w, t)
    case _ => true
  }

  /** What the sequential device `d` answers to the call recorded. */
  ghost predicate Answers(d: Device, capacity: nat, r: Record) {
    match r
    case ReadRecord(_, _, pos, data) => data == ReadAt(d, capacity, pos)
    case SeekRecord(_, _, pos, cmd, offset, ret, newPos) =>
      (ret, newPos) == Seek(Sizes(Live(d, capacity)), pos, cmd, offset)
    case LlseekRecord(_, _, pos, shift, whence, ret, newPos) =>
      (ret, newPos) == FixedSizeLlseek(pos, shift, whence, CachedSize(d, capacity))
  }

  /** Every read and seek so far was answered as by the device after the commits that preceded it. */
  ghost predicate ServedMatch(w: World) {
    forall k :: 0 <= k < |w.served| ==>
      var r := w.served[k];
      r.commits <= |w.log| && Answers(WriteAll(EMPTY, w.log[..r.commits]), w.capacity, r)
  }

  /** Memory safety so far, and what guarantees it from here on. */
  ghost predicate Owns(w: World) {
    !w.core.heap.fault && Allocated(w) && Distinct(w)
  }

  /** The shared fields and the calls in progress agree with the history. */
  ghost predicate Tracks(w: World) {
    && w.capacity >= 1
    && LockDiscipline(w)
    && RingMatches(w)
    && PartMatches(w)
    && (forall t :: t in w.handles ==> CallMatches(w, t))
    && ServedMatch(w)
  }

  ghost predicate Inv(w: World) {
    Owns(w) && Tracks(w)
  }

  // ---------------------------------------------------------------- preservation

  /** A step of `t` that leaves the shared fields and the histories alone disturbs no other call. */
  lemma {:induction false} QuietTracks(w: World, w': World, t: nat)
    requires Tracks(w) && t in w.handles && t in w'.handles
    requires w' == w.(core := w'.core, lock := w'.lock, handles := w.handles[t := w'.handles[t]])
    requires w'.core == w.core.(heap := w'.core.heap)
    requires LockDiscipline(w') && CallMatches(w', t)
    requires TakenOver(w') == TakenOver(w)
    ensures Tracks(w')
  {
    forall u | u in w'.handles ensures CallMatches(w', u) {
      assert u != t ==> CallMatches(w, u);
    }
  }

  /** Holders other than `h0` keep what they had or drop it. */
  ghost predicate OthersKeepOrDrop(w: World, w': World, h0: Holder) {
    forall h :: h != h0 ==>
      PtrOf(w', h) == Null || (PtrOf(w', h) == PtrOf(w, h) && Expected(w', h) == Expected(w, h))
  }

  /** `h0` may get a newly allocated block, and one block that nobody holds any longer may be freed. */
  lemma {:induction false} OwnsWithNew(w: World, w': World, h0: Holder, freed: Ptr)
    requires Owns(w) && !w'.core.heap.fault && OthersKeepOrDrop(w, w', h0)
    requires PtrOf(w', h0).At? ==> PtrOf(w', h0).addr !in w.core.heap.blocks
    requires PtrOf(w', h0).At? && Expected(w', h0).Some? ==>
               BlockIs(w'.core.heap, PtrOf(w', h0), Expected(w', h0).value)
    requires PtrOf(w', h0).At? ==> PtrOf(w', h0).addr in w'.core.heap.blocks
    requires forall x :: x in w.core.heap.blocks && At(x) != freed ==>
               x in w'.core.heap.blocks && w'.core.heap.blocks[x] == w.core.heap.blocks[x]
    requires freed.At? ==> forall h :: h != h0 ==> PtrOf(w', h) != freed
    ensures Owns(w')
  {
    forall h | PtrOf(w', h).At? && h != h0
      ensures PtrOf(w', h) == PtrOf(w, h) && PtrOf(w, h).addr in w.core.heap.blocks
    {
    }
  }

  /** A pointer passes from one holder to another that held none. */
  lemma {:induction false} OwnsMoved(w: World, w': World, from: Holder, to: Holder)
    requires Owns(w) && w'.core.heap == w.core.heap && from != to
    requires PtrOf(w', from) == Null && PtrOf(w', to) == PtrOf(w, from) && Expected(w', to) == Expected(w, from)
    requires forall h :: h != from && h != to ==> PtrOf(w', h) == PtrOf(w, h) && Expected(w', h) == Expected(w, h)
    ensures Owns(w')
  {
  }

  lemma {:induction false} OpenKeeps(w: World, t: nat)
    requires Inv(w) && t !in w.handles
    ensures Inv(Step(w, Open(t)))
  {
    var w' := Step(w, Open(t));
    assert forall h :: PtrOf(w', h) == PtrOf(w, h);
  }

  lemma {:induction false} SetPosKeeps(w: World, t: nat, pos: nat)
    requires Inv(w) && t in w.handles && w.handles[t].pc.Idle?
    ensures Inv(Step(w, SetPos(t, pos)))
  {
    var w' := Step(w, SetPos(t, pos));
    assert forall h :: PtrOf(w', h) == PtrOf(w, h);
  }

  lemma {:induction false} StageKeeps(w: World, t: nat, data: Bytes, a: nat)
    requires Inv(w) && t in w.handles && w.handles[t].pc.Idle? && a !in w.core.heap.blocks
    ensures Inv(StageStep(w, t, data, a))
  {
    var w' := StageStep(w, t, data, a);
    QuietTracks(w, w', t);
    OwnsWithNew(w, w', InCall(t), Null);
  }

  lemma {:induction false} InterruptKeeps(w: World, t: nat)
    requires Inv(w) && t in w.handles && w.handles[t].pc.Staged?
    ensures Inv(InterruptStep(w, t))
  {
    var w' := InterruptStep(w, t);
    QuietTracks(w, w', t);
    assert PtrOf(w, InCall(t)) == w.handles[t].pc.buf;
    OwnsWithNew(w, w', InCall(t), if Complete(w.handles[t].pc.data) then w.handles[t].pc.buf else Null);
  }

  lemma {:induction false} AcquireKeeps(w: World, t: nat)
    requires Inv(w) && t in w.handles && w.handles[t].pc.Staged? && w.lock.None?
    ensures Inv(AcquireStep(w, t))
  {
    var w' := AcquireStep(w, t);
    assert forall h :: PtrOf(w', h) == PtrOf(w, h) && Expected(w', h) == Expected(w, h);
  }

  lemma {:induction false} ReleaseKeeps(w: World, t: nat)
    requires Inv(w) && t in w.handles && w.handles[t].pc.Leaving?
    ensures Inv(ReleaseStep(w, t))
  {
    var w' := ReleaseStep(w, t);
    assert forall h :: PtrOf(w', h) == PtrOf(w, h) && Expected(w', h) == Expected(w, h);
  }

  lemma {:induction false} FinishKeeps(w: World, t: nat)
    requires Inv(w) && t in w.handles && w.handles[t].pc.Left?
    ensures Inv(FinishStep(w, t))
  {
    var w' := FinishStep(w, t);
    QuietTracks(w, w', t);
    assert PtrOf(w, InCall(t)) == w.handles[t].pc.rm;
    OwnsWithNew(w, w', InCall(t), w.handles[t].pc.rm);
  }

  /** An idle handle takes the lock for a read or a seek. */
  lemma {:induction false} StartKeeps(w: World, t: nat, pc: Pc)
    requires Inv(w) && t in w.handles && w.handles[t].pc.Idle? && w.lock.None?
    requires pc.Reading? || pc.Seeking? || pc.Sizing?
    ensures Inv(Goto(w, t, pc).(lock := Some(t)))
  {
    var w' := Goto(w, t, pc).(lock := Some(t));
    assert forall h :: PtrOf(w', h) == PtrOf(w, h) && Expected(w', h) == Expected(w, h);
  }

  lemma {:induction false} FindKeeps(w: World, t: nat)
    requires Inv(w) && t in w.handles && w.handles[t].pc.Reading?
    ensures Inv(Step(w, Find(t)))
  {
    var w' := Step(w, Find(t));
    assert forall h :: PtrOf(w', h) == PtrOf(w, h) && Expected(w', h) == Expected(w, h);
  }

  /** The block at `p` holds exactly `content`. */
  ghost predicate BlockIs(h: Heap, p: Ptr, content: Bytes) {
    match p
    case At(a) => a in h.blocks && h.blocks[a] == content
    case ZeroSize => content == []
    case Null => false
  }

  /** Growing the partial buffer joins the two contents, touches only allocated memory and frees the old buffer. */
  lemma {:induction false} PartialDataJoins(h: Heap, part: Ptr, prior: Bytes, buf: Ptr, data: Bytes, a: nat)
    requires BlockIs(h, part, prior) && BlockIs(h, buf, data) && a !in h.blocks
    ensures var (h', p) := HandlePartialData(h, part, |prior|, buf, |prior| + |data|, a);
            && h'.fault == h.fault
            && BlockIs(h', p, prior + data)
            && (p == At(a) || p == ZeroSize)
            && h'.blocks == (if prior + data == [] then h.blocks else h.blocks[a := prior + data])
                            - (if part.At? then {part.addr} else {})
  {
    assert Load(h, part, 0, |prior|) == prior;
    assert Load(h, buf, 0, |data|) == data;
  }

  /** What a writer can rely on while it holds the lock. */
  ghost predicate Grasps(w: World, t: nat) {
    && t in w.handles && w.handles[t].pc.Locked?
    && BlockIs(w.core.heap, w.handles[t].pc.buf, w.handles[t].pc.data)
    && (w.core.part != Null ==> BlockIs(w.core.heap, w.core.part, Pending(Dev(w))))
    && w.core.partSize == |Pending(Dev(w))|
    && (w.core.part == Null <==> Dev(w).pending == None)
    && forall u :: u in w.handles && u != t ==> !HoldsLock(w.handles[u].pc)
  }

  lemma {:induction false} WriterGrasps(w: World, t: nat)
    requires Inv(w) && t in w.handles && w.handles[t].pc.Locked?
    ensures Grasps(w, t)
  {
    assert PtrOf(w, InCall(t)) == w.handles[t].pc.buf;
    assert PtrOf(w, InPart) == w.core.part;
    assert CallMatches(w, t) && w.lock == Some(t);
  }

  lemma {:induction false} MergeOwns(w: World, t: nat, a: nat)
    requires Owns(w) && Grasps(w, t) && Complete(w.handles[t].pc.data)
    requires a !in w.core.heap.blocks
    ensures Owns(MergeStep(w, t, a)) && MergeStep(w, t, a).handles[t].pc.buf.At?
  {
    var w', pc := MergeStep(w, t, a), w.handles[t].pc;
    if w.core.part == Null {
      assert Pending(Dev(w)) + pc.data == pc.data;
      assert forall h :: PtrOf(w', h) == PtrOf(w, h) && Expected(w', h) == Expected(w, h);
    } else {
      PartialDataJoins(w.core.heap, w.core.part, Pending(Dev(w)), pc.buf, pc.data, a);
      assert PtrOf(w, InPart) == w.core.part && PtrOf(w', InPart) == Null;
      OwnsWithNew(w, w', InCall(t), w.core.part);
    }
  }

  lemma {:induction false} MergeKeeps(w: World, t: nat, a: nat)
    requires Inv(w) && t in w.handles && w.handles[t].pc.Locked? && Complete(w.handles[t].pc.data)
    requires a !in w.core.heap.blocks
    ensures Inv(MergeStep(w, t, a))
  {
    WriterGrasps(w, t);
    MergeOwns(w, t, a);
  }

  /** Adding to the pending data concerns no holder but the writer and the partial buffer. */
  lemma {:induction false} AppendOthers(w: World, t: nat, a: nat, h: Holder)
    requires Grasps(w, t) && !Complete(w.handles[t].pc.data) && h != InCall(t) && h != InPart
    ensures var w' := AppendStep(w, t, a); PtrOf(w', h) == PtrOf(w, h) && Expected(w', h) == Expected(w, h)
  {
    WriteAllPlus(EMPTY, w.log, w.handles[t].pc.data);
  }

  /** The first piece of a command: its staging buffer becomes the partial buffer. */
  lemma {:induction false} AppendFirstOwns(w: World, t: nat, a: nat)
    requires Owns(w) && Grasps(w, t) && !Complete(w.handles[t].pc.data) && w.core.part == Null
    ensures Owns(AppendStep(w, t, a))
  {
    var w', pc := AppendStep(w, t, a), w.handles[t].pc;
    assert Expected(w', InPart) == Some(pc.data) by {
      WriteAllPlus(EMPTY, w.log, pc.data);
      assert Pending(Dev(w)) + pc.data == pc.data;
    }
    forall h | h != InCall(t) && h != InPart
      ensures PtrOf(w', h) == PtrOf(w, h) && Expected(w', h) == Expected(w, h)
    {
      AppendOthers(w, t, a, h);
    }
    OwnsMoved(w, w', InCall(t), InPart);
  }

  /** A further piece: old buffer and piece are joined in a new one, and the old buffer freed. */
  lemma {:induction false} AppendMoreOwns(w: World, t: nat, a: nat)
    requires Owns(w) && Grasps(w, t) && !Complete(w.handles[t].pc.data)
    requires w.core.part != Null && a !in w.core.heap.blocks
    ensures Owns(AppendStep(w, t, a))
  {
    var w', pc := AppendStep(w, t, a), w.handles[t].pc;
    assert Expected(w', InPart) == Some(Pending(Dev(w)) + pc.data) by {
      WriteAllPlus(EMPTY, w.log, pc.data);
    }
    PartialDataJoins(w.core.heap, w.core.part, Pending(Dev(w)), pc.buf, pc.data, a);
    assert OthersKeepOrDrop(w, w', InPart) by {
      forall h | h != InCall(t) && h != InPart
        ensures PtrOf(w', h) == PtrOf(w, h) && Expected(w', h) == Expected(w, h)
      {
        AppendOthers(w, t, a, h);
      }
      assert PtrOf(w', InCall(t)) == Null;
    }
    assert PtrOf(w', InPart) == w'.core.part && PtrOf(w, InPart) == w.core.part;
    OwnsWithNew(w, w', InPart, w.core.part);
  }

  /** Either way the partial buffer now holds the grown pending data. */
  lemma {:induction false} AppendHolds(w: World, t: nat, a: nat)
    requires Grasps(w, t) && a !in w.core.heap.blocks
    ensures var w' := AppendStep(w, t, a);
            BlockIs(w'.core.heap, w'.core.part, Pending(Dev(w)) + w.handles[t].pc.data)
  {
    var pc := w.handles[t].pc;
    if w.core.part != Null {
      PartialDataJoins(w.core.heap, w.core.part, Pending(Dev(w)), pc.buf, pc.data, a);
    } else {
      assert Pending(Dev(w)) + pc.data == pc.data;
    }
  }

  lemma {:induction false} ServedStand(w: World, w': World)
    requires ServedMatch(w) && w'.capacity == w.capacity && w'.served == w.served && w.log <= w'.log
    ensures ServedMatch(w')
  {
    forall k | 0 <= k < |w'.served| ensures w'.log[..w.served[k].commits] == w.log[..w.served[k].commits] {
    }
  }

  lemma {:induction false} AppendKeeps(w: World, t: nat, a: nat)
    requires Inv(w) && t in w.handles && w.handles[t].pc.Locked? && !Complete(w.handles[t].pc.data)
    requires a !in w.core.heap.blocks
    ensures Inv(AppendStep(w, t, a))
  {
    WriterGrasps(w, t);
    if w.core.part == Null {
      AppendFirstOwns(w, t, a);
    } else {
      AppendMoreOwns(w, t, a);
    }
    AppendHolds(w, t, a);
    WriteAllPlus(EMPTY, w.log, w.handles[t].pc.data);
    ServedStand(w, AppendStep(w, t, a));
  }

  lemma {:induction false} CommitOwns(w: World, t: nat)
    requires Inv(w) && t in w.handles && w.handles[t].pc.Ready?
    ensures Owns(CommitStep(w, t))
  {
    var w', pc := CommitStep(w, t), w.handles[t].pc;
    WriteAllPlus(EMPTY, w.log, pc.data);
    var n := |w.core.added|;
    assert PtrOf(w, InCall(t)) == pc.buf == PtrOf(w', InRing(n));
    if n >= w.capacity {
      assert PtrOf(w, InRing(n - w.capacity)) == PtrOf(w', InCall(t));
    }
    assert forall h :: h != InCall(t) && h != InRing(n) && PtrOf(w', h) != Null ==>
      PtrOf(w', h) == PtrOf(w, h) && Expected(w', h) == Expected(w, h);
  }

  /** The entry added holds, in memory, the pending data and the write that completes it. */
  lemma {:induction false} CommitStores(w: World, t: nat)
    requires Inv(w) && t in w.handles && w.handles[t].pc.Ready?
    ensures CommitStep(w, t).stored == w.stored + [Pending(Dev(w)) + w.handles[t].pc.data]
  {
    var pc, command := w.handles[t].pc, Pending(Dev(w)) + w.handles[t].pc.data;
    assert CallMatches(w, t) && PtrOf(w, InCall(t)) == pc.buf;
    assert w.core.heap.blocks[pc.buf.addr] == command;
    assert command[0..|command|] == command;
  }

  lemma {:induction false} CommitKeeps(w: World, t: nat)
    requires Inv(w) && t in w.handles && w.handles[t].pc.Ready?
    ensures Inv(CommitStep(w, t))
  {
    CommitOwns(w, t);
    CommitStores(w, t);
    WriteAllPlus(EMPTY, w.log, w.handles[t].pc.data);
    ServedStand(w, CommitStep(w, t));
  }

  /** A live entry's block is allocated and holds that command. */
  lemma {:induction false} LiveEntry(w: World, i: nat)
    requires Inv(w) && i < |Window(w.core.added, w.capacity)|
    ensures var live, cmds := Window(w.core.added, w.capacity), Live(Dev(w), w.capacity);
            && |live| == |cmds|
            && live[i].buffptr.At? && live[i].size == |cmds[i]|
            && BlockIs(w.core.heap, live[i].buffptr, cmds[i])
  {
    var live, cmds := Window(w.core.added, w.capacity), Live(Dev(w), w.capacity);
    var at := |w.core.added| - |live| + i;
    assert live[i] == w.core.added[at] && cmds[i] == Dev(w).cmds[at];
    assert PtrOf(w, InRing(at)) == live[i].buffptr;
    assert Expected(w, InRing(at)) == Some(cmds[i]);
  }

  /** And it belongs to nobody else. */
  lemma {:induction false} LiveEntryAlone(w: World, i: nat)
    requires Inv(w) && i < |Window(w.core.added, w.capacity)|
    ensures var live := Window(w.core.added, w.capacity);
            && live[i].buffptr != w.core.part
            && (forall j :: 0 <= j < |live| && j != i ==> live[j].buffptr != live[i].buffptr)
  {
    var live := Window(w.core.added, w.capacity);
    var base := |w.core.added| - |live|;
    assert PtrOf(w, InRing(base + i)) == live[i].buffptr && PtrOf(w, InPart) == w.core.part;
    forall j | 0 <= j < |live| && j != i ensures live[j].buffptr != live[i].buffptr {
      assert PtrOf(w, InRing(base + j)) == live[j].buffptr;
    }
  }

  lemma {:induction false} LiveSizesMatch(w: World)
    requires Inv(w)
    ensures EntrySizes(Window(w.core.added, w.capacity)) == Sizes(Live(Dev(w), w.capacity))
  {
  }

  /** The entry a reader has found is allocated, and copying it delivers what the device holds at its position. */
  lemma {:induction false} CopyDelivers(w: World, t: nat)
    requires Inv(w) && t in w.handles && w.handles[t].pc.Found?
    ensures var pc := w.handles[t].pc;
            && Readable(w.core.heap, pc.entry.buffptr, pc.offset, pc.entry.size)
            && Load(w.core.heap, pc.entry.buffptr, pc.offset, pc.entry.size)
               == ReadAt(Dev(w), w.capacity, w.handles[t].pos) != []
  {
    assert CallMatches(w, t);
    LiveSizesMatch(w);
    var sizes := EntrySizes(Window(w.core.added, w.capacity));
    CFindInRange(sizes, 0, ToInt32(w.handles[t].pos));
    LiveEntry(w, CFind(sizes, w.handles[t].pos).value.index);
  }

  lemma {:induction false} CopyOwns(w: World, t: nat)
    requires Inv(w) && t in w.handles && (w.handles[t].pc.Found? || w.handles[t].pc.NotFound?)
    ensures Owns(CopyStep(w, t))
  {
    var w' := CopyStep(w, t);
    if w.handles[t].pc.Found? {
      CopyDelivers(w, t);
    }
    assert forall h :: PtrOf(w', h) == PtrOf(w, h) && Expected(w', h) == Expected(w, h);
  }

  /** A call served now is judged by the device as it is now. */
  lemma {:induction false} ServedMore(w: World, w': World, r: Record)
    requires ServedMatch(w) && w' == w.(core := w'.core, handles := w'.handles, served := w.served + [r])
    requires r.commits == |w.log| && Answers(Dev(w), w.capacity, r)
    ensures ServedMatch(w')
  {
    assert w.log[..|w.log|] == w.log;
    forall k | 0 <= k < |w'.served|
      ensures w'.served[k].commits <= |w.log| &&
              Answers(WriteAll(EMPTY, w.log[..w'.served[k].commits]), w.capacity, w'.served[k])
    {
      assert k < |w.served| ==> w'.served[k] == w.served[k];
    }
  }

  lemma {:induction false} CopyKeeps(w: World, t: nat)
    requires Inv(w) && t in w.handles && (w.handles[t].pc.Found? || w.handles[t].pc.NotFound?)
    ensures Inv(CopyStep(w, t))
  {
    CopyOwns(w, t);
    if w.handles[t].pc.Found? {
      CopyDelivers(w, t);
    } else {
      NothingToDeliver(w, t);
    }
    var w' := CopyStep(w, t);
    ServedMore(w, w', w'.served[|w.served|]);
    QuietTracks(w, w'.(served := w.served), t);
  }

  lemma {:induction false} SizesAnswer(w: World)
    requires Inv(w)
    ensures LiveSizes(w) == Sizes(Live(Dev(w), w.capacity))
    ensures Total(LiveSizes(w)) == |File(Dev(w), w.capacity)|
  {
    LiveSizesMatch(w);
    TotalIsLength(Live(Dev(w), w.capacity));
  }

  /** The world in which seek `t` has been answered as `r` says, its handle standing at `pos`. */
  function SeekServed(w: World, t: nat, pos: nat, r: Record): World {
    w.(handles := w.handles[t := Handle(pos, Leaving(Null, if r.ReadRecord? then pos else r.newPos))],
       served := w.served + [r])
  }

  lemma {:induction false} SeekServedOwns(w: World, t: nat, pos: nat, r: Record)
    requires Owns(w) && t in w.handles && (w.handles[t].pc.Seeking? || w.handles[t].pc.Sizing?)
    ensures Owns(SeekServed(w, t, pos, r))
  {
    var w' := SeekServed(w, t, pos, r);
    forall h ensures PtrOf(w', h) == PtrOf(w, h) && (PtrOf(w, h).At? ==> Expected(w', h) == Expected(w, h)) {
    }
  }

  lemma {:induction false} SeekServedTracks(w: World, t: nat, pos: nat, r: Record)
    requires Tracks(w) && t in w.handles && (w.handles[t].pc.Seeking? || w.handles[t].pc.Sizing?)
    requires r.commits == |w.log| && Answers(Dev(w), w.capacity, r)
    ensures Tracks(SeekServed(w, t, pos, r))
  {
    var w' := SeekServed(w, t, pos, r);
    ServedMore(w, w', r);
    QuietTracks(w, w'.(served := w.served), t);
  }

  lemma {:induction false} SeekKeeps(w: World, t: nat)
    requires Inv(w) && t in w.handles && w.handles[t].pc.Seeking?
    ensures Inv(SeekStep(w, t))
  {
    var r := SeekStep(w, t).served[|w.served|];
    SizesAnswer(w);
    SeekServedOwns(w, t, r.newPos, r);
    SeekServedTracks(w, t, r.newPos, r);
  }

  lemma {:induction false} SizeKeeps(w: World, t: nat)
    requires Inv(w) && t in w.handles && w.handles[t].pc.Sizing?
    ensures Inv(SizeStep(w, t))
  {
    var r := SizeStep(w, t).served[|w.served|];
    SizesAnswer(w);
    SeekServedOwns(w, t, w.handles[t].pos, r);
    SeekServedTracks(w, t, w.handles[t].pos, r);
  }

  lemma {:induction false} NothingToDeliver(w: World, t: nat)
    requires Inv(w) && t in w.handles && w.handles[t].pc.NotFound?
    ensures ReadAt(Dev(w), w.capacity, w.handles[t].pos) == []
  {
    assert CallMatches(w, t);
    LiveSizesMatch(w);
    CFindInRange(EntrySizes(Window(w.core.added, w.capacity)), 0, ToInt32(w.handles[t].pos));
  }

  lemma {:induction false} StepKeeps(w: World, e: Event)
    requires Inv(w)
    ensures Inv(Step(w, e))
  {
    if Step(w, e) != w {
      match e
      case Open(t) => OpenKeeps(w, t);
      case SetPos(t, pos) => SetPosKeeps(w, t, pos);
      case Stage(t, data, a) => StageKeeps(w, t, data, a);
      case Interrupt(t) => InterruptKeeps(w, t);
      case Acquire(t) => AcquireKeeps(w, t);
      case Merge(t, a) => MergeKeeps(w, t, a);
      case Append(t, a) => AppendKeeps(w, t, a);
      case Commit(t) => CommitKeeps(w, t);
      case Release(t) => ReleaseKeeps(w, t);
      case Finish(t) => FinishKeeps(w, t);
      case StartRead(t) => StartKeeps(w, t, Reading);
      case StartSeek(t, cmd, offset) => StartKeeps(w, t, Seeking(cmd, offset));
      case StartLlseek(t, shift, whence) => StartKeeps(w, t, Sizing(shift, whence));
      case AdjustOffset(t) => SeekKeeps(w, t);
      case ReadSize(t) => SizeKeeps(w, t);
      case Find(t) => FindKeeps(w, t);
      case Copy(t) => CopyKeeps(w, t);
    }
  }

  lemma {:induction false} RunKeeps(w: World, events: seq<Event>)
    requires Inv(w)
    ensures Inv(Run(w, events))
  {
    if events != [] {
      RunKeeps(w, events[..|events| - 1]);
      StepKeeps(Run(w, events[..|events| - 1]), events[|events| - 1]);
    }
  }

  lemma {:induction false} RunThen(w: World, events: seq<Event>, e: Event)
    ensures Run(w, events + [e]) == Step(Run(w, events), e)
  {
    assert (events + [e])[..|events|] == events;
  }

  lemma {:induction false} RunOne(w: World, e: Event)
    ensures Run(w, [e]) == Step(w, e)
  {
    assert [e][..0] == [];
  }

  lemma {:induction false} RunTwo(w: World, e: Event, f: Event)
    ensures Run(w, [e, f]) == Step(Step(w, e), f)
  {
    RunOne(w, e);
    assert [e, f][..1] == [e];
  }

  lemma {:induction false} RunPlus(w: World, a: seq<Event>, b: seq<Event>)
    ensures Run(w, a + b) == Run(Run(w, a), b)
  {
    if b == [] {
      assert a + b == a;
    } else {
      RunPlus(w, a, b[..|b| - 1]);
      assert (a + b)[..|a + b| - 1] == a + b[..|b| - 1];
    }
  }

  // ---------------------------------------------------------------- what holds in every run

  /** The live entries as they stand in memory. */
  function RingBytes(w: World): (r: seq<Bytes>)
  {
    var live := Window(w.core.added, w.capacity);
    seq(|live|, i requires 0 <= i < |live| => Load(w.core.heap, live[i].buffptr, 0, live[i].size))
  }

  lemma {:induction false} MemoryHoldsDevice(w: World)
    requires Inv(w)
    ensures RingBytes(w) == Live(Dev(w), w.capacity)
    ensures !TakenOver(w) ==> Load(w.core.heap, w.core.part, 0, w.core.partSize) == Pending(Dev(w))
  {
    var live, cmds := Window(w.core.added, w.capacity), Live(Dev(w), w.capacity);
    forall i | 0 <= i < |live| ensures RingBytes(w)[i] == cmds[i] {
      LiveEntry(w, i);
    }
    assert PtrOf(w, InPart) == w.core.part;
  }

  /**
   * Memory safety over every interleaving: no bad free or read has happened, every pointer
   * held by the ring, the partial buffer or a call in progress is allocated, and none is held twice.
   */
  lemma {:induction false} SafeInEveryRun(capacity: nat, events: seq<Event>)
    requires capacity >= 1
    ensures var w := Run(Boot(capacity), events);
            !w.core.heap.fault && Allocated(w) && Distinct(w) && LockDiscipline(w)
  {
    RunKeeps(Boot(capacity), events);
  }

  /** The lock is held by the handle that is neither idle, nor staging, nor past its release; so by one at most. */
  lemma {:induction false} LockMeansBusy(capacity: nat, events: seq<Event>, t: nat)
    requires capacity >= 1
    ensures var w := Run(Boot(capacity), events);
            && (w.lock == Some(t) ==> t in w.handles)
            && (t in w.handles ==>
                  var pc := w.handles[t].pc; (w.lock == Some(t) <==> !pc.Idle? && !pc.Staged? && !pc.Left?))
  {
    RunKeeps(Boot(capacity), events);
  }

  /**
   * Every interleaving is equivalent to doing the committed writes one at a time in lock order:
   * that is what memory holds, and how every read and seek was answered at its place in that order.
   */
  lemma {:induction false} Linearizable(capacity: nat, events: seq<Event>)
    requires capacity >= 1
    ensures var w := Run(Boot(capacity), events);
            && RingBytes(w) == Live(WriteAll(EMPTY, w.log), capacity)
            && (!TakenOver(w) ==>
                  Load(w.core.heap, w.core.part, 0, w.core.partSize) == Pending(WriteAll(EMPTY, w.log)))
            && (forall k :: 0 <= k < |w.served| ==>
                  var r := w.served[k];
                  r.commits <= |w.log| && Answers(WriteAll(EMPTY, w.log[..r.commits]), capacity, r))
  {
    CapacityFixed(Boot(capacity), events);
    RunKeeps(Boot(capacity), events);
    MemoryHoldsDevice(Run(Boot(capacity), events));
  }

  lemma {:induction false} CapacityFixed(w: World, events: seq<Event>)
    ensures Run(w, events).capacity == w.capacity
  {
    if events != [] {
      CapacityFixed(w, events[..|events| - 1]);
    }
  }

  /** Where the data lies that is committed to no entry yet: the partial buffer, or a writer that has taken it over. */
  function Tail(w: World): Bytes {
    if w.lock.Some? && w.lock.value in w.handles && w.handles[w.lock.value].pc.Ready?
    then
      var pc := w.handles[w.lock.value].pc;
      var size := if pc.total != 0 then pc.total else |pc.data|;
      Load(w.core.heap, pc.buf, 0, if size < |pc.data| then 0 else size - |pc.data|)
    else Load(w.core.heap, w.core.part, 0, w.core.partSize)
  }

  lemma {:induction false} TailIsPending(w: World)
    requires Inv(w)
    ensures Tail(w) == Pending(Dev(w))
  {
    MemoryHoldsDevice(w);
    if TakenOver(w) {
      var t := w.lock.value;
      assert CallMatches(w, t) && PtrOf(w, InCall(t)) == w.handles[t].pc.buf;
    }
  }

  /**
   * The bytes each entry held in memory when it was added, evicted entries included, followed by the unfinished
   * data as it lies in memory, are the bytes of all committed writes. No live entry has changed since it was added.
   */
  lemma {:induction false} NothingLost(capacity: nat, events: seq<Event>)
    requires capacity >= 1
    ensures var w := Run(Boot(capacity), events);
            Concat(w.stored) + Tail(w) == Concat(w.log) && RingBytes(w) == Window(w.stored, capacity)
  {
    var w := Run(Boot(capacity), events);
    CapacityFixed(Boot(capacity), events);
    RunKeeps(Boot(capacity), events);
    MemoryHoldsDevice(w);
    TailIsPending(w);
    Conservation(w.log);
  }

  /** Writes take effect one at a time in lock order: only the lock holder extends the log, by what it staged. */
  lemma {:induction false} LogGrowsUnderLock(w: World, e: Event)
    requires Inv(w)
    ensures Step(w, e).log == w.log ||
            (w.lock == Some(e.t) && e.t in w.handles && (e.Commit? || e.Append?) &&
             Carried(w.handles[e.t].pc) != Null &&
             Step(w, e).log == w.log + [w.handles[e.t].pc.data])
  {
    LogGrows(w, e);
    if Step(w, e).log != w.log {
      assert CallMatches(w, e.t);
      assert HoldsLock(w.handles[e.t].pc);
    }
  }

  lemma {:induction false} LogGrows(w: World, e: Event)
    ensures Step(w, e).log == w.log ||
            (e.t in w.handles && Step(w, e).log == w.log + LoggedBy(e, w.handles[e.t].pc))
  {
  }

  /** What a commit or an append logs. */
  function LoggedBy(e: Event, pc: Pc): seq<Bytes> {
    if (e.Commit? && pc.Ready?) || (e.Append? && pc.Locked?) then [pc.data] else []
  }

  /** Where a handle stands, or will stand once its call returns. */
  function PlaceOf(h: Handle): nat {
    if h.pc.Leaving? || h.pc.Left? then h.pc.to else h.pos
  }

  /** The call of `t` is over but for releasing the lock and returning. */
  predicate Returning(h: Handle) {
    h.pc.Leaving? || h.pc.Left? || h.pc.Idle?
  }

  /** Events in which `t` does nothing but return, while others do anything. */
  ghost predicate OnlyReturns(events: seq<Event>, t: nat) {
    forall i :: 0 <= i < |events| && events[i].t == t ==> events[i].Release? || events[i].Finish?
  }

  /** Whatever others do in between, a returning handle ends up where its call sent it. */
  lemma {:induction false} HandleArrives(w: World, t: nat, events: seq<Event>)
    requires t in w.handles && Returning(w.handles[t]) && OnlyReturns(events, t)
    ensures t in Run(w, events).handles
    ensures var h := Run(w, events).handles[t]; Returning(h) && PlaceOf(h) == PlaceOf(w.handles[t])
  {
    if events != [] {
      var init, e := events[..|events| - 1], events[|events| - 1];
      assert OnlyReturns(init, t);
      HandleArrives(w, t, init);
      HandleReturns(Run(w, init), t, e);
    }
  }

  lemma {:induction false} HandleReturns(w: World, t: nat, e: Event)
    requires t in w.handles && Returning(w.handles[t]) && (e.t == t ==> e.Release? || e.Finish?)
    ensures t in Step(w, e).handles
    ensures var h := Step(w, e).handles[t]; Returning(h) && PlaceOf(h) == PlaceOf(w.handles[t])
  {
  }

  /** From its commit on, whatever others do, a complete write moves its handle past the whole command. */
  lemma {:induction false} WriteMovesHandle(w: World, t: nat, events: seq<Event>)
    requires Inv(w) && t in w.handles && w.handles[t].pc.Ready? && OnlyReturns(events, t)
    ensures var w' := Run(CommitStep(w, t), events);
            && t in w'.handles
            && PlaceOf(w'.handles[t]) == w.handles[t].pos + Advance(Dev(w), w.handles[t].pc.data)
            && (w'.handles[t].pc.Idle? ==>
                  w'.handles[t].pos == w.handles[t].pos + Advance(Dev(w), w.handles[t].pc.data))
  {
    assert CallMatches(w, t);
    HandleArrives(CommitStep(w, t), t, events);
  }

  /** A read moves its handle by what it delivered, which is what the device holds there. */
  lemma {:induction false} ReadMovesHandle(w: World, t: nat)
    requires Inv(w) && t in w.handles && (w.handles[t].pc.Found? || w.handles[t].pc.NotFound?)
    ensures CopyStep(w, t).handles[t].pos ==
            w.handles[t].pos + |ReadAt(Dev(w), w.capacity, w.handles[t].pos)|
  {
    if w.handles[t].pc.Found? {
      CopyDelivers(w, t);
    } else {
      NothingToDeliver(w, t);
    }
  }

  /** Where the sequential device sends a handle that seeks. */
  function SeekTarget(d: Device, capacity: nat, h: Handle): nat {
    match h.pc
    case Seeking(cmd, offset) => Seek(Sizes(Live(d, capacity)), h.pos, cmd, offset).1
    case Sizing(shift, whence) => FixedSizeLlseek(h.pos, shift, whence, CachedSize(d, capacity)).1
    case _ => h.pos
  }

  /** From its answer on, whatever others do, a seek moves its handle to where the sequential device would put it. */
  lemma {:induction false} SeekMovesHandle(w: World, t: nat, events: seq<Event>)
    requires Inv(w) && t in w.handles && (w.handles[t].pc.Seeking? || w.handles[t].pc.Sizing?)
    requires OnlyReturns(events, t)
    ensures var w' := Run(if w.handles[t].pc.Seeking? then SeekStep(w, t) else SizeStep(w, t), events);
            && t in w'.handles
            && PlaceOf(w'.handles[t]) == SeekTarget(Dev(w), w.capacity, w.handles[t])
            && (w'.handles[t].pc.Idle? ==> w'.handles[t].pos == SeekTarget(Dev(w), w.capacity, w.handles[t]))
  {
    SizesAnswer(w);
    HandleArrives(if w.handles[t].pc.Seeking? then SeekStep(w, t) else SizeStep(w, t), t, events);
  }

  /** A write interrupted at the lock leaves the device, and every block it holds, as they were. */
  lemma {:induction false} InterruptChangesNothing(w: World, t: nat)
    requires Inv(w)
    ensures var w' := Step(w, Interrupt(t));
            && w'.core.(heap := w.core.heap) == w.core
            && w'.log == w.log && w'.lock == w.lock
            && RingBytes(w') == RingBytes(w)
            && Load(w'.core.heap, w.core.part, 0, w.core.partSize) == Load(w.core.heap, w.core.part, 0, w.core.partSize)
  {
    var w' := Step(w, Interrupt(t));
    StepKeeps(w, Interrupt(t));
    MemoryHoldsDevice(w);
    MemoryHoldsDevice(w');
    if t in w.handles && w.handles[t].pc.Staged? {
      assert PtrOf(w, InCall(t)) == w.handles[t].pc.buf && PtrOf(w, InPart) == w.core.part;
    }
  }

  lemma {:induction false} FreshAddress(blocks: map<nat, Bytes>) returns (a: nat)
    ensures a !in blocks
  {
    a := Beyond(blocks.Keys);
  }

  lemma {:induction false} Beyond(keys: set<nat>) returns (a: nat)
    ensures forall k :: k in keys ==> k < a
    decreases |keys|
  {
    if keys == {} {
      a := 0;
    } else {
      var k :| k in keys;
      var rest := keys - {k};
      a := Beyond(rest);
      a := if a <= k then k + 1 else a;
      assert forall j :: j in keys ==> j == k || j in rest;
    }
  }

  /** Own steps the lock holder still has to take before it releases. */
  function StepsToRelease(pc: Pc): nat {
    match pc
    case Locked(_, _) => 3
    case Reading => 3
    case Ready(_, _, _) => 2
    case Found(_, _) => 2
    case NotFound => 2
    case Seeking(_, _) => 2
    case Sizing(_, _) => 2
    case _ => 1
  }

  /** The lock is never stuck: its holder always has a step of its own that brings it closer to release. */
  lemma {:induction false} HolderAdvances(w: World) returns (e: Event)
    requires Inv(w) && w.lock.Some?
    ensures var t := w.lock.value;
            && e.t == t && t in Step(w, e).handles
            && (Step(w, e).lock == None ||
                (Step(w, e).lock == Some(t) &&
                 StepsToRelease(Step(w, e).handles[t].pc) < StepsToRelease(w.handles[t].pc)))
  {
    var t := w.lock.value;
    var a := FreshAddress(w.core.heap.blocks);
    assert HoldsLock(w.handles[t].pc);
    match w.handles[t].pc
    case Locked(data, _) => e := if Complete(data) then Merge(t, a) else Append(t, a);
    case Ready(_, _, _) => e := Commit(t);
    case Leaving(_, _) => e := Release(t);
    case Reading => e := Find(t);
    case Seeking(_, _) => e := AdjustOffset(t);
    case Sizing(_, _) => e := ReadSize(t);
    case _ => e := Copy(t);
  }

  /** No step of another handle takes the lock away or sets its holder back. */
  lemma {:induction false} OthersCannotDelay(w: World, e: Event)
    requires Inv(w) && w.lock.Some? && e.t != w.lock.value
    ensures var t := w.lock.value;
            Step(w, e).lock == w.lock && t in Step(w, e).handles && Step(w, e).handles[t] == w.handles[t]
  {
    if e.t in w.handles {
      assert !HoldsLock(w.handles[e.t].pc);
    }
  }

  /** The live entries can be freed, each once, without touching the partial buffer. */
  lemma {:induction false} LiveFreeable(w: World)
    requires Inv(w)
    ensures FreeableOnce(w.core.heap, multiset(EntryPtrs(Window(w.core.added, w.capacity))))
    ensures w.core.part !in EntryPtrs(Window(w.core.added, w.capacity))
  {
    var ptrs := EntryPtrs(Window(w.core.added, w.capacity));
    forall i | 0 <= i < |ptrs|
      ensures ptrs[i].At? && ptrs[i].addr in w.core.heap.blocks && ptrs[i] != w.core.part
      ensures forall j :: 0 <= j < |ptrs| && j != i ==> ptrs[j] != ptrs[i]
    {
      LiveEntry(w, i);
      LiveEntryAlone(w, i);
    }
    OnceEach(ptrs);
  }

  lemma {:induction false} OnceEach(ps: seq<Ptr>)
    requires forall i, j :: 0 <= i < j < |ps| ==> ps[i] != ps[j]
    ensures forall p :: p in multiset(ps) ==> p in ps && multiset(ps)[p] == 1
  {
    if ps != [] {
      var init, last := ps[..|ps| - 1], ps[|ps| - 1];
      assert ps == init + [last];
      OnceEach(init);
      assert last !in init;
    }
  }
}

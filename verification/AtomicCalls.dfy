/**
 * The driver as its users would like to see it: every call happens at one moment, on a sequential device that
 * keeps a position for each handle. Every step of the real state machine is such a call or changes nothing there.
 */
module AtomicCalls {
  import opened Sequences
  import opened Positions
  import opened Memory
  import opened DeviceSpec
  import opened Interleaving

  datatype Call =
    | OpenCall(t: nat)
    | PositionCall(t: nat, pos: nat)
    | WriteCall(t: nat, data: Bytes)
    | ReadCall(t: nat)
    | SeekCall(t: nat, cmd: nat, offset: nat)
    | LlseekCall(t: nat, shift: int, whence: Whence)

  /** The writes done, where each handle stands, and the answers given to reads and seeks. */
  datatype Atomic = Atomic(log: seq<Bytes>, at: map<nat, nat>, served: seq<Record>)

  /** One call on the sequential device: its effect, its answer, and the position it leaves. */
  function Do(s: Atomic, capacity: nat, call: Call): Atomic {
    if call.OpenCall? then s.(at := s.at[call.t := 0])
    else if call.t !in s.at then s
    else
      var d, t, pos, n := WriteAll(EMPTY, s.log), call.t, s.at[call.t], |s.log|;
      match call
      case PositionCall(_, to) => s.(at := s.at[t := to])
      case WriteCall(_, data) => s.(log := s.log + [data], at := s.at[t := pos + Advance(d, data)])
      case ReadCall(_) =>
        var data := ReadAt(d, capacity, pos);
        s.(at := s.at[t := pos + |data|], served := s.served + [ReadRecord(t, n, pos, data)])
      case SeekCall(_, cmd, offset) =>
        var (ret, to) := Seek(Sizes(Live(d, capacity)), pos, cmd, offset);
        s.(at := s.at[t := to], served := s.served + [SeekRecord(t, n, pos, cmd, offset, ret, to)])
      case LlseekCall(_, shift, whence) =>
        var (ret, to) := FixedSizeLlseek(pos, shift, whence, CachedSize(d, capacity));
        s.(at := s.at[t := to], served := s.served + [LlseekRecord(t, n, pos, shift, whence, ret, to)])
  }

  function DoAll(capacity: nat, calls: seq<Call>): Atomic {
    if calls == [] then Atomic([], map[], [])
    else Do(DoAll(capacity, calls[..|calls| - 1]), capacity, calls[|calls| - 1])
  }

  /** The call that takes effect in a step, if one does. */
  function CallOf(w: World, e: Event): seq<Call> {
    if Step(w, e) == w then []
    else if e.Open? then [OpenCall(e.t)]
    else if e.t !in w.handles then []
    else
      match (e, w.handles[e.t].pc)
      case (SetPos(t, pos), _) => [PositionCall(t, pos)]
      case (Append(t, _), Locked(data, _)) => [WriteCall(t, data)]
      case (Commit(t), Ready(data, _, _)) => [WriteCall(t, data)]
      case (Copy(t), _) => [ReadCall(t)]
      case (AdjustOffset(t), Seeking(cmd, offset)) => [SeekCall(t, cmd, offset)]
      case (ReadSize(t), Sizing(shift, whence)) => [LlseekCall(t, shift, whence)]
      case _ => []
  }

  /** The calls of a run in the order in which they take effect. */
  function CallsOf(capacity: nat, events: seq<Event>): seq<Call> {
    if events == [] then []
    else
      var init := events[..|events| - 1];
      CallsOf(capacity, init) + CallOf(Run(Boot(capacity), init), events[|events| - 1])
  }

  function Places(handles: map<nat, Handle>): map<nat, nat> {
    map t | t in handles :: PlaceOf(handles[t])
  }

  /** The sequential device that a state of the machine stands for. */
  function Abstract(w: World): Atomic {
    Atomic(w.log, Places(w.handles), w.served)
  }

  lemma {:induction false} PlacesUpdate(handles: map<nat, Handle>, t: nat, h: Handle)
    ensures Places(handles[t := h]) == Places(handles)[t := PlaceOf(h)]
  {
  }

  lemma {:induction false} CommitIsWrite(w: World, t: nat)
    requires Inv(w) && t in w.handles && w.handles[t].pc.Ready?
    ensures Abstract(CommitStep(w, t)) == Do(Abstract(w), w.capacity, WriteCall(t, w.handles[t].pc.data))
  {
    assert CallMatches(w, t);
    PlacesUpdate(w.handles, t, CommitStep(w, t).handles[t]);
  }

  lemma {:induction false} AppendIsWrite(w: World, t: nat, a: nat)
    requires t in w.handles && w.handles[t].pc.Locked? && !Complete(w.handles[t].pc.data)
    ensures Abstract(AppendStep(w, t, a)) == Do(Abstract(w), w.capacity, WriteCall(t, w.handles[t].pc.data))
  {
    PlacesUpdate(w.handles, t, AppendStep(w, t, a).handles[t]);
  }

  lemma {:induction false} CopyIsRead(w: World, t: nat)
    requires Inv(w) && t in w.handles && (w.handles[t].pc.Found? || w.handles[t].pc.NotFound?)
    ensures Abstract(CopyStep(w, t)) == Do(Abstract(w), w.capacity, ReadCall(t))
  {
    CopyAnswers(w, t);
    AnsweredIsRead(w, CopyStep(w, t), t, w.handles[t].pos, ReadAt(Dev(w), w.capacity, w.handles[t].pos));
  }

  lemma {:induction false} AnsweredIsRead(w: World, w': World, t: nat, pos: nat, data: Bytes)
    requires t in w.handles && PlaceOf(w.handles[t]) == pos && data == ReadAt(Dev(w), w.capacity, pos)
    requires w'.handles == w.handles[t := Handle(pos + |data|, Leaving(Null, pos + |data|))]
    requires w'.served == w.served + [ReadRecord(t, |w.log|, pos, data)] && w'.log == w.log
    ensures Abstract(w') == Do(Abstract(w), w.capacity, ReadCall(t))
  {
    PlacesUpdate(w.handles, t, w'.handles[t]);
  }

  lemma {:induction false} CopyAnswers(w: World, t: nat)
    requires Inv(w) && t in w.handles && (w.handles[t].pc.Found? || w.handles[t].pc.NotFound?)
    ensures var pos, w' := w.handles[t].pos, CopyStep(w, t);
            var data := ReadAt(Dev(w), w.capacity, pos);
            && w'.handles == w.handles[t := Handle(pos + |data|, Leaving(Null, pos + |data|))]
            && w'.served == w.served + [ReadRecord(t, |w.log|, pos, data)] && w'.log == w.log
  {
    if w.handles[t].pc.Found? {
      CopyDelivers(w, t);
    } else {
      NothingToDeliver(w, t);
    }
  }

  lemma {:induction false} AdjustIsSeek(w: World, t: nat)
    requires Inv(w) && t in w.handles && w.handles[t].pc.Seeking?
    ensures var pc := w.handles[t].pc;
            Abstract(SeekStep(w, t)) == Do(Abstract(w), w.capacity, SeekCall(t, pc.cmd, pc.offset))
  {
    SizesAnswer(w);
    PlacesUpdate(w.handles, t, SeekStep(w, t).handles[t]);
  }

  lemma {:induction false} SizeIsLlseek(w: World, t: nat)
    requires Inv(w) && t in w.handles && w.handles[t].pc.Sizing?
    ensures var pc := w.handles[t].pc;
            Abstract(SizeStep(w, t)) == Do(Abstract(w), w.capacity, LlseekCall(t, pc.shift, pc.whence))
  {
    SizesAnswer(w);
    PlacesUpdate(w.handles, t, SizeStep(w, t).handles[t]);
  }

  /** Staging, taking and releasing the lock, merging, searching and freeing are invisible. */
  lemma {:induction false} OthersAreInvisible(w: World, e: Event)
    requires CallOf(w, e) == []
    ensures Abstract(Step(w, e)) == Abstract(w)
  {
    if Step(w, e) != w {
      PlacesUpdate(w.handles, e.t, Step(w, e).handles[e.t]);
      assert w.handles[e.t := w.handles[e.t]] == w.handles;
      PlacesUpdate(w.handles, e.t, w.handles[e.t]);
    }
  }

  /** Every step is one call on the sequential device, or none. */
  lemma {:induction false} StepRefines(w: World, e: Event)
    requires Inv(w)
    ensures |CallOf(w, e)| <= 1
    ensures Abstract(Step(w, e)) ==
            if CallOf(w, e) == [] then Abstract(w) else Do(Abstract(w), w.capacity, CallOf(w, e)[0])
  {
    if CallOf(w, e) == [] {
      OthersAreInvisible(w, e);
    } else {
      match e
      case Open(t) => PlacesUpdate(w.handles, t, Handle(0, Idle));
      case SetPos(t, pos) => PlacesUpdate(w.handles, t, Handle(pos, Idle));
      case Append(t, a) => AppendIsWrite(w, t, a);
      case Commit(t) => CommitIsWrite(w, t);
      case Copy(t) => CopyIsRead(w, t);
      case AdjustOffset(t) => AdjustIsSeek(w, t);
      case ReadSize(t) => SizeIsLlseek(w, t);
    }
  }

  /**
   * Every run, whatever the interleaving, is the sequence of its calls done one at a time: the same writes, the
   * same answers to every read and seek, every handle at the same place or on its way to it, and the same
   * contents in memory.
   */
  lemma {:induction false} RunIsAtomic(capacity: nat, events: seq<Event>)
    requires capacity >= 1
    ensures var w, s := Run(Boot(capacity), events), DoAll(capacity, CallsOf(capacity, events));
            && s.log == w.log
            && s.served == w.served
            && s.at.Keys == w.handles.Keys
            && (forall t :: t in w.handles ==> s.at[t] == PlaceOf(w.handles[t]))
            && RingBytes(w) == Live(WriteAll(EMPTY, s.log), capacity)
            && Tail(w) == Pending(WriteAll(EMPTY, s.log))
  {
    RunRefines(capacity, events);
    RunKeeps(Boot(capacity), events);
    Linearizable(capacity, events);
    TailIsPending(Run(Boot(capacity), events));
  }

  lemma {:induction false} RunRefines(capacity: nat, events: seq<Event>)
    requires capacity >= 1
    ensures Abstract(Run(Boot(capacity), events)) == DoAll(capacity, CallsOf(capacity, events))
  {
    if events != [] {
      var init, e := events[..|events| - 1], events[|events| - 1];
      var w, calls := Run(Boot(capacity), init), CallsOf(capacity, init);
      RunRefines(capacity, init);
      RunKeeps(Boot(capacity), init);
      CapacityFixed(Boot(capacity), init);
      StepRefines(w, e);
      if CallOf(w, e) != [] {
        assert (calls + CallOf(w, e))[..|calls|] == calls;
      } else {
        assert calls + [] == calls;
      }
    }
  }
}

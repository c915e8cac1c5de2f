/**
 * Reads and seeks are answered: in every run each one that a handle begins is served once, in the handle's order,
 * before the lock is released; and left alone, each call runs to its end.
 */
module RequestAccounting {
  import opened Sequences
  import opened Positions
  import opened Memory
  import opened DeviceSpec
  import opened Interleaving

  datatype Request = AskRead | AskSeek(cmd: nat, offset: nat) | AskLlseek(shift: int, whence: Whence)

  /** What `t` asks for in a step, if that step begins a read or a seek. */
  function Begun(w: World, e: Event, t: nat): seq<Request> {
    if e.t != t || Step(w, e) == w then []
    else
      match e
      case StartRead(_) => [AskRead]
      case StartSeek(_, cmd, offset) => [AskSeek(cmd, offset)]
      case StartLlseek(_, shift, whence) => [AskLlseek(shift, whence)]
      case _ => []
  }

  /** All that `t` asked for in a run, in order. */
  function Asked(capacity: nat, events: seq<Event>, t: nat): seq<Request> {
    if events == [] then []
    else
      var init := events[..|events| - 1];
      Asked(capacity, init, t) + Begun(Run(Boot(capacity), init), events[|events| - 1], t)
  }

  function RequestOf(r: Record): Request {
    match r
    case ReadRecord(_, _, _, _) => AskRead
    case SeekRecord(_, _, _, cmd, offset, _, _) => AskSeek(cmd, offset)
    case LlseekRecord(_, _, _, shift, whence, _, _) => AskLlseek(shift, whence)
  }

  /** What was served to `t`, in order. */
  function Answered(served: seq<Record>, t: nat): seq<Request> {
    if served == [] then []
    else
      var last := served[|served| - 1];
      Answered(served[..|served| - 1], t) + if last.t == t then [RequestOf(last)] else []
  }

  /** The request that `t` holds the lock for and that is not answered yet. */
  function Unanswered(w: World, t: nat): seq<Request> {
    if t !in w.handles then []
    else
      match w.handles[t].pc
      case Reading => [AskRead]
      case Found(_, _) => [AskRead]
      case NotFound => [AskRead]
      case Seeking(cmd, offset) => [AskSeek(cmd, offset)]
      case Sizing(shift, whence) => [AskLlseek(shift, whence)]
      case _ => []
  }

  lemma {:induction false} AnsweredMore(served: seq<Record>, r: Record, t: nat)
    ensures Answered(served + [r], t) == Answered(served, t) + if r.t == t then [RequestOf(r)] else []
  {
    assert (served + [r])[..|served|] == served;
  }

  lemma {:induction false} OthersUnanswered(w: World, e: Event, t: nat)
    requires e.t != t
    ensures Unanswered(Step(w, e), t) == Unanswered(w, t)
  {
  }

  /** A step serves nothing, or one request of its own handle that was unanswered. */
  lemma {:induction false} StepServes(w: World, e: Event)
    ensures var w' := Step(w, e);
            || (w'.served == w.served && Unanswered(w', e.t) == Unanswered(w, e.t) + Begun(w, e, e.t))
            || (|w'.served| == |w.served| + 1 && w'.served == w.served + [w'.served[|w.served|]] &&
                w'.served[|w.served|].t == e.t && Begun(w, e, e.t) == [] &&
                Unanswered(w, e.t) == [RequestOf(w'.served[|w.served|])] && Unanswered(w', e.t) == [])
  {
  }

  lemma {:induction false} StepAnswers(w: World, e: Event, t: nat)
    ensures Answered(Step(w, e).served, t) + Unanswered(Step(w, e), t) ==
            Answered(w.served, t) + Unanswered(w, t) + Begun(w, e, t)
  {
    var w' := Step(w, e);
    StepServes(w, e);
    if t != e.t {
      OthersUnanswered(w, e, t);
    }
    if w'.served != w.served {
      AnsweredMore(w.served, w'.served[|w.served|], t);
    } else {
      assert Answered(w.served, t) + (Unanswered(w, t) + Begun(w, e, t))
          == Answered(w.served, t) + Unanswered(w, t) + Begun(w, e, t);
    }
  }

  lemma {:induction false} AskedIsAnswered(capacity: nat, events: seq<Event>, t: nat)
    ensures var w := Run(Boot(capacity), events);
            Asked(capacity, events, t) == Answered(w.served, t) + Unanswered(w, t)
  {
    if events != [] {
      var init, e := events[..|events| - 1], events[|events| - 1];
      AskedIsAnswered(capacity, init, t);
      StepAnswers(Run(Boot(capacity), init), e, t);
    }
  }

  /**
   * In every run, the reads and seeks a handle began are those served to it, each once and in its order, followed
   * at most by one more; and while there is one more, the handle holds the lock.
   */
  lemma {:induction false} EveryRequestIsAnswered(capacity: nat, events: seq<Event>, t: nat)
    requires capacity >= 1
    ensures var w := Run(Boot(capacity), events);
            var asked, answered := Asked(capacity, events, t), Answered(w.served, t);
            && answered <= asked
            && (|asked| == |answered| || (|asked| == |answered| + 1 && w.lock == Some(t)))
  {
    var w := Run(Boot(capacity), events);
    AskedIsAnswered(capacity, events, t);
    RunKeeps(Boot(capacity), events);
    if Unanswered(w, t) != [] {
      assert HoldsLock(w.handles[t].pc);
    }
  }

  // ---------------------------------------------------------------- calls left alone

  ghost predicate Ready(w: World, t: nat) {
    Inv(w) && w.lock == None && t in w.handles && w.handles[t].pc == Idle
  }

  /** The end of a call that frees nothing. */
  lemma {:induction false} ReturnAlone(w: World, events: seq<Event>, mid: World, t: nat, to: nat)
    requires Run(w, events) == mid && t in mid.handles && mid.handles[t].pc == Leaving(Null, to)
    ensures Run(w, events + [Release(t), Finish(t)])
         == mid.(lock := None, handles := mid.handles[t := Handle(to, Idle)])
  {
    RunTwo(mid, Release(t), Finish(t));
    assert Step(mid, Release(t)) == ReleaseStep(mid, t);
    RunPlus(w, events, [Release(t), Finish(t)]);
  }

  /** A read from any position moves by what the device holds there, says so in its record, and changes nothing else. */
  lemma {:induction false} ReadAlone(w: World, t: nat, pos: nat, data: Bytes)
    requires Ready(w, t) && pos == w.handles[t].pos && data == ReadAt(Dev(w), w.capacity, pos)
    ensures Run(w, [StartRead(t), Find(t)] + [Copy(t)] + [Release(t), Finish(t)])
         == w.(handles := w.handles[t := Handle(pos + |data|, Idle)],
               served := w.served + [ReadRecord(t, |w.log|, pos, data)])
  {
    FindAndCopyAlone(w, t, pos, data);
    CopiedReturns(w, [StartRead(t), Find(t)] + [Copy(t)], t, pos, data);
  }

  lemma {:induction false} CopiedReturns(w: World, events: seq<Event>, t: nat, pos: nat, data: Bytes)
    requires w.lock == None && Run(w, events) == Copied(w, t, pos, data)
    ensures Run(w, events + [Release(t), Finish(t)])
         == w.(handles := w.handles[t := Handle(pos + |data|, Idle)],
               served := w.served + [ReadRecord(t, |w.log|, pos, data)])
  {
    ReturnAlone(w, events, Copied(w, t, pos, data), t, pos + |data|);
    SetTwice(w.handles, t, Handle(pos + |data|, Leaving(Null, pos + |data|)), Handle(pos + |data|, Idle));
  }

  lemma {:induction false} SetTwice(handles: map<nat, Handle>, t: nat, a: Handle, b: Handle)
    ensures handles[t := a][t := b] == handles[t := b]
  {
  }

  /** The world once `data` has been copied to a reader from `pos`. */
  function Copied(w: World, t: nat, pos: nat, data: Bytes): World {
    w.(lock := Some(t), handles := w.handles[t := Handle(pos + |data|, Leaving(Null, pos + |data|))],
       served := w.served + [ReadRecord(t, |w.log|, pos, data)])
  }

  lemma {:induction false} FindAndCopyAlone(w: World, t: nat, pos: nat, data: Bytes)
    requires Ready(w, t) && pos == w.handles[t].pos && data == ReadAt(Dev(w), w.capacity, pos)
    ensures Run(w, [StartRead(t), Find(t)] + [Copy(t)]) == Copied(w, t, pos, data)
  {
    var found := Run(w, [StartRead(t), Find(t)]);
    FindAlone(w, t);
    CopyAlone(found, t, pos, data);
    FoundCopies(w, [StartRead(t), Find(t)], found, t, pos, data);
  }

  lemma {:induction false} FoundCopies(w: World, events: seq<Event>, found: World, t: nat, pos: nat, data: Bytes)
    requires Run(w, events) == found && t in w.handles && t in found.handles
    requires found.handles[t].pc.Found? || found.handles[t].pc.NotFound?
    requires found == w.(lock := Some(t), handles := w.handles[t := found.handles[t]])
    requires CopyStep(found, t)
          == found.(handles := found.handles[t := Handle(pos + |data|, Leaving(Null, pos + |data|))],
                    served := found.served + [ReadRecord(t, |found.log|, pos, data)])
    ensures Run(w, events + [Copy(t)]) == Copied(w, t, pos, data)
  {
    RunThen(w, events, Copy(t));
    SetTwice(w.handles, t, found.handles[t], Handle(pos + |data|, Leaving(Null, pos + |data|)));
    assert Step(found, Copy(t)) == CopyStep(found, t);
  }

  lemma {:induction false} FindAlone(w: World, t: nat)
    requires Ready(w, t)
    ensures var w' := Run(w, [StartRead(t), Find(t)]);
            && Inv(w') && t in w'.handles && (w'.handles[t].pc.Found? || w'.handles[t].pc.NotFound?)
            && w' == w.(lock := Some(t), handles := w.handles[t := Handle(w.handles[t].pos, w'.handles[t].pc)])
  {
    RunTwo(w, StartRead(t), Find(t));
    RunKeeps(w, [StartRead(t), Find(t)]);
    assert Step(w, StartRead(t)) == Goto(w, t, Reading).(lock := Some(t));
  }

  lemma {:induction false} CopyAlone(w: World, t: nat, pos: nat, data: Bytes)
    requires Inv(w) && t in w.handles && (w.handles[t].pc.Found? || w.handles[t].pc.NotFound?)
    requires pos == w.handles[t].pos && data == ReadAt(Dev(w), w.capacity, pos)
    ensures CopyStep(w, t) == w.(handles := w.handles[t := Handle(pos + |data|, Leaving(Null, pos + |data|))],
                                 served := w.served + [ReadRecord(t, |w.log|, pos, data)])
  {
    if w.handles[t].pc.Found? {
      CopyDelivers(w, t);
    } else {
      NothingToDeliver(w, t);
    }
  }

  /** A command seek ends where the seek on the live commands puts it. */
  lemma {:induction false} SeekAlone(w: World, t: nat, cmd: nat, offset: nat)
    requires Ready(w, t)
    ensures var pos := w.handles[t].pos;
            var (ret, to) := Seek(Sizes(Live(Dev(w), w.capacity)), pos, cmd, offset);
            Run(w, [StartSeek(t, cmd, offset), AdjustOffset(t)] + [Release(t), Finish(t)])
            == w.(handles := w.handles[t := Handle(to, Idle)],
                  served := w.served + [SeekRecord(t, |w.log|, pos, cmd, offset, ret, to)])
  {
    var seeking := Goto(w, t, Seeking(cmd, offset)).(lock := Some(t));
    var (_, to) := Seek(Sizes(Live(Dev(w), w.capacity)), w.handles[t].pos, cmd, offset);
    SizesAnswer(w);
    RunTwo(w, StartSeek(t, cmd, offset), AdjustOffset(t));
    assert Step(w, StartSeek(t, cmd, offset)) == seeking;
    ReturnAlone(w, [StartSeek(t, cmd, offset), AdjustOffset(t)], SeekStep(seeking, t), t, to);
  }

  /** A seek by bytes ends where the seek on a file of the device's cached size puts it. */
  lemma {:induction false} LlseekAlone(w: World, t: nat, shift: int, whence: Whence)
    requires Ready(w, t) && !whence.OtherWhence?
    ensures var pos := w.handles[t].pos;
            var (ret, to) := FixedSizeLlseek(pos, shift, whence, |File(Dev(w), w.capacity)| % 0x1_0000_0000);
            Run(w, [StartLlseek(t, shift, whence), ReadSize(t)] + [Release(t), Finish(t)])
            == w.(handles := w.handles[t := Handle(to, Idle)],
                  served := w.served + [LlseekRecord(t, |w.log|, pos, shift, whence, ret, to)])
  {
    var sizing := Goto(w, t, Sizing(shift, whence)).(lock := Some(t));
    var sized := SizeStep(sizing, t);
    var (_, to) := FixedSizeLlseek(w.handles[t].pos, shift, whence, |File(Dev(w), w.capacity)| % 0x1_0000_0000);
    SizesAnswer(w);
    RunsToSized(w, t, shift, whence);
    ReturnAlone(w, [StartLlseek(t, shift, whence), ReadSize(t)], sized, t, to);
    SetTwice(w.handles, t, sizing.handles[t], Handle(to, Idle));
    SetTwice(sizing.handles, t, sized.handles[t], Handle(to, Idle));
  }

  lemma {:induction false} RunsToSized(w: World, t: nat, shift: int, whence: Whence)
    requires w.lock == None && t in w.handles && w.handles[t].pc == Idle && !whence.OtherWhence?
    ensures Run(w, [StartLlseek(t, shift, whence), ReadSize(t)])
         == SizeStep(Goto(w, t, Sizing(shift, whence)).(lock := Some(t)), t)
  {
    RunTwo(w, StartLlseek(t, shift, whence), ReadSize(t));
    assert Step(w, StartLlseek(t, shift, whence)) == Goto(w, t, Sizing(shift, whence)).(lock := Some(t));
  }

  // ---------------------------------------------------------------- writes left alone

  lemma {:induction false} LocksAlone(w: World, t: nat, data: Bytes, a: nat)
    requires Ready(w, t) && a !in w.core.heap.blocks
    ensures var w' := Run(w, [Stage(t, data, a), Acquire(t)]);
            && Inv(w') && t in w'.handles && w'.handles[t].pos == w.handles[t].pos
            && w'.handles[t].pc.Locked? && w'.handles[t].pc.data == data
            && w'.core.heap == Kmalloc(w.core.heap, a, data).0 && w'.log == w.log && w'.served == w.served
  {
    RunTwo(w, Stage(t, data, a), Acquire(t));
    RunKeeps(w, [Stage(t, data, a), Acquire(t)]);
    assert Step(w, Stage(t, data, a)) == StageStep(w, t, data, a);
  }

  /** Under the lock a write takes effect, and is sent past the pending data and its own if it holds a newline. */
  lemma {:induction false} CommitsAlone(w: World, t: nat, b: nat)
    requires Inv(w) && t in w.handles && w.handles[t].pc.Locked? && 10 in w.handles[t].pc.data
    requires b !in w.core.heap.blocks
    ensures var data, w' := w.handles[t].pc.data, Run(w, [Merge(t, b), Commit(t)]);
            && t in w'.handles && w'.handles[t].pc.Leaving? && w'.log == w.log + [data] && w'.served == w.served
            && w'.handles[t].pc.to == w.handles[t].pos + |Pending(Dev(w))| + |data|
  {
    var ready := MergeStep(w, t, b);
    RunTwo(w, Merge(t, b), Commit(t));
    MergeKeeps(w, t, b);
    assert CallMatches(ready, t) && ready.log == w.log;
  }

  lemma {:induction false} AppendsAlone(w: World, t: nat, b: nat)
    requires t in w.handles && w.handles[t].pc.Locked? && 10 !in w.handles[t].pc.data
    requires b !in w.core.heap.blocks
    ensures var w' := Run(w, [Append(t, b)]);
            && t in w'.handles && w'.handles[t].pc.Leaving? && w'.log == w.log + [w.handles[t].pc.data]
            && w'.served == w.served && w'.handles[t].pc.to == w.handles[t].pos
  {
    RunOne(w, Append(t, b));
  }

  lemma {:induction false} ReturnsFrom(w: World, t: nat)
    requires t in w.handles && w.handles[t].pc.Leaving?
    ensures var w' := Run(w, [Release(t), Finish(t)]);
            && t in w'.handles && w'.handles[t] == Handle(w.handles[t].pc.to, Idle)
            && w'.lock == None && w'.log == w.log && w'.served == w.served
  {
    RunTwo(w, Release(t), Finish(t));
  }

  /** The steps of a write that is not interrupted. */
  function WriteSteps(t: nat, data: Bytes, a: nat, b: nat): seq<Event> {
    [Stage(t, data, a), Acquire(t)] +
    ((if 10 in data then [Merge(t, b), Commit(t)] else [Append(t, b)]) + [Release(t), Finish(t)])
  }

  /** A write from any position takes effect and ends past its command, or where it was if no newline came. */
  lemma {:induction false} WriteAlone(w: World, t: nat, data: Bytes, a: nat, b: nat)
    requires Ready(w, t) && a !in w.core.heap.blocks && b !in Kmalloc(w.core.heap, a, data).0.blocks
    ensures var w' := Run(w, WriteSteps(t, data, a, b));
            && w'.log == w.log + [data] && w'.served == w.served && w'.lock == None && t in w'.handles
            && w'.handles[t] ==
               Handle(w.handles[t].pos + (if 10 in data then |Pending(Dev(w))| + |data| else 0), Idle)
  {
    var locked := Run(w, [Stage(t, data, a), Acquire(t)]);
    var middle := if 10 in data then [Merge(t, b), Commit(t)] else [Append(t, b)];
    LocksAlone(w, t, data, a);
    if 10 in data {
      CommitsAlone(locked, t, b);
    } else {
      AppendsAlone(locked, t, b);
    }
    ReturnsFrom(Run(locked, middle), t);
    RunPlus(locked, middle, [Release(t), Finish(t)]);
    RunPlus(w, [Stage(t, data, a), Acquire(t)], middle + [Release(t), Finish(t)]);
  }

  /** A handle is opened at position 0, and a positioned call starts at the position it is given. */
  lemma {:induction false} StartsAt(w: World, t: nat, pos: nat)
    ensures t !in w.handles ==> Step(w, Open(t)) == w.(handles := w.handles[t := Handle(0, Idle)])
    ensures t in w.handles && w.handles[t].pc == Idle ==>
              Step(w, SetPos(t, pos)) == w.(handles := w.handles[t := Handle(pos, Idle)])
  {
  }
}

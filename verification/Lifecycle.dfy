/**
 * The life of connection records as a protocol between the main thread and the
 * workers (aesdsocket.c:58-137, 275-288, 481-503). A step is an action between two
 * points at which another thread can run. Touching a record that has been freed
 * does not get stuck: it raises `fault`.
 */
module Lifecycle {
  import opened Sequences

  datatype Worker =
    | Running                       // serving its client; reads its record
    | WantsLock                     // waiting for queue_lock
    | HasLock
    | FlagSet                       // task_finished stored, lock still held
    | Unlocked                      // lock released, about to exit
    | Exited

  datatype Thread = MainThread | WorkerThread(r: nat)

  /** In a pass, `i` is the position reached and `count` the unfinished records met. */
  datatype Main =
    | Accepting
    | Starting(r: nat)              // record allocated, thread not yet created
    | Enqueueing(r: nat)            // thread created, waiting for queue_lock
    | Inserting(r: nat)             // lock held
    | InsertDone                    // lock still held
    | Checking                      // waiting for queue_lock to make a pass
    | Reaping(i: nat, count: nat)   // lock held
    | Joining(i: nat, count: nat)   // lock held, inside pthread_join
    | Joined(i: nat, count: nat)    // lock held, the thread is gone
    | Counted(count: nat)           // the pass has returned count
    | Done

  /** Queue, finished flags and records reaped so far, at the moment the last pass took the lock. */
  datatype Pass = Pass(queue: seq<nat>, flags: set<nat>, reaped: seq<nat>)

  /** Records are addresses and may be reused once freed. `enqueued`, `reaped` and `pass` are histories. */
  datatype Server = Server(alloc: set<nat>, finished: set<nat>, workers: map<nat, Worker>, queue: seq<nat>,
                           lock: Option<Thread>, main: Main, draining: bool,
                           enqueued: seq<nat>, reaped: seq<nat>, pass: Pass, fault: bool)

  datatype Event =
    | Accept(r: nat)                // `r`: the address the allocator picks
    | NoClient
    | Shutdown                      // signal seen or accept failed: leave the accept loop
    | OpenFails
    | CreateFails
    | CreateThread
    | MainLock
    | Insert
    | MainUnlock
    | Look
    | JoinReturns
    | Free
    | PassReturns
    | Work(r: nat)
    | Finish(r: nat)
    | WorkerLock(r: nat)
    | SetFlag(r: nat)
    | WorkerUnlock(r: nat)
    | Exit(r: nat)

  function Touch(s: Server, r: nat): Server {
    s.(fault := s.fault || r !in s.alloc)
  }

  /** Read the flag of the record at position `i`. */
  function LookStep(s: Server, i: nat, count: nat): Server
    requires i < |s.queue|
  {
    Touch(s, s.queue[i]).(main := if s.queue[i] in s.finished then Joining(i, count) else Reaping(i + 1, count + 1))
  }

  /** Close both descriptors, unlink the record at position `i` and free it. */
  function FreeStep(s: Server, i: nat, count: nat): Server
    requires i < |s.queue|
  {
    Touch(s, s.queue[i]).(queue := s.queue[..i] + s.queue[i + 1..], alloc := s.alloc - {s.queue[i]},
                          reaped := s.reaped + [s.queue[i]], main := Reaping(i, count))
  }

  /** The steps of the main thread; a disabled one leaves the server alone. */
  function MainStep(s: Server, e: Event): Server {
    match (e, s.main)
    case (Accept(r), Accepting) =>
      if r in s.alloc then s
      else s.(alloc := s.alloc + {r}, finished := s.finished - {r}, main := Starting(r))
    case (NoClient, Accepting) => s.(main := Checking)
    case (Shutdown, Accepting) => s.(main := Checking, draining := true)
    case (OpenFails, Starting(r)) => s.(main := Checking)
    case (CreateFails, Starting(r)) => Touch(s, r).(alloc := s.alloc - {r}, main := Checking)
    case (CreateThread, Starting(r)) => s.(workers := s.workers[r := Running], main := Enqueueing(r))
    case (MainLock, Enqueueing(r)) =>
      if s.lock.None? then s.(lock := Some(MainThread), main := Inserting(r)) else s
    case (MainLock, Checking) =>
      if s.lock.None?
      then s.(lock := Some(MainThread), main := Reaping(0, 0), pass := Pass(s.queue, s.finished, s.reaped)) else s
    case (Insert, Inserting(r)) =>
      Touch(s, r).(queue := s.queue + [r], enqueued := s.enqueued + [r], main := InsertDone)
    case (MainUnlock, InsertDone) => s.(lock := None, main := Checking)
    case (Look, Reaping(i, count)) => if i < |s.queue| then LookStep(s, i, count) else s
    case (JoinReturns, Joining(i, count)) =>
      if i < |s.queue| && s.queue[i] in s.workers && s.workers[s.queue[i]].Exited?
      then s.(workers := s.workers - {s.queue[i]}, main := Joined(i, count)) else s
    case (Free, Joined(i, count)) => if i < |s.queue| then FreeStep(s, i, count) else s
    case (MainUnlock, Reaping(i, count)) =>
      if i >= |s.queue| then s.(lock := None, main := Counted(count)) else s
    case (PassReturns, Counted(count)) =>
      s.(main := if !s.draining then Accepting else if count == 0 then Done else Checking)
    case _ => s
  }

  /** The steps of the worker that serves record `r`. */
  function WorkerStep(s: Server, r: nat, e: Event): Server
    requires r in s.workers
  {
    match (e, s.workers[r])
    case (Work(_), Running) => Touch(s, r)
    case (Finish(_), Running) => s.(workers := s.workers[r := WantsLock])
    case (WorkerLock(_), WantsLock) =>
      if s.lock.None? then s.(lock := Some(WorkerThread(r)), workers := s.workers[r := HasLock]) else s
    case (SetFlag(_), HasLock) =>
      Touch(s, r).(finished := s.finished + {r}, workers := s.workers[r := FlagSet])
    case (WorkerUnlock(_), FlagSet) => s.(lock := None, workers := s.workers[r := Unlocked])
    case (Exit(_), Unlocked) => s.(workers := s.workers[r := Exited])
    case _ => s
  }

  predicate OfWorker(e: Event) {
    e.Work? || e.Finish? || e.WorkerLock? || e.SetFlag? || e.WorkerUnlock? || e.Exit?
  }

  function Step(s: Server, e: Event): Server {
    if OfWorker(e) then (if e.r in s.workers then WorkerStep(s, e.r, e) else s) else MainStep(s, e)
  }

  function Run(s: Server, events: seq<Event>): Server {
    if events == [] then s else Step(Run(s, events[..|events| - 1]), events[|events| - 1])
  }

  const BOOT := Server({}, {}, map[], [], None, Accepting, false, [], [], Pass([], {}, []), false)

  // ---------------------------------------------------------------- the invariant

  /** The record the main thread holds outside the queue. */
  function InHand(main: Main): Option<nat> {
    match main
    case Starting(r) => Some(r)
    case Enqueueing(r) => Some(r)
    case Inserting(r) => Some(r)
    case _ => None
  }

  ghost predicate NoRepeats(q: seq<nat>) {
    forall i, j :: 0 <= i < j < |q| ==> q[i] != q[j]
  }

  /** The record whose thread has been joined and which is about to be freed. */
  function Gone(s: Server): Option<nat> {
    if s.main.Joined? && s.main.i < |s.queue| then Some(s.queue[s.main.i]) else None
  }

  /** Queued records are allocated and, until joined, have a worker; every worker's record is queued or in hand. */
  ghost predicate RecordsHeld(s: Server) {
    && NoRepeats(s.queue)
    && (forall r :: r in s.queue ==> r in s.alloc && (r in s.workers <==> Gone(s) != Some(r)))
    && (forall r :: r in s.workers ==> r in s.alloc && (r in s.queue || InHand(s.main) == Some(r)))
    && (InHand(s.main).Some? ==>
          var r := InHand(s.main).value;
          r in s.alloc && r !in s.queue && (r in s.workers <==> !s.main.Starting?))
  }

  predicate PastFlag(w: Worker) {
    w.FlagSet? || w.Unlocked? || w.Exited?
  }

  /** The flag of a record says exactly that its worker is past its last access. */
  ghost predicate FlagsMeanPast(s: Server) {
    && (forall r :: r in s.workers ==> (r in s.finished <==> PastFlag(s.workers[r])))
    && (s.main.Starting? ==> s.main.r !in s.finished)
  }

  predicate MainHoldsLock(main: Main) {
    main.Inserting? || main.InsertDone? || main.Reaping? || main.Joining? || main.Joined?
  }

  ghost predicate LockHeld(s: Server) {
    && (s.lock == Some(MainThread) <==> MainHoldsLock(s.main))
    && (forall r :: r in s.workers ==>
          (s.lock == Some(WorkerThread(r)) <==> s.workers[r].HasLock? || s.workers[r].FlagSet?))
    && (s.lock.Some? && s.lock.value.WorkerThread? ==> s.lock.value.r in s.workers)
  }

  /** In a pass everything before the position reached is unfinished and counted. */
  ghost predicate PassCounts(s: Server) {
    match s.main
    case Reaping(i, count) => i == count <= |s.queue| && forall j :: 0 <= j < i ==> s.queue[j] !in s.finished
    case Joining(i, count) => i == count < |s.queue| && s.queue[i] in s.finished
                              && forall j :: 0 <= j < i ==> s.queue[j] !in s.finished
    case Joined(i, count) => i == count < |s.queue| && forall j :: 0 <= j < i ==> s.queue[j] !in s.finished
    case Counted(count) => count == |s.queue|
    case Done => s.queue == []
    case _ => true
  }

  ghost predicate Balanced(s: Server) {
    multiset(s.enqueued) == multiset(s.reaped) + multiset(s.queue)
  }

  ghost predicate Inv(s: Server) {
    !s.fault && RecordsHeld(s) && FlagsMeanPast(s) && LockHeld(s) && PassCounts(s) && Balanced(s)
  }

  // ---------------------------------------------------------------- preservation

  lemma {:induction false} WorkerKeeps(s: Server, e: Event)
    requires Inv(s) && OfWorker(e)
    ensures Inv(Step(s, e))
  {
  }

  lemma {:induction false} CutOut(q: seq<nat>, i: nat)
    requires i < |q| && NoRepeats(q)
    ensures var q' := q[..i] + q[i + 1..];
            && |q'| == |q| - 1
            && (forall j :: 0 <= j < |q'| ==> q'[j] == if j < i then q[j] else q[j + 1])
            && (forall r :: r in q' <==> r in q && r != q[i])
            && NoRepeats(q')
            && multiset(q) == multiset(q') + multiset{q[i]}
  {
    var q' := q[..i] + q[i + 1..];
    assert q == q[..i] + [q[i]] + q[i + 1..];
    forall r | r in q && r != q[i] ensures r in q' {
      var j :| 0 <= j < |q| && q[j] == r;
      assert q'[if j < i then j else j - 1] == r;
    }
  }

  lemma {:induction false} FreeKeepsRecords(s: Server, i: nat, count: nat)
    requires RecordsHeld(s) && s.main == Joined(i, count) && i < |s.queue|
    ensures RecordsHeld(FreeStep(s, i, count))
  {
    CutOut(s.queue, i);
    assert s.queue[i] in s.queue && s.queue[i] !in s.workers;
  }

  lemma {:induction false} FreeKeeps(s: Server, i: nat, count: nat)
    requires Inv(s) && s.main == Joined(i, count)
    ensures i < |s.queue| && Inv(FreeStep(s, i, count))
  {
    assert s.queue[i] in s.queue;
    FreeKeepsRecords(s, i, count);
    FreeKeepsBalance(s, i, count);
    FreeKeepsCount(s, i, count);
  }

  lemma {:induction false} FreeKeepsBalance(s: Server, i: nat, count: nat)
    requires Balanced(s) && NoRepeats(s.queue) && i < |s.queue|
    ensures Balanced(FreeStep(s, i, count))
  {
    CutOut(s.queue, i);
    assert multiset(s.reaped + [s.queue[i]]) == multiset(s.reaped) + multiset{s.queue[i]};
  }

  lemma {:induction false} FreeKeepsCount(s: Server, i: nat, count: nat)
    requires PassCounts(s) && s.main == Joined(i, count) && i < |s.queue|
    ensures PassCounts(FreeStep(s, i, count))
  {
    var q := s.queue[..i] + s.queue[i + 1..];
    assert forall j :: 0 <= j < i ==> q[j] == s.queue[j];
  }

  lemma {:induction false} Appended(q: seq<nat>, r: nat)
    requires NoRepeats(q) && r !in q
    ensures NoRepeats(q + [r]) && multiset(q + [r]) == multiset(q) + multiset{r}
    ensures forall x :: x in q + [r] <==> x in q || x == r
  {
  }

  lemma {:induction false} InsertKeeps(s: Server)
    requires Inv(s) && s.main.Inserting?
    ensures Inv(MainStep(s, Insert))
  {
    Appended(s.queue, s.main.r);
    assert multiset(s.enqueued + [s.main.r]) == multiset(s.enqueued) + multiset{s.main.r};
    assert RecordsHeld(MainStep(s, Insert));
  }

  lemma {:induction false} JoinKeeps(s: Server)
    requires Inv(s) && s.main.Joining?
    ensures Inv(MainStep(s, JoinReturns))
  {
    var s' := MainStep(s, JoinReturns);
    assert RecordsHeld(s');
  }

  lemma {:induction false} StartKeeps(s: Server, e: Event)
    requires Inv(s) && (s.main.Accepting? || s.main.Starting?) && !OfWorker(e)
    ensures Inv(MainStep(s, e))
  {
    StartKeepsRecords(s, e);
  }

  lemma {:induction false} StartKeepsRecords(s: Server, e: Event)
    requires RecordsHeld(s) && (s.main.Accepting? || s.main.Starting?) && !OfWorker(e)
    ensures RecordsHeld(MainStep(s, e))
  {
  }

  lemma {:induction false} LookKeeps(s: Server, i: nat, count: nat)
    requires Inv(s) && s.main == Reaping(i, count) && i < |s.queue|
    ensures Inv(LookStep(s, i, count))
  {
    assert s.queue[i] in s.queue;
  }

  lemma {:induction false} LockKeeps(s: Server)
    requires Inv(s)
    ensures Inv(MainStep(s, MainLock))
  {
    assert RecordsHeld(MainStep(s, MainLock));
  }

  lemma {:induction false} UnlockKeeps(s: Server)
    requires Inv(s)
    ensures Inv(MainStep(s, MainUnlock))
  {
    assert RecordsHeld(MainStep(s, MainUnlock));
  }

  lemma {:induction false} PassReturnsKeeps(s: Server)
    requires Inv(s)
    ensures Inv(MainStep(s, PassReturns))
  {
    assert RecordsHeld(MainStep(s, PassReturns));
  }

  lemma {:induction false} MainKeeps(s: Server, e: Event)
    requires !OfWorker(e)
    ensures Inv(s) ==> Inv(MainStep(s, e))
  {
    if Inv(s) && MainStep(s, e) != s {
      match e
      case MainLock => LockKeeps(s);
      case MainUnlock => UnlockKeeps(s);
      case Insert => InsertKeeps(s);
      case Look => LookKeeps(s, s.main.i, s.main.count);
      case JoinReturns => JoinKeeps(s);
      case Free => FreeKeeps(s, s.main.i, s.main.count);
      case PassReturns => PassReturnsKeeps(s);
      case _ => StartKeeps(s, e);
    }
  }

  lemma {:induction false} StepKeeps(s: Server, e: Event)
    ensures Inv(s) ==> Inv(Step(s, e))
  {
    if Inv(s) {
      if OfWorker(e) {
        WorkerKeeps(s, e);
      } else {
        MainKeeps(s, e);
      }
    }
  }

  lemma {:induction false} RunKeeps(events: seq<Event>)
    ensures Inv(Run(BOOT, events))
  {
    if events != [] {
      RunKeeps(events[..|events| - 1]);
      StepKeeps(Run(BOOT, events[..|events| - 1]), events[|events| - 1]);
    }
  }

  // ---------------------------------------------------------------- what a pass does to the queue

  /** Of the first `k` records of `q`, those without a flag. */
  function Kept(q: seq<nat>, flags: set<nat>, k: nat): seq<nat>
    requires k <= |q|
  {
    if k == 0 then [] else Kept(q, flags, k - 1) + if q[k - 1] in flags then [] else [q[k - 1]]
  }

  /** Of the first `k` records of `q`, those with one. */
  function Dropped(q: seq<nat>, flags: set<nat>, k: nat): seq<nat>
    requires k <= |q|
  {
    if k == 0 then [] else Dropped(q, flags, k - 1) + if q[k - 1] in flags then [q[k - 1]] else []
  }

  /** The first `k` records of the queue found are dealt with: kept in place, or cut out and reaped. */
  ghost predicate DealtWith(p: Pass, q: seq<nat>, reaped: seq<nat>, i: nat, k: nat)
    requires k <= |p.queue|
  {
    && |p.queue| - k == |q| - i
    && q == Kept(p.queue, p.flags, k) + p.queue[k..]
    && reaped == p.reaped + Dropped(p.queue, p.flags, k)
  }

  /** A pass that stands at position `i` of the queue. */
  ghost predicate Partway(p: Pass, q: seq<nat>, reaped: seq<nat>, i: nat) {
    i <= |q| <= |p.queue| && DealtWith(p, q, reaped, i, |p.queue| - |q| + i)
  }

  ghost predicate Over(p: Pass, q: seq<nat>, reaped: seq<nat>) {
    && q == Kept(p.queue, p.flags, |p.queue|)
    && reaped == p.reaped + Dropped(p.queue, p.flags, |p.queue|)
  }

  ghost predicate PassTracks(s: Server) {
    && (Passing(s.main) ==> s.finished == s.pass.flags && Partway(s.pass, s.queue, s.reaped, s.main.i))
    && (s.main.Joined? ==> s.main.i < |s.queue| && s.queue[s.main.i] in s.finished)
    && (s.main.Counted? ==> Over(s.pass, s.queue, s.reaped))
  }

  predicate Passing(main: Main) {
    main.Reaping? || main.Joining? || main.Joined?
  }

  /** The record at the position reached is the next one of the queue found. */
  lemma {:induction false} NextOfPass(p: Pass, q: seq<nat>, reaped: seq<nat>, i: nat, k: nat)
    requires k < |p.queue| && i < |q| && DealtWith(p, q, reaped, i, k)
    ensures var kept := Kept(p.queue, p.flags, k);
            && |kept| == i && q[i] == p.queue[k] && q == kept + [q[i]] + p.queue[k + 1..]
            && q[..i] + q[i + 1..] == kept + p.queue[k + 1..]
  {
    var kept := Kept(p.queue, p.flags, k);
    assert p.queue[k..] == [p.queue[k]] + p.queue[k + 1..];
    assert q[..i] == kept && q[i + 1..] == p.queue[k + 1..];
  }

  lemma {:induction false} PassKeepsOne(p: Pass, q: seq<nat>, reaped: seq<nat>, i: nat)
    requires i < |q| && q[i] !in p.flags
    ensures Partway(p, q, reaped, i) ==> Partway(p, q, reaped, i + 1)
  {
    if Partway(p, q, reaped, i) {
      var k := |p.queue| - |q| + i;
      NextOfPass(p, q, reaped, i, k);
      assert Dropped(p.queue, p.flags, k + 1) == Dropped(p.queue, p.flags, k);
    }
  }

  lemma {:induction false} PassDropsOne(p: Pass, q: seq<nat>, reaped: seq<nat>, i: nat)
    requires i < |q| && q[i] in p.flags
    ensures Partway(p, q, reaped, i) ==> Partway(p, q[..i] + q[i + 1..], reaped + [q[i]], i)
  {
    if Partway(p, q, reaped, i) {
      var k := |p.queue| - |q| + i;
      NextOfPass(p, q, reaped, i, k);
      assert Kept(p.queue, p.flags, k + 1) == Kept(p.queue, p.flags, k);
    }
  }

  lemma {:induction false} PassStarts(q: seq<nat>, flags: set<nat>, reaped: seq<nat>)
    ensures Partway(Pass(q, flags, reaped), q, reaped, 0)
  {
    assert q[0..] == q;
  }

  lemma {:induction false} PassIsOver(p: Pass, q: seq<nat>, reaped: seq<nat>)
    ensures Partway(p, q, reaped, |q|) ==> Over(p, q, reaped)
  {
    assert p.queue[|p.queue|..] == [];
  }

  lemma {:induction false} MainTracks(s: Server, e: Event)
    requires PassCounts(s) && PassTracks(s)
    ensures PassTracks(MainStep(s, e))
  {
    if s.main.Checking? {
      PassStarts(s.queue, s.finished, s.reaped);
    } else if s.main.Reaping? {
      ReapingTracks(s, e, s.main.i);
    } else if s.main.Joined? {
      JoinedTracks(s, e, s.main.i);
    }
  }

  lemma {:induction false} ReapingTracks(s: Server, e: Event, i: nat)
    requires PassCounts(s) && PassTracks(s) && s.main.Reaping? && s.main.i == i
    ensures PassTracks(MainStep(s, e))
  {
    if i == |s.queue| {
      PassIsOver(s.pass, s.queue, s.reaped);
    } else if s.queue[i] !in s.finished {
      PassKeepsOne(s.pass, s.queue, s.reaped, i);
    }
  }

  lemma {:induction false} JoinedTracks(s: Server, e: Event, i: nat)
    requires PassTracks(s) && s.main.Joined? && s.main.i == i
    ensures PassTracks(MainStep(s, e))
  {
    PassDropsOne(s.pass, s.queue, s.reaped, i);
  }

  /** Flags are set only under the lock, so a pass sees none change. */
  lemma {:induction false} WorkerTracks(s: Server, e: Event)
    requires LockHeld(s) && PassTracks(s) && OfWorker(e)
    ensures PassTracks(Step(s, e))
  {
  }

  lemma {:induction false} RunTracks(s: Server, events: seq<Event>)
    ensures Inv(s) && PassTracks(s) ==> Inv(Run(s, events)) && PassTracks(Run(s, events))
  {
    if events != [] && Inv(s) && PassTracks(s) {
      var init, e := events[..|events| - 1], events[|events| - 1];
      RunTracks(s, init);
      StepKeeps(Run(s, init), e);
      if OfWorker(e) {
        WorkerTracks(Run(s, init), e);
      } else {
        MainTracks(Run(s, init), e);
      }
    }
  }

  // ---------------------------------------------------------------- what holds in every run

  /** No thread ever touches a freed record, and a record is freed only when its worker has been joined. */
  lemma {:induction false} NoUseAfterFree(events: seq<Event>)
    ensures var s := Run(BOOT, events);
            && !s.fault
            && (forall r :: r in s.workers ==> r in s.alloc)
            && (s.main.Joined? ==> s.main.i < |s.queue| && s.queue[s.main.i] !in s.workers)
  {
    RunKeeps(events);
    var s := Run(BOOT, events);
    if s.main.Joined? {
      assert s.queue[s.main.i] in s.queue;
    }
  }

  /**
   * The join made while holding the lock never waits for a worker that still needs the lock:
   * the worker has released it, and exits without it.
   */
  lemma {:induction false} JoinNeverDeadlocks(events: seq<Event>)
    ensures var s := Run(BOOT, events);
            s.main.Joining? ==>
              && s.main.i < |s.queue| && s.queue[s.main.i] in s.workers
              && var r := s.queue[s.main.i];
                 && (s.workers[r].Unlocked? || s.workers[r].Exited?)
                 && (s.workers[r].Unlocked? ==> Step(s, Exit(r)).workers[r].Exited?)
                 && (s.workers[r].Exited? ==> Step(s, JoinReturns).main.Joined?)
  {
    RunKeeps(events);
    var s := Run(BOOT, events);
    if s.main.Joining? {
      JoinedIsPast(s);
    }
  }

  lemma {:induction false} JoinedIsPast(s: Server)
    requires Inv(s) && s.main.Joining?
    ensures s.main.i < |s.queue| && s.queue[s.main.i] in s.workers
    ensures var w := s.workers[s.queue[s.main.i]]; w.Unlocked? || w.Exited?
  {
    var r := s.queue[s.main.i];
    assert r in s.queue;
    assert PastFlag(s.workers[r]) && s.lock == Some(MainThread);
  }

  /** Every record ever enqueued has been reaped once or is queued now, once. */
  lemma {:induction false} EnqueuedIsReapedPlusQueued(events: seq<Event>)
    ensures var s := Run(BOOT, events);
            multiset(s.enqueued) == multiset(s.reaped) + multiset(s.queue) && NoRepeats(s.queue)
  {
    RunKeeps(events);
  }

  /**
   * A pass removes from the queue it found exactly the records whose flag was set, reaping them in order, keeps
   * the others in order, and returns their number. No flag changes while it runs.
   */
  lemma {:induction false} PassReturnsRemaining(events: seq<Event>)
    ensures var s := Run(BOOT, events);
            && (s.main.Counted? ==>
                  && s.main.count == |s.queue|
                  && s.queue == Kept(s.pass.queue, s.pass.flags, |s.pass.queue|)
                  && s.reaped == s.pass.reaped + Dropped(s.pass.queue, s.pass.flags, |s.pass.queue|))
            && (s.main.Reaping? || s.main.Joining? || s.main.Joined? ==> s.finished == s.pass.flags)
            && (s.main.Reaping? && s.main.i == |s.queue| ==>
                  s.main.count == |s.queue| && forall r :: r in s.queue ==> r !in s.finished)
  {
    RunTracks(BOOT, events);
  }

  /** The program ends only with every connection reaped and no worker left. */
  lemma {:induction false} ExitsOnlyWhenDrained(events: seq<Event>)
    ensures var s := Run(BOOT, events);
            s.main.Done? ==> s.queue == [] && s.workers == map[] && multiset(s.enqueued) == multiset(s.reaped)
  {
    RunKeeps(events);
  }

  // ---------------------------------------------------------------- shutdown is asked for

  /** The program drains its connections, or ends, only if it was told to shut down. */
  lemma {:induction false} OnlyShutdownDrains(events: seq<Event>)
    ensures Run(BOOT, events).draining || Run(BOOT, events).main.Done? ==> Shutdown in events
  {
    if events != [] {
      var init, e := events[..|events| - 1], events[|events| - 1];
      OnlyShutdownDrains(init);
      DrainingBegins(Run(BOOT, init), e);
    }
  }

  lemma {:induction false} DrainingBegins(s: Server, e: Event)
    ensures Step(s, e).draining ==> s.draining || e == Shutdown
    ensures Step(s, e).main.Done? ==> s.main.Done? || s.draining
  {
  }

  /** The main thread is busy with a connection, or ready for one. */
  predicate Serving(main: Main) {
    main.Accepting? || main.Starting? || main.Enqueueing? || main.Inserting? || main.InsertDone?
  }

  /** Told so while accepting, it drains from then on, and takes no further connection. */
  lemma {:induction false} ShutdownIsFinal(s: Server, events: seq<Event>)
    requires s.main.Accepting?
    ensures var s' := Run(Step(s, Shutdown), events);
            && s'.draining && s'.enqueued == s.enqueued
            && !s'.main.Accepting? && !s'.main.Starting? && !s'.main.Enqueueing? && !s'.main.Inserting?
  {
    StaysDraining(Step(s, Shutdown), events);
  }

  lemma {:induction false} StaysDraining(s: Server, events: seq<Event>)
    requires s.draining && !Serving(s.main)
    ensures var s' := Run(s, events); s'.draining && !Serving(s'.main) && s'.enqueued == s.enqueued
  {
    if events != [] {
      StaysDraining(s, events[..|events| - 1]);
      StepStaysDraining(Run(s, events[..|events| - 1]), events[|events| - 1]);
    }
  }

  lemma {:induction false} StepStaysDraining(s: Server, e: Event)
    requires s.draining && !Serving(s.main)
    ensures Step(s, e).draining && !Serving(Step(s, e).main) && Step(s, e).enqueued == s.enqueued
  {
  }

  /** After a pass the accept loop goes round again, until shutdown; then passes are made until none is left. */
  lemma {:induction false} AfterPass(s: Server)
    requires s.main.Counted?
    ensures !s.draining ==> Step(s, PassReturns) == s.(main := Accepting)
    ensures s.draining && s.main.count > 0 ==> Step(s, PassReturns) == s.(main := Checking)
    ensures s.draining && s.main.count == 0 ==> Step(s, PassReturns) == s.(main := Done)
  {
  }

  /** The accesses that raise a fault: those to a record that is not allocated, and nothing else. */
  lemma {:induction false} FreedAccessFaults(s: Server, r: nat)
    ensures r in s.workers && s.workers[r].Running? ==>
              (Step(s, Work(r)).fault <==> s.fault || r !in s.alloc)
    ensures r in s.workers && s.workers[r].HasLock? ==>
              (Step(s, SetFlag(r)).fault <==> s.fault || r !in s.alloc)
  {
  }

  lemma {:induction false} FreedAccessByMainFaults(s: Server, r: nat)
    ensures s.main == Starting(r) ==> (Step(s, CreateFails).fault <==> s.fault || r !in s.alloc)
    ensures s.main == Inserting(r) ==> (Step(s, Insert).fault <==> s.fault || r !in s.alloc)
    ensures (s.main.Reaping? || s.main.Joined?) && s.main.i < |s.queue| && s.queue[s.main.i] == r ==>
              (Step(s, if s.main.Reaping? then Look else Free).fault <==> s.fault || r !in s.alloc)
  {
  }

  /** A worker is gone only once it has exited and been joined. */
  lemma {:induction false} WorkerEnds(s: Server, e: Event, r: nat)
    requires r in s.workers && r !in Step(s, e).workers
    ensures s.workers[r].Exited? && e == JoinReturns && s.main.Joining?
    ensures s.main.i < |s.queue| && s.queue[s.main.i] == r
  {
  }

  /** Until then it serves its client, waits for the lock, sets its flag under it, releases it, and exits. */
  lemma {:induction false} WorkerMoves(s: Server, e: Event, r: nat)
    requires r in s.workers && r in Step(s, e).workers && Step(s, e).workers[r] != s.workers[r]
    ensures s.main == Starting(r) ||
            match (e, s.workers[r], Step(s, e).workers[r])
            case (Finish(_), Running, WantsLock) => e.r == r
            case (WorkerLock(_), WantsLock, HasLock) => e.r == r && s.lock == None
            case (SetFlag(_), HasLock, FlagSet) => e.r == r && r in Step(s, e).finished
            case (WorkerUnlock(_), FlagSet, Unlocked) => e.r == r && Step(s, e).lock == None
            case (Exit(_), Unlocked, Exited) => e.r == r
            case _ => false
  {
  }

  /** Which records a pass keeps and which it drops: decided by the flags alone. */
  lemma {:induction false} KeptMembers(q: seq<nat>, flags: set<nat>, k: nat, r: nat)
    requires k <= |q|
    ensures r in Kept(q, flags, k) <==> r in q[..k] && r !in flags
    ensures r in Dropped(q, flags, k) <==> r in q[..k] && r in flags
    ensures |Kept(q, flags, k)| + |Dropped(q, flags, k)| == k
  {
    if k > 0 {
      KeptMembers(q, flags, k - 1, r);
      assert q[..k] == q[..k - 1] + [q[k - 1]];
    }
  }

  // ---------------------------------------------------------------- the lock is always released

  /** An upper bound on the steps until the lock is released. */
  function HoldTime(s: Server): nat {
    match s.lock
    case None => 0
    case Some(WorkerThread(r)) => if r in s.workers && s.workers[r].HasLock? then 2 else 1
    case Some(MainThread) =>
      match s.main
      case Inserting(_) => 2
      case Reaping(i, _) => 1 + if i < |s.queue| then 4 * (|s.queue| - i) else 0
      case Joining(i, _) =>
        (if i < |s.queue| then 4 * (|s.queue| - i) else 0)
        - if i < |s.queue| && s.queue[i] in s.workers && s.workers[s.queue[i]].Exited? then 1 else 0
      case Joined(i, _) => if i < |s.queue| then 4 * (|s.queue| - i) - 2 else 0
      case _ => 1
  }

  /** Whenever the lock is held, some thread that needs no lock can take a step that brings its release closer. */
  lemma {:induction false} LockIsReleased(s: Server) returns (e: Event)
    requires Inv(s) && s.lock.Some?
    ensures HoldTime(Step(s, e)) < HoldTime(s)
    ensures !e.MainLock? && !e.WorkerLock?
  {
    if s.lock.value.WorkerThread? {
      var r := s.lock.value.r;
      e := if s.workers[r].HasLock? then SetFlag(r) else WorkerUnlock(r);
    } else if s.main.Inserting? || s.main.InsertDone? {
      e := if s.main.Inserting? then Insert else MainUnlock;
    } else if s.main.Joining? {
      e := JoinAdvances(s);
    } else {
      e := PassAdvances(s);
    }
  }

  lemma {:induction false} JoinAdvances(s: Server) returns (e: Event)
    requires Inv(s) && s.main.Joining?
    ensures e.JoinReturns? || e.Exit?
    ensures HoldTime(Step(s, e)) < HoldTime(s)
  {
    var i := s.main.i;
    var r := s.queue[i];
    JoinedIsPast(s);
    e := if s.workers[r].Exited? then JoinReturns else Exit(r);
  }

  lemma {:induction false} PassAdvances(s: Server) returns (e: Event)
    requires Inv(s) && (s.main.Reaping? || s.main.Joined?)
    ensures e.Look? || e.MainUnlock? || e.Free?
    ensures HoldTime(Step(s, e)) < HoldTime(s)
  {
    if s.main.Joined? {
      e := Free;
      FreeAdvances(s, s.main.i, s.main.count);
    } else {
      e := if s.main.i < |s.queue| then Look else MainUnlock;
      LookAdvances(s, s.main.i, s.main.count);
    }
  }

  lemma {:induction false} LookAdvances(s: Server, i: nat, count: nat)
    requires s.main == Reaping(i, count) && s.lock == Some(MainThread)
    ensures i < |s.queue| ==> HoldTime(LookStep(s, i, count)) < HoldTime(s)
    ensures i >= |s.queue| ==> HoldTime(MainStep(s, MainUnlock)) < HoldTime(s)
  {
  }

  lemma {:induction false} FreeAdvances(s: Server, i: nat, count: nat)
    requires s.main == Joined(i, count) && i < |s.queue| && s.lock == Some(MainThread)
    ensures HoldTime(FreeStep(s, i, count)) < HoldTime(s)
  {
    assert |FreeStep(s, i, count).queue| == |s.queue| - 1;
  }

  /** And no step of any thread pushes it further away while the lock is held. */
  lemma {:induction false} ReleaseNeverRecedes(s: Server, e: Event)
    requires Inv(s) && s.lock.Some?
    ensures HoldTime(Step(s, e)) <= HoldTime(s)
  {
    if OfWorker(e) {
      WorkerRecedesNot(s, e);
    } else {
      MainRecedesNot(s, e);
    }
  }

  lemma {:induction false} WorkerRecedesNot(s: Server, e: Event)
    requires LockHeld(s) && s.lock.Some? && OfWorker(e)
    ensures HoldTime(Step(s, e)) <= HoldTime(s)
  {
  }

  lemma {:induction false} MainRecedesNot(s: Server, e: Event)
    requires LockHeld(s) && s.lock.Some? && !OfWorker(e)
    ensures HoldTime(MainStep(s, e)) <= HoldTime(s)
  {
  }

  // ---------------------------------------------------------------- no other record is lost

  /** Allocated, but neither queued nor in the main thread's hands. */
  ghost predicate Lost(s: Server, r: nat) {
    r in s.alloc && r !in s.queue && InHand(s.main) != Some(r)
  }

  /** The record a step forgets: only a failing `open` does that. */
  function Forgotten(s: Server, e: Event): set<nat> {
    if e.OpenFails? && s.main.Starting? then {s.main.r} else {}
  }

  lemma {:induction false} FreeLoses(s: Server, i: nat, count: nat, r: nat)
    requires RecordsHeld(s) && s.main == Joined(i, count) && i < |s.queue|
    ensures Lost(FreeStep(s, i, count), r) <==> Lost(s, r)
  {
    CutOut(s.queue, i);
    assert s.queue[i] in s.queue;
  }

  lemma {:induction false} MainLoses(s: Server, e: Event, r: nat)
    requires RecordsHeld(s) && PassCounts(s) && !OfWorker(e)
    ensures Lost(MainStep(s, e), r) <==> Lost(s, r) || r in Forgotten(s, e)
  {
    if e.Free? && s.main.Joined? {
      FreeLoses(s, s.main.i, s.main.count, r);
    } else if e.Insert? && s.main.Inserting? {
      InsertLoses(s, s.main.r, r);
    } else {
      OthersLose(s, e, r);
    }
  }

  lemma {:induction false} InsertLoses(s: Server, inserted: nat, r: nat)
    requires s.main == Inserting(inserted)
    ensures Lost(MainStep(s, Insert), r) <==> Lost(s, r)
  {
    assert r in s.queue + [inserted] <==> r in s.queue || r == inserted;
  }

  lemma {:induction false} OthersLose(s: Server, e: Event, r: nat)
    requires InHand(s.main).Some? ==> InHand(s.main).value in s.alloc && InHand(s.main).value !in s.queue
    requires !OfWorker(e) && !(e.Free? && s.main.Joined?) && !(e.Insert? && s.main.Inserting?)
    ensures Lost(MainStep(s, e), r) <==> Lost(s, r) || r in Forgotten(s, e)
  {
    assert MainStep(s, e).queue == s.queue;
  }

  lemma {:induction false} StepLoses(s: Server, e: Event, r: nat)
    requires Inv(s)
    ensures Lost(Step(s, e), r) <==> Lost(s, r) || r in Forgotten(s, e)
  {
    if !OfWorker(e) {
      MainLoses(s, e, r);
    }
  }

  function ForgottenIn(events: seq<Event>): set<nat> {
    if events == [] then {}
    else
      var init := events[..|events| - 1];
      ForgottenIn(init) + Forgotten(Run(BOOT, init), events[|events| - 1])
  }

  /** In every run the records out of reach are exactly those whose device could not be opened. */
  lemma {:induction false} LostIsForgotten(events: seq<Event>)
    ensures forall r :: Lost(Run(BOOT, events), r) <==> r in ForgottenIn(events)
  {
    if events != [] {
      var init := events[..|events| - 1];
      LostIsForgotten(init);
      RunKeeps(init);
      forall r ensures Lost(Run(BOOT, events), r) <==> r in ForgottenIn(events) {
        StepLoses(Run(BOOT, init), events[|events| - 1], r);
      }
    }
  }

  // ---------------------------------------------------------------- shutdown ends

  lemma {:induction false} RunPlus(s: Server, a: seq<Event>, b: seq<Event>)
    ensures Run(s, a + b) == Run(Run(s, a), b)
  {
    if b == [] {
      assert a + b == a;
    } else {
      var c, e := b[..|b| - 1], b[|b| - 1];
      RunPlus(s, a, c);
      assert (a + b)[..|a + b| - 1] == a + c && (a + b)[|a + b| - 1] == e;
    }
  }

  ghost predicate AllExited(s: Server) {
    forall r :: r in s.workers ==> s.workers[r].Exited?
  }

  lemma {:induction false} RunTwo(s: Server, a: Event, b: Event)
    ensures Run(s, [a, b]) == Step(Step(s, a), b)
  {
    assert [a, b][..1] == [a] && [a][..0] == [];
    assert Run(s, [a]) == Step(s, a);
  }

  lemma {:induction false} RunThree(s: Server, a: Event, b: Event, c: Event)
    ensures Run(s, [a, b, c]) == Step(Step(Step(s, a), b), c)
  {
    RunTwo(s, a, b);
    assert [a, b, c][..2] == [a, b];
  }

  /** A finished record at the front of a pass is looked at, */
  lemma {:induction false} LookFront(s: Server)
    requires Inv(s) && AllExited(s) && s.main == Reaping(0, 0) && s.queue != []
    ensures Step(s, Look) == s.(main := Joining(0, 0)) && Inv(Step(s, Look))
  {
    FrontIsFinished(s);
    assert Step(s, Look) == LookStep(s, 0, 0);
    LookKeeps(s, 0, 0);
  }

  lemma {:induction false} FrontIsFinished(s: Server)
    requires RecordsHeld(s) && FlagsMeanPast(s) && AllExited(s) && s.queue != [] && Gone(s) == None
    ensures s.queue[0] in s.alloc && s.queue[0] in s.finished
  {
    assert s.queue[0] in s.queue;
  }

  /** its thread is joined, */
  lemma {:induction false} JoinFront(s: Server)
    requires Inv(s) && AllExited(s) && s.main == Joining(0, 0)
    ensures var s' := Step(s, JoinReturns);
            Inv(s') && AllExited(s') && s'.main == Joined(0, 0) && s'.queue == s.queue && s'.draining == s.draining
  {
    var r := s.queue[0];
    assert r in s.queue && r in s.workers;
    assert MainStep(s, JoinReturns) == s.(workers := s.workers - {r}, main := Joined(0, 0));
    MainKeeps(s, JoinReturns);
  }

  /** and it is freed. */
  lemma {:induction false} FreeFront(s: Server)
    requires Inv(s) && AllExited(s) && s.main == Joined(0, 0)
    ensures var s' := Step(s, Free);
            && Inv(s') && AllExited(s') && s'.main == Reaping(0, 0)
            && |s'.queue| == |s.queue| - 1 && s'.draining == s.draining
  {
    MainKeeps(s, Free);
  }

  const REAP_ONE: seq<Event> := [Look, JoinReturns, Free]

  lemma {:induction false} ReapFront(s: Server) returns (s': Server)
    requires Inv(s) && AllExited(s) && s.draining && s.main == Reaping(0, 0) && s.queue != []
    ensures s' == Run(s, REAP_ONE) && |s'.queue| == |s.queue| - 1
    ensures Inv(s') && AllExited(s') && s'.draining && s'.main == Reaping(0, 0)
  {
    LookFront(s);
    JoinFront(Step(s, Look));
    FreeFront(Step(Step(s, Look), JoinReturns));
    RunThree(s, Look, JoinReturns, Free);
    s' := Run(s, REAP_ONE);
  }

  lemma {:induction false} EmptyPassEnds(s: Server)
    requires s.draining && s.main == Reaping(0, 0) && s.queue == []
    ensures Run(s, [MainUnlock, PassReturns]).main == Done
  {
    RunTwo(s, MainUnlock, PassReturns);
  }

  lemma {:induction false} PassEmptiesQueue(s: Server) returns (events: seq<Event>)
    requires Inv(s) && AllExited(s) && s.draining && s.main == Reaping(0, 0)
    ensures Run(s, events).main == Done
    ensures |events| == 3 * |s.queue| + 2 && MainLock !in events
    decreases |s.queue|
  {
    if s.queue == [] {
      events := [MainUnlock, PassReturns];
      EmptyPassEnds(s);
    } else {
      var s' := ReapFront(s);
      var rest := PassEmptiesQueue(s');
      events := REAP_ONE + rest;
      RunPlus(s, REAP_ONE, rest);
    }
  }

  lemma {:induction false} LockIsFree(s: Server)
    requires LockHeld(s) && AllExited(s) && s.main.Checking?
    ensures s.lock == None
  {
    match s.lock
    case Some(WorkerThread(r)) => assert false;
    case _ =>
  }

  /** Once every worker has exited, one more pass of the shutdown loop ends the program, three steps a record. */
  lemma {:induction false} ShutdownEnds(s: Server) returns (events: seq<Event>)
    requires Inv(s) && AllExited(s) && s.draining && s.main.Checking?
    ensures Run(s, events).main == Done
    ensures |events| == 3 * |s.queue| + 3 && events[0] == MainLock && MainLock !in events[1..]
  {
    LockIsFree(s);
    LockKeeps(s);
    var rest := PassEmptiesQueue(Step(s, MainLock));
    assert [MainLock][..0] == [];
    assert Run(s, [MainLock]) == Step(s, MainLock);
    events := [MainLock] + rest;
    assert events[1..] == rest;
    RunPlus(s, [MainLock], rest);
  }

  // ---------------------------------------------------------------- a connection comes in

  /** The server with a record at `r` for a thread just created, which the main thread is about to enqueue. */
  function ThreadCreated(s: Server, r: nat): Server {
    s.(alloc := s.alloc + {r}, finished := s.finished - {r}, workers := s.workers[r := Running], main := Enqueueing(r))
  }

  /** The same server once that thread has set its flag and released the lock. */
  function ThreadDone(s: Server, r: nat): Server {
    s.(finished := s.finished + {r}, workers := s.workers[r := Unlocked])
  }

  lemma {:induction false} RunsToCreated(s: Server, r: nat)
    requires s.main.Accepting? && r !in s.alloc
    ensures Run(s, [Accept(r), CreateThread]) == ThreadCreated(s, r)
  {
    RunTwo(s, Accept(r), CreateThread);
  }

  /** A thread may get through all of its work before its record is enqueued. */
  lemma {:induction false} RunsToDone(s: Server, r: nat)
    requires r in s.workers && s.workers[r] == Running && r in s.alloc && s.lock == None
    ensures Run(s, [Finish(r), WorkerLock(r)] + [SetFlag(r), WorkerUnlock(r)]) == ThreadDone(s, r)
  {
    RunsToWorkerLock(s, r);
    RunsToFlag(WorkerLocked(s, r), r);
    RunPlus(s, [Finish(r), WorkerLock(r)], [SetFlag(r), WorkerUnlock(r)]);
  }

  function WorkerLocked(s: Server, r: nat): Server {
    s.(lock := Some(WorkerThread(r)), workers := s.workers[r := HasLock])
  }

  lemma {:induction false} RunsToWorkerLock(s: Server, r: nat)
    requires r in s.workers && s.workers[r] == Running && s.lock == None
    ensures Run(s, [Finish(r), WorkerLock(r)]) == WorkerLocked(s, r)
  {
    RunTwo(s, Finish(r), WorkerLock(r));
    assert Step(s, Finish(r)) == s.(workers := s.workers[r := WantsLock]);
  }

  lemma {:induction false} RunsToFlag(s: Server, r: nat)
    requires r in s.workers && s.workers[r] == HasLock && r in s.alloc
    ensures Run(s, [SetFlag(r), WorkerUnlock(r)])
         == s.(lock := None, finished := s.finished + {r}, workers := s.workers[r := Unlocked])
  {
    RunTwo(s, SetFlag(r), WorkerUnlock(r));
    assert Step(s, SetFlag(r)) == s.(finished := s.finished + {r}, workers := s.workers[r := FlagSet]);
  }

  lemma {:induction false} RunsToEnqueued(s: Server, r: nat)
    requires s.main == Enqueueing(r) && r in s.alloc && s.lock == None
    ensures Run(s, [MainLock, Insert, MainUnlock])
         == s.(queue := s.queue + [r], enqueued := s.enqueued + [r], main := Checking)
  {
    RunThree(s, MainLock, Insert, MainUnlock);
  }

  /** How a connection gets its thread and its place in the queue; `early`: the thread is done by then. */
  function EnqueueEvents(r: nat, early: bool): seq<Event> {
    [Accept(r), CreateThread] +
    ((if early then [Finish(r), WorkerLock(r)] + [SetFlag(r), WorkerUnlock(r)] else []) +
     [MainLock, Insert, MainUnlock])
  }

  /** They put the record at the tail of the queue, flagged or not, and change no other record. */
  lemma {:induction false} EnqueueRuns(s: Server, r: nat, early: bool)
    requires s.main.Accepting? && r !in s.alloc && s.lock == None
    ensures var s' := Run(s, EnqueueEvents(r, early));
            && s'.queue == s.queue + [r] && s'.enqueued == s.enqueued + [r] && s'.reaped == s.reaped
            && s'.finished == (s.finished - {r}) + (if early then {r} else {})
            && s'.alloc == s.alloc + {r} && s'.main == Checking && s'.lock == None && s'.fault == s.fault
            && r in s'.workers && s'.workers[r] == if early then Unlocked else Running
  {
    var created := ThreadCreated(s, r);
    var middle := if early then [Finish(r), WorkerLock(r)] + [SetFlag(r), WorkerUnlock(r)] else [];
    RunsToCreated(s, r);
    RunPlus(s, [Accept(r), CreateThread], middle + [MainLock, Insert, MainUnlock]);
    RunPlus(created, middle, [MainLock, Insert, MainUnlock]);
    if early {
      RunsToDone(created, r);
      RunsToEnqueued(ThreadDone(created, r), r);
    } else {
      RunsToEnqueued(created, r);
    }
  }

  // ---------------------------------------------------------------- a pass always completes

  lemma {:induction false} PassGoesOn(s: Server, e: Event)
    requires Passing(s.main)
    ensures (Passing(Step(s, e).main) || Step(s, e).main.Counted?) && Step(s, e).pass == s.pass
  {
  }

  lemma {:induction false} PassStep(s: Server) returns (e: Event, s': Server)
    requires Inv(s) && Passing(s.main)
    ensures s' == Step(s, e) == Run(s, [e]) && e != MainLock && e != Shutdown && e != Insert
    ensures Inv(s') && HoldTime(s') < HoldTime(s)
    ensures (Passing(s'.main) || s'.main.Counted?) && s'.pass == s.pass
  {
    if s.main.Joining? {
      e := JoinAdvances(s);
    } else {
      e := PassAdvances(s);
    }
    s' := Step(s, e);
    StepKeeps(s, e);
    PassGoesOn(s, e);
    assert [e][..0] == [];
  }

  /** From any point of a pass, steps that need no lock bring it to its end, whatever the workers have done so far. */
  lemma {:induction false} PassEnds(s: Server) returns (events: seq<Event>)
    requires Inv(s) && Passing(s.main)
    ensures Run(s, events).main.Counted? && Run(s, events).pass == s.pass
    ensures MainLock !in events && Shutdown !in events && Insert !in events
    decreases HoldTime(s)
  {
    var e, s' := PassStep(s);
    events := [e];
    if Passing(s'.main) {
      var rest := PassEnds(s');
      events := [e] + rest;
      RunPlus(s, [e], rest);
    }
  }

  lemma {:induction false} PassOpens(s: Server) returns (start: Server)
    requires Inv(s) && s.main.Checking? && s.lock == None
    ensures start == Run(s, [MainLock]) && Passing(start.main)
    ensures Inv(start) && PassTracks(start) && start.pass == Pass(s.queue, s.finished, s.reaped)
  {
    start := Step(s, MainLock);
    LockKeeps(s);
    PassStarts(s.queue, s.finished, s.reaped);
    assert [MainLock][..0] == [];
  }

  /** A pass that can take the lock has a run to its end, and leaves the queue it found without the flagged records. */
  lemma {:induction false} PassRuns(s: Server) returns (events: seq<Event>)
    requires Inv(s) && s.main.Checking? && s.lock == None
    ensures events != [] && events[0] == MainLock && MainLock !in events[1..]
    ensures Shutdown !in events && Insert !in events
    ensures var s' := Run(s, events);
            && s'.main.Counted? && s'.main.count == |s'.queue|
            && s'.queue == Kept(s.queue, s.finished, |s.queue|)
            && s'.reaped == s.reaped + Dropped(s.queue, s.finished, |s.queue|)
  {
    var start := PassOpens(s);
    var rest := PassEnds(start);
    RunTracks(start, rest);
    events := [MainLock] + rest;
    assert events[1..] == rest;
    RunPlus(s, [MainLock], rest);
  }

  /** Finding no client, the server makes a pass over its connections and then accepts again. */
  lemma {:induction false} AcceptLoopGoesRound(s: Server) returns (events: seq<Event>)
    requires Inv(s) && s.main.Accepting? && s.lock == None && !s.draining
    ensures var s' := Run(s, [NoClient] + events + [PassReturns]);
            s'.main.Accepting? && !s'.draining && s'.enqueued == s.enqueued &&
            s'.queue == Kept(s.queue, s.finished, |s.queue|)
  {
    var checking := Step(s, NoClient);
    StepKeeps(s, NoClient);
    assert [NoClient][..0] == [] && Run(s, [NoClient]) == checking;
    events := PassRuns(checking);
    PassKeepsSettings(checking, events);
    RunPlus(s, [NoClient], events);
    var counted := Run(s, [NoClient] + events);
    assert ([NoClient] + events + [PassReturns])[..1 + |events|] == [NoClient] + events;
    AfterPass(counted);
  }

  /** No event but `Shutdown` and `Insert` touches these. */
  lemma {:induction false} PassKeepsSettings(s: Server, events: seq<Event>)
    requires Shutdown !in events && Insert !in events
    ensures Run(s, events).draining == s.draining && Run(s, events).enqueued == s.enqueued
  {
    if events != [] {
      var init, e := events[..|events| - 1], events[|events| - 1];
      assert e in events;
      PassKeepsSettings(s, init);
      StepKeepsSettings(Run(s, init), e);
    }
  }

  lemma {:induction false} StepKeepsSettings(s: Server, e: Event)
    requires e != Shutdown && e != Insert
    ensures Step(s, e).draining == s.draining && Step(s, e).enqueued == s.enqueued
  {
  }
}

/**
 * What `Connections` does to the linked list is what the protocol in `Lifecycle` does to its queue: the latter
 * is the list of the addresses of the records.
 */
module QueueRefinement {
  import opened TailQueues
  import opened Connections
  import Lifecycle

  /** The addresses of records, `addr` being where each one is. */
  function Addresses(addr: Client -> nat, s: seq<Client>): (r: seq<nat>)
    ensures |r| == |s| && forall i :: 0 <= i < |s| ==> r[i] == addr(s[i])
  {
    if s == [] then [] else Addresses(addr, s[..|s| - 1]) + [addr(s[|s| - 1])]
  }

  /** Each record's flag is set exactly if the protocol counts its address as finished. */
  ghost predicate FlagsAgree(addr: Client -> nat, s: seq<Client>, infos: seq<Info>, flags: set<nat>)
    requires |s| == |infos|
  {
    forall i :: 0 <= i < |s| ==> (infos[i].finished <==> addr(s[i]) in flags)
  }

  lemma {:induction false} AddressesPlus(addr: Client -> nat, a: seq<Client>, e: Client)
    ensures Addresses(addr, a + [e]) == Addresses(addr, a) + [addr(e)]
  {
  }

  lemma {:induction false} KeptIsUnfinished(addr: Client -> nat, s: seq<Client>, infos: seq<Info>,
                                            flags: set<nat>, k: nat)
    requires k <= |s| == |infos| && FlagsAgree(addr, s, infos, flags)
    ensures Addresses(addr, Unfinished(s, infos, k)) == Lifecycle.Kept(Addresses(addr, s), flags, k)
  {
    if k > 0 {
      KeptIsUnfinished(addr, s, infos, flags, k - 1);
      AddressesPlus(addr, Unfinished(s, infos, k - 1), s[k - 1]);
    }
  }

  /** The addresses freed, in order, in a list of actions. */
  function Freed(addr: Client -> nat, actions: seq<Action>): seq<nat> {
    if actions == [] then []
    else
      var last := actions[|actions| - 1];
      Freed(addr, actions[..|actions| - 1]) + if last.FreeRecord? then [addr(last.e)] else []
  }

  lemma {:induction false} FreedPlus(addr: Client -> nat, a: seq<Action>, b: seq<Action>)
    ensures Freed(addr, a + b) == Freed(addr, a) + Freed(addr, b)
  {
    if b == [] {
      assert a + b == a;
    } else {
      FreedPlus(addr, a, b[..|b| - 1]);
      assert (a + b)[..|a + b| - 1] == a + b[..|b| - 1];
    }
  }

  lemma {:induction false} FreedByOne(addr: Client -> nat, a: Action)
    ensures Freed(addr, [a]) == if a.FreeRecord? then [addr(a.e)] else []
  {
    assert [a][..0] == [];
    assert Freed(addr, []) == [];
  }

  lemma {:induction false} FreedByFarewell(addr: Client -> nat, e: Client, info: Info)
    ensures Freed(addr, FarewellTo(e, info)) == if info.finished then [addr(e)] else []
  {
    if info.finished {
      var j, c, d, f := Join(info.threadId), Close(info.connfd), Close(info.fd), FreeRecord(e);
      FreedByOne(addr, j);
      FreedByOne(addr, c);
      FreedByOne(addr, d);
      FreedByOne(addr, f);
      FreedPlus(addr, [j], [c]);
      FreedPlus(addr, [d], [f]);
      FreedPlus(addr, [j] + [c], [d] + [f]);
      assert [j] + [c] + ([d] + [f]) == [j, c, d, f];
    }
  }

  lemma {:induction false} FreedNext(addr: Client -> nat, s: seq<Client>, infos: seq<Info>, k: nat)
    requires 0 < k <= |s| == |infos|
    ensures Freed(addr, Farewell(s, infos, k)) ==
            Freed(addr, Farewell(s, infos, k - 1)) + if infos[k - 1].finished then [addr(s[k - 1])] else []
  {
    FreedPlus(addr, Farewell(s, infos, k - 1), FarewellTo(s[k - 1], infos[k - 1]));
    FreedByFarewell(addr, s[k - 1], infos[k - 1]);
  }

  lemma {:induction false} DroppedIsFreed(addr: Client -> nat, s: seq<Client>, infos: seq<Info>,
                                          flags: set<nat>, k: nat)
    requires k <= |s| == |infos| && FlagsAgree(addr, s, infos, flags)
    ensures Freed(addr, Farewell(s, infos, k)) == Lifecycle.Dropped(Addresses(addr, s), flags, k)
  {
    if k > 0 {
      DroppedIsFreed(addr, s, infos, flags, k - 1);
      FreedNext(addr, s, infos, k);
    }
  }

  /**
   * Whenever the protocol can make a pass over the queue that the list stands for, it has a run that ends with
   * the queue the list then stands for, the count the code returns, and the records reaped that the code frees.
   */
  method CheckAsProtocol(q: TailQ, ghost s: seq<Client>, ghost infos: seq<Info>,
                         ghost addr: Client -> nat, ghost server: Lifecycle.Server)
    returns (outstanding: nat, actions: seq<Action>, ghost left: seq<Client>, ghost events: seq<Lifecycle.Event>)
    requires Links(q, s) && |infos| == |s| && Ahead(s, infos, 0)
    requires Lifecycle.Inv(server) && server.main.Checking? && server.lock.None?
    requires server.queue == Addresses(addr, s) && FlagsAgree(addr, s, infos, server.finished)
    modifies q, s
    ensures Links(q, left)
    ensures var done := Lifecycle.Run(server, events);
            && done.main == Lifecycle.Counted(outstanding)
            && done.queue == Addresses(addr, left)
            && done.reaped == server.reaped + Freed(addr, actions)
  {
    outstanding, actions := CheckForFinished(q, s, infos);
    left := Unfinished(s, infos, |s|);
    events := Lifecycle.PassRuns(server);
    KeptIsUnfinished(addr, s, infos, server.finished, |s|);
    DroppedIsFreed(addr, s, infos, server.finished, |s|);
  }

  /** The protocol's steps for a call of `create_client_thread` whose record lies at `r`. */
  function CreateEvents(outcome: Outcome, r: nat, early: bool): seq<Lifecycle.Event> {
    match outcome
    case AllocFails => [Lifecycle.NoClient]
    case OpenFails => [Lifecycle.Accept(r), Lifecycle.OpenFails]
    case CreateFails => [Lifecycle.Accept(r), Lifecycle.CreateFails]
    case _ => Lifecycle.EnqueueEvents(r, early)
  }

  /** A call that fails leaves queue and histories alone. */
  lemma {:induction false} FailedCreateRuns(server: Lifecycle.Server, outcome: Outcome, r: nat, early: bool)
    requires server.main.Accepting? && server.lock.None? && !ThreadRuns(outcome) && r !in server.alloc
    ensures var done := Lifecycle.Run(server, CreateEvents(outcome, r, early));
            && done.queue == server.queue && done.enqueued == server.enqueued && done.main.Checking?
            && done.lock.None?
            && done.alloc == server.alloc + (if outcome.OpenFails? then {r} else {})
            && done.finished == server.finished - (if outcome.AllocFails? then {} else {r})
  {
    match outcome
    case AllocFails =>
      assert [Lifecycle.NoClient][..0] == [];
      assert Lifecycle.Run(server, [Lifecycle.NoClient]) == Lifecycle.Step(server, Lifecycle.NoClient);
    case OpenFails => Lifecycle.RunTwo(server, Lifecycle.Accept(r), Lifecycle.OpenFails);
    case CreateFails => Lifecycle.RunTwo(server, Lifecycle.Accept(r), Lifecycle.CreateFails);
  }

  /** Either way only the new record's flag can change, and that of no queued one. */
  lemma {:induction false} CreateRuns(server: Lifecycle.Server, outcome: Outcome, r: nat, early: bool)
    requires Lifecycle.Inv(server) && server.main.Accepting? && server.lock.None? && r !in server.alloc
    requires !outcome.LockFails? && !outcome.UnlockFails?
    ensures var done := Lifecycle.Run(server, CreateEvents(outcome, r, early));
            && done.main.Checking? && done.lock.None?
            && done.queue == server.queue + (if outcome.Started? then [r] else [])
            && (outcome.Started? ==> (r in done.finished <==> early))
            && forall i :: 0 <= i < |server.queue| ==>
                 (server.queue[i] in done.finished <==> server.queue[i] in server.finished)
  {
    assert forall i :: 0 <= i < |server.queue| ==> server.queue[i] in server.queue;
    if outcome.Started? {
      Lifecycle.EnqueueRuns(server, r, early);
    } else {
      FailedCreateRuns(server, outcome, r, early);
    }
  }

  /** The address a record is given, or any one if there is no record. */
  ghost function AddressOf(addr: Client -> nat, e: Client?, otherwise: nat): nat {
    if e == null then otherwise else addr(e)
  }

  /** The flags in the records are those that the protocol knows of. */
  ghost predicate FlagsKnown(addr: Client -> nat, s: seq<Client>, flags: set<nat>)
    reads s
  {
    forall i :: 0 <= i < |s| ==> (s[i].taskFinished <==> addr(s[i]) in flags)
  }

  /**
   * Creating a connection, when the lock can be taken and released, is a run of the protocol to the queue and the
   * flags that the list then stands for, provided that the allocator gives the record an address not in use.
   */
  method CreateAsProtocol(q: TailQ, connfd: int, fd: int, threadId: int, outcome: Outcome, early: bool,
                          ghost s: seq<Client>, ghost addr: Client -> nat, ghost server: Lifecycle.Server,
                          ghost unused: nat)
    returns (rc: int, e: Client?, ghost left: seq<Client>, ghost events: seq<Lifecycle.Event>)
    requires Links(q, s) && !outcome.LockFails? && !outcome.UnlockFails?
    requires Lifecycle.Inv(server) && server.main.Accepting? && server.lock.None? && unused !in server.alloc
    requires server.queue == Addresses(addr, s) && FlagsKnown(addr, s, server.finished)
    modifies q, s`next
    ensures Links(q, left) && (rc == 0 <==> |left| == |s| + 1)
    ensures AddressOf(addr, e, unused) !in server.alloc ==>
              var done := Lifecycle.Run(server, events);
              && done.main.Checking? && done.lock.None?
              && done.queue == Addresses(addr, left) && FlagsKnown(addr, left, done.finished)
  {
    rc, e := CreateClientThread(q, connfd, fd, threadId, outcome, early, s);
    left := if e != null && outcome.Started? then s + [e] else s;
    ghost var r := AddressOf(addr, e, unused);
    events := CreateEvents(outcome, r, early);
    if r !in server.alloc {
      CreateRuns(server, outcome, r, early);
      ghost var done := Lifecycle.Run(server, events);
      FlagsStillKnown(addr, s, server.queue, server.finished, done.finished);
      if outcome.Started? {
        AddressesPlus(addr, s, e);
        FlagsKnownPlus(addr, s, e, done.finished);
      }
    }
  }

  lemma {:induction false} FlagsKnownPlus(addr: Client -> nat, s: seq<Client>, e: Client, flags: set<nat>)
    requires FlagsKnown(addr, s, flags) && (e.taskFinished <==> addr(e) in flags)
    ensures FlagsKnown(addr, s + [e], flags)
  {
  }

  /** Flags are known as before if those of the queued records are. */
  lemma {:induction false} FlagsStillKnown(addr: Client -> nat, s: seq<Client>, q: seq<nat>,
                                           was: set<nat>, now: set<nat>)
    requires q == Addresses(addr, s) && FlagsKnown(addr, s, was)
    requires forall i :: 0 <= i < |q| ==> (q[i] in now <==> q[i] in was)
    ensures FlagsKnown(addr, s, now)
  {
    forall i | 0 <= i < |s| ensures s[i].taskFinished <==> addr(s[i]) in now {
      assert q[i] == addr(s[i]);
    }
  }
}

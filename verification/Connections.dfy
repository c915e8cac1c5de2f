/** The main thread's work on the connection queue (aesdsocket.c:58-137), over the real linked list. */
module Connections {
  import opened TailQueues

  /** What the reaper does to a finished connection besides unlinking it. */
  datatype Action = Join(threadId: int) | Close(fd: int) | FreeRecord(e: Client)

  /** A record's contents at one moment. */
  datatype Info = Info(finished: bool, threadId: int, connfd: int, fd: int)

  function InfoOf(e: Client): Info
    reads e
  {
    Info(e.taskFinished, e.threadId, e.connfd, e.fd)
  }

  /** Among the first `k` records, those whose flag was clear, in order. */
  function Unfinished(s: seq<Client>, infos: seq<Info>, k: nat): seq<Client>
    requires k <= |s| == |infos|
  {
    if k == 0 then []
    else Unfinished(s, infos, k - 1) + if infos[k - 1].finished then [] else [s[k - 1]]
  }

  function FarewellTo(e: Client, info: Info): seq<Action> {
    if info.finished then [Join(info.threadId), Close(info.connfd), Close(info.fd), FreeRecord(e)] else []
  }

  /** Join, close socket and device, then free, for each finished record among the first `k`. */
  function Farewell(s: seq<Client>, infos: seq<Info>, k: nat): seq<Action>
    requires k <= |s| == |infos|
  {
    if k == 0 then [] else Farewell(s, infos, k - 1) + FarewellTo(s[k - 1], infos[k - 1])
  }

  /** Four actions for each finished record. */
  lemma {:induction false} FarewellLength(s: seq<Client>, infos: seq<Info>, k: nat)
    requires k <= |s| == |infos|
    ensures |Unfinished(s, infos, k)| <= k && |Farewell(s, infos, k)| == 4 * (k - |Unfinished(s, infos, k)|)
  {
    if k > 0 {
      FarewellLength(s, infos, k - 1);
    }
  }

  /** A finished record is joined, its descriptors are closed, and it is freed, after the same for the earlier ones. */
  lemma {:induction false} FarewellBlock(s: seq<Client>, infos: seq<Info>, k: nat, i: nat, p: int, actions: seq<Action>)
    requires i < k <= |s| == |infos| && infos[i].finished
    requires p == 4 * (i - |Unfinished(s, infos, i)|) && actions == Farewell(s, infos, k)
    ensures 0 <= p <= |actions| - 4
    ensures actions[p..p + 4] ==
            [Join(infos[i].threadId), Close(infos[i].connfd), Close(infos[i].fd), FreeRecord(s[i])]
  {
    FarewellLength(s, infos, i);
    var earlier, last := Farewell(s, infos, k - 1), FarewellTo(s[k - 1], infos[k - 1]);
    if i < k - 1 {
      FarewellBlock(s, infos, k - 1, i, p, earlier);
      SliceOfFirst(earlier, last, p, p + 4);
    } else {
      assert p == |earlier| && |last| == 4;
      SliceOfSecond(earlier, last);
    }
  }

  lemma {:induction false} SliceOfFirst<T>(a: seq<T>, b: seq<T>, from: nat, to: nat)
    requires from <= to <= |a|
    ensures (a + b)[from..to] == a[from..to]
  {
  }

  lemma {:induction false} SliceOfSecond<T>(a: seq<T>, b: seq<T>)
    ensures (a + b)[|a|..|a| + |b|] == b
  {
  }

  /** Nothing is done to an unfinished record. */
  lemma {:induction false} FarewellOnlyFinished(s: seq<Client>, infos: seq<Info>, k: nat, a: Action)
    requires k <= |s| == |infos| && a in Farewell(s, infos, k)
    ensures exists i :: 0 <= i < k && infos[i].finished &&
              (a == Join(infos[i].threadId) || a == Close(infos[i].connfd) ||
               a == Close(infos[i].fd) || a == FreeRecord(s[i]))
  {
    if a in Farewell(s, infos, k - 1) {
      FarewellOnlyFinished(s, infos, k - 1, a);
    }
  }

  /** How often `e` is freed. */
  function Frees(actions: seq<Action>, e: Client): nat {
    if actions == [] then 0
    else Frees(actions[..|actions| - 1], e) + if actions[|actions| - 1] == FreeRecord(e) then 1 else 0
  }

  lemma {:induction false} FreesPlus(a: seq<Action>, b: seq<Action>, e: Client)
    ensures Frees(a + b, e) == Frees(a, e) + Frees(b, e)
  {
    if b == [] {
      assert a + b == a;
    } else {
      FreesPlus(a, b[..|b| - 1], e);
      assert (a + b)[..|a + b| - 1] == a + b[..|b| - 1];
    }
  }

  lemma {:induction false} FarewellFrees(e: Client, info: Info, x: Client)
    ensures Frees(FarewellTo(e, info), x) == if info.finished && e == x then 1 else 0
  {
    if info.finished {
      var j, c, d, f := Join(info.threadId), Close(info.connfd), Close(info.fd), FreeRecord(e);
      FreesOne(j, x);
      FreesOne(c, x);
      FreesOne(d, x);
      FreesOne(f, x);
      FreesPlus([j], [c], x);
      FreesPlus([d], [f], x);
      FreesPlus([j] + [c], [d] + [f], x);
      assert [j] + [c] + ([d] + [f]) == [j, c, d, f];
    }
  }

  lemma {:induction false} FreesOne(a: Action, e: Client)
    ensures Frees([a], e) == if a == FreeRecord(e) then 1 else 0
  {
    assert [a][..0] == [];
    assert Frees([], e) == 0;
  }

  lemma {:induction false} FreedUpTo(s: seq<Client>, infos: seq<Info>, k: nat, i: nat)
    requires k <= |s| == |infos| && i < |s| && forall j :: 0 <= j < |s| && j != i ==> s[j] != s[i]
    ensures Frees(Farewell(s, infos, k), s[i]) == if i < k && infos[i].finished then 1 else 0
  {
    if k > 0 {
      FreedUpTo(s, infos, k - 1, i);
      FarewellFrees(s[k - 1], infos[k - 1], s[i]);
      FreesPlus(Farewell(s, infos, k - 1), FarewellTo(s[k - 1], infos[k - 1]), s[i]);
    }
  }

  /** Each finished record is freed exactly once in a pass, and no other record of the queue is. */
  lemma {:induction false} FreedOnce(s: seq<Client>, infos: seq<Info>, i: nat)
    requires i < |s| == |infos| && NoRepeats(s)
    ensures Frees(Farewell(s, infos, |s|), s[i]) == if infos[i].finished then 1 else 0
  {
    FreedUpTo(s, infos, |s|, i);
  }

  /** Only a live record is freed; afterwards its fields may hold anything. */
  method Free(e: Client)
    requires e.live
    modifies e
    ensures !e.live
  {
    e.live := false;
  }

  /** Whether a record is kept is decided by its own flag alone. */
  lemma {:induction false} UnfinishedMembers(s: seq<Client>, infos: seq<Info>, k: nat)
    requires k <= |s| == |infos|
    ensures forall e :: e in Unfinished(s, infos, k) ==> exists i :: 0 <= i < k && s[i] == e && !infos[i].finished
    ensures forall i :: 0 <= i < k && !infos[i].finished ==> s[i] in Unfinished(s, infos, k)
  {
    if k > 0 {
      UnfinishedMembers(s, infos, k - 1);
    }
  }

  /** Every record from position `k` on is as the snapshot says and not yet freed. */
  ghost predicate Ahead(s: seq<Client>, infos: seq<Info>, k: nat)
    requires |s| == |infos|
    reads s
  {
    forall i :: k <= i < |s| ==> s[i].live && InfoOf(s[i]) == infos[i]
  }

  /** Every record before position `k` was freed if finished and is untouched otherwise. */
  ghost predicate Behind(s: seq<Client>, infos: seq<Info>, k: nat)
    requires |s| == |infos|
    reads s
  {
    forall i :: 0 <= i < k && i < |s| ==>
      if infos[i].finished then !s[i].live else s[i].live && InfoOf(s[i]) == infos[i]
  }

  /** Join, close, unlink and free the finished record at position `m`; every other record keeps its contents. */
  method Reap(q: TailQ, e: Client, ghost cur: seq<Client>, ghost m: nat, ghost all: seq<Client>)
    returns (actions: seq<Action>)
    requires Links(q, cur) && m < |cur| && cur[m] == e && e.live
    requires forall i :: 0 <= i < |cur| ==> cur[i] in all
    modifies q, all
    ensures Links(q, cur[..m] + cur[m + 1..])
    ensures !e.live
    ensures forall i :: 0 <= i < |all| && all[i] != e ==>
              all[i].live == old(all[i].live) && InfoOf(all[i]) == old(InfoOf(all[i]))
    ensures actions == [Join(old(e.threadId)), Close(old(e.connfd)), Close(old(e.fd)), FreeRecord(e)]
  {
    actions := [Join(e.threadId), Close(e.connfd), Close(e.fd)];
    OnlyAt(q, cur, m);
    Remove(q, e, cur, m);
    Removed(cur, m);
    assert e !in cur[..m] + cur[m + 1..];
    Free(e);
    actions := actions + [FreeRecord(e)];
  }

  /** The queue in the middle of a pass: the records kept so far, then those not yet looked at. */
  ghost function Current(s: seq<Client>, infos: seq<Info>, k: nat): seq<Client>
    requires k <= |s| == |infos|
  {
    Unfinished(s, infos, k) + s[k..]
  }

  lemma {:induction false} CurrentStep(s: seq<Client>, infos: seq<Info>, k: nat)
    requires k < |s| == |infos|
    ensures var cur, cur', m := Current(s, infos, k), Current(s, infos, k + 1), |Unfinished(s, infos, k)|;
            && m < |cur| && cur[m] == s[k] && NodeAt(cur, m + 1) == NodeAt(s, k + 1)
            && cur' == if infos[k].finished then cur[..m] + cur[m + 1..] else cur
  {
    var kept := Unfinished(s, infos, k);
    assert kept + s[k..] == (kept + [s[k]]) + s[k + 1..];
    if infos[k].finished {
      var cur := kept + s[k..];
      assert cur[..|kept|] + cur[|kept| + 1..] == kept + s[k + 1..];
    }
  }

  lemma {:induction false} CurrentAtEnd(s: seq<Client>, infos: seq<Info>)
    requires |s| == |infos|
    ensures Current(s, infos, |s|) == Unfinished(s, infos, |s|)
  {
  }

  /** A pass only ever holds records of the original queue. */
  lemma {:induction false} CurrentWithin(s: seq<Client>, infos: seq<Info>, k: nat)
    requires k <= |s| == |infos|
    ensures forall i :: 0 <= i < |Current(s, infos, k)| ==> Current(s, infos, k)[i] in s
  {
    UnfinishedMembers(s, infos, k);
    var cur := Current(s, infos, k);
    forall i | 0 <= i < |cur| ensures cur[i] in s {
      assert cur[i] in Unfinished(s, infos, k) || cur[i] in s[k..];
    }
  }

  /** The loop body: the next node is read first, so that the record may be unlinked and freed. */
  method Visit(q: TailQ, e: Client, ghost s: seq<Client>, ghost infos: seq<Info>, ghost k: nat, ghost cur: seq<Client>)
    returns (finished: bool, actions: seq<Action>, next: Client?, ghost cur': seq<Client>)
    requires k < |s| == |infos| && s[k] == e
    requires cur == Current(s, infos, k) && Links(q, cur) && Ahead(s, infos, k) && Behind(s, infos, k)
    requires forall i :: 0 <= i < |s| && i != k ==> s[i] != e
    modifies q, s
    ensures cur' == Current(s, infos, k + 1) && Links(q, cur') && Ahead(s, infos, k + 1) && Behind(s, infos, k + 1)
    ensures |cur'| == |cur| - if finished then 1 else 0
    ensures next == NodeAt(s, k + 1) && finished == infos[k].finished
    ensures actions == if !infos[k].finished then []
                       else [Join(infos[k].threadId), Close(infos[k].connfd), Close(infos[k].fd), FreeRecord(e)]
  {
    ghost var m := |Unfinished(s, infos, k)|;
    CurrentStep(s, infos, k);
    CurrentWithin(s, infos, k);
    assert cur[m].next == NodeAt(cur, m + 1);
    next, finished, actions, cur' := e.next, e.taskFinished, [], cur;
    if finished {
      actions := Reap(q, e, cur, m, s);
      cur' := cur[..m] + cur[m + 1..];
    }
  }

  lemma {:induction false} OnlyOnce(s: seq<Client>, k: nat)
    requires NoRepeats(s) && k < |s|
    ensures forall i :: 0 <= i < |s| && i != k ==> s[i] != s[k]
  {
    forall i | 0 <= i < |s| && i != k ensures s[i] != s[k] {
      if i < k {
        assert s[i] != s[k];
      } else {
        assert s[k] != s[i];
      }
    }
  }

  /** The loop of a pass, made under the lock. */
  method ReapAll(q: TailQ, ghost s: seq<Client>, ghost infos: seq<Info>)
    returns (outstanding: nat, actions: seq<Action>)
    requires Links(q, s) && |infos| == |s| && Ahead(s, infos, 0)
    modifies q, s
    ensures Links(q, Unfinished(s, infos, |s|))
    ensures outstanding == |Unfinished(s, infos, |s|)|
    ensures actions == Farewell(s, infos, |s|)
    ensures Behind(s, infos, |s|)
  {
    ghost var k, cur := 0, s;
    LinksDistinct(q, s);
    outstanding, actions := 0, [];
    var e := q.first;
    while e != null
      invariant k <= |s| && e == NodeAt(s, k) && (e == null ==> k == |s|)
      invariant cur == Current(s, infos, k) && Links(q, cur)
      invariant Ahead(s, infos, k)
      invariant Behind(s, infos, k)
      invariant outstanding == |cur| - (|s| - k)
      invariant actions == Farewell(s, infos, k)
      decreases |s| - k
    {
      var finished, farewell;
      OnlyOnce(s, k);
      finished, farewell, e, cur := Visit(q, e, s, infos, k, cur);
      actions := actions + farewell;
      if !finished {
        outstanding := outstanding + 1;
      }
      k := k + 1;
    }
    CurrentAtEnd(s, infos);
  }

  /**
   * One reaping pass over the whole queue, whose records are live and hold `infos`. Exactly the unfinished
   * records remain, in their order, and their number is returned; each finished one, and no other, is joined,
   * closed and freed once, in their order. A freed record is assumed to hold garbage from then on.
   */
  method CheckForFinished(q: TailQ, ghost s: seq<Client>, ghost infos: seq<Info>)
    returns (outstanding: nat, actions: seq<Action>)
    requires Links(q, s) && |infos| == |s| && Ahead(s, infos, 0)
    modifies q, s
    ensures Links(q, Unfinished(s, infos, |s|))
    ensures outstanding == |Unfinished(s, infos, |s|)|
    ensures forall i :: 0 <= i < |s| && infos[i].finished ==> !s[i].live
    ensures forall i :: 0 <= i < |s| && !infos[i].finished ==>
              && s[i].live && !s[i].taskFinished && s[i].threadId == infos[i].threadId
              && s[i].connfd == infos[i].connfd && s[i].fd == infos[i].fd
    ensures actions == Farewell(s, infos, |s|)
    ensures |actions| == 4 * (|s| - outstanding)
    ensures forall i :: 0 <= i < |s| && infos[i].finished ==>
              var p := 4 * (i - |Unfinished(s, infos, i)|);
              0 <= p <= |actions| - 4 && actions[p..p + 4] ==
                [Join(infos[i].threadId), Close(infos[i].connfd), Close(infos[i].fd), FreeRecord(s[i])]
    ensures forall a :: a in actions ==>
              exists i :: 0 <= i < |s| && infos[i].finished &&
                (a == Join(infos[i].threadId) || a == Close(infos[i].connfd) ||
                 a == Close(infos[i].fd) || a == FreeRecord(s[i]))
    ensures (forall i :: 0 <= i < |s| ==> !infos[i].finished) ==> actions == []
  {
    outstanding, actions := ReapAll(q, s, infos);
    FarewellMeaning(s, infos, actions);
    forall i | 0 <= i < |s| && !infos[i].finished ensures s[i].live && InfoOf(s[i]) == infos[i] {
    }
  }

  lemma {:induction false} FarewellMeaning(s: seq<Client>, infos: seq<Info>, actions: seq<Action>)
    requires |s| == |infos| && actions == Farewell(s, infos, |s|)
    ensures |actions| == 4 * (|s| - |Unfinished(s, infos, |s|)|)
    ensures forall i :: 0 <= i < |s| && infos[i].finished ==>
              var p := 4 * (i - |Unfinished(s, infos, i)|);
              0 <= p <= |actions| - 4 && actions[p..p + 4] ==
                [Join(infos[i].threadId), Close(infos[i].connfd), Close(infos[i].fd), FreeRecord(s[i])]
    ensures forall a :: a in actions ==>
              exists i :: 0 <= i < |s| && infos[i].finished &&
                (a == Join(infos[i].threadId) || a == Close(infos[i].connfd) ||
                 a == Close(infos[i].fd) || a == FreeRecord(s[i]))
    ensures (forall i :: 0 <= i < |s| ==> !infos[i].finished) ==> actions == []
  {
    FarewellLength(s, infos, |s|);
    forall i | 0 <= i < |s| && infos[i].finished {
      FarewellBlock(s, infos, |s|, i, 4 * (i - |Unfinished(s, infos, i)|), actions);
    }
    forall a | a in actions {
      FarewellOnlyFinished(s, infos, |s|, a);
    }
    if actions != [] {
      FarewellOnlyFinished(s, infos, |s|, actions[0]);
    }
  }

  /** How the calls that `create_client_thread` makes turn out. */
  datatype Outcome = AllocFails | OpenFails | CreateFails | LockFails | UnlockFails | Started

  predicate ThreadRuns(outcome: Outcome) {
    outcome.LockFails? || outcome.UnlockFails? || outcome.Started?
  }

  /**
   * A record enters the queue, at its tail, exactly when its thread was started and the lock obtained.
   * `early`: a thread that was started has already finished when the call returns.
   */
  method CreateClientThread(q: TailQ, connfd: int, fd: int, threadId: int, outcome: Outcome, early: bool,
                            ghost s: seq<Client>)
    returns (rc: int, e: Client?)
    requires Links(q, s)
    modifies q, s`next
    ensures rc == if outcome.Started? then 0 else -1
    ensures e == null <==> outcome.AllocFails?
    ensures e != null ==> fresh(e) && (e.live <==> !outcome.CreateFails?)
    ensures e != null && e.live ==>
              && e.connfd == connfd && e.fd == fd
              && (!outcome.OpenFails? ==> e.threadId == threadId)
              && (e.taskFinished <==> early && !outcome.OpenFails?)
    ensures Links(q, if e != null && (outcome.Started? || outcome.UnlockFails?) then s + [e] else s)
  {
    if outcome.AllocFails? {
      return -1, null;
    }
    var record := new Client(connfd, fd);
    e := record;
    if outcome.OpenFails? {
      return -1, e;
    }
    if outcome.CreateFails? {
      Free(record);
      return -1, e;
    }
    record.threadId, record.taskFinished := threadId, early;
    if outcome.LockFails? {
      return -1, e;
    }
    InsertTail(q, record, s);
    rc := if outcome.UnlockFails? then -1 else 0;
  }
}

/**
 * Runs of the driver with a note of who wrote what: every write call takes effect
 * exactly once unless it was interrupted, and each handle's writes in its own order.
 */
module WriteAccounting {
  import opened Memory
  import opened Interleaving

  /** `calls[t]`: the data of the writes that `t` began and that were not interrupted; `who`: who made each commit. */
  datatype Traced = Traced(w: World, calls: map<nat, seq<Bytes>>, who: seq<nat>)

  function CallsOf(tr: Traced, t: nat): seq<Bytes> {
    if t in tr.calls then tr.calls[t] else []
  }

  function Note(tr: Traced, e: Event): Traced {
    var w', c := Step(tr.w, e), CallsOf(tr, e.t);
    Traced(w',
           if w' == tr.w then tr.calls
           else if e.Stage? then tr.calls[e.t := c + [e.data]]
           else if e.Interrupt? && c != [] then tr.calls[e.t := c[..|c| - 1]]
           else tr.calls,
           if w'.log == tr.w.log then tr.who else tr.who + [e.t])
  }

  function NoteAll(capacity: nat, events: seq<Event>): Traced {
    if events == [] then Traced(Boot(capacity), map[], [])
    else Note(NoteAll(capacity, events[..|events| - 1]), events[|events| - 1])
  }

  /** The committed writes of handle `t`, in commit order. */
  function By(log: seq<Bytes>, who: seq<nat>, t: nat): seq<Bytes>
    requires |log| == |who|
  {
    if log == [] then []
    else
      var n := |log| - 1;
      By(log[..n], who[..n], t) + if who[n] == t then [log[n]] else []
  }

  /** The write that `t` has begun and not yet committed. */
  function InFlight(w: World, t: nat): seq<Bytes> {
    if t !in w.handles then []
    else match w.handles[t].pc
         case Staged(data, _) => [data]
         case Locked(data, _) => [data]
         case Ready(data, _, _) => [data]
         case _ => []
  }

  ghost predicate Accounted(tr: Traced) {
    && |tr.w.log| == |tr.who|
    && forall t :: CallsOf(tr, t) == By(tr.w.log, tr.who, t) + InFlight(tr.w, t)
  }

  lemma {:induction false} ByAppend(log: seq<Bytes>, who: seq<nat>, data: Bytes, author: nat, t: nat)
    requires |log| == |who|
    ensures By(log + [data], who + [author], t) == By(log, who, t) + if author == t then [data] else []
  {
    assert (log + [data])[..|log|] == log && (who + [author])[..|who|] == who;
  }

  lemma {:induction false} OthersInFlight(w: World, e: Event, t: nat)
    requires t != e.t
    ensures InFlight(Step(w, e), t) == InFlight(w, t)
  {
  }

  /** Whatever a step does, it moves the author's call along: begun, withdrawn, or committed. */
  lemma {:induction false} StepInFlight(w: World, e: Event)
    ensures Step(w, e).log == w.log ||
            (InFlight(w, e.t) != [] && InFlight(Step(w, e), e.t) == [] && !e.Stage? && !e.Interrupt? &&
             Step(w, e).log == w.log + InFlight(w, e.t))
    ensures Step(w, e).log == w.log && Step(w, e) != w ==>
            InFlight(Step(w, e), e.t) == if e.Stage? then [e.data] else if e.Interrupt? then [] else InFlight(w, e.t)
    ensures Step(w, e) != w && e.Stage? ==> InFlight(w, e.t) == []
    ensures Step(w, e) != w && e.Interrupt? ==> |InFlight(w, e.t)| == 1
  {
  }

  /** The author of a commit gains one, everyone else keeps theirs. */
  lemma {:induction false} CommitsAfter(tr: Traced, e: Event, t: nat)
    requires |tr.w.log| == |tr.who|
    ensures var tr' := Note(tr, e);
            && |tr'.w.log| == |tr'.who|
            && By(tr'.w.log, tr'.who, t) ==
               By(tr.w.log, tr.who, t) + if tr'.w.log != tr.w.log && t == e.t then InFlight(tr.w, t) else []
  {
    StepInFlight(tr.w, e);
    if Note(tr, e).w.log != tr.w.log {
      ByAppend(tr.w.log, tr.who, InFlight(tr.w, e.t)[0], e.t, t);
    }
  }

  lemma {:induction false} NoteKeepsFor(tr: Traced, e: Event, t: nat)
    requires |tr.w.log| == |tr.who|
    requires CallsOf(tr, t) == By(tr.w.log, tr.who, t) + InFlight(tr.w, t)
    ensures var tr' := Note(tr, e);
            |tr'.w.log| == |tr'.who| && CallsOf(tr', t) == By(tr'.w.log, tr'.who, t) + InFlight(tr'.w, t)
  {
    CommitsAfter(tr, e, t);
    if t == e.t {
      AuthorKeeps(tr, e);
    } else {
      OthersInFlight(tr.w, e, t);
      assert CallsOf(Note(tr, e), t) == CallsOf(tr, t);
    }
  }

  lemma {:induction false} AuthorKeeps(tr: Traced, e: Event)
    requires |tr.w.log| == |tr.who|
    requires CallsOf(tr, e.t) == By(tr.w.log, tr.who, e.t) + InFlight(tr.w, e.t)
    ensures var tr' := Note(tr, e);
            |tr'.w.log| == |tr'.who| && CallsOf(tr', e.t) == By(tr'.w.log, tr'.who, e.t) + InFlight(tr'.w, e.t)
  {
    var t := e.t;
    var tr', b, f := Note(tr, e), By(tr.w.log, tr.who, t), InFlight(tr.w, t);
    StepInFlight(tr.w, e);
    CommitsAfter(tr, e, t);
    if tr'.w != tr.w {
      if e.Stage? {
        assert CallsOf(tr', t) == b + [] + [e.data];
      } else if e.Interrupt? {
        assert (b + f)[..|b + f| - 1] == b;
      } else {
        assert CallsOf(tr', t) == CallsOf(tr, t);
      }
    } else {
      assert CallsOf(tr', t) == CallsOf(tr, t);
    }
  }

  lemma {:induction false} NoteKeeps(tr: Traced, e: Event)
    requires Accounted(tr)
    ensures Accounted(Note(tr, e))
  {
    forall t {
      NoteKeepsFor(tr, e, t);
    }
    NoteKeepsFor(tr, e, 0);
  }

  /** In every run, each handle's uninterrupted writes are its commits, in its order, and the one still under way. */
  lemma {:induction false} EveryWriteTakesEffectOnce(capacity: nat, events: seq<Event>)
    ensures var tr := NoteAll(capacity, events);
            && tr.w == Run(Boot(capacity), events)
            && |tr.who| == |tr.w.log|
            && forall t :: CallsOf(tr, t) == By(tr.w.log, tr.who, t) + InFlight(tr.w, t)
  {
    if events != [] {
      var init := events[..|events| - 1];
      EveryWriteTakesEffectOnce(capacity, init);
      NoteKeeps(NoteAll(capacity, init), events[|events| - 1]);
    }
  }
}

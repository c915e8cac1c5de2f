/** What a connection does with the device for each packet (aesdsocket.c:147-227). */
module PacketService {
  import opened Sequences
  import opened Positions
  import opened Memory
  import opened DeviceSpec
  import opened CharDevice

  /** Entry sizes fit a C `int` and the data ends below 2^32; otherwise a drain never ends (`DrainCanEndIff`). */
  ghost predicate Bounded(d: Device, capacity: nat) {
    FitsInt(d, capacity) && |File(d, capacity)| < TWO32
  }

  /** The size of a connection's `write_back_pkt`, which the links of its record in the queue follow. */
  const MAX_BUF_SIZE: nat := 1024

  ghost predicate TooLong(chunks: seq<Bytes>) {
    exists i :: 0 <= i < |chunks| && |chunks[i]| > MAX_BUF_SIZE
  }

  lemma {:induction false} TooLongStep(sent: seq<Bytes>, data: Bytes)
    ensures TooLong(sent + [data]) <==> TooLong(sent) || |data| > MAX_BUF_SIZE
  {
    if TooLong(sent) {
      var i :| 0 <= i < |sent| && |sent[i]| > MAX_BUF_SIZE;
      assert (sent + [data])[i] == sent[i];
    }
    if |data| > MAX_BUF_SIZE {
      assert (sent + [data])[|sent|] == data;
    }
  }

  /** The first chunks, `upTo` the last one read, decide about an overrun. */
  lemma {:induction false} TooLongMeaning(chunks: seq<Bytes>, fetched: seq<Bytes>, accepts: nat)
    requires fetched <= chunks && (fetched == chunks || |fetched| == accepts + 1) && |fetched| <= accepts + 1
    ensures TooLong(fetched) <==> exists i :: 0 <= i < |chunks| && i <= accepts && |chunks[i]| > 1024
  {
    if TooLong(fetched) {
      var i :| 0 <= i < |fetched| && |fetched[i]| > MAX_BUF_SIZE;
      assert chunks[i] == fetched[i];
    }
    if i :| 0 <= i < |chunks| && i <= accepts && |chunks[i]| > 1024 {
      assert fetched[i] == chunks[i];
    }
  }

  lemma {:induction false} Regroup(sent: seq<Bytes>, data: Bytes, rest: seq<Bytes>)
    ensures sent + ([data] + rest) == (sent + [data]) + rest
  {
  }

  /** What has been sent, fetched and left when the peer refuses `data`. */
  lemma {:induction false} Refused(all: seq<Bytes>, sent: seq<Bytes>, data: Bytes, rest: seq<Bytes>)
    requires all == (sent + [data]) + rest
    ensures sent == all[..|sent|] && sent + [data] == all[..|sent| + 1] && rest == all[|sent| + 1..]
  {
  }

  /**
   * Reads until nothing is left, passing each chunk on to a peer that takes `accepts` chunks and refuses the next.
   * `overrun`: some read went past the buffer.
   */
  method Drain(dev: AesdDevice, pos: nat, accepts: nat)
    returns (rc: int, sent: seq<Bytes>, newPos: nat, overrun: bool)
    requires dev.Valid() && Bounded(dev.Spec(), dev.ring.capacity)
    ensures var chunks := Left(dev.Spec(), dev.ring.capacity, pos);
            if |chunks| <= accepts
            then && rc == 0 && sent == chunks && newPos == pos + |Concat(chunks)|
                 && Left(dev.Spec(), dev.ring.capacity, newPos) == []
            else && rc == -1 && sent == chunks[..accepts] && newPos == pos + |Concat(chunks[..accepts + 1])|
                 && Left(dev.Spec(), dev.ring.capacity, newPos) == chunks[accepts + 1..]
    ensures var chunks := Left(dev.Spec(), dev.ring.capacity, pos);
            overrun <==> exists i :: 0 <= i < |chunks| && i <= accepts && |chunks[i]| > 1024
  {
    ghost var d, n := dev.Spec(), dev.ring.capacity;
    ghost var all := Left(d, n, pos);
    LiveNonEmpty(dev.log, n);
    sent, newPos, overrun := [], pos, false;
    while true
      invariant all == sent + Left(d, n, newPos) && |sent| <= accepts
      invariant overrun <==> TooLong(sent)
      invariant newPos == pos + |Concat(sent)|
      decreases |Left(d, n, newPos)|
    {
      var ret, data, next, over := dev.Read(newPos, MAX_BUF_SIZE, false);
      ReadTakesFirst(d, n, newPos, data, next);
      if ret == 0 {
        assert sent == all;
        TooLongMeaning(all, sent, accepts);
        return 0, sent, newPos, overrun;
      }
      Regroup(sent, data, Left(d, n, next));
      TooLongStep(sent, data);
      ConcatAppend(sent, data);
      overrun := overrun || over;
      if |sent| == accepts {
        Refused(all, sent, data, Left(d, n, next));
        TooLongMeaning(all, sent + [data], accepts);
        return -1, sent, next, overrun;
      }
      sent, newPos := sent + [data], next;
    }
  }

  /**
   * Write, rewind, drain. The rewind may be interrupted, which the server does not notice; the drain then starts
   * where the write left the handle. Rewound, the client is sent every live entry, the last of them what it has
   * just completed.
   */
  method ProcessPacket(dev: AesdDevice, pos: nat, packet: Bytes, interrupted: bool, rewound: bool, accepts: nat)
    returns (rc: int, sent: seq<Bytes>, newPos: nat, overrun: bool, ghost start: nat)
    requires dev.Valid()
    requires Bounded(if interrupted then dev.Spec() else Write(dev.Spec(), packet), dev.ring.capacity)
    modifies dev, dev.ring, dev.ring.entry
    ensures dev.Valid()
    ensures dev.Spec() == if interrupted then old(dev.Spec()) else Write(old(dev.Spec()), packet)
    ensures start == if rewound then 0 else if interrupted || 10 !in packet then pos
                     else pos + |Pending(old(dev.Spec()))| + |packet|
    ensures var chunks := Left(dev.Spec(), dev.ring.capacity, start);
            && (rewound ==> chunks == Live(dev.Spec(), dev.ring.capacity))
            && (if |chunks| <= accepts
                then rc == 0 && sent == chunks && newPos == start + |Concat(chunks)|
                else rc == -1 && sent == chunks[..accepts] && newPos == start + |Concat(chunks[..accepts + 1])|)
            && (overrun <==> exists i :: 0 <= i < |chunks| && i <= accepts && |chunks[i]| > 1024)
    ensures rewound && rc == 0 && !interrupted && 10 in packet ==>
              |sent| >= 1 && sent[|sent| - 1] == Pending(old(dev.Spec())) + packet
  {
    ghost var d, n := dev.Spec(), dev.ring.capacity;
    var from := WriteAndRewind(dev, pos, packet, interrupted, rewound);
    start := from;
    ghost var d', chunks := dev.Spec(), Left(dev.Spec(), n, from);
    LiveNonEmpty(dev.log, n);
    LeftAtStart(d', n);
    rc, sent, newPos, overrun := Drain(dev, from, accepts);
    if rewound && rc == 0 && !interrupted && 10 in packet {
      EndsInPacket(d, d', n, packet, chunks);
    }
  }

  lemma {:induction false} EndsInPacket(d: Device, d': Device, capacity: nat, packet: Bytes, sent: seq<Bytes>)
    requires capacity >= 1 && 10 in packet && d' == Write(d, packet) && sent == Live(d', capacity)
    ensures |sent| >= 1 && sent[|sent| - 1] == Pending(d) + packet
  {
    NewestIsWrite(d, capacity, packet);
  }

  method WriteAndRewind(dev: AesdDevice, pos: nat, packet: Bytes, interrupted: bool, rewound: bool)
    returns (start: nat)
    requires dev.Valid()
    modifies dev, dev.ring, dev.ring.entry
    ensures dev.Valid()
    ensures dev.Spec() == if interrupted then old(dev.Spec()) else Write(old(dev.Spec()), packet)
    ensures start == if rewound then 0 else if interrupted || 10 !in packet then pos
                     else pos + |Pending(old(dev.Spec()))| + |packet|
  {
    ghost var end := if interrupted || 10 !in packet then pos else pos + |Pending(dev.Spec())| + |packet|;
    var _, written := dev.Write(pos, packet, interrupted);
    assert written == end;
    start := Rewind(dev, written, !rewound);
  }

  /** The seek to 0, whose result the server does not look at. */
  method Rewind(dev: AesdDevice, pos: nat, interrupted: bool) returns (start: nat)
    requires dev.Valid()
    ensures start == if interrupted then pos else 0
  {
    var _, at := dev.Llseek(pos, 0, SeekSet, interrupted);
    start := at;
  }

  /** Exactly when a complete packet overruns the buffer of no peer: it and the entries that stay are short enough. */
  lemma {:induction false} PacketFitsIff(d: Device, capacity: nat, packet: Bytes)
    requires capacity >= 1 && 10 in packet
    ensures var live := Live(Write(d, packet), capacity);
            var staying := if |d.cmds| < capacity then Live(d, capacity) else Live(d, capacity)[1..];
            (forall i :: 0 <= i < |live| ==> |live[i]| <= 1024)
            <==> |Pending(d)| + |packet| <= 1024 && forall i :: 0 <= i < |staying| ==> |staying[i]| <= 1024
  {
    var staying := if |d.cmds| < capacity then Live(d, capacity) else Live(d, capacity)[1..];
    WindowAppend(d.cmds, Pending(d) + packet, capacity);
    assert Live(Write(d, packet), capacity) == staying + [Pending(d) + packet];
    TooLongStep(staying, Pending(d) + packet);
  }

  /** No live entry is too long for the buffer exactly when no read at any position is. */
  lemma {:induction false} BufferSufficesIff(d: Device, capacity: nat)
    requires Bounded(d, capacity)
    ensures (forall i :: 0 <= i < |Live(d, capacity)| ==> |Live(d, capacity)[i]| <= 1024)
       <==> (forall pos: nat :: |ReadAt(d, capacity, pos)| <= 1024)
  {
    ReadsFitBufferIff(d, capacity, 1024);
    AllWithinReach(Live(d, capacity), 1024);
  }

  /** A first packet of 1025 bytes is one live entry, too long for the buffer. */
  lemma {:induction false} LongPacketOverruns()
    ensures var live := Live(WriteAll(EMPTY, [Line(1024)]), 10); |live| == 1 && |live[0]| == 1025
  {
    assert Line(1024)[1024] == NEWLINE;
    FirstCommand(Line(1024), 10);
  }

  /**
   * A command seek, and on success a drain from there: the rest of the command sought, then every later one. On an
   * empty ring the seek succeeds and nothing is sent.
   */
  method SeekAndRead(dev: AesdDevice, pos: nat, cmd: nat, offset: nat, accepts: nat)
    returns (rc: int, sent: seq<Bytes>, newPos: nat, overrun: bool)
    requires dev.Valid() && Bounded(dev.Spec(), dev.ring.capacity)
    ensures var live := Live(dev.Spec(), dev.ring.capacity);
            if live == [] then rc == 0 && sent == [] && newPos == 0 && !overrun
            else if cmd < |live| && offset <= |live[cmd]| then
              var chunks := (if offset < |live[cmd]| then [live[cmd][offset..]] else []) + live[cmd + 1..];
              var at := |Concat(live[..cmd])| + offset;
              && (if |chunks| <= accepts
                  then rc == 0 && sent == chunks && newPos == at + |Concat(chunks)|
                  else rc == -1 && sent == chunks[..accepts] && newPos == at + |Concat(chunks[..accepts + 1])|)
              && (overrun <==> exists i :: 0 <= i < |chunks| && i <= accepts && |chunks[i]| > 1024)
            else rc == -22 && sent == [] && newPos == pos && !overrun
  {
    ghost var live := Live(dev.Spec(), dev.ring.capacity);
    rc, newPos := dev.Ioctl(pos, SeekTo(cmd, offset), false);
    sent, overrun := [], false;
    if rc == 0 {
      LiveNonEmpty(dev.log, dev.ring.capacity);
      SoughtIsLeft(dev.Spec(), dev.ring.capacity, live, cmd, offset, newPos);
      rc, sent, newPos, overrun := Drain(dev, newPos, accepts);
    }
  }

  /** What is left at the place sought: the rest of that command, if any, and everything after it. */
  lemma {:induction false} RestAfterSeek(live: seq<Bytes>, cmd: nat, offset: nat, at: nat)
    requires NonEmpty(live) && cmd < |live| && offset <= |live[cmd]| && at == |Concat(live[..cmd])| + offset
    ensures Rest(live, at) == (if offset < |live[cmd]| then [live[cmd][offset..]] else []) + live[cmd + 1..]
  {
    BeforeIsLength(live, cmd);
    if offset < |live[cmd]| {
      RestInside(live, cmd, offset, at);
    } else {
      RestPast(live, cmd, at);
      assert [] + live[cmd + 1..] == live[cmd + 1..];
    }
  }

  lemma {:induction false} RestInside(live: seq<Bytes>, cmd: nat, offset: nat, at: nat)
    requires cmd < |live| && offset < |live[cmd]| && at == Before(Sizes(live), cmd) + offset
    ensures Rest(live, at) == [live[cmd][offset..]] + live[cmd + 1..]
  {
    LocateFinds(Sizes(live), Place(cmd, offset));
  }

  lemma {:induction false} RestPast(live: seq<Bytes>, cmd: nat, at: nat)
    requires NonEmpty(live) && cmd < |live| && at == Before(Sizes(live), cmd) + |live[cmd]|
    ensures Rest(live, at) == live[cmd + 1..]
  {
    assert Before(Sizes(live), cmd + 1) == at;
    RestAt(live, cmd + 1);
  }

  lemma {:induction false} SoughtIsLeft(d: Device, capacity: nat, live: seq<Bytes>, cmd: nat, offset: nat, at: nat)
    requires live == Live(d, capacity) && NonEmpty(live) && |File(d, capacity)| < TWO32
    requires live == [] || (cmd < |live| && offset <= |live[cmd]|)
    requires at == if live == [] then 0 else |Concat(live[..cmd])| + offset
    ensures Left(d, capacity, at) ==
            if live == [] then []
            else (if offset < |live[cmd]| then [live[cmd][offset..]] else []) + live[cmd + 1..]
  {
    if live == [] {
      LeftAtStart(d, capacity);
    } else {
      RestAfterSeek(live, cmd, offset, at);
      ConcatSplit(live, cmd);
      assert at <= |Concat(live)|;
      LeftIsRest(d, capacity, at);
    }
  }
}

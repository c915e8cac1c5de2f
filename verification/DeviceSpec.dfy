/**
 * The device as its writers and readers see it: the commands completed so far
 * and the unfinished tail, both functions of the log of writes in lock order.
 */
module DeviceSpec {
  import opened Sequences
  import opened Positions
  import opened Memory

  /** `pending` is `None` while no partial buffer exists; a zero-length write makes it `Some([])`. */
  datatype Device = Device(cmds: seq<Bytes>, pending: Option<Bytes>)

  const EMPTY := Device([], None)

  function Pending(d: Device): Bytes {
    match d.pending case None => [] case Some(p) => p
  }

  predicate Complete(data: Bytes) {
    NEWLINE in data
  }

  function Write(d: Device, data: Bytes): Device {
    if Complete(data) then Device(d.cmds + [Pending(d) + data], None)
    else d.(pending := Some(Pending(d) + data))
  }

  /** How far a write moves the handle that makes it. */
  function Advance(d: Device, data: Bytes): nat {
    if Complete(data) then |Pending(d)| + |data| else 0
  }

  function WriteAll(d: Device, log: seq<Bytes>): Device {
    if log == [] then d else Write(WriteAll(d, log[..|log| - 1]), log[|log| - 1])
  }

  /** The position of a handle that made all the writes of `log`. */
  function AdvanceAll(d: Device, pos: nat, log: seq<Bytes>): nat {
    if log == [] then pos
    else
      var init := log[..|log| - 1];
      AdvanceAll(d, pos, init) + Advance(WriteAll(d, init), log[|log| - 1])
  }

  function Live(d: Device, capacity: nat): seq<Bytes> {
    Window(d.cmds, capacity)
  }

  /** The readable contents of the device. */
  function File(d: Device, capacity: nat): Bytes {
    Concat(Live(d, capacity))
  }

  /** The length of the file as `cb_size` keeps it, a 32-bit counter. */
  function CachedSize(d: Device, capacity: nat): nat {
    |File(d, capacity)| % TWO32
  }

  lemma {:induction false} CachedSizeMeaning(d: Device, capacity: nat)
    ensures CachedSize(d, capacity) < 0x1_0000_0000
    ensures (|File(d, capacity)| - CachedSize(d, capacity)) % 0x1_0000_0000 == 0
  {
  }

  lemma {:induction false} CachedSizeExact(d: Device, capacity: nat)
    requires |File(d, capacity)| < TWO32
    ensures CachedSize(d, capacity) == |File(d, capacity)|
  {
  }

  /** What one read at `pos` delivers: the rest of the entry that the C search finds, or nothing. */
  function ReadAt(d: Device, capacity: nat, pos: nat): Bytes {
    var live := Live(d, capacity);
    match CFind(Sizes(live), pos)
    case None => []
    case Some(p) => if p.index < |live| && p.offset <= |live[p.index]| then live[p.index][p.offset..] else []
  }

  // ---------------------------------------------------------------- runs of writes

  lemma {:induction false} WriteAllPlus(d: Device, log: seq<Bytes>, data: Bytes)
    ensures WriteAll(d, log + [data]) == Write(WriteAll(d, log), data)
    ensures forall pos :: AdvanceAll(d, pos, log + [data]) == AdvanceAll(d, pos, log) + Advance(WriteAll(d, log), data)
  {
    assert (log + [data])[..|log|] == log;
  }

  /** Nothing written is lost, duplicated or reordered, evicted commands included. */
  lemma {:induction false} Conservation(log: seq<Bytes>)
    ensures var d := WriteAll(EMPTY, log); Concat(d.cmds) + Pending(d) == Concat(log)
  {
    if log != [] {
      var init, last := log[..|log| - 1], log[|log| - 1];
      var d := WriteAll(EMPTY, init);
      Conservation(init);
      assert log == init + [last];
      ConcatAppend(init, last);
      ConcatAppend(d.cmds, Pending(d) + last);
      assert (Concat(d.cmds) + Pending(d)) + last == Concat(d.cmds) + (Pending(d) + last);
    }
  }

  /** A write with the byte 10 anywhere in it completes a command; any other is only remembered. */
  lemma {:induction false} WriteMeaning(d: Device, data: Bytes)
    ensures (exists i :: 0 <= i < |data| && data[i] == 10) ==>
              Write(d, data) == Device(d.cmds + [Pending(d) + data], None)
    ensures (forall i :: 0 <= i < |data| ==> data[i] != 10) ==>
              Write(d, data) == Device(d.cmds, Some(Pending(d) + data))
  {
  }

  /** Wherever it is: here in the middle. */
  lemma {:induction false} NewlineInTheMiddle()
    ensures Write(EMPTY, [97, 10, 98]).cmds == [[97, 10, 98]] && Pending(Write(EMPTY, [97, 10, 98])) == []
  {
    var data: Bytes := [97, 10, 98];
    assert data[1] == 10;
    WriteMeaning(EMPTY, data);
    assert Pending(EMPTY) + data == data;
    assert Write(EMPTY, data).cmds == [data];
  }

  /** Commands end where a newline arrived: each contains a byte 10, and the tail contains none. */
  lemma {:induction false} NewlineDiscipline(log: seq<Bytes>)
    ensures var d := WriteAll(EMPTY, log);
            (forall i :: 0 <= i < |d.cmds| ==> 10 in d.cmds[i]) && 10 !in Pending(d)
  {
    if log != [] {
      NewlineDiscipline(log[..|log| - 1]);
    }
  }

  /** In every reachable device the live entries are non-empty, so every read that finds data makes progress. */
  lemma {:induction false} LiveNonEmpty(log: seq<Bytes>, capacity: nat)
    ensures NonEmpty(Live(WriteAll(EMPTY, log), capacity))
  {
    NewlineDiscipline(log);
    var cmds := WriteAll(EMPTY, log).cmds;
    assert forall i :: 0 <= i < |cmds| ==> 10 in cmds[i] && |cmds[i]| > 0;
  }

  /** The indices of the writes that contain a byte 10. */
  function Completing(log: seq<Bytes>): set<nat> {
    set i: nat | i < |log| && 10 in log[i]
  }

  /** One command for each of them. */
  lemma {:induction false} CommandCount(log: seq<Bytes>)
    ensures |WriteAll(EMPTY, log).cmds| == |set i: nat | i < |log| && 10 in log[i]|
  {
    CommandsAreCompletions(log);
    assert Completing(log) == set i: nat | i < |log| && 10 in log[i];
  }

  lemma {:induction false} CommandsAreCompletions(log: seq<Bytes>)
    ensures |WriteAll(EMPTY, log).cmds| == |Completing(log)|
  {
    if log != [] {
      var n := |log| - 1;
      CommandsAreCompletions(log[..n]);
      assert Completing(log) == Completing(log[..n]) + if 10 in log[n] then {n} else {};
    }
  }

  // ---------------------------------------------------------------- fragmentation

  ghost predicate Fragments(frags: seq<Bytes>) {
    forall i :: 0 <= i < |frags| ==> !Complete(frags[i])
  }

  lemma {:induction false} FragmentsAccumulate(d: Device, pos: nat, frags: seq<Bytes>)
    requires Fragments(frags)
    ensures var e := WriteAll(d, frags); e.cmds == d.cmds && Pending(e) == Pending(d) + Concat(frags)
    ensures AdvanceAll(d, pos, frags) == pos
  {
    if frags != [] {
      var init, last := frags[..|frags| - 1], frags[|frags| - 1];
      assert Fragments(init);
      FragmentsAccumulate(d, pos, init);
      assert frags == init + [last];
      ConcatAppend(init, last);
      assert Pending(d) + (Concat(init) + last) == (Pending(d) + Concat(init)) + last;
    }
  }

  /** Splitting a write into newline-free pieces and a final one changes nothing: device, contents, size or position. */
  lemma {:induction false} Fragmentation(d: Device, pos: nat, frags: seq<Bytes>, last: Bytes)
    requires Fragments(frags) && Complete(last)
    ensures WriteAll(d, frags + [last]) == Write(d, Concat(frags) + last)
    ensures forall capacity: nat ::
              && File(WriteAll(d, frags + [last]), capacity) == File(Write(d, Concat(frags) + last), capacity)
              && CachedSize(WriteAll(d, frags + [last]), capacity)
                 == CachedSize(Write(d, Concat(frags) + last), capacity)
    ensures AdvanceAll(d, pos, frags + [last]) == pos + Advance(d, Concat(frags) + last)
  {
    FragmentsJoin(d, pos, frags, last);
  }

  lemma {:induction false} FragmentsJoin(d: Device, pos: nat, frags: seq<Bytes>, last: Bytes)
    requires Fragments(frags) && Complete(last)
    ensures WriteAll(d, frags + [last]) == Write(d, Concat(frags) + last)
    ensures AdvanceAll(d, pos, frags + [last]) == pos + Advance(d, Concat(frags) + last)
  {
    FragmentsAccumulate(d, pos, frags);
    WriteAllPlus(d, frags, last);
    var e := WriteAll(d, frags);
    assert Complete(Concat(frags) + last);
    assert Pending(e) + last == Pending(d) + (Concat(frags) + last);
  }

  // ---------------------------------------------------------------- reading

  /** Commands short enough for the C search, as every entry whose size passed through an `int` is. */
  ghost predicate FitsInt(d: Device, capacity: nat) {
    FitInt(Sizes(Live(d, capacity)))
  }

  /** Exactly when a read at or past the end of the file delivers nothing. */
  lemma {:induction false} ReadPastEndIff(d: Device, capacity: nat, pos: nat)
    requires FitsInt(d, capacity) && |File(d, capacity)| <= pos
    ensures ReadAt(d, capacity, pos) == [] <==> (pos < TWO32 || |File(d, capacity)| <= pos % TWO32)
  {
    var live := Live(d, capacity);
    CFindIsLocateModulo(Sizes(live), pos);
    LocateIndexesConcat(live, pos % TWO32);
  }

  /** What is left from `pos` on: the rest of the entry there, then every later entry whole. */
  function Rest(live: seq<Bytes>, pos: nat): seq<Bytes> {
    match Locate(Sizes(live), pos)
    case None => []
    case Some(p) => if p.index < |live| && p.offset <= |live[p.index]|
                    then [live[p.index][p.offset..]] + live[p.index + 1..] else []
  }

  /** Laid end to end, that is the file from `pos` on. */
  lemma {:induction false} RestIsSuffix(live: seq<Bytes>, pos: nat)
    ensures Concat(Rest(live, pos)) == if pos <= |Concat(live)| then Concat(live)[pos..] else []
    ensures |Rest(live, pos)| <= |live|
  {
    LocateIndexesConcat(live, pos);
    if Locate(Sizes(live), pos).Some? {
      var p := Locate(Sizes(live), pos).value;
      ConcatPlus([live[p.index][p.offset..]], live[p.index + 1..]);
      ConcatOne(live[p.index][p.offset..]);
    }
  }

  ghost predicate NonEmpty(ss: seq<Bytes>) {
    forall i :: 0 <= i < |ss| ==> |ss[i]| > 0
  }

  /** At the start of an entry, that entry and all later ones are left. */
  lemma {:induction false} RestAt(live: seq<Bytes>, i: nat)
    requires NonEmpty(live) && i <= |live|
    ensures Rest(live, Before(Sizes(live), i)) == live[i..]
  {
    var sizes := Sizes(live);
    if i < |live| {
      LocateFinds(sizes, Place(i, 0));
      assert live[i][0..] == live[i];
      assert live[i..] == [live[i]] + live[i + 1..];
    } else {
      LocateMeaning(sizes, Total(sizes));
    }
  }

  /** Reading the first piece leaves the other pieces. */
  lemma {:induction false} RestStep(live: seq<Bytes>, pos: nat, p: Place, next: nat)
    requires NonEmpty(live) && Locate(Sizes(live), pos) == Some(p)
    requires p.index < |live| && p.offset < |live[p.index]| && next == pos + |live[p.index]| - p.offset
    ensures next <= |Concat(live)|
    ensures Rest(live, pos) == [live[p.index][p.offset..]] + Rest(live, next)
  {
    var sizes := Sizes(live);
    LocateMeaning(sizes, pos);
    TotalIsLength(live);
    BeforeMonotone(sizes, p.index + 1, |sizes|);
    assert next == Before(sizes, p.index + 1);
    RestAt(live, p.index + 1);
  }

  /** A read delivers the rest of the entry that holds its position, which it sees modulo 2^32. */
  lemma {:induction false} ReadIsLocate(d: Device, capacity: nat, live: seq<Bytes>, pos: nat)
    requires FitsInt(d, capacity) && live == Live(d, capacity)
    ensures match Locate(Sizes(live), pos % TWO32)
            case None => ReadAt(d, capacity, pos) == []
            case Some(p) => p.index < |live| && p.offset < |live[p.index]| &&
                            ReadAt(d, capacity, pos) == live[p.index][p.offset..]
  {
    CFindIsLocateModulo(Sizes(live), pos);
    LocateMeaning(Sizes(live), pos % TWO32);
  }

  /** From any position, a read takes the first piece of what is left and leaves the rest, or finds nothing left. */
  lemma {:induction false} ReadStep(d: Device, capacity: nat, live: seq<Bytes>, pos: nat, data: Bytes)
    requires FitsInt(d, capacity) && live == Live(d, capacity) && NonEmpty(live)
    requires data == ReadAt(d, capacity, pos)
    ensures |data| == 0 <==> Rest(live, pos % TWO32) == []
    ensures |data| > 0 ==>
              && pos % TWO32 + |data| <= |File(d, capacity)|
              && Rest(live, pos % TWO32) == [data] + Rest(live, pos % TWO32 + |data|)
  {
    ReadIsLocate(d, capacity, live, pos);
    match Locate(Sizes(live), pos % TWO32)
    case None =>
    case Some(p) => RestStep(live, pos % TWO32, p, pos % TWO32 + |data|);
  }

  /** What a handle at `pos` still has to read: the search sees its position modulo 2^32. */
  function Left(d: Device, capacity: nat, pos: nat): seq<Bytes> {
    Rest(Live(d, capacity), pos % TWO32)
  }

  lemma {:induction false} NoWrap(pos: nat, n: nat)
    requires pos % TWO32 + n < TWO32
    ensures (pos + n) % TWO32 == pos % TWO32 + n
  {
  }

  /** With less than 4 GiB stored, reading the first piece moves the handle to where the others begin. */
  lemma {:induction false} ReadTakesFirst(d: Device, capacity: nat, pos: nat, data: Bytes, next: nat)
    requires FitsInt(d, capacity) && NonEmpty(Live(d, capacity)) && |File(d, capacity)| < TWO32
    requires data == ReadAt(d, capacity, pos) && next == pos + |data|
    ensures |data| == 0 <==> Left(d, capacity, pos) == []
    ensures |data| > 0 ==> Left(d, capacity, pos) == [data] + Left(d, capacity, next)
    ensures |data| > 0 ==> |Left(d, capacity, next)| < |Left(d, capacity, pos)|
  {
    ReadStep(d, capacity, Live(d, capacity), pos, data);
    if |data| > 0 {
      NoWrap(pos, |data|);
    }
  }

  /** From the start, everything is left. */
  lemma {:induction false} LeftAtStart(d: Device, capacity: nat)
    requires NonEmpty(Live(d, capacity))
    ensures Left(d, capacity, 0) == Live(d, capacity)
  {
    RestAt(Live(d, capacity), 0);
    assert Live(d, capacity)[0..] == Live(d, capacity);
  }

  lemma {:induction false} LeftIsRest(d: Device, capacity: nat, pos: nat)
    requires pos < TWO32
    ensures Left(d, capacity, pos) == Rest(Live(d, capacity), pos)
  {
  }

  /**
   * In terms of bytes: a read inside the file delivers the bytes from its position to the end of the entry that
   * holds it, and one at or past the end delivers nothing.
   */
  lemma {:induction false} ReadIsFileBytes(d: Device, capacity: nat, pos: nat)
    requires FitsInt(d, capacity) && |File(d, capacity)| < 0x1_0000_0000 && pos < 0x1_0000_0000
    ensures |File(d, capacity)| <= pos ==> ReadAt(d, capacity, pos) == []
    ensures pos < |File(d, capacity)| ==>
              exists k :: 0 <= k < |Live(d, capacity)| &&
                var from, to := |Concat(Live(d, capacity)[..k])|, |Concat(Live(d, capacity)[..k + 1])|;
                from <= pos < to <= |File(d, capacity)| && ReadAt(d, capacity, pos) == File(d, capacity)[pos..to]
  {
    var live := Live(d, capacity);
    assert pos % TWO32 == pos;
    ReadIsLocate(d, capacity, live, pos);
    LocateIndexesConcat(live, pos);
    if pos < |File(d, capacity)| {
      var p := Locate(Sizes(live), pos).value;
      LocateMeaning(Sizes(live), pos);
      EntryBytes(live, p.index, p.offset);
    }
  }

  lemma {:induction false} EntryBytes(live: seq<Bytes>, k: nat, offset: nat)
    requires k < |live| && offset < |live[k]|
    ensures var from, to := |Concat(live[..k])|, |Concat(live[..k + 1])|;
            && Before(Sizes(live), k) == from && to == from + |live[k]| <= |Concat(live)|
            && Concat(live)[from + offset..to] == live[k][offset..]
  {
    BeforeIsLength(live, k);
    BeforeIsLength(live, k + 1);
    ConcatSplit(live, k);
  }

  /** The command seek in terms of the bytes before the place sought. */
  lemma {:induction false} SeekMeansBytes(live: seq<Bytes>, fpos: nat, cmd: nat, offset: nat)
    ensures var (rc, to) := Seek(Sizes(live), fpos, cmd, offset);
            && (rc == 0 <==> live == [] || (cmd < |live| && offset <= |live[cmd]|))
            && (rc != 0 ==> rc == -22 && to == fpos)
            && (live == [] ==> to == 0)
            && (rc == 0 && live != [] ==> cmd < |live| && to == |Concat(live[..cmd])| + offset)
  {
    SeekMeaning(Sizes(live), fpos, cmd, offset);
    if cmd < |live| {
      BeforeIsLength(live, cmd);
    }
  }

  /** The newest live entry is the write just completed, after the earlier tail. */
  lemma {:induction false} NewestIsWrite(d: Device, capacity: nat, data: Bytes)
    requires capacity >= 1 && Complete(data)
    ensures var live := Live(Write(d, data), capacity);
            |live| >= 1 && live[|live| - 1] == Pending(d) + data
  {
    WindowAppend(d.cmds, Pending(d) + data, capacity);
  }

  /** So the file ends in the earlier tail followed by the data. */
  lemma {:induction false} FileEndsWithWrite(d: Device, capacity: nat, data: Bytes)
    requires capacity >= 1 && Complete(data)
    ensures var f := File(Write(d, data), capacity);
            |Pending(d) + data| <= |f| && f[|f| - |Pending(d) + data|..] == Pending(d) + data
  {
    NewestIsWrite(d, capacity, data);
    var live := Live(Write(d, data), capacity);
    assert live == live[..|live| - 1] + [live[|live| - 1]];
    ConcatAppend(live[..|live| - 1], live[|live| - 1]);
  }

  /** A position is readable iff it lies in the file, as long as the search sees it. */
  lemma {:induction false} ReadableIff(d: Device, capacity: nat, pos: nat)
    requires FitsInt(d, capacity) && pos < TWO32
    ensures ReadAt(d, capacity, pos) != [] <==> pos < |File(d, capacity)|
  {
    assert pos % TWO32 == pos;
    var live := Live(d, capacity);
    ReadIsLocate(d, capacity, live, pos);
    LocateIndexesConcat(live, pos);
  }

  /** The cached size, kept modulo 2^32, marks the end of the readable positions exactly below 4 GiB of data. */
  lemma {:induction false} CachedSizeIsEndIff(d: Device, capacity: nat)
    requires FitsInt(d, capacity)
    ensures (forall pos: nat :: pos < TWO32 ==>
               (ReadAt(d, capacity, pos) != [] <==> pos < CachedSize(d, capacity)))
       <==> |File(d, capacity)| < TWO32
  {
    forall pos: nat | pos < TWO32
      ensures ReadAt(d, capacity, pos) != [] <==> pos < |File(d, capacity)|
    {
      ReadableIff(d, capacity, pos);
    }
    if TWO32 <= |File(d, capacity)| {
      var pos: nat := TWO32 - 1;
      assert ReadAt(d, capacity, pos) != [];
    }
  }

  /** A non-empty live entry that starts below 4 GiB is delivered whole by a read at its start. */
  lemma {:induction false} ReadWholeEntry(d: Device, capacity: nat, i: nat) returns (pos: nat)
    requires FitsInt(d, capacity) && i < |Live(d, capacity)| && |Live(d, capacity)[i]| > 0
    requires Before(Sizes(Live(d, capacity)), i) < TWO32
    ensures ReadAt(d, capacity, pos) == Live(d, capacity)[i]
  {
    var live := Live(d, capacity);
    pos := Before(Sizes(live), i);
    assert pos % TWO32 == pos;
    LocateFinds(Sizes(live), Place(i, 0));
    ReadIsLocate(d, capacity, live, pos);
  }

  /** Reading until a read delivers nothing can end exactly while less than 4 GiB is stored. */
  lemma {:induction false} DrainCanEndIff(d: Device, capacity: nat)
    requires FitsInt(d, capacity)
    ensures (exists pos: nat :: ReadAt(d, capacity, pos) == []) <==> |File(d, capacity)| < TWO32
  {
    forall pos: nat ensures ReadAt(d, capacity, pos) == [] <==> |File(d, capacity)| <= pos % TWO32 {
      ReadIsLocate(d, capacity, Live(d, capacity), pos);
      LocateIndexesConcat(Live(d, capacity), pos % TWO32);
    }
    if |File(d, capacity)| < TWO32 {
      var pos: nat := |File(d, capacity)|;
      assert ReadAt(d, capacity, pos) == [];
    }
  }

  /** A read delivers at most an entry that starts below 4 GiB. */
  lemma {:induction false} ReadWithinEntries(d: Device, capacity: nat, count: nat, pos: nat)
    requires FitsInt(d, capacity) && ReachableFit(Live(d, capacity), count)
    ensures |ReadAt(d, capacity, pos)| <= count
  {
    var live := Live(d, capacity);
    ReadIsLocate(d, capacity, live, pos);
    LocateMeaning(Sizes(live), pos % TWO32);
  }

  /** The entries whose start a read can reach have at most `count` bytes. */
  ghost predicate ReachableFit(live: seq<Bytes>, count: nat) {
    forall i :: 0 <= i < |live| && Before(Sizes(live), i) < TWO32 ==> |live[i]| <= count
  }

  /** A read ignores the size of the caller's buffer: all reads fit it exactly when all entries within reach do. */
  lemma {:induction false} ReadsFitBufferIff(d: Device, capacity: nat, count: nat)
    requires FitsInt(d, capacity)
    ensures (forall pos: nat :: |ReadAt(d, capacity, pos)| <= count) <==> ReachableFit(Live(d, capacity), count)
  {
    var live := Live(d, capacity);
    if ReachableFit(live, count) {
      forall pos: nat ensures |ReadAt(d, capacity, pos)| <= count {
        ReadWithinEntries(d, capacity, count, pos);
      }
    } else {
      var i :| 0 <= i < |live| && Before(Sizes(live), i) < TWO32 && |live[i]| > count;
      var pos := ReadWholeEntry(d, capacity, i);
      assert |ReadAt(d, capacity, pos)| > count;
    }
  }

  /** With at most 4 GiB stored, every non-empty entry is within reach. */
  lemma {:induction false} AllWithinReach(live: seq<Bytes>, count: nat)
    requires |Concat(live)| <= TWO32
    ensures ReachableFit(live, count) <==> forall i :: 0 <= i < |live| ==> |live[i]| <= count
  {
    TotalIsLength(live);
    forall i | 0 <= i < |live| && |live[i]| > count ensures Before(Sizes(live), i) < TWO32 {
      BeforeMonotone(Sizes(live), i + 1, |live|);
    }
  }

  /** `n` letters and a newline. */
  function Line(n: nat): Bytes {
    seq(n, _ => 65) + [NEWLINE]
  }

  /** The first command of a device is its whole file, and one read at the start delivers all of it. */
  lemma {:induction false} FirstCommand(data: Bytes, capacity: nat)
    requires capacity >= 1 && Complete(data)
    ensures var d := WriteAll(EMPTY, [data]);
            Live(d, capacity) == [data] && File(d, capacity) == data && ReadAt(d, capacity, 0) == data
  {
    assert [] + [data] == [data] && Pending(EMPTY) + data == data;
    WriteAllPlus(EMPTY, [], data);
    assert Live(Write(EMPTY, data), capacity) == [data];
    ConcatOne(data);
    assert CFind(Sizes([data]), 0) == Some(Place(0, 0));
    assert data[0..] == data;
  }

  /** So no buffer is large enough for every device: one line of `count + 1` bytes does not fit `count`. */
  lemma {:induction false} ReadCanOverrun(count: nat)
    ensures |ReadAt(WriteAll(EMPTY, [Line(count)]), 10, 0)| == count + 1
  {
    assert Line(count)[count] == NEWLINE;
    FirstCommand(Line(count), 10);
  }

  /** The longest line whose size fits a C `int`. */
  const LONGEST: Bytes := Line(INT_MAX - 1)

  /** The device after three of these lines. */
  const OVERFULL := WriteAll(EMPTY, [LONGEST] + [LONGEST] + [LONGEST])

  /** With nothing pending, a complete write adds itself as a command. */
  lemma {:induction false} WriteAlone(log: seq<Bytes>, data: Bytes)
    requires Complete(data) && WriteAll(EMPTY, log).pending == None
    ensures WriteAll(EMPTY, log + [data]) == Device(WriteAll(EMPTY, log).cmds + [data], None)
  {
    WriteAllPlus(EMPTY, log, data);
    assert [] + data == data;
  }

  lemma {:induction false} OverfullCommands()
    ensures OVERFULL.cmds == [LONGEST] + [LONGEST] + [LONGEST]
  {
    assert LONGEST[INT_MAX - 1] == NEWLINE;
    assert [] + [LONGEST] == [LONGEST];
    WriteAlone([], LONGEST);
    WriteAlone([LONGEST], LONGEST);
    WriteAlone([LONGEST] + [LONGEST], LONGEST);
  }

  /** Three such lines fill 4 GiB: no read delivers nothing, and bytes past the cached size are readable. */
  lemma {:induction false} OverfullNeverDrains()
    ensures FitsInt(OVERFULL, 10) && |File(OVERFULL, 10)| == 3 * INT_MAX
    ensures forall pos: nat :: ReadAt(OVERFULL, 10, pos) != []
    ensures CachedSize(OVERFULL, 10) == 3 * INT_MAX - TWO32
    ensures ReadAt(OVERFULL, 10, CachedSize(OVERFULL, 10)) != []
  {
    OverfullCommands();
    var live := Live(OVERFULL, 10);
    assert live == [LONGEST] + [LONGEST] + [LONGEST];
    ConcatOne(LONGEST);
    ConcatAppend([LONGEST], LONGEST);
    ConcatAppend([LONGEST] + [LONGEST], LONGEST);
    DrainCanEndIff(OVERFULL, 10);
  }
}

/**
 * The two walks over the live entries of the ring, as functions of the entry
 * sizes: byte offset to (entry, offset) and (command, offset) to byte offset.
 * The first is given twice: with the C integer conversions of
 * aesd-circular-buffer.c:54-93 written out, and over mathematical integers.
 */
module Positions {
  import opened Sequences

  const TWO32: int := 0x1_0000_0000
  const TWO64: int := 0x1_0000_0000_0000_0000
  const INT_MAX: int := 0x7fff_ffff
  const EINVAL: int := 22

  /** Conversion of any integer value to a C `int`. */
  function ToInt32(x: int): (r: int)
    ensures -0x8000_0000 <= r <= 0x7fff_ffff && (x - r) % 0x1_0000_0000 == 0
  {
    var m := x % TWO32;
    if m <= INT_MAX then m else m - TWO32
  }

  /** Conversion to a 64-bit `size_t`. */
  function ToSizeT(x: int): (r: nat)
    ensures r < 0x1_0000_0000_0000_0000 && (x - r) % 0x1_0000_0000_0000_0000 == 0
  {
    x % TWO64
  }

  datatype Place = Place(index: nat, offset: nat)

  /** The search from entry `i` on, with `char_pos` an `int` compared and subtracted as `size_t`. */
  function CFindFrom(sizes: seq<nat>, i: nat, charPos: int): Option<Place>
    decreases |sizes| - i
  {
    if i >= |sizes| then None
    else if sizes[i] > ToSizeT(charPos) then Some(Place(i, ToSizeT(charPos)))
    else CFindFrom(sizes, i + 1, ToInt32(ToSizeT(charPos) - sizes[i]))
  }

  /** The search of the whole ring for a `size_t` offset. */
  function CFind(sizes: seq<nat>, charOffset: nat): Option<Place> {
    CFindFrom(sizes, 0, ToInt32(charOffset))
  }

  /** The same walk over mathematical integers. */
  function LocateFrom(sizes: seq<nat>, i: nat, pos: nat): Option<Place>
    decreases |sizes| - i
  {
    if i >= |sizes| then None
    else if pos < sizes[i] then Some(Place(i, pos))
    else LocateFrom(sizes, i + 1, pos - sizes[i])
  }

  function Locate(sizes: seq<nat>, pos: nat): Option<Place> {
    LocateFrom(sizes, 0, pos)
  }

  ghost predicate FitInt(sizes: seq<nat>) {
    forall i :: 0 <= i < |sizes| ==> sizes[i] <= INT_MAX
  }

  // ---------------------------------------------------------------- the C walk

  /** Subtracting as `size_t` and truncating to `int` loses only multiples of 2^32. */
  lemma {:induction false} IntStep(x: nat, size: nat)
    requires x < TWO32 && size <= INT_MAX
    ensures size <= x ==> ToSizeT(ToInt32(x)) >= size && ToInt32(ToSizeT(ToInt32(x)) - size) == ToInt32(x - size)
    ensures x < size ==> ToSizeT(ToInt32(x)) == x
  {
    if x <= INT_MAX {
      assert ToInt32(x) == x && ToSizeT(x) == x;
    } else {
      IntStepNegative(x, size);
    }
  }

  /** An `int` below zero becomes a `size_t` near 2^64, larger than any entry. */
  lemma {:induction false} IntStepNegative(x: nat, size: nat)
    requires INT_MAX < x < TWO32 && size <= INT_MAX
    ensures ToSizeT(ToInt32(x)) >= size && ToInt32(ToSizeT(ToInt32(x)) - size) == ToInt32(x - size)
  {
    assert ToInt32(x) == x - TWO32;
    HighBits(x);
    HighBitsLost(x - size);
  }

  lemma {:induction false} HighBits(x: nat)
    requires x < TWO32
    ensures ToSizeT(x - TWO32) == 0xffff_ffff_0000_0000 + x
  {
  }

  lemma {:induction false} HighBitsLost(y: nat)
    requires y < TWO32
    ensures ToInt32(0xffff_ffff_0000_0000 + y) == ToInt32(y)
  {
    assert (0xffff_ffff_0000_0000 + y) % TWO32 == y;
  }

  lemma {:induction false} CFindWalk(sizes: seq<nat>, i: nat, x: nat)
    requires FitInt(sizes) && x < TWO32
    ensures CFindFrom(sizes, i, ToInt32(x)) == LocateFrom(sizes, i, x)
    decreases |sizes| - i
  {
    if i < |sizes| {
      IntStep(x, sizes[i]);
      if sizes[i] <= x {
        CFindWalk(sizes, i + 1, x - sizes[i]);
      }
    }
  }

  /** Whatever the conversions do, a place that is found lies inside its entry. */
  lemma {:induction false} CFindInRange(sizes: seq<nat>, i: nat, charPos: int)
    ensures var r := CFindFrom(sizes, i, charPos);
            r.Some? ==> r.value.index < |sizes| && r.value.offset < sizes[r.value.index]
    decreases |sizes| - i
  {
    if i < |sizes| && sizes[i] <= ToSizeT(charPos) {
      CFindInRange(sizes, i + 1, ToInt32(ToSizeT(charPos) - sizes[i]));
    }
  }

  /** The search sees an offset only modulo 2^32. */
  lemma {:induction false} CFindIsLocateModulo(sizes: seq<nat>, offset: nat)
    requires FitInt(sizes)
    ensures CFind(sizes, offset) == Locate(sizes, offset % TWO32)
  {
    assert ToInt32(offset) == ToInt32(offset % TWO32);
    CFindWalk(sizes, 0, offset % TWO32);
  }

  /** Exactly when the C search is right about an offset. */
  lemma {:induction false} CFindCorrectIff(sizes: seq<nat>, offset: nat)
    requires FitInt(sizes)
    ensures CFind(sizes, offset) == Locate(sizes, offset)
       <==> (offset < TWO32 || Total(sizes) <= offset % TWO32)
  {
    CFindIsLocateModulo(sizes, offset);
    LocateMeaning(sizes, offset);
    LocateMeaning(sizes, offset % TWO32);
  }

  /** A position past the end that the C search answers with the first byte. */
  lemma {:induction false} CFindAliasesAt4GiB()
    ensures Locate([1], 0x1_0000_0000) == None
    ensures CFind([1], 0x1_0000_0000) == Some(Place(0, 0))
  {
    LocateMeaning([1], TWO32);
    assert Before([1], 1) == Before([1], 0) + 1;
    CFindIsLocateModulo([1], TWO32);
  }

  // ---------------------------------------------------------------- meaning of the search

  lemma {:induction false} LocateFromMeaning(sizes: seq<nat>, i: nat, pos: nat)
    requires i <= |sizes|
    ensures match LocateFrom(sizes, i, pos)
            case None => Total(sizes) <= Before(sizes, i) + pos
            case Some(p) => i <= p.index < |sizes| && p.offset < sizes[p.index] &&
                            Before(sizes, i) + pos == Before(sizes, p.index) + p.offset &&
                            Before(sizes, i) + pos < Total(sizes)
    decreases |sizes| - i
  {
    if i < |sizes| {
      if pos < sizes[i] {
        BeforeMonotone(sizes, i + 1, |sizes|);
      } else {
        LocateFromMeaning(sizes, i + 1, pos - sizes[i]);
      }
    }
  }

  /** The search finds the entry holding a byte, and fails exactly at and past the end. */
  lemma {:induction false} LocateMeaning(sizes: seq<nat>, pos: nat)
    ensures Locate(sizes, pos) == None <==> Total(sizes) <= pos
    ensures Locate(sizes, pos).Some? ==>
              var p := Locate(sizes, pos).value;
              p.index < |sizes| && p.offset < sizes[p.index] && pos == Before(sizes, p.index) + p.offset
  {
    LocateFromMeaning(sizes, 0, pos);
  }

  /** At most one entry holds a byte, so the search is determined by its meaning. */
  lemma {:induction false} PlaceUnique(sizes: seq<nat>, p: Place, q: Place)
    requires p.index < |sizes| && p.offset < sizes[p.index]
    requires q.index < |sizes| && q.offset < sizes[q.index]
    requires Before(sizes, p.index) + p.offset == Before(sizes, q.index) + q.offset
    ensures p == q
  {
    if p.index < q.index {
      BeforeMonotone(sizes, p.index + 1, q.index);
    } else if q.index < p.index {
      BeforeMonotone(sizes, q.index + 1, p.index);
    }
  }

  lemma {:induction false} LocateFinds(sizes: seq<nat>, p: Place)
    requires p.index < |sizes| && p.offset < sizes[p.index]
    ensures Locate(sizes, Before(sizes, p.index) + p.offset) == Some(p)
  {
    var pos := Before(sizes, p.index) + p.offset;
    BeforeMonotone(sizes, p.index + 1, |sizes|);
    LocateMeaning(sizes, pos);
    PlaceUnique(sizes, p, Locate(sizes, pos).value);
  }

  lemma {:induction false} DropInMiddle<T>(a: seq<T>, b: seq<T>, c: seq<T>, offset: nat)
    requires offset < |b|
    ensures (a + b + c)[|a| + offset..] == b[offset..] + c
    ensures (a + b + c)[|a| + offset] == b[offset]
  {
  }

  /** On strings, the search is indexing into their concatenation. */
  lemma {:induction false} LocateIndexesConcat<T>(ss: seq<seq<T>>, pos: nat)
    ensures Locate(Sizes(ss), pos) == None <==> |Concat(ss)| <= pos
    ensures Locate(Sizes(ss), pos).Some? ==>
              var p := Locate(Sizes(ss), pos).value;
              p.index < |ss| && p.offset < |ss[p.index]| && pos < |Concat(ss)| &&
              Concat(ss)[pos] == ss[p.index][p.offset] &&
              Concat(ss)[pos..] == ss[p.index][p.offset..] + Concat(ss[p.index + 1..])
  {
    TotalIsLength(ss);
    LocateMeaning(Sizes(ss), pos);
    if Locate(Sizes(ss), pos).Some? {
      PlaceIndexesConcat(ss, Locate(Sizes(ss), pos).value);
    }
  }

  lemma {:induction false} PlaceIndexesConcat<T>(ss: seq<seq<T>>, p: Place)
    requires p.index < |ss| && p.offset < |ss[p.index]|
    ensures var pos := Before(Sizes(ss), p.index) + p.offset;
            pos < |Concat(ss)| && Concat(ss)[pos] == ss[p.index][p.offset] &&
            Concat(ss)[pos..] == ss[p.index][p.offset..] + Concat(ss[p.index + 1..])
  {
    BeforeIsLength(ss, p.index);
    ConcatSplit(ss, p.index);
    var a, b, c := Concat(ss[..p.index]), ss[p.index], Concat(ss[p.index + 1..]);
    var whole := Concat(ss);
    assert whole == a + b + c;
    DropInMiddle(a, b, c, p.offset);
    assert whole[|a| + p.offset..] == b[p.offset..] + c;
  }

  // ---------------------------------------------------------------- command seek

  /** Result code and new position of the command seek, from its promise rather than its loop. */
  function Seek(sizes: seq<nat>, fpos: nat, cmd: nat, offset: nat): (int, nat) {
    if sizes == [] then (0, 0)
    else if cmd < |sizes| && offset <= sizes[cmd] then (0, Before(sizes, cmd) + offset)
    else (-EINVAL, fpos)
  }

  /** When the command seek succeeds, with what result, and that it leaves the position alone when it fails. */
  lemma {:induction false} SeekMeaning(sizes: seq<nat>, fpos: nat, cmd: nat, offset: nat)
    ensures var (rc, to) := Seek(sizes, fpos, cmd, offset);
            && (rc == 0 <==> sizes == [] || (cmd < |sizes| && offset <= sizes[cmd]))
            && (rc != 0 ==> rc == -22 && to == fpos)
            && (sizes == [] ==> to == 0)
            && (sizes != [] && rc == 0 ==> cmd < |sizes| && to == Before(sizes, cmd) + offset)
  {
  }

  /** The seek loop from entry `i` on, `sum` being the size of the entries before it. */
  function SeekFrom(sizes: seq<nat>, i: nat, sum: nat, fpos: nat, cmd: nat, offset: nat): (int, nat)
    decreases |sizes| - i
  {
    if i >= |sizes| then (-EINVAL, fpos)
    else if i == cmd then (if sizes[i] >= offset then (0, sum + offset) else (-EINVAL, fpos))
    else SeekFrom(sizes, i + 1, sum + sizes[i], fpos, cmd, offset)
  }

  lemma {:induction false} SeekFromIsSeek(sizes: seq<nat>, i: nat, fpos: nat, cmd: nat, offset: nat)
    requires i <= |sizes| && i <= cmd && sizes != []
    ensures SeekFrom(sizes, i, Before(sizes, i), fpos, cmd, offset) == Seek(sizes, fpos, cmd, offset)
    decreases |sizes| - i
  {
    if i < |sizes| && i != cmd {
      SeekFromIsSeek(sizes, i + 1, fpos, cmd, offset);
    }
  }

  /** Over mathematical integers, an offset inside a command is found again. */
  lemma {:induction false} SeekThenLocate(sizes: seq<nat>, fpos: nat, cmd: nat, offset: nat)
    requires cmd < |sizes| && offset < sizes[cmd]
    ensures Seek(sizes, fpos, cmd, offset).0 == 0
    ensures Locate(sizes, Seek(sizes, fpos, cmd, offset).1) == Some(Place(cmd, offset))
  {
    LocateFinds(sizes, Place(cmd, offset));
  }

  /** Any byte is reached again by seeking to its place. */
  lemma {:induction false} LocateThenSeek(sizes: seq<nat>, pos: nat, fpos: nat)
    requires pos < Total(sizes)
    ensures Locate(sizes, pos).Some?
    ensures var p := Locate(sizes, pos).value; Seek(sizes, fpos, p.index, p.offset) == (0, pos)
  {
    LocateMeaning(sizes, pos);
  }

  /** The place after the last byte of a command: the start of the next one, or none. */
  function PlaceAfter(sizes: seq<nat>, cmd: nat): Option<Place> {
    if cmd + 1 < |sizes| then Some(Place(cmd + 1, 0)) else None
  }

  /** The accepted offset just past a command is the start of the next one, or the end of data. */
  lemma {:induction false} SeekPastEntry(sizes: seq<nat>, fpos: nat, cmd: nat)
    requires cmd < |sizes|
    requires forall i :: 0 <= i < |sizes| ==> sizes[i] > 0
    ensures var (rc, pos) := Seek(sizes, fpos, cmd, sizes[cmd]); rc == 0 && Locate(sizes, pos) == PlaceAfter(sizes, cmd)
  {
    if cmd + 1 < |sizes| {
      LocateFinds(sizes, Place(cmd + 1, 0));
    } else {
      LocateMeaning(sizes, Total(sizes));
    }
  }

  /** A position the C search answers like the exact one is below 2^32, unless both find nothing. */
  lemma {:induction false} FoundBelow4GiB(sizes: seq<nat>, pos: nat)
    requires FitInt(sizes) && pos <= Total(sizes)
    ensures CFind(sizes, pos) == Locate(sizes, pos) <==> pos < TWO32
  {
    CFindCorrectIff(sizes, pos);
  }

  /** The C search that follows a seek returns the place sought, exactly while that place is below 4 GiB. */
  lemma {:induction false} SeekThenFindIff(sizes: seq<nat>, fpos: nat, cmd: nat, offset: nat)
    requires FitInt(sizes) && cmd < |sizes| && offset < sizes[cmd]
    ensures CFind(sizes, Seek(sizes, fpos, cmd, offset).1) == Some(Place(cmd, offset))
       <==> Before(sizes, cmd) + offset < TWO32
  {
    SeekThenLocate(sizes, fpos, cmd, offset);
    BeforeMonotone(sizes, cmd + 1, |sizes|);
    FoundBelow4GiB(sizes, Before(sizes, cmd) + offset);
  }

  /** The same for the accepted offset just past a command. */
  lemma {:induction false} SeekPastThenFindIff(sizes: seq<nat>, fpos: nat, cmd: nat)
    requires FitInt(sizes) && cmd < |sizes|
    requires forall i :: 0 <= i < |sizes| ==> sizes[i] > 0
    ensures CFind(sizes, Seek(sizes, fpos, cmd, sizes[cmd]).1) == PlaceAfter(sizes, cmd)
       <==> Before(sizes, cmd + 1) < TWO32
  {
    SeekPastEntry(sizes, fpos, cmd);
    BeforeMonotone(sizes, cmd + 1, |sizes|);
    FoundBelow4GiB(sizes, Before(sizes, cmd + 1));
  }

  /** Seeking to the place that the C search found returns to the position, up to the multiples of 2^32 it lost. */
  lemma {:induction false} FindThenSeek(sizes: seq<nat>, pos: nat, fpos: nat)
    requires FitInt(sizes)
    ensures match CFind(sizes, pos)
            case None => Total(sizes) <= pos % TWO32
            case Some(p) => Seek(sizes, fpos, p.index, p.offset) == (0, pos % TWO32)
  {
    CFindIsLocateModulo(sizes, pos);
    LocateMeaning(sizes, pos % TWO32);
    if pos % TWO32 < Total(sizes) {
      LocateThenSeek(sizes, pos % TWO32, fpos);
    }
  }

  // ---------------------------------------------------------------- seek on a file of fixed size

  datatype Whence = SeekSet | SeekCur | SeekEnd | OtherWhence

  /** The kernel's seek on a file of fixed size: result and new position. */
  function FixedSizeLlseek(pos: nat, offset: int, whence: Whence, size: nat): (int, nat) {
    if whence.SeekCur? && offset == 0 then (pos, pos)
    else
      var target := match whence
        case SeekSet => offset
        case SeekCur => pos + offset
        case SeekEnd => size + offset
        case OtherWhence => -1;
      if 0 <= target <= size then (target, target) else (-EINVAL, pos)
  }

  /** The target of each kind of seek, and what a target outside the file leads to. */
  lemma {:induction false} LlseekMeaning(pos: nat, offset: int, whence: Whence, size: nat)
    ensures var r := FixedSizeLlseek(pos, offset, whence, size);
            && (whence.SeekSet? ==> r == if 0 <= offset <= size then (offset, offset) else (-22, pos))
            && (whence.SeekCur? && offset == 0 ==> r == (pos, pos))
            && (whence.SeekCur? && offset != 0 ==>
                  r == if 0 <= pos + offset <= size then (pos + offset, pos + offset) else (-22, pos))
            && (whence.SeekEnd? ==>
                  r == if 0 <= size + offset <= size then (size + offset, size + offset) else (-22, pos))
            && (whence.OtherWhence? ==> r == (-22, pos))
  {
  }
}

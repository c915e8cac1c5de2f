/** Sequence vocabulary shared by the device and the server models. */
module Sequences {

  datatype Option<+T> = None | Some(value: T)

  /** All strings laid end to end. */
  function Concat<T>(ss: seq<seq<T>>): seq<T> {
    if ss == [] then [] else ss[0] + Concat(ss[1..])
  }

  /** The last `n` elements, or everything when there are fewer. */
  function Window<T>(s: seq<T>, n: nat): seq<T> {
    if |s| <= n then s else s[|s| - n..]
  }

  function Sizes<T>(ss: seq<seq<T>>): (r: seq<nat>)
    ensures |r| == |ss| && forall i :: 0 <= i < |ss| ==> r[i] == |ss[i]|
  {
    seq(|ss|, i requires 0 <= i < |ss| => |ss[i]|)
  }

  /** Sum of the first `i` sizes: the byte offset at which entry `i` starts. */
  function Before(sizes: seq<nat>, i: nat): nat
    requires i <= |sizes|
  {
    if i == 0 then 0 else Before(sizes, i - 1) + sizes[i - 1]
  }

  function Total(sizes: seq<nat>): nat {
    Before(sizes, |sizes|)
  }

  lemma {:induction false} ConcatPlus<T>(a: seq<seq<T>>, b: seq<seq<T>>)
    ensures Concat(a + b) == Concat(a) + Concat(b)
  {
    if a == [] {
      assert a + b == b;
    } else {
      ConcatPlus(a[1..], b);
      assert (a + b)[1..] == a[1..] + b && (a + b)[0] == a[0];
      assert a[0] + (Concat(a[1..]) + Concat(b)) == (a[0] + Concat(a[1..])) + Concat(b);
    }
  }

  lemma {:induction false} ConcatOne<T>(s: seq<T>)
    ensures Concat([s]) == s
  {
    assert [s][1..] == [];
  }

  lemma {:induction false} ConcatAppend<T>(a: seq<seq<T>>, s: seq<T>)
    ensures Concat(a + [s]) == Concat(a) + s
  {
    ConcatPlus(a, [s]);
    ConcatOne(s);
  }

  /** Splitting the concatenation around entry `i`. */
  lemma {:induction false} ConcatSplit<T>(ss: seq<seq<T>>, i: nat)
    requires i < |ss|
    ensures Concat(ss) == Concat(ss[..i]) + ss[i] + Concat(ss[i + 1..])
  {
    assert ss == ss[..i + 1] + ss[i + 1..];
    assert ss[..i + 1] == ss[..i] + [ss[i]];
    ConcatPlus(ss[..i + 1], ss[i + 1..]);
    ConcatAppend(ss[..i], ss[i]);
  }

  /** Entry `i` of the concatenation starts at the sum of the earlier sizes. */
  lemma {:induction false} BeforeIsLength<T>(ss: seq<seq<T>>, i: nat)
    requires i <= |ss|
    ensures Before(Sizes(ss), i) == |Concat(ss[..i])|
  {
    if i > 0 {
      BeforeIsLength(ss, i - 1);
      assert ss[..i] == ss[..i - 1] + [ss[i - 1]];
      ConcatAppend(ss[..i - 1], ss[i - 1]);
    }
  }

  lemma {:induction false} TotalIsLength<T>(ss: seq<seq<T>>)
    ensures Total(Sizes(ss)) == |Concat(ss)|
  {
    BeforeIsLength(ss, |ss|);
    assert ss[..|ss|] == ss;
  }

  lemma {:induction false} BeforeMonotone(sizes: seq<nat>, i: nat, j: nat)
    requires i <= j <= |sizes|
    ensures Before(sizes, i) <= Before(sizes, j)
    decreases j
  {
    if i < j {
      BeforeMonotone(sizes, i, j - 1);
    }
  }

  lemma {:induction false} BeforePrefix(a: seq<nat>, b: seq<nat>, i: nat)
    requires i <= |a| && i <= |b| && a[..i] == b[..i]
    ensures Before(a, i) == Before(b, i)
  {
    if i > 0 {
      assert a[..i - 1] == a[..i][..i - 1] == b[..i - 1];
      assert a[i - 1] == a[..i][i - 1] == b[i - 1];
      BeforePrefix(a, b, i - 1);
    }
  }

  lemma {:induction false} TotalAppend(a: seq<nat>, x: nat)
    ensures Total(a + [x]) == Total(a) + x
  {
    BeforePrefix(a + [x], a, |a|);
  }

  lemma {:induction false} BeforeTail(a: seq<nat>, i: nat)
    requires 1 <= i <= |a|
    ensures Before(a, i) == a[0] + Before(a[1..], i - 1)
  {
    if i == 1 {
      assert Before(a, 0) == 0;
    } else {
      BeforeTail(a, i - 1);
    }
  }

  /** What the window is: at most `n` elements, the last ones, in order. */
  lemma {:induction false} WindowMeaning<T>(s: seq<T>, n: nat, i: nat)
    ensures |Window(s, n)| == if |s| < n then |s| else n
    ensures i < |Window(s, n)| ==> Window(s, n)[i] == s[|s| - |Window(s, n)| + i]
  {
  }

  /** How the window moves when one element is appended. */
  lemma {:induction false} WindowAppend<T>(s: seq<T>, x: T, n: nat)
    requires n >= 1
    ensures Window(s + [x], n) == (if |s| < n then Window(s, n) else Window(s, n)[1..]) + [x]
  {
    if |s| >= n {
      assert s[|s| - n..][1..] == s[|s| + 1 - n..];
    }
  }
}

/** The bounded slice: appends that push out the far end, and deletion of many positions in place. */
module Slices {

  // ---------------------------------------------------------------------------------------------
  // Deleting positions
  // ---------------------------------------------------------------------------------------------

  function RemoveAt<T>(s: seq<T>, i: nat): seq<T>
    requires i < |s|
  {
    s[..i] + s[i + 1..]
  }

  /** What deleting the listed positions should leave, `s[0]` being at position `base`. */
  function KeepOthers<T>(s: seq<T>, listed: set<int>, base: int): seq<T> {
    if s == [] then [] else (if base in listed then [] else [s[0]]) + KeepOthers(s[1..], listed, base + 1)
  }

  /** The deletion loop: each index is corrected by the number of indices before it. */
  function DropLoop<T>(s: seq<T>, indices: seq<int>, removed: int): seq<T>
    decreases |indices|
  {
    if indices == [] then s
    else
      var adj := indices[0] - removed;
      DropLoop(if 0 <= adj < |s| then RemoveAt(s, adj) else s, indices[1..], removed + 1)
  }

  ghost predicate Increasing(a: seq<int>) {
    forall i, j | 0 <= i < j < |a| :: a[i] < a[j]
  }

  function Elements(a: seq<int>): set<int> {
    set x | x in a
  }

  lemma {:induction false} KeepSplits<T>(a: seq<T>, b: seq<T>, listed: set<int>, base: int)
    ensures KeepOthers(a + b, listed, base) == KeepOthers(a, listed, base) + KeepOthers(b, listed, base + |a|)
  {
    if a == [] {
      assert a + b == b;
    } else {
      assert (a + b)[0] == a[0] && (a + b)[1..] == a[1..] + b;
      KeepSplits(a[1..], b, listed, base + 1);
    }
  }

  lemma {:induction false} KeepAll<T>(s: seq<T>, listed: set<int>, base: int)
    requires forall i | base <= i < base + |s| :: i !in listed
    ensures KeepOthers(s, listed, base) == s
  {
    if s != [] {
      KeepAll(s[1..], listed, base + 1);
      assert s == [s[0]] + s[1..];
    }
  }

  lemma {:induction false} KeepAgrees<T>(s: seq<T>, a: set<int>, b: set<int>, base: int)
    requires forall i | base <= i < base + |s| :: i in a <==> i in b
    ensures KeepOthers(s, a, base) == KeepOthers(s, b, base)
  {
    if s != [] {
      KeepAgrees(s[1..], a, b, base + 1);
    }
  }

  /** Indices beyond the end delete nothing. */
  lemma {:induction false} LoopBeyondEnd<T>(s: seq<T>, u: seq<int>, removed: int)
    requires Increasing(u) && forall i | 0 <= i < |u| :: u[i] - removed - i >= |s|
    ensures DropLoop(s, u, removed) == s
    decreases |u|
  {
    if u != [] {
      assert forall i | 0 <= i < |u| - 1 :: u[1..][i] == u[i + 1];
      LoopBeyondEnd(s, u[1..], removed + 1);
    }
  }

  lemma {:induction false} IncreasingBy(u: seq<int>, i: int)
    requires Increasing(u) && 0 <= i < |u|
    ensures u[i] >= u[0] + i
    decreases i
  {
    if i > 0 {
      IncreasingBy(u, i - 1);
    }
  }

  /** Keeping the others, seen from the first listed position. */
  lemma KeepAroundFirst<T>(rest: seq<T>, u: seq<int>, base: int)
    requires Increasing(u) && u != [] && 0 <= u[0] - base < |rest|
    ensures var k := u[0] - base;
      KeepOthers(rest, Elements(u), base) == rest[..k] + KeepOthers(rest[k + 1..], Elements(u[1..]), u[0] + 1)
  {
    var k := u[0] - base;
    var front, back := rest[..k], [rest[k]] + rest[k + 1..];
    assert rest == front + back;
    KeepSplits(front, back, Elements(u), base);
    assert forall i | 0 <= i < |u| :: u[i] >= u[0];
    KeepAll(front, Elements(u), base);
    assert u[0] in u && back[1..] == rest[k + 1..];
    KeepAgrees(rest[k + 1..], Elements(u), Elements(u[1..]), u[0] + 1);
  }

  /** One deletion moves the boundary past the deleted position. */
  lemma DeleteFirst<T>(done: seq<T>, rest: seq<T>, k: nat)
    requires k < |rest|
    ensures RemoveAt(done + rest, |done| + k) == (done + rest[..k]) + rest[k + 1..]
  {
    var s, i := done + rest, |done| + k;
    assert s[..i] == done + rest[..k];
    assert s[i + 1..] == rest[k + 1..];
  }

  /** Once an index is beyond the end, all later ones are. */
  lemma AllBeyond<T>(s: seq<T>, u: seq<int>, removed: int)
    requires Increasing(u) && u != [] && u[0] - removed >= |s|
    ensures DropLoop(s, u, removed) == s
  {
    forall i | 0 <= i < |u| ensures u[i] - removed - i >= |s| {
      IncreasingBy(u, i);
    }
    LoopBeyondEnd(s, u, removed);
  }

  /** One step of the loop, at a position after the boundary. */
  lemma LoopDeletes<T>(done: seq<T>, rest: seq<T>, u: seq<int>, removed: int, k: nat)
    requires u != [] && u[0] - removed == |done| + k && k < |rest|
    ensures DropLoop(done + rest, u, removed) == DropLoop((done + rest[..k]) + rest[k + 1..], u[1..], removed + 1)
  {
    DeleteFirst(done, rest, k);
  }

  lemma LoopEnds<T>(done: seq<T>, rest: seq<T>, u: seq<int>, removed: int, base: int)
    requires Increasing(u) && |done| == base - removed && (u == [] || u[0] - base >= |rest|)
    ensures DropLoop(done + rest, u, removed) == done + KeepOthers(rest, Elements(u), base)
  {
    if u != [] {
      AllBeyond(done + rest, u, removed);
      assert forall i | 0 <= i < |u| :: u[i] >= u[0];
    }
    KeepAll(rest, Elements(u), base);
  }

  /** The index-shift invariant: what is before position `base` is done and has shrunk by `removed`. */
  lemma {:induction false} LoopFrom<T>(done: seq<T>, rest: seq<T>, u: seq<int>, removed: int, base: int)
    requires Increasing(u) && |done| == base - removed && (u == [] || u[0] >= base)
    ensures DropLoop(done + rest, u, removed) == done + KeepOthers(rest, Elements(u), base)
    decreases |u|
  {
    if u == [] || u[0] - base >= |rest| {
      LoopEnds(done, rest, u, removed, base);
    } else {
      var k := u[0] - base;
      TailIncreasing(u);
      LoopFrom(done + rest[..k], rest[k + 1..], u[1..], removed + 1, u[0] + 1);
      LoopPasses(done, rest, u, removed, base, k);
    }
  }

  lemma TailIncreasing(u: seq<int>)
    requires Increasing(u) && u != []
    ensures Increasing(u[1..]) && (u[1..] == [] || u[1..][0] >= u[0] + 1)
  {
  }

  /** One step of the loop extends what is known about the rest of it. */
  lemma LoopPasses<T>(done: seq<T>, rest: seq<T>, u: seq<int>, removed: int, base: int, k: nat)
    requires Increasing(u) && u != [] && |done| == base - removed && k == u[0] - base && k < |rest|
    requires DropLoop((done + rest[..k]) + rest[k + 1..], u[1..], removed + 1)
          == (done + rest[..k]) + KeepOthers(rest[k + 1..], Elements(u[1..]), u[0] + 1)
    ensures DropLoop(done + rest, u, removed) == done + KeepOthers(rest, Elements(u), base)
  {
    LoopDeletes(done, rest, u, removed, k);
    KeepAfterFirst(done, rest, u, base);
  }

  lemma KeepAfterFirst<T>(done: seq<T>, rest: seq<T>, u: seq<int>, base: int)
    requires Increasing(u) && u != [] && 0 <= u[0] - base < |rest|
    ensures var k := u[0] - base;
      done + KeepOthers(rest, Elements(u), base)
      == (done + rest[..k]) + KeepOthers(rest[k + 1..], Elements(u[1..]), u[0] + 1)
  {
    var k := u[0] - base;
    KeepAroundFirst(rest, u, base);
    Regroup(done, rest[..k], KeepOthers(rest[k + 1..], Elements(u[1..]), u[0] + 1));
  }

  lemma Regroup<T>(a: seq<T>, b: seq<T>, c: seq<T>)
    ensures (a + b) + c == a + (b + c)
  {
  }

  /** With indices that are not negative the loop deletes exactly the listed positions. */
  lemma LoopDeletesListed<T>(s: seq<T>, u: seq<int>)
    requires Increasing(u) && forall i | 0 <= i < |u| :: u[i] >= 0
    ensures DropLoop(s, u, 0) == KeepOthers(s, Elements(u), 0)
  {
    assert [] + s == s;
    LoopFrom([], s, u, 0, 0);
    assert [] + KeepOthers(s, Elements(u), 0) == KeepOthers(s, Elements(u), 0);
  }

  // ---------------------------------------------------------------------------------------------
  // Negative indices: exactly when the loop still does its job
  // ---------------------------------------------------------------------------------------------

  /** The list 0, 1, ..., n - 1. */
  function UpTo(n: nat): (s: seq<int>)
    ensures |s| == n && forall i | 0 <= i < n :: s[i] == i
  {
    seq(n, i => i)
  }

  lemma {:induction false} LoopLosesOnly<T>(s: seq<T>, u: seq<int>, removed: int)
    ensures |DropLoop(s, u, removed)| >= |s| - |u|
    ensures forall x :: x in DropLoop(s, u, removed) ==> x in s
    decreases |u|
  {
    if u != [] {
      var adj := u[0] - removed;
      LoopLosesOnly(if 0 <= adj < |s| then RemoveAt(s, adj) else s, u[1..], removed + 1);
    }
  }

  lemma LoopSkipsOne<T>(s: seq<T>, u: seq<int>, removed: int)
    requires u != [] && u[0] - removed < 0
    ensures DropLoop(s, u, removed) == DropLoop(s, u[1..], removed + 1)
  {
  }

  /** The first `n` steps of the loop, when none of them deletes anything. */
  lemma {:induction false} LoopSkips<T>(s: seq<T>, u: seq<int>, removed: int, n: nat)
    requires n <= |u| && forall i | 0 <= i < n :: u[i] < removed
    ensures DropLoop(s, u, removed) == DropLoop(s, u[n..], removed + n)
    decreases n
  {
    if n == 0 {
      assert u[0..] == u;
    } else {
      LoopSkips(s, u, removed, n - 1);
      assert u[n - 1..][1..] == u[n..];
      LoopSkipsOne(s, u[n - 1..], removed + n - 1);
    }
  }

  lemma {:induction false} LoopLength<T>(s: seq<T>, u: seq<int>, removed: int)
    requires forall i | 0 <= i < |u| :: 0 <= u[i] - removed
    requires Increasing(u) && forall i | 0 <= i < |u| :: u[i] - removed < |s|
    ensures |DropLoop(s, u, removed)| == |s| - |u|
    decreases |u|
  {
    if u != [] {
      forall i | 0 <= i < |u| - 1 ensures 0 <= u[1..][i] - (removed + 1) < |s| - 1 {
        assert u[1..][i] == u[i + 1] && u[i + 1] > u[0];
      }
      LoopLength(RemoveAt(s, u[0] - removed), u[1..], removed + 1);
    }
  }

  /** Negative indices list no position. */
  lemma NegativesListNothing<T>(s: seq<T>, u: seq<int>, k: nat)
    requires Increasing(u) && 0 < k < |u| && u[k - 1] < 0
    ensures KeepOthers(s, Elements(u), 0) == KeepOthers(s, Elements(u[k..]), 0)
  {
    forall i | 0 <= i < |s| ensures i in Elements(u) <==> i in Elements(u[k..]) {
      assert forall j | 0 <= j < k :: u[j] <= u[k - 1];
      assert forall j | k <= j < |u| :: u[k..][j - k] == u[j];
      assert u == u[..k] + u[k..];
      assert forall j | 0 <= j < k :: u[..k][j] < 0;
    }
    KeepAgrees(s, Elements(u), Elements(u[k..]), 0);
  }

  /** The negative indices pass without effect, but they count. */
  lemma NegativesShift<T>(s: seq<T>, u: seq<int>, k: nat)
    requires Increasing(u) && 0 < k < |u| && u[k - 1] < 0
    ensures DropLoop(s, u, 0) == DropLoop(s, u[k..], k)
  {
    forall i | 0 <= i < k ensures u[i] < 0 {
      assert u[i] <= u[k - 1];
    }
    LoopSkips(s, u, 0, k);
  }

  /** Started so late that its first index is skipped, the loop deletes too few. */
  lemma TooFewDeleted<T>(s: seq<T>, tail: seq<int>, k: nat)
    requires Increasing(tail) && tail != [] && 0 <= tail[0] < k
    requires forall i | 0 <= i < |tail| :: 0 <= tail[i] < |s|
    ensures |DropLoop(s, tail, k)| > |KeepOthers(s, Elements(tail), 0)|
  {
    LoopDeletesListed(s, tail);
    LoopLength(s, tail, 0);
    LoopSkips(s, tail, k, 1);
    LoopLosesOnly(s, tail[1..], k + 1);
  }

  /** Started a little late, the loop deletes a position before the first listed one. */
  lemma WrongOneDeleted(n: nat, tail: seq<int>, k: nat)
    requires Increasing(tail) && tail != [] && 0 < k <= tail[0] < n
    ensures tail[0] - k !in DropLoop(UpTo(n), tail, k)
    ensures tail[0] - k in KeepOthers(UpTo(n), Elements(tail), 0)
  {
    var s, first := UpTo(n), tail[0] - k;
    LoopLosesOnly(RemoveAt(s, first), tail[1..], k + 1);
    assert first !in RemoveAt(s, first);
    assert forall i | 0 <= i < |tail| :: tail[0] <= tail[i];
    StillThere(s, Elements(tail), 0, first);
  }

  lemma OutOfStep(tail: seq<int>, k: nat)
    requires Increasing(tail) && tail != [] && tail[0] >= 0 && k > 0
    ensures var s := UpTo(tail[|tail| - 1] + 1);
      DropLoop(s, tail, k) != KeepOthers(s, Elements(tail), 0)
  {
    var n := tail[|tail| - 1] + 1;
    if tail[0] < k {
      TooFewDeleted(UpTo(n), tail, k);
    } else {
      WrongOneDeleted(n, tail, k);
    }
  }

  /** With both negative and other indices listed, the loop goes wrong on some list. */
  lemma MixedSignsGoWrong(u: seq<int>, k: nat)
    requires Increasing(u) && 0 < k < |u| && u[k - 1] < 0 <= u[k]
    ensures exists s: seq<int> :: DropLoop(s, u, 0) != KeepOthers(s, Elements(u), 0)
  {
    var tail := u[k..];
    var s := UpTo(tail[|tail| - 1] + 1);
    NegativesListNothing(s, u, k);
    NegativesShift(s, u, k);
    OutOfStep(tail, k);
  }

  lemma {:induction false} StillThere(s: seq<int>, listed: set<int>, base: int, i: nat)
    requires i < |s| && base + i !in listed
    ensures s[i] in KeepOthers(s, listed, base)
  {
    if i > 0 {
      StillThere(s[1..], listed, base + 1, i - 1);
    }
  }

  /** The loop deletes the listed positions of every list if and only if the indices do not mix signs. */
  lemma DropsCorrectIff(u: seq<int>)
    requires Increasing(u)
    ensures (forall s: seq<int> :: DropLoop(s, u, 0) == KeepOthers(s, Elements(u), 0))
       <==> (forall i | 0 <= i < |u| :: u[i] >= 0) || (forall i | 0 <= i < |u| :: u[i] < 0)
  {
    if forall i | 0 <= i < |u| :: u[i] >= 0 {
      forall s: seq<int> ensures DropLoop(s, u, 0) == KeepOthers(s, Elements(u), 0) {
        LoopDeletesListed(s, u);
      }
    } else if forall i | 0 <= i < |u| :: u[i] < 0 {
      forall s: seq<int> ensures DropLoop(s, u, 0) == KeepOthers(s, Elements(u), 0) {
        LoopSkips(s, u, 0, |u|);
        KeepAll(s, Elements(u), 0);
      }
    } else {
      var k := FirstNonNegative(u);
      MixedSignsGoWrong(u, k);
    }
  }

  lemma FirstNonNegative(u: seq<int>) returns (k: nat)
    requires Increasing(u) && (exists i :: 0 <= i < |u| && u[i] < 0) && (exists i :: 0 <= i < |u| && u[i] >= 0)
    ensures 0 < k < |u| && u[k - 1] < 0 <= u[k]
  {
    k := 0;
    while u[k] < 0
      invariant 0 <= k < |u| && forall i | 0 <= i < k :: u[i] < 0
      decreases |u| - k
    {
      k := k + 1;
    }
  }

  // ---------------------------------------------------------------------------------------------
  // Bounded appends
  // ---------------------------------------------------------------------------------------------

  /** The last `n` elements, or all of them if `n` is not positive. */
  function LastOf<T>(s: seq<T>, n: int): seq<T> {
    if n > 0 && |s| > n then s[|s| - n..] else s
  }

  function Pushed<T>(s: seq<T>, x: T, n: int): seq<T> {
    (if n > 0 && |s| >= n then s[1..] else s) + [x]
  }

  function PushedAll<T>(s: seq<T>, xs: seq<T>, n: int): seq<T>
    requires n > 0 ==> |s| <= n
  {
    if xs == [] then s else Pushed(PushedAll(s, xs[..|xs| - 1], n), xs[|xs| - 1], n)
  }

  lemma PushOntoLast<T>(t: seq<T>, x: T, n: int)
    ensures Pushed(LastOf(t, n), x, n) == LastOf(t + [x], n)
  {
    var u := t + [x];
    if n > 0 && |t| >= n {
      assert u[|u| - n..] == t[|t| + 1 - n..] + [x];
      assert LastOf(t, n)[1..] == t[|t| + 1 - n..];
    }
  }

  /** Appending one by one keeps the most recent elements, which is what a merge keeps. */
  lemma {:induction false} AppendsKeepLast<T>(s: seq<T>, xs: seq<T>, n: int)
    requires n > 0 ==> |s| <= n
    ensures PushedAll(s, xs, n) == LastOf(s + xs, n)
  {
    if xs == [] {
      assert s + xs == s;
    } else {
      var m := |xs| - 1;
      AppendsKeepLast(s, xs[..m], n);
      PushOntoLast(s + xs[..m], xs[m], n);
      assert s + xs == (s + xs[..m]) + [xs[m]];
    }
  }

  // ---------------------------------------------------------------------------------------------
  // The slice
  // ---------------------------------------------------------------------------------------------

  ghost predicate Ordered(a: seq<int>) {
    forall i, j | 0 <= i < j < |a| :: a[i] <= a[j]
  }

  function Place(a: seq<int>, x: int): (r: seq<int>)
    requires Ordered(a)
    ensures Ordered(r)
    ensures forall y :: y in r <==> y == x || y in a
  {
    if a == [] || x <= a[0] then [x] + a
    else
      var t := Place(a[1..], x);
      assert forall i | 0 <= i < |t| :: t[i] in t;
      assert forall y :: y in a <==> y == a[0] || y in a[1..];
      assert forall i | 0 <= i < |t| :: a[0] <= t[i];
      [a[0]] + t
  }

  /** The library sort. */
  function SortInts(a: seq<int>): (r: seq<int>)
    ensures Ordered(r)
    ensures forall y :: y in r <==> y in a
  {
    if a == [] then []
    else
      assert forall y :: y in a <==> y == a[0] || y in a[1..];
      Place(SortInts(a[1..]), a[0])
  }

  method Compact(cp: seq<int>) returns (unique: seq<int>)
    requires Ordered(cp)
    ensures Increasing(unique) && forall x :: x in unique <==> x in cp
  {
    unique := [];
    for i := 0 to |cp|
      invariant Increasing(unique) && forall x :: x in unique <==> x in cp[..i]
      invariant if i == 0 then unique == [] else unique != [] && unique[|unique| - 1] == cp[i - 1]
    {
      assert cp[..i + 1] == cp[..i] + [cp[i]];
      if i == 0 || cp[i - 1] != cp[i] {
        assert forall j | 0 <= j < |unique| :: unique[j] <= unique[|unique| - 1];
        unique := unique + [cp[i]];
      }
    }
    assert cp[..|cp|] == cp;
  }

  method UniqueSorted(indices: seq<int>) returns (unique: seq<int>)
    ensures Increasing(unique) && Elements(unique) == Elements(indices)
  {
    unique := Compact(SortInts(indices));
    assert forall x :: x in Elements(unique) <==> x in Elements(indices);
  }

  class Slice<T> {
    const maxLen: int
    const zero: T
    var buf: array<T>
    var len: nat

    ghost predicate Valid()
      reads this
    {
      len <= buf.Length && (maxLen > 0 ==> len <= maxLen)
    }

    ghost function Contents(): seq<T>
      requires Valid()
      reads this, buf
    {
      buf[..len]
    }

    constructor (src: seq<T>, maxLen: int, zero: T)
      ensures Valid() && fresh(buf) && this.maxLen == maxLen
      ensures Contents() == if maxLen > 0 && |src| > maxLen then src[..maxLen] else src
    {
      var n := if maxLen > 0 && |src| > maxLen then maxLen else |src|;
      var a := new T[n](i requires 0 <= i < n => src[i]);
      this.maxLen, this.zero := maxLen, zero;
      buf, len := a, n;
    }

    /** Shifts the elements after position `i` down by one and clears the freed cell. */
    method DropAt(i: nat)
      requires Valid() && i < len
      modifies this`len, buf
      ensures Valid() && Contents() == RemoveAt(old(Contents()), i)
    {
      var j := i;
      while j + 1 < len
        invariant len == old(len) && i <= j < len
        invariant forall k | 0 <= k < i :: buf[k] == old(buf[k])
        invariant forall k | i <= k < j :: buf[k] == old(buf[k + 1])
        invariant forall k | j < k < len :: buf[k] == old(buf[k])
      {
        buf[j] := buf[j + 1];
        j := j + 1;
      }
      buf[len - 1] := zero;
      len := len - 1;
      assert forall k | 0 <= k < len :: buf[k] == RemoveAt(old(buf[..len]), i)[k];
    }

    method Drops(indices: seq<int>)
      requires Valid()
      modifies this`len, buf
      ensures Valid()
      ensures exists u: seq<int> :: Increasing(u) && Elements(u) == Elements(indices)
                && Contents() == DropLoop(old(Contents()), u, 0)
      ensures (forall x | x in indices :: x >= 0) ==> Contents() == KeepOthers(old(Contents()), Elements(indices), 0)
    {
      var unique := UniqueSorted(indices);
      ghost var s := Contents();
      for removed := 0 to |unique|
        invariant Valid() && buf == old(buf)
        invariant DropLoop(Contents(), unique[removed..], removed) == DropLoop(s, unique, 0)
      {
        assert unique[removed..][1..] == unique[removed + 1..];
        var adj := unique[removed] - removed;
        if adj < 0 || adj >= len {
          continue;
        }
        DropAt(adj);
      }
      assert unique[|unique|..] == [];
      if forall x | x in indices :: x >= 0 {
        assert forall i | 0 <= i < |unique| :: unique[i] in Elements(unique);
        LoopDeletesListed(s, unique);
      }
    }

    /** Makes room at the end, in a larger array when the present one is full. */
    method Grow()
      requires Valid()
      modifies this`buf
      ensures Valid() && len < buf.Length && (buf == old(buf) || fresh(buf)) && Contents() == old(Contents())
    {
      if len == buf.Length {
        var old' := buf;
        var n := 2 * len + 1;
        buf := new T[n](i requires 0 <= i < n reads this, old' =>
          if i < len && i < old'.Length then old'[i] else zero);
        assert buf[..len] == old'[..len];
      }
    }

    method Append(x: T)
      requires Valid()
      modifies this`buf, this`len, buf
      ensures Valid() && (buf == old(buf) || fresh(buf)) && Contents() == Pushed(old(Contents()), x, maxLen)
    {
      if maxLen > 0 && len >= maxLen {
        DropAt(0);
      }
      ghost var s := Contents();
      Grow();
      buf[len] := x;
      len := len + 1;
      assert buf[..len] == s + [x];
    }

    method AppendHead(x: T)
      requires Valid()
      modifies this`buf, this`len, buf
      ensures Valid() && (buf == old(buf) || fresh(buf))
      ensures var s := old(Contents());
        Contents() == [x] + (if maxLen > 0 && |s| >= maxLen then s[..|s| - 1] else s)
    {
      if maxLen > 0 && len >= maxLen {
        DropAt(len - 1);
      }
      ghost var s := Contents();
      var tail := buf[..len];
      buf := new T[len + 1](i requires 0 <= i < |tail| + 1 => if i == 0 then x else tail[i - 1]);
      len := len + 1;
      assert buf[..len] == [x] + s;
    }

    /** Merging keeps the most recent elements, as appending them one by one would. */
    method Merge(other: seq<T>)
      requires Valid()
      modifies this`buf, this`len, buf
      ensures Valid() && (buf == old(buf) || fresh(buf))
      ensures Contents() == LastOf(old(Contents()) + other, maxLen)
      ensures Contents() == PushedAll(old(Contents()), other, maxLen)
    {
      ghost var s := Contents();
      AppendsKeepLast(s, other, maxLen);
      var all := buf[..len] + other;
      if maxLen > 0 && |all| > maxLen {
        all := all[|all| - maxLen..];
      }
      buf := new T[|all|](i requires 0 <= i < |all| => all[i]);
      len := |all|;
      assert buf[..len] == all;
    }
  }
}

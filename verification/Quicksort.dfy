/** The quicksort of libs/algo.c:6-32, which puts locks in the order of their ids before several
    of them are acquired or released.  Its partition compares with the last element moved, not
    with the pivot, so what it computes needs to be worked out. */
module Quicksort {
  import opened Strings

  // ---------------------------------------------------------------- specification

  /** The running minima of a sequence, and the other elements in the order the swaps leave. */
  datatype Parts = Parts(minima: seq<int>, rest: seq<int>)

  function Rotate(s: seq<int>): (r: seq<int>)
    ensures |r| == |s|
  {
    if s == [] then s else s[1..] + [s[0]]
  }

  lemma RotatePermutes(s: seq<int>)
    ensures multiset(Rotate(s)) == multiset(s)
  {
    if s != [] { assert s == [s[0]] + s[1..]; }
  }

  /** One more element: smaller than the last minimum, or not. */
  function Feed(p: Parts, x: int): (q: Parts)
    requires p.minima != []
    ensures q.minima != [] && |q.minima| + |q.rest| == |p.minima| + |p.rest| + 1
  {
    if x < Last(p.minima) then Parts(p.minima + [x], Rotate(p.rest)) else Parts(p.minima, p.rest + [x])
  }

  function Last(s: seq<int>): int
    requires s != []
  {
    s[|s| - 1]
  }

  /** The first n elements, taken one after the other. */
  function SplitTo(s: seq<int>, n: nat): (p: Parts)
    requires 0 < n <= |s|
    ensures p.minima != [] && |p.minima| + |p.rest| == n
  {
    if n == 1 then Parts([s[0]], []) else Feed(SplitTo(s, n - 1), s[n - 1])
  }

  function Split(s: seq<int>): (p: Parts)
    requires s != []
    ensures p.minima != [] && |p.minima| + |p.rest| == |s|
  {
    SplitTo(s, |s|)
  }

  function SwapEnds(s: seq<int>): (r: seq<int>)
    requires s != []
    ensures |r| == |s|
  {
    s[0 := s[|s| - 1]][|s| - 1 := s[0]]
  }

  predicate FirstIsMin(s: seq<int>) {
    forall i :: 0 <= i < |s| ==> s[0] <= s[i]
  }

  /** What falls with every call: recursing on the same range happens only after the first
      element has become the minimum. */
  function Measure(s: seq<int>): nat { 2 * |s| + if FirstIsMin(s) then 0 else 1 }

  predicate Descending(s: seq<int>) {
    forall i, j :: 0 <= i < j < |s| ==> s[i] > s[j]
  }

  lemma FeedMinima(p: Parts, x: int)
    requires p.minima != [] && Descending(p.minima)
    ensures Descending(Feed(p, x).minima) && Feed(p, x).minima[0] == p.minima[0]
    ensures Last(Feed(p, x).minima) <= x && Last(Feed(p, x).minima) <= Last(p.minima)
  {
  }

  lemma {:induction false} SplitMinima(s: seq<int>, n: nat)
    requires 0 < n <= |s|
    ensures Descending(SplitTo(s, n).minima) && SplitTo(s, n).minima[0] == s[0]
    ensures forall i :: 0 <= i < n ==> Last(SplitTo(s, n).minima) <= s[i]
  {
    if n > 1 {
      SplitMinima(s, n - 1);
      FeedMinima(SplitTo(s, n - 1), s[n - 1]);
    }
  }

  function All(p: Parts): multiset<int> { multiset(p.minima) + multiset(p.rest) }

  lemma FeedPermutes(p: Parts, x: int)
    requires p.minima != []
    ensures All(Feed(p, x)) == All(p) + multiset{x}
  {
    RotatePermutes(p.rest);
  }

  lemma OneMore(s: seq<int>, n: nat)
    requires 0 < n <= |s|
    ensures multiset(s[..n]) == multiset(s[..n - 1]) + multiset{s[n - 1]}
  {
    assert s[..n] == s[..n - 1] + [s[n - 1]];
  }

  lemma {:induction false} SplitPermutes(s: seq<int>, n: nat)
    requires 0 < n <= |s|
    ensures All(SplitTo(s, n)) == multiset(s[..n])
  {
    OneMore(s, n);
    if n > 1 {
      SplitPermutes(s, n - 1);
      FeedPermutes(SplitTo(s, n - 1), s[n - 1]);
    }
  }

  /** Only a strictly descending sequence leaves nothing for the right part. */
  lemma {:induction false} NoRest(s: seq<int>, n: nat)
    requires 0 < n <= |s| && SplitTo(s, n).rest == []
    ensures SplitTo(s, n).minima == s[..n]
  {
    if n > 1 {
      NoRest(s, n - 1);
      assert s[..n] == s[..n - 1] + [s[n - 1]];
    }
  }

  lemma SwapPutsMinimumFirst(s: seq<int>)
    requires s != [] && Descending(s)
    ensures FirstIsMin(SwapEnds(s))
  {
  }

  lemma MeasureFalls(s: seq<int>)
    requires |s| > 1
    ensures Measure(SwapEnds(Split(s).minima)) < Measure(s) && Measure(Split(s).rest) < Measure(s)
  {
    var p := Split(s);
    SplitMinima(s, |s|);
    if p.rest == [] {
      NoRest(s, |s|);
      assert s[..|s|] == s;
      assert s[0] > s[1];
      SwapPutsMinimumFirst(s);
    }
  }

  /** What qsort leaves in a range that held s. */
  function Sort(s: seq<int>): (r: seq<int>)
    ensures |r| == |s|
    decreases Measure(s)
  {
    if |s| < 2 then s
    else
      MeasureFalls(s);
      Sort(SwapEnds(Split(s).minima)) + Sort(Split(s).rest)
  }

  // ---------------------------------------------------------------- the code

  predicate Outside(a: seq<int>, b: seq<int>, left: int, right: int) {
    |a| == |b| && forall k :: 0 <= k < |a| && (k < left || k > right) ==> a[k] == b[k]
  }

  /** What the partition loop has done before its turn i. */
  predicate Partitioned(a: seq<int>, s: seq<int>, left: int, last: int, i: int)
    requires 0 <= left <= last < |a| && left <= i <= |a| && i - left <= |s| && s != []
  {
    if i == left then last == left && a[left] == s[0]
    else last < i && SplitTo(s, i - left) == Parts(a[left..last + 1], a[last + 1..i])
  }

  /** One turn of the loop on values. */
  function Turn(m: seq<int>, last: int, i: int): (r: (seq<int>, int))
    requires 0 <= last < |m| && last <= i < |m|
    ensures |r.0| == |m| && last <= r.1 <= last + 1 && (r.1 == last + 1 ==> r.1 <= i)
  {
    if m[i] < m[last] then (m[i := m[last + 1]][last + 1 := m[i]], last + 1) else (m, last)
  }

  lemma TurnOutside(m: seq<int>, last: int, i: int, left: int, right: int)
    requires left <= last && 0 <= last < |m| && last <= i <= right < |m|
    ensures Outside(m, Turn(m, last, i).0, left, right)
    ensures forall k :: i < k < |m| ==> Turn(m, last, i).0[k] == m[k]
  {
  }

  lemma PartitionStep(m: seq<int>, s: seq<int>, left: int, last: int, i: int)
    requires 0 <= left <= last < |m| && last <= i < |m| && i - left < |s| && Partitioned(m, s, left, last, i)
    requires m[i] == s[i - left]
    ensures Partitioned(Turn(m, last, i).0, s, left, Turn(m, last, i).1, i + 1)
  {
    if i > left {
      var p := SplitTo(s, i - left);
      assert SplitTo(s, i + 1 - left) == Feed(p, m[i]);
      if m[i] < m[last] {
        StepMoves(m, Turn(m, last, i).0, left, last, i);
      } else {
        assert m[last + 1..i] + [m[i]] == m[last + 1..i + 1];
      }
    }
  }

  lemma StepMoves(m: seq<int>, m': seq<int>, left: int, last: int, i: int)
    requires 0 <= left <= last < i < |m| && m' == m[i := m[last + 1]][last + 1 := m[i]]
    ensures m'[left..last + 2] == m[left..last + 1] + [m[i]]
    ensures m'[last + 2..i + 1] == Rotate(m[last + 1..i])
  {
    var r := m[last + 1..i];
    if r != [] { assert m'[last + 2..i + 1] == r[1..] + [r[0]]; }
  }

  /** The turns of the loop before i. */
  function Turns(m: seq<int>, left: int, i: int): (r: (seq<int>, int))
    requires 0 <= left < |m| && left <= i <= |m|
    ensures |r.0| == |m| && left <= r.1 < |m| && r.1 <= i
    decreases i
  {
    if i == left then (m, left) else Turn(Turns(m, left, i - 1).0, Turns(m, left, i - 1).1, i - 1)
  }

  lemma {:induction false} TurnsPartition(m: seq<int>, left: int, right: int, i: int)
    requires 0 <= left <= right < |m| && left <= i <= right + 1
    ensures Turns(m, left, i).1 <= right
    ensures Partitioned(Turns(m, left, i).0, m[left..right + 1], left, Turns(m, left, i).1, i)
    ensures Outside(m, Turns(m, left, i).0, left, right)
    ensures forall k :: i <= k <= right ==> Turns(m, left, i).0[k] == m[k]
    decreases i
  {
    if i > left {
      TurnsPartition(m, left, right, i - 1);
      var (m', last) := Turns(m, left, i - 1);
      var (t, l) := Turns(m, left, i);
      NextPartition(m, m', left, right, last, i - 1, t, l);
    }
  }

  lemma NextPartition(m: seq<int>, m': seq<int>, left: int, right: int, last: int, i: int, t: seq<int>, l: int)
    requires 0 <= left <= last <= i <= right < |m| && Outside(m, m', left, right)
    requires Partitioned(m', m[left..right + 1], left, last, i) && forall k :: i <= k <= right ==> m'[k] == m[k]
    requires (t, l) == Turn(m', last, i)
    ensures l <= right && Partitioned(t, m[left..right + 1], left, l, i + 1) && Outside(m, t, left, right)
    ensures forall k :: i < k <= right ==> t[k] == m[k]
  {
    TurnOutside(m', last, i, left, right);
    PartitionStep(m', m[left..right + 1], left, last, i);
  }

  /** Lines 15-21, for one element. */
  method TakeTurn(a: array<int>, at: int, i: int) returns (last: int)
    requires 0 <= at <= i < a.Length
    modifies a
    ensures (a[..], last) == Turn(old(a[..]), at, i)
  {
    last := at;
    if a[i] < a[last] {
      var tmp := a[i];
      last := last + 1;
      a[i] := a[last];
      a[last] := tmp;
    }
  }

  /** Lines 12-21 leave the minima and then the rest. */
  method Partition(a: array<int>, left: int, right: int) returns (last: int)
    requires 0 <= left < right < a.Length
    modifies a
    ensures left <= last <= right && Outside(old(a[..]), a[..], left, right)
    ensures Partitioned(a[..], old(a[left..right + 1]), left, last, right + 1)
  {
    last := TakeTurns(a, left, right);
    TurnsPartition(old(a[..]), left, right, right + 1);
    assert old(a[..])[left..right + 1] == old(a[left..right + 1]);
  }

  /** The partition loop. */
  method TakeTurns(a: array<int>, left: int, right: int) returns (last: int)
    requires 0 <= left < right < a.Length
    modifies a
    ensures (a[..], last) == Turns(old(a[..]), left, right + 1)
  {
    last := left;
    var i := left;
    while i <= right
      invariant left <= last <= i <= right + 1 && last <= right
      invariant (a[..], last) == Turns(old(a[..]), left, i)
    {
      last := TakeTurn(a, last, i);
      i := i + 1;
    }
  }

  /** Lines 11-24: afterwards the range holds the minima with their ends swapped, then the rest. */
  method Divide(a: array<int>, left: int, right: int) returns (last: int)
    requires 0 <= left < right < a.Length
    modifies a
    ensures left <= last <= right && Outside(old(a[..]), a[..], left, right)
    ensures a[left..last + 1] == SwapEnds(Split(old(a[left..right + 1])).minima)
    ensures a[last + 1..right + 1] == Split(old(a[left..right + 1])).rest
  {
    last := Partition(a, left, right);
    ghost var m := a[..];
    assert m[left..last + 1] == Split(old(a[left..right + 1])).minima && m[last + 1..right + 1] == Split(old(a[left..right + 1])).rest;
    var tmp := a[left];
    a[left] := a[last];
    a[last] := tmp;
    SwappedEnds(m, a[..], left, last, right);
  }

  /** The two recursive calls, told from the partition. */
  lemma SortOnce(s: seq<int>, minima: seq<int>, rest: seq<int>)
    requires |s| >= 2 && Split(s) == Parts(minima, rest)
    ensures Sort(s) == Sort(SwapEnds(minima)) + Sort(rest)
  {
  }

  lemma SwappedEnds(m: seq<int>, m': seq<int>, left: int, last: int, right: int)
    requires 0 <= left <= last <= right < |m| && m' == m[left := m[last]][last := m[left]]
    ensures m'[left..last + 1] == SwapEnds(m[left..last + 1]) && m'[last + 1..right + 1] == m[last + 1..right + 1]
    ensures Outside(m, m', left, right)
  {
  }

  /** qsort terminates on every range and leaves Sort of what it held; nothing else changes. */
  method QSort(a: array<int>, left: int, right: int)
    requires 0 <= left <= right + 1 <= a.Length
    modifies a
    ensures a[left..right + 1] == Sort(old(a[left..right + 1])) && Outside(old(a[..]), a[..], left, right)
    decreases Measure(a[left..right + 1])
  {
    if left >= right { return; }
    ghost var s := a[left..right + 1];
    MeasureFalls(s);
    var last := Divide(a, left, right);
    ghost var m := a[..];
    QSort(a, left, last);
    ghost var m' := a[..];
    SameSlice(m, m', left, last, last + 1, right);
    QSort(a, last + 1, right);
    SameSlice(m', a[..], last + 1, right, left, last);
    SortedPieces(a[..], s, left, last, right);
    OutsideTwice(m, m', a[..], left, last, right);
  }

  lemma SameSlice(m: seq<int>, m': seq<int>, left: int, right: int, x: int, y: int)
    requires Outside(m, m', left, right) && 0 <= x <= y + 1 <= |m| && (y < left || right < x)
    ensures m[x..y + 1] == m'[x..y + 1]
  {
  }

  lemma SortedPieces(m: seq<int>, s: seq<int>, left: int, last: int, right: int)
    requires 0 <= left <= last <= right < |m| && |s| >= 2
    requires m[left..last + 1] == Sort(SwapEnds(Split(s).minima)) && m[last + 1..right + 1] == Sort(Split(s).rest)
    ensures m[left..right + 1] == Sort(s)
  {
    Joined(m, left, last, right);
    SortOnce(s, Split(s).minima, Split(s).rest);
  }

  lemma OutsideTwice(m: seq<int>, m': seq<int>, m'': seq<int>, left: int, last: int, right: int)
    requires Outside(m, m', left, last) && Outside(m', m'', last + 1, right) && left <= last <= right
    ensures Outside(m, m'', left, right)
  {
  }

  lemma Joined(m: seq<int>, left: int, last: int, right: int)
    requires 0 <= left <= last <= right < |m|
    ensures m[left..right + 1] == m[left..last + 1] + m[last + 1..right + 1]
  {
  }

  // ---------------------------------------------------------------- what it computes

  /** The result is a permutation of the input. */
  lemma {:induction false} SortPermutes(s: seq<int>)
    ensures multiset(Sort(s)) == multiset(s)
    decreases Measure(s)
  {
    if |s| >= 2 {
      MeasureFalls(s);
      var p := Split(s);
      SortPermutes(SwapEnds(p.minima));
      SortPermutes(p.rest);
      SplitPermutes(s, |s|);
      assert s[..|s|] == s;
      SwapPermutes(p.minima);
    }
  }

  lemma SwapPermutes(s: seq<int>)
    requires s != []
    ensures multiset(SwapEnds(s)) == multiset(s)
  {
  }

  function Reverse(s: seq<int>): (r: seq<int>)
    ensures |r| == |s| && forall i :: 0 <= i < |s| ==> r[i] == s[|s| - 1 - i]
  {
    seq(|s|, i requires 0 <= i < |s| => s[|s| - 1 - i])
  }

  /** A descending sequence is all minima; with its first element moved behind, that one is left over. */
  lemma {:induction false} SplitDescending(s: seq<int>, n: nat)
    requires 0 < n <= |s| && Descending(s[..n])
    ensures SplitTo(s, n) == Parts(s[..n], [])
  {
    if n > 1 {
      assert Descending(s[..n - 1]) by { assert forall i :: 0 <= i < n - 1 ==> s[..n - 1][i] == s[..n][i]; }
      SplitDescending(s, n - 1);
      assert s[..n][n - 2] > s[..n][n - 1];
      assert s[..n] == s[..n - 1] + [s[n - 1]];
    }
  }

  lemma {:induction false} SplitOfMinFirst(s: seq<int>, n: nat)
    requires 0 < n <= |s| && FirstIsMin(s)
    ensures SplitTo(s, n) == Parts([s[0]], s[1..n])
  {
    if n > 1 {
      SplitOfMinFirst(s, n - 1);
      assert s[1..n] == s[1..n - 1] + [s[n - 1]];
    }
  }

  lemma SortMinFirst(s: seq<int>)
    requires |s| >= 1 && FirstIsMin(s)
    ensures Sort(s) == [s[0]] + Sort(s[1..])
  {
    if |s| >= 2 {
      SplitOfMinFirst(s, |s|);
      assert s[1..|s|] == s[1..];
      SortOnce(s, [s[0]], s[1..]);
      assert SwapEnds([s[0]]) == [s[0]];
    }
  }

  predicate AllBelow(s: seq<int>, x: int) {
    forall i :: 0 <= i < |s| ==> s[i] < x
  }

  lemma SortLastIsMax(s: seq<int>, x: int)
    requires s != [] && Descending(s) && AllBelow(s, x)
    ensures Sort(s + [x]) == Sort(SwapEnds(s)) + [x]
  {
    var t := s + [x];
    assert t[..|s|] == s;
    SplitDescending(t, |s|);
    assert Split(t) == Feed(Parts(s, []), x);
    SortOnce(t, s, [x]);
  }

  lemma SwappedPieces(s: seq<int>)
    requires |s| >= 2 && Descending(s)
    ensures SwapEnds(s)[0] == Last(s) && SwapEnds(s)[1..] == s[1..|s| - 1] + [s[0]]
    ensures Descending(s[1..|s| - 1]) && AllBelow(s[1..|s| - 1], s[0])
  {
    var mid := s[1..|s| - 1];
    assert forall i :: 0 <= i < |mid| ==> mid[i] == s[i + 1];
  }

  lemma ReversedPieces(s: seq<int>)
    requires |s| >= 2
    ensures Reverse(s) == [Last(s)] + (Reverse(s[1..|s| - 1]) + [s[0]])
  {
  }

  /** The left part always comes out sorted: the minima, turned round. */
  lemma {:induction false} SortSwapped(s: seq<int>)
    requires s != [] && Descending(s)
    ensures Sort(SwapEnds(s)) == Reverse(s)
    decreases |s|, 0
  {
    if |s| >= 2 {
      SwapPutsMinimumFirst(s);
      SortMinFirst(SwapEnds(s));
      SwappedPieces(s);
      ReversedPieces(s);
      SortTail(s[1..|s| - 1], s[0]);
    }
  }

  lemma {:induction false} SortTail(mid: seq<int>, x: int)
    requires Descending(mid) && AllBelow(mid, x)
    ensures Sort(mid + [x]) == Reverse(mid) + [x]
    decreases |mid|, 1
  {
    if mid == [] {
      assert mid + [x] == [x] && Reverse(mid) == [];
    } else {
      SortLastIsMax(mid, x);
      SortSwapped(mid);
    }
  }

  lemma SortIs(s: seq<int>)
    requires s != []
    ensures Sort(s) == Reverse(Split(s).minima) + Sort(Split(s).rest)
  {
    if |s| >= 2 {
      SplitMinima(s, |s|);
      SortSwapped(Split(s).minima);
    }
  }

  // ---------------------------------------------------------------- when it sorts

  predicate Sorted(s: seq<int>) {
    forall i, j :: 0 <= i < j < |s| ==> s[i] <= s[j]
  }

  /** Every element that is not a new minimum is at least the first one, and so again for those
      elements alone. */
  predicate Sortable(s: seq<int>)
    decreases |s|
  {
    |s| >= 2 ==>
      var rest := Split(s).rest;
      (forall i :: 0 <= i < |rest| ==> s[0] <= rest[i]) && Sortable(rest)
  }

  lemma BoundsPermute(s: seq<int>, t: seq<int>, b: int)
    requires multiset(s) == multiset(t)
    requires forall i :: 0 <= i < |s| ==> b <= s[i]
    ensures forall i :: 0 <= i < |t| ==> b <= t[i]
  {
    forall i | 0 <= i < |t| ensures b <= t[i] {
      assert t[i] in multiset(s);
    }
  }

  lemma SortedJoin(a: seq<int>, b: seq<int>)
    requires a != [] && Sorted(a)
    ensures Sorted(a + b) <==> (forall i :: 0 <= i < |b| ==> Last(a) <= b[i]) && Sorted(b)
  {
    var s := a + b;
    if Sorted(s) {
      forall i, j | 0 <= i < j < |b| ensures b[i] <= b[j] { assert s[|a| + i] == b[i] && s[|a| + j] == b[j]; }
      forall i | 0 <= i < |b| ensures Last(a) <= b[i] { assert s[|a| - 1] == Last(a) && s[|a| + i] == b[i]; }
    }
  }

  /** qsort sorts a range if and only if it is sortable in this sense. */
  lemma {:induction false} SortsExactly(s: seq<int>)
    ensures Sorted(Sort(s)) <==> Sortable(s)
    decreases |s|
  {
    if |s| >= 2 {
      var p := Split(s);
      var left, right := Reverse(p.minima), Sort(p.rest);
      SortIs(s);
      SplitMinima(s, |s|);
      assert Sorted(left) && Last(left) == s[0];
      SortedJoin(left, right);
      SortsExactly(p.rest);
      SortPermutes(p.rest);
      if forall i :: 0 <= i < |right| ==> s[0] <= right[i] { BoundsPermute(right, p.rest, s[0]); }
      if forall i :: 0 <= i < |p.rest| ==> s[0] <= p.rest[i] { BoundsPermute(p.rest, right, s[0]); }
    }
  }

  /** Three locks asked for in the order of ids 3, 1, 2 are taken in the order 1, 3, 2. */
  lemma NotSorted()
    ensures Sort([3, 1, 2]) == [1, 3, 2] && !Sortable([3, 1, 2])
  {
    var s := [3, 1, 2];
    assert SplitTo(s, 1) == Parts([3], []);
    assert SplitTo(s, 2) == Parts([3, 1], []);
    assert SplitTo(s, 3) == Parts([3, 1], [2]);
    SortIs(s);
    assert Reverse([3, 1]) == [1, 3];
  }

  // ---------------------------------------------------------------- the comparison

  /** cmp_lock: the difference of two unsigned 32-bit ids, read as a signed number. */
  function CmpLock(x: int, y: int): int { Int32(x - y) }

  /** It orders ids as numbers if and only if they are less than 2^31 apart. */
  lemma CmpLockOrders(x: int, y: int)
    requires 0 <= x < 0x1_0000_0000 && 0 <= y < 0x1_0000_0000
    ensures (CmpLock(x, y) < 0 <==> x < y) <==> -0x8000_0000 <= x - y < 0x8000_0000
  {
  }
}

/** Choosing which fronting hosts to keep from the probes made of each at startup. */
module Fronting {
  import opened Prelude

  /** One host's probe: its place in the configured list and the latencies measured. */
  datatype ProbeResult = ProbeResult(index: nat, samples: seq<int>) {
    predicate Ok() {
      |samples| > 0
    }
  }

  predicate Ascending(s: seq<int>) {
    forall i, j :: 0 <= i < j < |s| ==> s[i] <= s[j]
  }

  // ---- Sorting and ranks -----------------------------------------------------------------

  /** Puts `v` behind every element that is not larger, from the back. */
  function Insert(s: seq<int>, v: int): (r: seq<int>)
    ensures |r| == |s| + 1
  {
    if |s| == 0 || s[|s| - 1] <= v then s + [v] else Insert(s[..|s| - 1], v) + [s[|s| - 1]]
  }

  lemma {:induction false} InsertPermutes(s: seq<int>, v: int)
    ensures multiset(Insert(s, v)) == multiset(s) + multiset{v}
    decreases |s|
  {
    if |s| > 0 && s[|s| - 1] > v {
      InsertPermutes(s[..|s| - 1], v);
      assert s == s[..|s| - 1] + [s[|s| - 1]];
    }
  }

  lemma {:induction false} InsertAscending(s: seq<int>, v: int)
    requires Ascending(s)
    ensures Ascending(Insert(s, v))
    decreases |s|
  {
    if |s| > 0 && s[|s| - 1] > v {
      var init := s[..|s| - 1];
      InsertAscending(init, v);
      InsertPermutes(init, v);
      NoneAbove(Insert(init, v), multiset(init) + multiset{v}, s[|s| - 1]);
    }
  }

  lemma NoneAbove(r: seq<int>, m: multiset<int>, high: int)
    requires multiset(r) == m && forall x :: x in m ==> x <= high
    ensures forall j :: 0 <= j < |r| ==> r[j] <= high
  {
    assert forall j :: 0 <= j < |r| ==> r[j] in multiset(r);
  }

  /** The elements of `s` in ascending order. */
  function Sorted(s: seq<int>): (r: seq<int>)
    ensures |r| == |s|
  {
    if |s| == 0 then [] else Insert(Sorted(s[..|s| - 1]), s[|s| - 1])
  }

  /** Sorting is what it says: an ascending rearrangement. */
  lemma {:induction false} SortedIsSorted(s: seq<int>)
    ensures Ascending(Sorted(s)) && multiset(Sorted(s)) == multiset(s)
    decreases |s|
  {
    if |s| > 0 {
      var init, last := s[..|s| - 1], s[|s| - 1];
      SortedIsSorted(init);
      InsertAscending(Sorted(init), last);
      InsertPermutes(Sorted(init), last);
      assert s == init + [last];
    }
  }

  function CountAtMost(s: seq<int>, x: int): nat {
    if |s| == 0 then 0
    else CountAtMost(s[..|s| - 1], x) + if s[|s| - 1] <= x then 1 else 0
  }

  lemma {:induction false} CountInsert(s: seq<int>, v: int, x: int)
    ensures CountAtMost(Insert(s, v), x) == CountAtMost(s, x) + if v <= x then 1 else 0
    decreases |s|
  {
    if |s| == 0 || s[|s| - 1] <= v {
      assert (s + [v])[..|s|] == s;
    } else {
      var init := s[..|s| - 1];
      CountInsert(init, v, x);
      assert Insert(s, v)[..|s|] == Insert(init, v);
    }
  }

  lemma {:induction false} CountAppend(a: seq<int>, b: seq<int>, x: int)
    ensures CountAtMost(a + b, x) == CountAtMost(a, x) + CountAtMost(b, x)
    decreases |b|
  {
    if |b| == 0 {
      assert a + b == a;
    } else {
      assert (a + b)[..|a + b| - 1] == a + b[..|b| - 1];
      CountAppend(a, b[..|b| - 1], x);
    }
  }

  lemma {:induction false} CountSorted(s: seq<int>, x: int)
    ensures CountAtMost(Sorted(s), x) == CountAtMost(s, x)
    decreases |s|
  {
    if |s| > 0 {
      CountSorted(s[..|s| - 1], x);
      CountInsert(Sorted(s[..|s| - 1]), s[|s| - 1], x);
    }
  }

  lemma {:induction false} CountAll(s: seq<int>, x: int)
    requires forall i :: 0 <= i < |s| ==> s[i] <= x
    ensures CountAtMost(s, x) == |s|
    decreases |s|
  {
    if |s| > 0 {
      CountAll(s[..|s| - 1], x);
    }
  }

  function MiddleOf(s: seq<int>): int
    requires |s| > 0
  {
    Sorted(s)[|s| / 2]
  }

  /** The counting is of places. */
  lemma {:induction false} CountIs(s: seq<int>, x: int)
    ensures CountAtMost(s, x) == |set i | 0 <= i < |s| && s[i] <= x|
    decreases |s|
  {
    var places := set i | 0 <= i < |s| && s[i] <= x;
    if |s| == 0 {
      assert places == {};
    } else {
      var n := |s| - 1;
      CountIs(s[..n], x);
      var before := set i | 0 <= i < |s[..n]| && s[..n][i] <= x;
      assert places == before + if s[n] <= x then {n} else {};
    }
  }

  /** The middle element is one of the values: more than half of them are no larger, and no more
      than half are smaller. */
  lemma MiddleRank(s: seq<int>)
    requires |s| > 0
    ensures var m := MiddleOf(s);
            && m in s && |set i | 0 <= i < |s| && s[i] < m| <= |s| / 2 < |set i | 0 <= i < |s| && s[i] <= m|
  {
    hide Sorted, CountAtMost, Insert;
    var m := MiddleOf(s);
    SortedIsSorted(s);
    CountSorted(s, m);
    CountSorted(s, m - 1);
    MiddleIn(s);
    FirstAreNoLarger(Sorted(s), |s| / 2);
    LastAreNoSmaller(Sorted(s), |s| / 2);
    CountIs(s, m);
    CountIs(s, m - 1);
    assert (set i | 0 <= i < |s| && s[i] < m) == (set i | 0 <= i < |s| && s[i] <= m - 1);
  }

  lemma MiddleIn(s: seq<int>)
    requires |s| > 0
    ensures MiddleOf(s) in s
  {
    hide Sorted;
    SortedIsSorted(s);
    assert Sorted(s)[|s| / 2] in multiset(Sorted(s));
  }

  lemma FirstAreNoLarger(r: seq<int>, m: nat)
    requires Ascending(r) && m < |r|
    ensures CountAtMost(r, r[m]) > m
  {
    hide CountAtMost;
    assert r == r[..m + 1] + r[m + 1..];
    CountAppend(r[..m + 1], r[m + 1..], r[m]);
    CountAll(r[..m + 1], r[m]);
  }

  lemma LastAreNoSmaller(r: seq<int>, m: nat)
    requires Ascending(r) && m < |r|
    ensures CountAtMost(r, r[m] - 1) <= m
  {
    hide CountAtMost;
    assert r == r[..m] + r[m..];
    CountAppend(r[..m], r[m..], r[m] - 1);
    CountNone(r[m..], r[m] - 1);
    CountShorter(r[..m], r[m] - 1);
  }

  lemma {:induction false} CountNone(s: seq<int>, x: int)
    requires forall i :: 0 <= i < |s| ==> s[i] > x
    ensures CountAtMost(s, x) == 0
    decreases |s|
  {
    if |s| > 0 {
      CountNone(s[..|s| - 1], x);
    }
  }

  lemma CountShorter(s: seq<int>, x: int)
    ensures CountAtMost(s, x) <= |s|
  {
  }

  /** An in-place sort of a copy. */
  method Sort(s: seq<int>) returns (a: array<int>)
    ensures fresh(a) && a[..] == Sorted(s)
  {
    a := new int[|s|](i requires 0 <= i < |s| => s[i]);
    assert a[..0] == Sorted(s[..0]) == [];
    var n := 0;
    while n < a.Length
      invariant n <= a.Length && a[..n] == Sorted(s[..n]) && forall j :: n <= j < a.Length ==> a[j] == s[j]
    {
      SortedNext(s, n);
      SiftDown(a, n);
      n := n + 1;
    }
    assert s[..n] == s && a[..n] == a[..];
  }

  lemma SortedNext(s: seq<int>, n: nat)
    requires n < |s|
    ensures Sorted(s[..n + 1]) == Insert(Sorted(s[..n]), s[n])
  {
    hide Insert;
    assert s[..n + 1][..n] == s[..n];
  }

  /** Moves `a[n]` down past the larger elements before it. */
  method SiftDown(a: array<int>, n: nat)
    requires n < a.Length
    modifies a
    ensures a[..n + 1] == Insert(old(a[..n]), old(a[n]))
    ensures forall j :: n < j < a.Length ==> a[j] == old(a[j])
  {
    hide Insert;
    ghost var before, v := a[..n], a[n];
    var i := n;
    InsertDone(before, v, n);
    while i > 0 && a[i] < a[i - 1]
      invariant i <= n && a[i] == v
      invariant forall j :: 0 <= j < i ==> a[j] == before[j]
      invariant forall j :: i < j <= n ==> a[j] == before[j - 1]
      invariant forall j :: n < j < a.Length ==> a[j] == old(a[j])
      invariant Insert(before, v) == Insert(before[..i], v) + before[i..]
    {
      InsertStep(before, v, i);
      a[i], a[i - 1] := a[i - 1], a[i];
      i := i - 1;
    }
    InsertHere(before[..i], v);
    assert a[..n + 1] == before[..i] + [v] + before[i..];
  }

  lemma InsertDone(s: seq<int>, v: int, n: nat)
    requires n == |s|
    ensures Insert(s, v) == Insert(s[..n], v) + s[n..]
  {
    hide Insert;
    assert s[..n] == s && s[n..] == [];
  }

  lemma InsertStep(s: seq<int>, v: int, i: nat)
    requires 0 < i <= |s| && v < s[i - 1]
    ensures Insert(s[..i], v) + s[i..] == Insert(s[..i - 1], v) + s[i - 1..]
  {
    assert s[..i][..i - 1] == s[..i - 1];
    assert s[i - 1..] == [s[i - 1]] + s[i..];
    Assoc(Insert(s[..i - 1], v), [s[i - 1]], s[i..]);
  }

  lemma InsertHere(s: seq<int>, v: int)
    requires |s| > 0 ==> s[|s| - 1] <= v
    ensures Insert(s, v) == s + [v]
  {
  }

  // ---- The choice ---------------------------------------------------------------------------

  /** A host's latency: the middle of its samples. */
  function LatencyOf(r: ProbeResult): int {
    if !r.Ok() then 0 else MiddleOf(r.samples)
  }

  function Successes(results: seq<ProbeResult>): seq<ProbeResult> {
    if |results| == 0 then []
    else
      var last := results[|results| - 1];
      Successes(results[..|results| - 1]) + if last.Ok() then [last] else []
  }

  function Latencies(results: seq<ProbeResult>): (l: seq<int>)
    ensures |l| == |results|
  {
    seq(|results|, i requires 0 <= i < |results| => LatencyOf(results[i]))
  }

  function Indexes(results: seq<ProbeResult>): (l: seq<nat>)
    ensures |l| == |results|
  {
    seq(|results|, i requires 0 <= i < |results| => results[i].index)
  }

  /** The hosts within a latency bound, in their order. */
  function Within(results: seq<ProbeResult>, bound: int): seq<nat> {
    if |results| == 0 then []
    else
      var last := results[|results| - 1];
      Within(results[..|results| - 1], bound) + if LatencyOf(last) <= bound then [last.index] else []
  }

  function Chosen(results: seq<ProbeResult>): seq<nat> {
    var ok := Successes(results);
    if |results| <= 1 || |ok| == 0 then seq(|results|, i => i)
    else if |ok| == 1 then [ok[0].index]
    else
      var median := MiddleOf(Latencies(ok));
      var kept := Within(ok, 3 * median);
      if |ok| <= 2 || median <= 0 || |kept| < 2 then Indexes(ok) else kept
  }

  method Latency(r: ProbeResult) returns (l: int)
    ensures l == LatencyOf(r)
    ensures |r.samples| == 0 ==> l == 0
    ensures |r.samples| > 0 ==>
              && l in r.samples
              && |set i | 0 <= i < |r.samples| && r.samples[i] < l| <= |r.samples| / 2
              && |r.samples| / 2 < |set i | 0 <= i < |r.samples| && r.samples[i] <= l|
  {
    hide Sorted;
    if |r.samples| == 0 {
      return 0;
    }
    var sorted := Sort(r.samples);
    l := sorted[sorted.Length / 2];
    MiddleRank(r.samples);
  }

  method IndexesForResults(results: seq<ProbeResult>) returns (indexes: seq<nat>)
    ensures indexes == Indexes(results)
    ensures |indexes| == |results| && forall j :: 0 <= j < |results| ==> indexes[j] == results[j].index
  {
    indexes := [];
    for i := 0 to |results|
      invariant |indexes| == i && forall j :: 0 <= j < i ==> indexes[j] == results[j].index
    {
      indexes := indexes + [results[i].index];
    }
  }

  method AllIndexes(n: nat) returns (indexes: seq<nat>)
    ensures indexes == seq(n, i => i)
  {
    indexes := [];
    for i := 0 to n
      invariant |indexes| == i && forall j :: 0 <= j < i ==> indexes[j] == j
    {
      indexes := indexes + [i];
    }
  }

  method CollectSuccesses(results: seq<ProbeResult>) returns (successes: seq<ProbeResult>)
    ensures successes == Successes(results)
  {
    successes := [];
    for i := 0 to |results|
      invariant successes == Successes(results[..i])
    {
      assert results[..i + 1][..i] == results[..i];
      if results[i].Ok() {
        successes := successes + [results[i]];
      }
    }
    assert results[..|results|] == results;
  }

  method CollectLatencies(successes: seq<ProbeResult>) returns (latencies: seq<int>)
    ensures latencies == Latencies(successes)
    ensures |latencies| == |successes| && forall j :: 0 <= j < |latencies| ==> latencies[j] == LatencyOf(successes[j])
  {
    latencies := [];
    for i := 0 to |successes|
      invariant |latencies| == i && forall j :: 0 <= j < i ==> latencies[j] == LatencyOf(successes[j])
    {
      var l := Latency(successes[i]);
      latencies := latencies + [l];
    }
  }

  method KeepWithin(successes: seq<ProbeResult>, threshold: int) returns (kept: seq<nat>)
    ensures kept == Within(successes, threshold)
  {
    kept := [];
    for i := 0 to |successes|
      invariant kept == Within(successes[..i], threshold)
    {
      assert successes[..i + 1][..i] == successes[..i];
      var l := Latency(successes[i]);
      if l <= threshold {
        kept := kept + [successes[i].index];
      }
    }
    assert successes[..|successes|] == successes;
  }

  method SelectIndexes(results: seq<ProbeResult>) returns (keep: seq<nat>)
    ensures keep == Chosen(results)
  {
    if |results| <= 1 {
      keep := AllIndexes(|results|);
      return;
    }
    var successes := CollectSuccesses(results);
    if |successes| == 0 {
      keep := AllIndexes(|results|);
      return;
    }
    if |successes| == 1 {
      return [successes[0].index];
    }
    var latencies := CollectLatencies(successes);
    var sorted := Sort(latencies);
    var median := sorted[sorted.Length / 2];
    if |successes| <= 2 || median <= 0 {
      keep := IndexesForResults(successes);
      return;
    }
    keep := KeepWithin(successes, 3 * median);
    if |keep| < 2 {
      keep := IndexesForResults(successes);
    }
  }

  // ---- What the choice guarantees --------------------------------------------------------------

  lemma {:induction false} WithinCount(results: seq<ProbeResult>, bound: int)
    ensures |Within(results, bound)| == CountAtMost(Latencies(results), bound)
    decreases |results|
  {
    if |results| > 0 {
      WithinCount(results[..|results| - 1], bound);
      assert Latencies(results)[..|results| - 1] == Latencies(results[..|results| - 1]);
    }
  }

  lemma {:induction false} WithinHas(results: seq<ProbeResult>, bound: int, index: nat) returns (r: ProbeResult)
    requires index in Within(results, bound)
    ensures r in results && r.index == index && LatencyOf(r) <= bound
    decreases |results|
  {
    hide LatencyOf;
    var init, last := results[..|results| - 1], results[|results| - 1];
    if index in Within(init, bound) {
      r := WithinHas(init, bound, index);
    } else {
      r := last;
    }
  }

  lemma {:induction false} WithinTakes(results: seq<ProbeResult>, bound: int, k: nat)
    requires k < |results| && LatencyOf(results[k]) <= bound
    ensures results[k].index in Within(results, bound)
    decreases |results|
  {
    hide LatencyOf;
    if k < |results| - 1 {
      WithinTakes(results[..|results| - 1], bound, k);
    }
  }

  /** Exactly the hosts within the bound are kept. */
  lemma WithinIff(results: seq<ProbeResult>, bound: int, index: nat)
    ensures index in Within(results, bound)
       <==> exists r :: r in results && r.index == index && LatencyOf(r) <= bound
  {
    hide Within, LatencyOf;
    if index in Within(results, bound) {
      var r := WithinHas(results, bound, index);
    }
    if r :| r in results && r.index == index && LatencyOf(r) <= bound {
      var k :| 0 <= k < |results| && results[k] == r;
      WithinTakes(results, bound, k);
    }
  }

  lemma {:induction false} SuccessesIff(results: seq<ProbeResult>, r: ProbeResult)
    ensures r in Successes(results) <==> r in results && |r.samples| > 0
    decreases |results|
  {
    if |results| > 0 {
      var init, last := results[..|results| - 1], results[|results| - 1];
      SuccessesIff(init, r);
      assert results == init + [last];
    }
  }

  /** The successes are those with a sample, each as often as it occurs, in their order. */
  lemma {:induction false} SuccessesSplit(a: seq<ProbeResult>, b: seq<ProbeResult>, r: ProbeResult)
    ensures Successes(a + b) == Successes(a) + Successes(b)
    ensures Successes([r]) == if |r.samples| > 0 then [r] else []
    decreases |b|
  {
    assert [r][..0] == [];
    if |b| == 0 {
      assert a + b == a;
    } else {
      assert (a + b)[..|a + b| - 1] == a + b[..|b| - 1];
      SuccessesSplit(a, b[..|b| - 1], r);
    }
  }

  /** The kept are those within the bound, in their order. */
  lemma {:induction false} WithinSplit(a: seq<ProbeResult>, b: seq<ProbeResult>, bound: int, r: ProbeResult)
    ensures Within(a + b, bound) == Within(a, bound) + Within(b, bound)
    ensures Within([r], bound) == if LatencyOf(r) <= bound then [r.index] else []
    decreases |b|
  {
    hide LatencyOf;
    assert [r][..0] == [];
    if |b| == 0 {
      assert a + b == a;
    } else {
      assert (a + b)[..|a + b| - 1] == a + b[..|b| - 1];
      WithinSplit(a, b[..|b| - 1], bound, r);
    }
  }

  lemma CountMonotone(s: seq<int>, x: int, y: int)
    requires x <= y
    ensures CountAtMost(s, x) <= CountAtMost(s, y)
  {
  }

  /** With at least three successes and a median above zero, strictly more than half of the
      successful hosts are kept, so at least two, and the fallback for fewer is never taken. */
  lemma MostAreKept(results: seq<ProbeResult>)
    ensures var ok := Successes(results);
            |ok| >= 3 && MiddleOf(Latencies(ok)) > 0 ==>
              && Chosen(results) == Within(ok, 3 * MiddleOf(Latencies(ok)))
              && 2 * |Chosen(results)| > |ok| && |Chosen(results)| >= 2
  {
    hide Successes, Within, MiddleOf, CountAtMost;
    var ok := Successes(results);
    var ls := Latencies(ok);
    SuccessesShorter(results);
    if |ok| > 0 {
      MiddleRank(ls);
      CountIs(ls, MiddleOf(ls));
      WithinCount(ok, 3 * MiddleOf(ls));
      if MiddleOf(ls) > 0 {
        CountMonotone(ls, MiddleOf(ls), 3 * MiddleOf(ls));
      }
    }
  }

  /** Otherwise none is dropped: all successful hosts are kept in their order, and every host
      when there is only one or none succeeded. */
  lemma NoneDropped(results: seq<ProbeResult>)
    ensures |results| <= 1 || (forall r :: r in results ==> |r.samples| == 0) ==>
              |Chosen(results)| == |results| && forall i :: 0 <= i < |results| ==> Chosen(results)[i] == i
    ensures var ok := Successes(results);
            |results| > 1 && |ok| > 0 && (|ok| <= 2 || MiddleOf(Latencies(ok)) <= 0) ==>
              |Chosen(results)| == |ok| && forall i :: 0 <= i < |ok| ==> Chosen(results)[i] == ok[i].index
  {
    hide Successes, Within, MiddleOf;
    var ok := Successes(results);
    if forall r :: r in results ==> |r.samples| == 0 {
      if |ok| > 0 {
        SuccessesIff(results, ok[0]);
      }
    }
  }

  /** Kept are then exactly the successful hosts no slower than three times the median. */
  lemma KeptIffFast(results: seq<ProbeResult>, index: nat)
    ensures var ok := Successes(results);
            |ok| >= 3 && MiddleOf(Latencies(ok)) > 0 ==>
              (index in Chosen(results) <==>
               exists r :: r in results && |r.samples| > 0 && r.index == index
                           && LatencyOf(r) <= 3 * MiddleOf(Latencies(ok)))
  {
    hide Successes, Within, Chosen, MiddleOf, LatencyOf;
    MostAreKept(results);
    var ok := Successes(results);
    if |ok| > 0 {
      WithinIff(ok, 3 * MiddleOf(Latencies(ok)), index);
      forall r ensures r in ok <==> r in results && |r.samples| > 0 {
        SuccessesIff(results, r);
      }
    }
  }

  /** Every fastest host is kept. */
  lemma FastestAreKept(results: seq<ProbeResult>, r: ProbeResult)
    requires r in results && |r.samples| > 0
    requires forall q :: q in results && |q.samples| > 0 ==> LatencyOf(r) <= LatencyOf(q)
    ensures r.index in Chosen(results) || |results| <= 1
  {
    hide Successes, Within, Chosen, MiddleOf, LatencyOf;
    var ok := Successes(results);
    SuccessesIff(results, r);
    NoneDropped(results);
    var ls := Latencies(ok);
    if |ok| >= 3 && MiddleOf(ls) > 0 {
      MiddleRank(ls);
      var k :| 0 <= k < |ls| && ls[k] == MiddleOf(ls);
      SuccessesIff(results, ok[k]);
      KeptIffFast(results, r.index);
    }
  }

  lemma SuccessesShorter(results: seq<ProbeResult>)
    ensures |Successes(results)| <= |results|
  {
  }

  /** No host that failed its probes is kept while any succeeded. */
  lemma OnlySuccessesKept(results: seq<ProbeResult>, index: nat)
    requires |results| > 1
    ensures index in Chosen(results) && (exists q :: q in results && |q.samples| > 0) ==>
              exists r :: r in results && |r.samples| > 0 && r.index == index
  {
    hide Within, MiddleOf, LatencyOf;
    if q :| q in results && |q.samples| > 0 {
      SuccessesIff(results, q);
    }
    var ok := Successes(results);
    if |ok| > 0 && index in Chosen(results) {
      WithinIff(ok, 3 * MiddleOf(Latencies(ok)), index);
      var r :| r in ok && r.index == index;
      SuccessesIff(results, r);
    }
  }
}

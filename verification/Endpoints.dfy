/** Choosing a relay endpoint: a round-robin cursor over the endpoints in rotation, and per
    account bucket a semaphore for standing (idle) polls. */
module Endpoints {
  import opened Prelude
  import opened Sessions
  import opened Blacklists

  // ---- Round robin on values -----------------------------------------------------------

  /** The indices in `[lo, hi)` that are in rotation, ascending. */
  function Open(ok: seq<bool>, lo: nat, hi: nat): seq<nat>
    requires lo <= hi <= |ok|
    decreases hi - lo
  {
    if lo == hi then [] else (if ok[lo] then [lo] else []) + Open(ok, lo + 1, hi)
  }

  /** Every index in rotation, in the order a scan from `start` meets them. */
  function Ring(ok: seq<bool>, start: nat): seq<nat>
    requires start <= |ok|
  {
    Open(ok, start, |ok|) + Open(ok, 0, start)
  }

  /** The first index in rotation at or after the cursor, wrapping round. */
  function Pick(ok: seq<bool>, cursor: nat): Option<nat> {
    if |ok| == 0 then None
    else var ring := Ring(ok, cursor % |ok|); if |ring| == 0 then None else Some(ring[0])
  }

  function NextCursor(ok: seq<bool>, cursor: nat): nat {
    match Pick(ok, cursor) case None => cursor case Some(i) => if |ok| == 0 then cursor else (i + 1) % |ok|
  }

  function Picks(ok: seq<bool>, cursor: nat, m: nat): seq<Option<nat>>
    decreases m
  {
    if m == 0 then [] else [Pick(ok, cursor)] + Picks(ok, NextCursor(ok, cursor), m - 1)
  }

  lemma {:induction false} OpenSplit(ok: seq<bool>, lo: nat, mid: nat, hi: nat)
    requires lo <= mid <= hi <= |ok|
    ensures Open(ok, lo, hi) == Open(ok, lo, mid) + Open(ok, mid, hi)
    decreases mid - lo
  {
    if lo < mid {
      OpenSplit(ok, lo + 1, mid, hi);
      Assoc(if ok[lo] then [lo] else [], Open(ok, lo + 1, mid), Open(ok, mid, hi));
    }
  }

  lemma {:induction false} OpenMembers(ok: seq<bool>, lo: nat, hi: nat)
    requires lo <= hi <= |ok|
    ensures forall x :: x in Open(ok, lo, hi) <==> lo <= x < hi && ok[x]
    ensures forall i, j :: 0 <= i < j < |Open(ok, lo, hi)| ==> Open(ok, lo, hi)[i] < Open(ok, lo, hi)[j]
    decreases hi - lo
  {
    if lo < hi {
      OpenMembers(ok, lo + 1, hi);
      var rest := Open(ok, lo + 1, hi);
      assert forall i :: 0 <= i < |rest| ==> rest[i] in rest;
    }
  }

  /** What comes first in a non-empty range: everything before it is out of rotation. */
  lemma {:induction false} OpenHead(ok: seq<bool>, lo: nat, hi: nat)
    requires lo <= hi <= |ok| && |Open(ok, lo, hi)| > 0
    ensures var p := Open(ok, lo, hi)[0];
            lo <= p < hi && ok[p] && Open(ok, lo, p) == [] && Open(ok, lo, hi) == [p] + Open(ok, p + 1, hi)
    decreases hi - lo
  {
    if !ok[lo] {
      OpenHead(ok, lo + 1, hi);
    }
  }

  lemma OneOpen(ok: seq<bool>, p: nat)
    requires p < |ok| && ok[p]
    ensures Open(ok, p, p + 1) == [p]
  {
    assert Open(ok, p + 1, p + 1) == [];
  }

  lemma Wrap(p: nat, n: nat)
    requires p < 2 * n
    ensures p % n == if p < n then p else p - n
  {
    DivIs(p, n, if p < n then 0 else 1);
  }

  /** The scan order after picking `p` from a scan that began at `start`. */
  lemma RingAfter(ok: seq<bool>, p: nat)
    requires p < |ok| && ok[p]
    ensures Ring(ok, (p + 1) % |ok|) == Open(ok, p + 1, |ok|) + Open(ok, 0, p) + [p]
  {
    Wrap(p + 1, |ok|);
    OpenSplit(ok, 0, p, p + 1);
    OneOpen(ok, p);
    if p + 1 < |ok| {
      Assoc(Open(ok, p + 1, |ok|), Open(ok, 0, p), [p]);
    }
  }

  /** After a pick the scan order is the old one turned by one. */
  lemma RingTurns(ok: seq<bool>, start: nat)
    requires start < |ok| && |Ring(ok, start)| > 0
    ensures var ring, p := Ring(ok, start), Ring(ok, start)[0];
            p < |ok| && ok[p] && Ring(ok, (p + 1) % |ok|) == ring[1..] + [p]
  {
    var n, p := |ok|, Ring(ok, start)[0];
    if |Open(ok, start, n)| > 0 {
      OpenHead(ok, start, n);
      OpenSplit(ok, 0, start, p);
      assert Open(ok, 0, p) == Open(ok, 0, start);
      TailAfterHead(p, Open(ok, p + 1, n), Open(ok, 0, start));
    } else {
      OpenHead(ok, 0, start);
      OpenSplit(ok, p + 1, start, n);
      assert Open(ok, p + 1, n) + Open(ok, 0, p) == Open(ok, p + 1, start);
      TailAfterHead(p, Open(ok, p + 1, start), []);
    }
    RingAfter(ok, p);
  }

  lemma TailAfterHead(p: nat, a: seq<nat>, b: seq<nat>)
    ensures ([p] + a + b)[1..] == a + b
  {
  }

  lemma {:induction false} PicksFollowRing(ok: seq<bool>, cursor: nat, m: nat)
    requires |ok| > 0 && m <= |Ring(ok, cursor % |ok|)|
    ensures |Picks(ok, cursor, m)| == m
    ensures forall i :: 0 <= i < m ==> Picks(ok, cursor, m)[i] == Some(Ring(ok, cursor % |ok|)[i])
    decreases m
  {
    if m > 0 {
      var ring, next := Ring(ok, cursor % |ok|), NextCursor(ok, cursor);
      RingTurns(ok, cursor % |ok|);
      assert next < |ok| && next % |ok| == next by { Wrap(next, |ok|); }
      var turned := Ring(ok, next);
      PicksFollowRing(ok, next, m - 1);
      forall i | 0 <= i < m ensures Picks(ok, cursor, m)[i] == Some(ring[i]) {
        if i > 0 {
          assert turned[i - 1] == ring[1..][i - 1];
        }
      }
    }
  }

  function InRotation(ok: seq<bool>): set<nat> {
    set i | 0 <= i < |ok| && ok[i]
  }

  lemma RingMembers(ok: seq<bool>, start: nat)
    requires start <= |ok|
    ensures forall x :: x in Ring(ok, start) <==> x in InRotation(ok)
    ensures forall i, j :: 0 <= i < j < |Ring(ok, start)| ==> Ring(ok, start)[i] != Ring(ok, start)[j]
    ensures |Ring(ok, start)| == |InRotation(ok)|
  {
    OpenMembers(ok, start, |ok|);
    OpenMembers(ok, 0, start);
    var a, b := Open(ok, start, |ok|), Open(ok, 0, start);
    assert forall i :: 0 <= i < |a| ==> a[i] in a;
    assert forall i :: 0 <= i < |b| ==> b[i] in b;
    DistinctCount(Ring(ok, start), InRotation(ok));
  }

  lemma {:induction false} DistinctCount(s: seq<nat>, members: set<nat>)
    requires forall x :: x in s <==> x in members
    requires forall i, j :: 0 <= i < j < |s| ==> s[i] != s[j]
    ensures |s| == |members|
    decreases |s|
  {
    if |s| == 0 {
      assert members == {};
    } else {
      assert forall x :: x in s[1..] <==> x in members - {s[0]};
      DistinctCount(s[1..], members - {s[0]});
    }
  }

  /** Fairness: while the endpoints in rotation stay the same k >= 1, any k picks in a row,
      from any cursor, return each of them exactly once; with none, every pick fails. */
  lemma RoundRobinIsFair(ok: seq<bool>, cursor: nat)
    ensures Pick(ok, cursor).None? <==> InRotation(ok) == {}
    ensures var picks := Picks(ok, cursor, |InRotation(ok)|);
            && |picks| == |InRotation(ok)|
            && (forall i, j :: 0 <= i < j < |picks| ==> picks[i] != picks[j])
            && (forall x :: x in InRotation(ok) <==> Some(x) in picks)
  {
    if |ok| > 0 {
      var ring := Ring(ok, cursor % |ok|);
      RingMembers(ok, cursor % |ok|);
      PicksFollowRing(ok, cursor, |ring|);
      assert |ring| > 0 ==> ring[0] in ring;
    } else {
      assert InRotation(ok) == {};
    }
  }

  // ---- Idle slots on values -----------------------------------------------------------------

  /** Which bucket each endpoint is in, the slots per bucket, the slots taken, the cursor. */
  datatype Slots = Slots(buckets: seq<string>, cap: int, count: map<string, int>, next: nat)

  function CountOf(count: map<string, int>, b: string): int {
    if b in count then count[b] else 0
  }

  /** In rotation for an idle poll: not blacklisted, and a slot free in its bucket. */
  function WithSlot(s: Slots, ok: seq<bool>): seq<bool>
    requires |ok| == |s.buckets|
  {
    seq(|ok|, i requires 0 <= i < |ok| => ok[i] && CountOf(s.count, s.buckets[i]) < s.cap)
  }

  function PickIdle(s: Slots, ok: seq<bool>): (r: (Slots, Option<nat>))
    requires |ok| == |s.buckets|
    ensures r.1.Some? ==> r.1.value < |ok| && WithSlot(s, ok)[r.1.value]
  {
    var free := WithSlot(s, ok);
    match Pick(free, s.next)
    case None => (s, None)
    case Some(i) =>
      PickInRange(free, s.next);
      var b := s.buckets[i];
      (s.(count := s.count[b := CountOf(s.count, b) + 1], next := (i + 1) % |ok|), Some(i))
  }

  lemma PickInRange(ok: seq<bool>, cursor: nat)
    ensures Pick(ok, cursor).Some? ==> Pick(ok, cursor).value < |ok| && ok[Pick(ok, cursor).value]
  {
    if |ok| > 0 {
      var ring := Ring(ok, cursor % |ok|);
      RingMembers(ok, cursor % |ok|);
      assert |ring| > 0 ==> ring[0] in ring;
    }
  }

  function ReleaseSlot(s: Slots, idx: int): Slots {
    if idx < 0 || idx >= |s.buckets| then s
    else
      var b := s.buckets[idx];
      if CountOf(s.count, b) > 0 then s.(count := s.count[b := CountOf(s.count, b) - 1]) else s
  }

  // ---- Every interleaving of polls ------------------------------------------------------------

  type Worker = nat

  /** `held` (history) says which endpoint each standing poll reserved a slot for. */
  datatype Standing = Standing(slots: Slots, held: map<Worker, nat>)

  /** Blacklisting may change between any two picks: `ok` is what this pick sees. A same-poll
      failover is a `Return` followed by a `Reserve`. */
  datatype Event = Reserve(w: Worker, ok: seq<bool>) | Return(w: Worker)

  predicate Can(s: Standing, e: Event) {
    match e
    case Reserve(w, ok) => w !in s.held && |ok| == |s.slots.buckets|
    case Return(w) => w in s.held
  }

  function Step(s: Standing, e: Event): Standing
    requires Can(s, e)
  {
    match e
    case Reserve(w, ok) =>
      (match PickIdle(s.slots, ok)
       case (slots, None) => s.(slots := slots)
       case (slots, Some(i)) => Standing(slots, s.held[w := i]))
    case Return(w) => Standing(ReleaseSlot(s.slots, s.held[w]), s.held - {w})
  }

  ghost function HoldersOf(s: Standing, bs: set<string>): set<Worker> {
    set w | w in s.held && s.held[w] < |s.slots.buckets| && s.slots.buckets[s.held[w]] in bs
  }

  /** Each bucket's counter is the number of polls holding a slot in it, and within the cap. */
  ghost predicate SlotInv(s: Standing) {
    && s.slots.cap >= 0
    && (forall w :: w in s.held ==> s.held[w] < |s.slots.buckets|)
    && (forall b :: CountOf(s.slots.count, b) == |HoldersOf(s, {b})| <= s.slots.cap)
  }

  lemma ReserveHolders(s: Standing, w: Worker, ok: seq<bool>, b: string)
    requires SlotInv(s) && Can(s, Reserve(w, ok))
    ensures var s' := Step(s, Reserve(w, ok));
            CountOf(s'.slots.count, b) == |HoldersOf(s', {b})| <= s.slots.cap
  {
    var s' := Step(s, Reserve(w, ok));
    var r := PickIdle(s.slots, ok);
    assert CountOf(s.slots.count, b) == |HoldersOf(s, {b})| <= s.slots.cap;
    if r.1.Some? && s.slots.buckets[r.1.value] == b {
      assert HoldersOf(s', {b}) == HoldersOf(s, {b}) + {w};
    } else {
      assert HoldersOf(s', {b}) == HoldersOf(s, {b});
    }
  }

  lemma ReturnHolders(s: Standing, w: Worker, b: string)
    requires SlotInv(s) && Can(s, Return(w))
    ensures var s' := Step(s, Return(w));
            CountOf(s'.slots.count, b) == |HoldersOf(s', {b})| <= s.slots.cap
  {
    var s' := Step(s, Return(w));
    assert CountOf(s.slots.count, b) == |HoldersOf(s, {b})| <= s.slots.cap;
    if s.slots.buckets[s.held[w]] == b {
      assert w in HoldersOf(s, {b});
      assert HoldersOf(s', {b}) == HoldersOf(s, {b}) - {w};
    } else {
      assert HoldersOf(s', {b}) == HoldersOf(s, {b});
    }
  }

  lemma StepSlots(s: Standing, e: Event)
    requires SlotInv(s) && Can(s, e)
    ensures SlotInv(Step(s, e)) && Step(s, e).slots.buckets == s.slots.buckets && Step(s, e).slots.cap == s.slots.cap
  {
    forall b ensures CountOf(Step(s, e).slots.count, b) == |HoldersOf(Step(s, e), {b})| <= s.slots.cap {
      match e
      case Reserve(w, ok) => ReserveHolders(s, w, ok, b);
      case Return(w) => ReturnHolders(s, w, b);
    }
  }

  ghost predicate Run(s: Standing, es: seq<Event>)
    decreases |es|
  {
    |es| > 0 ==> Can(s, es[0]) && Run(Step(s, es[0]), es[1..])
  }

  ghost function End(s: Standing, es: seq<Event>): Standing
    requires Run(s, es)
    decreases |es|
  {
    if |es| == 0 then s else End(Step(s, es[0]), es[1..])
  }

  lemma {:induction false} RunSlots(s: Standing, es: seq<Event>)
    requires SlotInv(s) && Run(s, es)
    ensures SlotInv(End(s, es)) && End(s, es).slots.buckets == s.slots.buckets && End(s, es).slots.cap == s.slots.cap
    decreases |es|
  {
    if |es| > 0 {
      StepSlots(s, es[0]);
      RunSlots(Step(s, es[0]), es[1..]);
    }
  }

  lemma HoldersSplit(s: Standing, bs: set<string>, b: string)
    requires b in bs
    ensures |HoldersOf(s, bs)| <= |HoldersOf(s, bs - {b})| + |HoldersOf(s, {b})|
  {
    assert HoldersOf(s, bs) == HoldersOf(s, bs - {b}) + HoldersOf(s, {b});
  }

  lemma {:induction false} HoldersBound(s: Standing, bs: set<string>)
    requires SlotInv(s)
    ensures |HoldersOf(s, bs)| <= |bs| * s.slots.cap
    decreases bs
  {
    if bs == {} {
      assert HoldersOf(s, bs) == {};
    } else {
      var b :| b in bs;
      var rest, cap := bs - {b}, s.slots.cap;
      HoldersBound(s, rest);
      HoldersSplit(s, bs, b);
      assert |HoldersOf(s, {b})| <= cap by { assert CountOf(s.slots.count, b) <= cap; }
      assert |bs| == |rest| + 1;
      assert |bs| * cap == |rest| * cap + cap;
    }
  }

  function BucketSet(buckets: seq<string>): set<string> {
    set b | b in buckets
  }

  /** Over every interleaving of polls, failovers and returns, and whatever is blacklisted
      when: counters match the reservations, never exceed the slots, and the standing polls
      number at most buckets times slots. */
  lemma IdleSlotSemaphore(buckets: seq<string>, cap: nat, es: seq<Event>)
    requires Run(Standing(Slots(buckets, cap, map[], 0), map[]), es)
    ensures var s := End(Standing(Slots(buckets, cap, map[], 0), map[]), es);
            && (forall b :: CountOf(s.slots.count, b) == |HoldersOf(s, {b})| <= cap)
            && |s.held| <= |BucketSet(buckets)| * cap
  {
    var s0 := Standing(Slots(buckets, cap, map[], 0), map[]);
    assert forall b :: HoldersOf(s0, {b}) == {};
    RunSlots(s0, es);
    var s := End(s0, es);
    HoldersBound(s, BucketSet(buckets));
    assert HoldersOf(s, BucketSet(buckets)) == s.held.Keys;
  }

  // ---- The code --------------------------------------------------------------------------------

  datatype Endpoint = Endpoint(url: string, bucket: string, health: Health)

  /** The configured slots, two when unset, and at least two when there is one bucket. */
  function ResolveIdleSlots(configured: int, bucketCount: nat): (slots: int)
    ensures slots >= 1 && (bucketCount == 1 ==> slots >= 2)
    ensures configured >= 2 ==> slots == configured
    ensures configured <= 0 ==> slots == 2
    ensures slots <= Max(configured, 2) && (configured == 1 && bucketCount != 1 ==> slots == 1)
  {
    var s := if configured <= 0 then 2 else configured;
    if bucketCount == 1 && s < 2 then 2 else s
  }

  function InService(endpoints: seq<Endpoint>, now: int): seq<bool> {
    seq(|endpoints|, i requires 0 <= i < |endpoints| => !Blacklisted(endpoints[i].health, now))
  }

  function BucketsOf(endpoints: seq<Endpoint>): seq<string> {
    seq(|endpoints|, i requires 0 <= i < |endpoints| => endpoints[i].bucket)
  }

  /** Marks one endpoint, if there is one of that index. */
  function MarkedAt(endpoints: seq<Endpoint>, i: int, m: Mark, now: int): (r: seq<Endpoint>)
    ensures |r| == |endpoints| && BucketsOf(r) == BucketsOf(endpoints)
  {
    if 0 <= i < |endpoints| then
      assert forall k :: 0 <= k < |endpoints| ==>
               endpoints[i := endpoints[i].(health := Marked(endpoints[i].health, m, now))][k].bucket == endpoints[k].bucket;
      endpoints[i := endpoints[i].(health := Marked(endpoints[i].health, m, now))]
    else endpoints
  }

  /** The `i`-th position of a scan that wraps round. */
  function ScanIndex(start: nat, i: nat, n: nat): (idx: nat)
    requires n > 0
    ensures idx < n
  {
    (start + i) % n
  }

  /** The picker's answer: an index, or -1. */
  function IndexOf(pick: Option<nat>): int {
    match pick case None => -1 case Some(i) => i
  }

  lemma ServiceAt(endpoints: seq<Endpoint>, now: int, i: nat)
    requires i < |endpoints|
    ensures InService(endpoints, now)[i] == !Blacklisted(endpoints[i].health, now)
  {
  }

  /** With no pick, every endpoint is out. */
  lemma OutOfService(endpoints: seq<Endpoint>, now: int, cursor: nat)
    ensures Pick(InService(endpoints, now), cursor) == None ==>
              forall i :: 0 <= i < |endpoints| ==>
                endpoints[i].health.blacklistedTill.At? && endpoints[i].health.blacklistedTill.time > now
  {
    hide Pick;
    var ok := InService(endpoints, now);
    RoundRobinIsFair(ok, cursor);
    forall i | Pick(ok, cursor) == None && 0 <= i < |endpoints| ensures Blacklisted(endpoints[i].health, now) {
      assert i !in InRotation(ok);
    }
  }

  /** With no pick for an idle poll, every endpoint is out or its bucket is full. */
  lemma NoneFree(endpoints: seq<Endpoint>, s: Slots, now: int)
    requires s.buckets == BucketsOf(endpoints)
    ensures Pick(WithSlot(s, InService(endpoints, now)), s.next) == None ==>
              forall i :: 0 <= i < |endpoints| ==>
                var b := endpoints[i].bucket;
                || (if b in s.count then s.count[b] else 0) >= s.cap
                || (endpoints[i].health.blacklistedTill.At? && endpoints[i].health.blacklistedTill.time > now)
  {
    hide Pick;
    var free := WithSlot(s, InService(endpoints, now));
    RoundRobinIsFair(free, s.next);
    forall i | Pick(free, s.next) == None && 0 <= i < |endpoints|
      ensures Blacklisted(endpoints[i].health, now) || CountOf(s.count, endpoints[i].bucket) >= s.cap
    {
      FreeAt(endpoints, s, now, i);
      assert i !in InRotation(free);
    }
  }

  lemma CursorAfter(ok: seq<bool>, cursor: nat)
    ensures match Pick(ok, cursor)
            case None => NextCursor(ok, cursor) == cursor
            case Some(i) => |ok| > 0 && NextCursor(ok, cursor) == ScanIndex(i, 1, |ok|)
  {
    hide Pick;
    PickInRange(ok, cursor);
  }

  /** What the scan for an idle poll looks at. */
  lemma FreeAt(endpoints: seq<Endpoint>, s: Slots, now: int, i: nat)
    requires i < |endpoints| && s.buckets == BucketsOf(endpoints)
    ensures WithSlot(s, InService(endpoints, now))[i]
            <==> !Blacklisted(endpoints[i].health, now) && CountOf(s.count, endpoints[i].bucket) < s.cap
  {
  }

  lemma NoneIdle(s: Slots, ok: seq<bool>)
    requires |ok| == |s.buckets|
    ensures Pick(WithSlot(s, ok), s.next) == None ==> PickIdle(s, ok) == (s, None)
  {
    hide Pick, WithSlot;
  }

  lemma FoundIdle(s: Slots, ok: seq<bool>, i: nat)
    requires |ok| == |s.buckets| && i < |ok| && Pick(WithSlot(s, ok), s.next) == Some(i)
    ensures PickIdle(s, ok) ==
            (s.(count := s.count[s.buckets[i] := CountOf(s.count, s.buckets[i]) + 1], next := ScanIndex(i, 1, |ok|)), Some(i))
  {
    hide Pick, WithSlot, CountOf;
  }

  lemma CountIs(m: map<string, int>, b: string)
    ensures CountOf(m, b) == if b in m then m[b] else 0
  {
  }

  class EndpointPool {
    var endpoints: seq<Endpoint>
    var nextEndpoint: nat
    var inFlightByBucket: map<string, int>
    const idleSlotsPerBucket: int

    constructor (endpoints: seq<Endpoint>, configuredSlots: int)
      ensures this.endpoints == endpoints && nextEndpoint == 0 && inFlightByBucket == map[]
      ensures var buckets := set ep | ep in endpoints :: ep.bucket;
              idleSlotsPerBucket == ResolveIdleSlots(configuredSlots, |buckets|)
    {
      this.endpoints, nextEndpoint, inFlightByBucket := endpoints, 0, map[];
      var buckets := set ep | ep in endpoints :: ep.bucket;
      idleSlotsPerBucket := ResolveIdleSlots(configuredSlots, |buckets|);
    }

    function Abs(): Slots
      reads this
    {
      Slots(BucketsOf(endpoints), idleSlotsPerBucket, inFlightByBucket, nextEndpoint)
    }

    method PickRelayEndpoint(now: int) returns (idx: int, url: string)
      modifies this`nextEndpoint
      ensures idx == IndexOf(Pick(InService(endpoints, now), old(nextEndpoint)))
      ensures nextEndpoint == NextCursor(InService(endpoints, now), old(nextEndpoint))
      ensures 0 <= idx ==> idx < |endpoints| && url == endpoints[idx].url
      ensures 0 <= idx ==> nextEndpoint == (idx + 1) % |endpoints| && !(endpoints[idx].health.blacklistedTill.At? && endpoints[idx].health.blacklistedTill.time > now)
      ensures idx < 0 ==> nextEndpoint == old(nextEndpoint)
      ensures idx < 0 ==> forall i :: 0 <= i < |endpoints| ==>
                endpoints[i].health.blacklistedTill.At? && endpoints[i].health.blacklistedTill.time > now
    {
      var n := |endpoints|;
      if n == 0 {
        return -1, "";
      }
      hide Pick, NoneFound, InService, ScanIndex, NextCursor;
      ghost var ok := InService(endpoints, now);
      CursorAfter(ok, nextEndpoint);
      var start := nextEndpoint % n;
      OutOfService(endpoints, now, nextEndpoint);
      ScanEnds(ok, nextEndpoint);
      var i := 0;
      while i < n
        invariant 0 <= i <= n && nextEndpoint == old(nextEndpoint)
        invariant NoneFound(ok, start, i)
      {
        idx := ScanIndex(start, i, n);
        ScanStep(ok, nextEndpoint, i);
        assert ok[idx] == !Blacklisted(endpoints[idx].health, now) by { ServiceAt(endpoints, now, idx); }
        if !Blacklisted(endpoints[idx].health, now) {
          nextEndpoint := ScanIndex(idx, 1, n);
          return idx, endpoints[idx].url;
        }
        i := i + 1;
      }
      return -1, "";
    }

    /** The same scan, also asking for a free slot, which it takes. */
    method PickIdleEndpoint(now: int) returns (idx: int, url: string)
      modifies this`nextEndpoint, this`inFlightByBucket
      ensures Abs() == PickIdle(old(Abs()), InService(endpoints, now)).0
      ensures idx == IndexOf(PickIdle(old(Abs()), InService(endpoints, now)).1)
      ensures 0 <= idx ==> idx < |endpoints| && url == endpoints[idx].url
      ensures 0 <= idx ==>
                var b := endpoints[idx].bucket;
                var used := if b in old(inFlightByBucket) then old(inFlightByBucket)[b] else 0;
                && used < idleSlotsPerBucket && inFlightByBucket == old(inFlightByBucket)[b := used + 1]
                && nextEndpoint == (idx + 1) % |endpoints| && !(endpoints[idx].health.blacklistedTill.At? && endpoints[idx].health.blacklistedTill.time > now)
      ensures idx < 0 ==> inFlightByBucket == old(inFlightByBucket) && nextEndpoint == old(nextEndpoint)
      ensures idx < 0 ==> forall i :: 0 <= i < |endpoints| ==>
                var b := endpoints[i].bucket;
                || (if b in inFlightByBucket then inFlightByBucket[b] else 0) >= idleSlotsPerBucket
                || (endpoints[i].health.blacklistedTill.At? && endpoints[i].health.blacklistedTill.time > now)
    {
      var n := |endpoints|;
      if n == 0 {
        return -1, "";
      }
      hide Pick, NoneFound, PickIdle, WithSlot, InService, CountOf, ScanIndex;
      ghost var s, ok := Abs(), InService(endpoints, now);
      ghost var free := WithSlot(s, ok);
      var start := nextEndpoint % n;
      ScanEnds(free, nextEndpoint);
      NoneIdle(s, ok);
      NoneFree(endpoints, s, now);
      var i := 0;
      while i < n
        invariant 0 <= i <= n && Abs() == s
        invariant NoneFound(free, start, i)
      {
        idx := ScanIndex(start, i, n);
        ScanStep(free, nextEndpoint, i);
        FreeAt(endpoints, s, now, idx);
        var ep := endpoints[idx];
        if !Blacklisted(ep.health, now) && CountOf(inFlightByBucket, ep.bucket) < idleSlotsPerBucket {
          FoundIdle(s, ok, idx);
          CountIs(inFlightByBucket, ep.bucket);
          inFlightByBucket := inFlightByBucket[ep.bucket := CountOf(inFlightByBucket, ep.bucket) + 1];
          nextEndpoint := ScanIndex(idx, 1, n);
          return idx, ep.url;
        }
        i := i + 1;
      }
      return -1, "";
    }

    method MarkSuccess(idx: int)
      modifies this`endpoints
      ensures endpoints == MarkedAt(old(endpoints), idx, Success, 0) && Abs() == old(Abs())
      ensures 0 <= idx < |endpoints| ==> endpoints == old(endpoints)[idx := old(endpoints)[idx].(health := Health(Never, 0, false))]
    {
      if idx < 0 || idx >= |endpoints| {
        return;
      }
      endpoints := endpoints[idx := endpoints[idx].(health := HEALTHY)];
    }

    /** `minFailCount` is a floor under the count before it is raised. */
    method MarkFailure(idx: int, minFailCount: nat, now: int)
      modifies this`endpoints
      ensures endpoints == MarkedAt(old(endpoints), idx, Failure(minFailCount), now) && Abs() == old(Abs())
      ensures 0 <= idx < |endpoints| ==>
                var was, h := old(endpoints)[idx].health, endpoints[idx].health;
                && endpoints == old(endpoints)[idx := old(endpoints)[idx].(health := h)]
                && h.failCount > was.failCount && h.failCount > minFailCount && !h.localOffline
                && (h.failCount == was.failCount + 1 || h.failCount == minFailCount + 1)
                && h.blacklistedTill.At? && 3 <= h.blacklistedTill.time - now <= 3600
                && (h.failCount >= 4 ==> h.blacklistedTill.time - now >= 24)
                && (h.failCount >= 6 ==> h.blacklistedTill.time - now >= 300)
    {
      if idx < 0 || idx >= |endpoints| {
        return;
      }
      var failCount := endpoints[idx].health.failCount;
      if minFailCount > 0 && failCount < minFailCount {
        failCount := minFailCount;
      }
      failCount := failCount + 1;
      TtlTable(failCount);
      var ttl := BlacklistTtl(failCount);
      endpoints := endpoints[idx := endpoints[idx].(health := Health(At(now + ttl), failCount, false))];
    }

    method MarkLocalFailure(idx: int, now: int)
      modifies this`endpoints
      ensures endpoints == MarkedAt(old(endpoints), idx, LocalFailure, now) && Abs() == old(Abs())
      ensures 0 <= idx < |endpoints| ==> endpoints == old(endpoints)[idx := old(endpoints)[idx].(health := Health(At(now + 15), 0, true))]
    {
      if idx < 0 || idx >= |endpoints| {
        return;
      }
      endpoints := endpoints[idx := endpoints[idx].(health := Health(At(now + LOCAL_OFFLINE_TTL), 0, true))];
    }

    /** Ends a network outage, and says how many endpoints that brings back. */
    method ResetLocalFailures() returns (cleared: nat)
      modifies this`endpoints
      ensures |endpoints| == |old(endpoints)| && Abs() == old(Abs())
      ensures forall i :: 0 <= i < |endpoints| ==>
                endpoints[i] == old(endpoints)[i].(health := Recovered(old(endpoints)[i].health))
      ensures forall i :: 0 <= i < |endpoints| ==>
                endpoints[i].health == if old(endpoints)[i].health.localOffline then Health(Never, 0, false) else old(endpoints)[i].health
      ensures cleared == |set i | 0 <= i < |old(endpoints)| && old(endpoints)[i].health.localOffline|
    {
      cleared := 0;
      ghost var was, offline := endpoints, {};
      for i := 0 to |endpoints|
        invariant |endpoints| == |was| && BucketsOf(endpoints) == BucketsOf(was)
        invariant forall k :: 0 <= k < i ==> endpoints[k] == was[k].(health := Recovered(was[k].health))
        invariant forall k :: i <= k < |was| ==> endpoints[k] == was[k]
        invariant offline == (set k | 0 <= k < i && was[k].health.localOffline) && cleared == |offline|
      {
        if endpoints[i].health.localOffline {
          endpoints := endpoints[i := endpoints[i].(health := HEALTHY)];
          cleared, offline := cleared + 1, offline + {i};
        }
      }
    }

    method ReleaseBucketSlot(idx: int)
      modifies this`inFlightByBucket
      ensures Abs() == ReleaseSlot(old(Abs()), idx)
      ensures 0 <= idx < |endpoints| && endpoints[idx].bucket in old(inFlightByBucket)
                && old(inFlightByBucket)[endpoints[idx].bucket] > 0 ==>
                inFlightByBucket == old(inFlightByBucket)[endpoints[idx].bucket := old(inFlightByBucket)[endpoints[idx].bucket] - 1]
      ensures idx < 0 || idx >= |endpoints| || endpoints[idx].bucket !in old(inFlightByBucket)
                || old(inFlightByBucket)[endpoints[idx].bucket] <= 0 ==>
                inFlightByBucket == old(inFlightByBucket)
    {
      if idx < 0 || idx >= |endpoints| {
        return;
      }
      var bucket := endpoints[idx].bucket;
      if CountOf(inFlightByBucket, bucket) > 0 {
        inFlightByBucket := inFlightByBucket[bucket := CountOf(inFlightByBucket, bucket) - 1];
      }
    }
  }

  /** The first `i` positions of a scan from `start` are out of rotation. */
  ghost predicate NoneFound(ok: seq<bool>, start: nat, i: nat)
    requires start <= |ok| && i <= |ok|
  {
    if start + i <= |ok| then Open(ok, start, start + i) == []
    else Open(ok, start, |ok|) == [] && Open(ok, 0, start + i - |ok|) == []
  }

  /** A scan starts with nothing looked at, and one that looked at everything found nothing. */
  lemma ScanEnds(ok: seq<bool>, cursor: nat)
    requires |ok| > 0
    ensures NoneFound(ok, cursor % |ok|, 0)
    ensures NoneFound(ok, cursor % |ok|, |ok|) ==> Pick(ok, cursor) == None
  {
  }

  /** The scan's next position is the answer if it is in rotation. */
  lemma ScanStep(ok: seq<bool>, cursor: nat, i: nat)
    requires i < |ok| && NoneFound(ok, cursor % |ok|, i)
    ensures var idx := ScanIndex(cursor % |ok|, i, |ok|);
            if ok[idx] then Pick(ok, cursor) == Some(idx) else NoneFound(ok, cursor % |ok|, i + 1)
  {
    Wrap(cursor % |ok| + i, |ok|);
    Scanned(ok, cursor % |ok|, i);
  }

  /** One more position of the scan: it heads the ring, or is out of rotation too. */
  lemma Scanned(ok: seq<bool>, start: nat, i: nat)
    requires start < |ok| && i < |ok| && NoneFound(ok, start, i)
    ensures var idx := if start + i < |ok| then start + i else start + i - |ok|;
            if ok[idx] then |Ring(ok, start)| > 0 && Ring(ok, start)[0] == idx
            else NoneFound(ok, start, i + 1)
  {
    var n := |ok|;
    if start + i < n {
      OpenSplit(ok, start, start + i, n);
      OpenSplit(ok, start, start + i, start + i + 1);
    } else {
      OpenSplit(ok, 0, start + i - n, start);
      OpenSplit(ok, 0, start + i - n, start + i - n + 1);
    }
  }
}

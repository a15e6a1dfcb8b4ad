/** One poll: drain a batch, try up to two endpoints, then keep the batch or take it back,
    return the idle slot and free the sessions. HTTP itself is the environment: what each
    attempt comes to is a parameter. */
module Polls {
  import opened Prelude
  import opened Frames
  import opened Sessions
  import opened CarrierSpec
  import opened Carriers
  import opened Blacklists
  import opened Endpoints

  datatype Outcome =
    | CannotBuild | Cancelled | LocalOffline | SendFailed | ReadFailed
    | NoBody | Forbidden | TooManyRequests | HttpError | TooLarge | HardErrorPage | NotABatch | BadBatch | GoodBatch

  /** One attempt as it goes: when an endpoint is picked, what comes of it, and when. */
  datatype Attempt = Attempt(pickedAt: int, outcome: Outcome, markedAt: int)

  /** The batch counts as delivered: answered outright, or - when no attempt is left - answered
      with something that the exit server most likely sent. */
  predicate Delivers(o: Outcome, last: bool) {
    o == NoBody || o == GoodBatch || (last && (o == TooLarge || o == BadBatch))
  }

  predicate Retries(o: Outcome) {
    o != CannotBuild && o != Cancelled && o != NoBody && o != GoodBatch
  }

  /** What an outcome says of its endpoint. */
  function MarkOf(o: Outcome): Option<Mark> {
    match o
    case CannotBuild => None
    case Cancelled => None
    case LocalOffline => Some(LocalFailure)
    case NoBody => Some(Success)
    case GoodBatch => Some(Success)
    case Forbidden => Some(Failure(5))
    case HardErrorPage => Some(Failure(5))
    case TooManyRequests => Some(Failure(3))
    case _ => Some(Failure(0))
  }

  ghost predicate CountsOk(s: Slots) {
    forall b :: CountOf(s.count, b) >= 0
  }

  /** `after` counts one more reservation than `before`, for the endpoint `slot` (none if -1). */
  ghost predicate Holding(before: Slots, after: Slots, slot: int) {
    && after.buckets == before.buckets && after.cap == before.cap
    && -1 <= slot < |before.buckets|
    && forall b :: CountOf(after.count, b) ==
                   CountOf(before.count, b) + if slot >= 0 && before.buckets[slot] == b then 1 else 0
  }

  lemma ReserveThenReturn(s0: Slots, s: Slots, ok: seq<bool>)
    requires CountsOk(s0) && Holding(s0, s, -1) && |ok| == |s.buckets|
    ensures Holding(s0, PickIdle(s, ok).0, IndexOf(PickIdle(s, ok).1))
  {
  }

  lemma ReturnSlot(s0: Slots, s: Slots, slot: int)
    requires CountsOk(s0) && Holding(s0, s, slot)
    ensures Holding(s0, ReleaseSlot(s, slot), -1)
  {
    if slot >= 0 {
      assert CountOf(s.count, s.buckets[slot]) == CountOf(s0.count, s.buckets[slot]) + 1;
    }
  }

  // ---- The attempts on values ----------------------------------------------------------------

  /** The picker: for an idle poll among endpoints with a free slot, which it takes. */
  function PickFor(idle: bool, s: Slots, ok: seq<bool>): (r: (Slots, Option<nat>))
    requires |ok| == |s.buckets|
    ensures r.0.buckets == s.buckets && r.0.cap == s.cap && (r.1.Some? ==> r.1.value < |ok|)
  {
    if idle then PickIdle(s, ok)
    else
      PickInRange(ok, s.next);
      (s.(next := NextCursor(ok, s.next)), Pick(ok, s.next))
  }

  /** Whom the picker may pick. */
  ghost function Pickable(idle: bool, s: Slots, ok: seq<bool>): set<nat>
    requires |ok| == |s.buckets|
  {
    InRotation(if idle then WithSlot(s, ok) else ok)
  }

  /** It picks one of them, and fails exactly when there is none. */
  lemma PicksIfAny(idle: bool, s: Slots, ok: seq<bool>)
    requires |ok| == |s.buckets|
    ensures PickFor(idle, s, ok).1.None? <==> Pickable(idle, s, ok) == {}
    ensures PickFor(idle, s, ok).1.Some? ==> PickFor(idle, s, ok).1.value in Pickable(idle, s, ok)
  {
    var free := if idle then WithSlot(s, ok) else ok;
    RoundRobinIsFair(free, s.next);
    PickInRange(free, s.next);
  }

  /** What an attempt does to its endpoint. */
  function AfterAttempt(endpoints: seq<Endpoint>, i: nat, a: Attempt): (r: seq<Endpoint>)
    ensures |r| == |endpoints| && BucketsOf(r) == BucketsOf(endpoints)
  {
    match MarkOf(a.outcome)
    case None => endpoints
    case Some(m) => MarkedAt(endpoints, i, m, a.markedAt)
  }

  /** Every outcome's mark: back in rotation after a success, out for at least the time its kind
      of failure calls for, untouched if the attempt says nothing about its endpoint. */
  lemma AttemptMarks(endpoints: seq<Endpoint>, i: nat, a: Attempt)
    ensures var after := AfterAttempt(endpoints, i, a);
            && |after| == |endpoints|
            && (forall k :: 0 <= k < |after| && k != i ==> after[k] == endpoints[k])
            && (i < |after| ==>
                  var was, h := endpoints[i].health, after[i].health;
                  && after[i] == endpoints[i].(health := h)
                  && (a.outcome in {CannotBuild, Cancelled} ==> h == was)
                  && (a.outcome in {NoBody, GoodBatch} ==> h == Health(Never, 0, false))
                  && (a.outcome == LocalOffline ==> h == Health(At(a.markedAt + 15), 0, true))
                  && (a.outcome !in {CannotBuild, Cancelled, NoBody, GoodBatch, LocalOffline} ==>
                        && h.blacklistedTill.At? && h.blacklistedTill.time >= a.markedAt + 3 && !h.localOffline
                        && h.failCount > was.failCount)
                  && (a.outcome in {Forbidden, HardErrorPage} ==>
                        h.blacklistedTill.time >= a.markedAt + 300 && h.failCount == Max(was.failCount, 5) + 1)
                  && (a.outcome == TooManyRequests ==>
                        h.blacklistedTill.time >= a.markedAt + 24 && h.failCount == Max(was.failCount, 3) + 1)
                  && (a.outcome in {SendFailed, ReadFailed, HttpError, TooLarge, NotABatch, BadBatch} ==>
                        h.failCount == was.failCount + 1))
  {
    hide BlacklistTtl, BucketsOf;
    if MarkOf(a.outcome).Some? && MarkOf(a.outcome).value.Failure? && i < |endpoints| {
      TtlTable(Marked(endpoints[i].health, MarkOf(a.outcome).value, a.markedAt).failCount);
    }
  }

  datatype Tried = Tried(slots: Slots, endpoints: seq<Endpoint>, kept: bool, slot: int, attempts: nat)

  function MaxAttempts(endpoints: seq<Endpoint>): nat {
    if |endpoints| > 1 then 2 else 1
  }

  /** The attempts still to come, `k` having been made and `held` being the slot held. */
  function Attempts(slots: Slots, endpoints: seq<Endpoint>, idle: bool, tries: seq<Attempt>, k: nat, held: int): (r: Tried)
    requires BucketsOf(endpoints) == slots.buckets && |tries| >= 2
    ensures k <= r.attempts && (k <= 2 ==> r.attempts <= 2)
    decreases 2 - k
  {
    if k >= MaxAttempts(endpoints) then Tried(slots, endpoints, false, held, k)
    else
      match PickFor(idle, ReleaseSlot(slots, held), InService(endpoints, tries[k].pickedAt))
      case (s, None) => Tried(s, endpoints, false, -1, k)
      case (s, Some(i)) =>
        var o, slot := tries[k].outcome, if idle then i else -1;
        var after := AfterAttempt(endpoints, i, tries[k]);
        if Delivers(o, k + 1 == MaxAttempts(endpoints)) then Tried(s, after, true, slot, k + 1)
        else if Retries(o) then Attempts(s, after, idle, tries, k + 1, slot)
        else Tried(s, after, false, slot, k + 1)
  }

  /** The state in which a second endpoint is picked, if the first attempt is retried. */
  function BeforeSecond(slots: Slots, endpoints: seq<Endpoint>, idle: bool, tries: seq<Attempt>): (r: (Slots, seq<Endpoint>))
    requires BucketsOf(endpoints) == slots.buckets && |tries| >= 2
    ensures BucketsOf(r.1) == r.0.buckets
  {
    match PickFor(idle, slots, InService(endpoints, tries[0].pickedAt))
    case (s, None) => (s, endpoints)
    case (s, Some(i)) => (ReleaseSlot(s, if idle then i else -1), AfterAttempt(endpoints, i, tries[0]))
  }

  /** An endpoint is tried if and only if one can be picked; a second if and only if there are
      several, the first outcome is to be retried and one can be picked then; and the batch
      counts as delivered if and only if the last attempt's outcome says so. */
  lemma TriesWhatItCan(slots: Slots, endpoints: seq<Endpoint>, idle: bool, tries: seq<Attempt>)
    requires BucketsOf(endpoints) == slots.buckets && |tries| >= 2
    ensures var t := Attempts(slots, endpoints, idle, tries, 0, -1);
            var (s, eps) := BeforeSecond(slots, endpoints, idle, tries);
            && (t.attempts == 0 <==> Pickable(idle, slots, InService(endpoints, tries[0].pickedAt)) == {})
            && (t.attempts == 2 <==> |endpoints| > 1 && t.attempts > 0
                                     && tries[0].outcome in {LocalOffline, SendFailed, ReadFailed, Forbidden, TooManyRequests,
                                                             HttpError, TooLarge, HardErrorPage, NotABatch, BadBatch}
                                     && Pickable(idle, s, InService(eps, tries[1].pickedAt)) != {})
            && t.attempts <= 2
            && (t.kept <==> t.attempts > 0
                            && (tries[t.attempts - 1].outcome in {NoBody, GoodBatch}
                                || (t.attempts == (if |endpoints| > 1 then 2 else 1)
                                    && tries[t.attempts - 1].outcome in {TooLarge, BadBatch})))
            && (t.kept <==> t.attempts > 0 && Delivers(tries[t.attempts - 1].outcome, t.attempts == MaxAttempts(endpoints)))
  {
    hide PickFor, Pickable, ReleaseSlot;
    NoSlotHeld(slots);
    PicksIfAny(idle, slots, InService(endpoints, tries[0].pickedAt));
    var (s, eps) := BeforeSecond(slots, endpoints, idle, tries);
    PicksIfAny(idle, s, InService(eps, tries[1].pickedAt));
    var t := Attempts(slots, endpoints, idle, tries, 0, -1);
    match PickFor(idle, slots, InService(endpoints, tries[0].pickedAt))
    case (_, None) =>
    case (s1, Some(i)) =>
      if |endpoints| > 1 && Retries(tries[0].outcome) {
        var slot := if idle then i else -1;
        assert t == Attempts(s1, eps, idle, tries, 1, slot);
        SecondAttempt(s1, eps, idle, tries, slot);
      }
  }

  lemma NoSlotHeld(s: Slots)
    ensures ReleaseSlot(s, -1) == s
  {
  }

  lemma SecondAttempt(slots: Slots, endpoints: seq<Endpoint>, idle: bool, tries: seq<Attempt>, held: int)
    requires BucketsOf(endpoints) == slots.buckets && |tries| >= 2 && |endpoints| > 1
    ensures var t := Attempts(slots, endpoints, idle, tries, 1, held);
            && t.attempts == (if PickFor(idle, ReleaseSlot(slots, held), InService(endpoints, tries[1].pickedAt)).1.None? then 1 else 2)
            && (t.kept <==> t.attempts == 2 && Delivers(tries[1].outcome, true))
  {
    hide PickFor, ReleaseSlot, InService;
  }

  /** A poll takes back a batch although one of its answers would have kept it, had no attempt
      been left, if and only if the first of two possible attempts got an answer it could not
      read and no second attempt delivered. */
  lemma RolledBackThoughAnswered(slots: Slots, endpoints: seq<Endpoint>, idle: bool, tries: seq<Attempt>)
    requires BucketsOf(endpoints) == slots.buckets && |tries| >= 2
    ensures var t := Attempts(slots, endpoints, idle, tries, 0, -1);
            (!t.kept && exists i :: 0 <= i < t.attempts && Delivers(tries[i].outcome, true))
            <==> |endpoints| > 1 && t.attempts > 0 && (tries[0].outcome == TooLarge || tries[0].outcome == BadBatch)
                 && (t.attempts == 2 ==> !Delivers(tries[1].outcome, true))
  {
    hide Attempts, Pickable, BeforeSecond, InService;
    TriesWhatItCan(slots, endpoints, idle, tries);
    var t := Attempts(slots, endpoints, idle, tries, 0, -1);
    if t.attempts > 0 && Delivers(tries[0].outcome, true) && !t.kept {
      assert exists i :: 0 <= i < t.attempts && Delivers(tries[i].outcome, true);
    }
  }

  /** Two endpoints, the first answer too large, the second attempt lost: the first answer
      would have kept the batch, and the client takes it back. */
  lemma TakesBackAnAnsweredBatch(now: int)
    ensures var eps := [Endpoint("a", "x", HEALTHY), Endpoint("b", "y", HEALTHY)];
            var tries := [Attempt(now, TooLarge, now), Attempt(now, SendFailed, now)];
            var t := Attempts(Slots(["x", "y"], 2, map[], 0), eps, false, tries, 0, -1);
            !t.kept && t.attempts == 2 && Delivers(tries[0].outcome, true)
  {
    var eps := [Endpoint("a", "x", HEALTHY), Endpoint("b", "y", HEALTHY)];
    var tries := [Attempt(now, TooLarge, now), Attempt(now, SendFailed, now)];
    var slots := Slots(["x", "y"], 2, map[], 0);
    assert BucketsOf(eps) == slots.buckets;
    TriesWhatItCan(slots, eps, false, tries);
    assert InService(eps, now)[0] && 0 in InRotation(InService(eps, now));
    var (_, i) := PickFor(false, slots, InService(eps, now));
    var (s, eps') := BeforeSecond(slots, eps, false, tries);
    assert eps' == MarkedAt(eps, i.value, Failure(0), now);
    var other := 1 - i.value;
    assert eps'[other] == eps[other];
    assert InService(eps', now)[other] && other in InRotation(InService(eps', now));
  }

  // ---- What the client cannot know -----------------------------------------------------------------

  /** Which attempts brought the batch to the server, as far as their outcomes tell: a batch in
      return proves it, and a request that was never built disproves it. An empty body proves
      nothing: the server also answers so when it cannot decode a batch. */
  ghost predicate Consistent(tries: seq<Attempt>, took: seq<bool>) {
    && |took| <= |tries|
    && forall i :: 0 <= i < |took| ==>
         (tries[i].outcome == GoodBatch ==> took[i]) && (took[i] ==> tries[i].outcome != CannotBuild)
  }

  /** A batch may be kept though the server never took it in exactly the polls that end with
      anything but a readable batch. */
  lemma KeptThoughNeverTaken(slots: Slots, endpoints: seq<Endpoint>, idle: bool, tries: seq<Attempt>)
    requires BucketsOf(endpoints) == slots.buckets && |tries| >= 2
    ensures var t := Attempts(slots, endpoints, idle, tries, 0, -1);
            t.kept ==>
              t.attempts > 0
              && ((exists took :: |took| == t.attempts && Consistent(tries, took) && true !in took)
                  <==> tries[t.attempts - 1].outcome != GoodBatch)
  {
    hide Attempts, Pickable, BeforeSecond, InService;
    TriesWhatItCan(slots, endpoints, idle, tries);
    var t := Attempts(slots, endpoints, idle, tries, 0, -1);
    if t.kept && tries[t.attempts - 1].outcome != GoodBatch {
      var took := seq(t.attempts, _ => false);
      assert Consistent(tries, took);
    }
    if took :| t.kept && |took| == t.attempts && Consistent(tries, took) && true !in took {
      assert took[t.attempts - 1] in took;
    }
  }

  /** And it may be taken back though the server took it in exactly the polls that built a
      request and did not keep their batch. */
  lemma RolledBackThoughTaken(slots: Slots, endpoints: seq<Endpoint>, idle: bool, tries: seq<Attempt>)
    requires BucketsOf(endpoints) == slots.buckets && |tries| >= 2
    ensures var t := Attempts(slots, endpoints, idle, tries, 0, -1);
            !t.kept ==>
              ((exists took :: |took| == t.attempts && Consistent(tries, took) && true in took)
               <==> exists i :: 0 <= i < t.attempts && tries[i].outcome != CannotBuild)
  {
    hide Attempts, Pickable, BeforeSecond, InService;
    TriesWhatItCan(slots, endpoints, idle, tries);
    var t := Attempts(slots, endpoints, idle, tries, 0, -1);
    if i :| !t.kept && 0 <= i < t.attempts && tries[i].outcome != CannotBuild {
      var took := seq(t.attempts, k requires 0 <= k < t.attempts => tries[k].outcome != CannotBuild);
      assert Consistent(tries, took) && took[i];
    }
    if took :| !t.kept && |took| == t.attempts && Consistent(tries, took) && true in took {
      var i :| 0 <= i < |took| && took[i];
      assert tries[i].outcome != CannotBuild;
    }
  }

  // ---- The code --------------------------------------------------------------------------------

  class Poller {
    const client: Client
    const pool: EndpointPool

    constructor (client: Client, pool: EndpointPool)
      ensures this.client == client && this.pool == pool
    {
      this.client, this.pool := client, pool;
    }

    /** Gives back a slot held from the last attempt, then picks an endpoint for the next. */
    method PickNext(idle: bool, now: int, held: int, ghost s0: Slots) returns (endpoint: int, slot: int)
      requires CountsOk(s0) && Holding(s0, pool.Abs(), held)
      modifies pool`nextEndpoint, pool`inFlightByBucket
      ensures var r := PickFor(idle, ReleaseSlot(old(pool.Abs()), held), InService(pool.endpoints, now));
              pool.Abs() == r.0 && endpoint == IndexOf(r.1)
      ensures Holding(s0, pool.Abs(), slot) && slot == if idle then endpoint else -1
    {
      var url;
      if held >= 0 {
        ReturnSlot(s0, pool.Abs(), held);
        pool.ReleaseBucketSlot(held);
      }
      if idle {
        ReserveThenReturn(s0, pool.Abs(), InService(pool.endpoints, now));
        endpoint, url := pool.PickIdleEndpoint(now);
        slot := endpoint;
      } else {
        endpoint, url := pool.PickRelayEndpoint(now);
        slot := -1;
      }
    }

    lemma NothingHeld()
      ensures Holding(pool.Abs(), pool.Abs(), -1)
    {
    }

    /** An attempt's mark on its endpoint. */
    method MarkOutcome(endpoint: nat, a: Attempt)
      modifies pool`endpoints
      ensures pool.endpoints == AfterAttempt(old(pool.endpoints), endpoint, a)
      ensures pool.Abs() == old(pool.Abs())
    {
      match a.outcome
      case CannotBuild =>
      case Cancelled =>
      case LocalOffline => pool.MarkLocalFailure(endpoint, a.markedAt);
      case NoBody => pool.MarkSuccess(endpoint);
      case GoodBatch => pool.MarkSuccess(endpoint);
      case Forbidden => pool.MarkFailure(endpoint, 5, a.markedAt);
      case HardErrorPage => pool.MarkFailure(endpoint, 5, a.markedAt);
      case TooManyRequests => pool.MarkFailure(endpoint, 3, a.markedAt);
      case _ => pool.MarkFailure(endpoint, 0, a.markedAt);
    }

    /** The attempt loop. At most one slot is held at any time; the one still held on return
        is reported. */
    method TryEndpoints(idle: bool, tries: seq<Attempt>)
      returns (kept: bool, slot: int, attempts: nat)
      requires |tries| >= 2 && CountsOk(pool.Abs())
      modifies pool
      ensures Tried(pool.Abs(), pool.endpoints, kept, slot, attempts)
              == Attempts(old(pool.Abs()), old(pool.endpoints), idle, tries, 0, -1)
      ensures Holding(old(pool.Abs()), pool.Abs(), slot) && (slot >= 0 ==> idle)
      ensures |pool.endpoints| == |old(pool.endpoints)|
    {
      hide Holding, CountsOk, PickFor, AfterAttempt, ReleaseSlot, InService;
      kept, slot, attempts := false, -1, 0;
      ghost var s0, all := pool.Abs(), Attempts(pool.Abs(), pool.endpoints, idle, tries, 0, -1);
      NothingHeld();
      var maxAttempts := if |pool.endpoints| > 1 then 2 else 1;
      while attempts < maxAttempts
        invariant Holding(s0, pool.Abs(), slot) && (slot >= 0 ==> idle) && !kept
        invariant |pool.endpoints| == |old(pool.endpoints)| && attempts <= maxAttempts == MaxAttempts(pool.endpoints)
        invariant Attempts(pool.Abs(), pool.endpoints, idle, tries, attempts, slot) == all
        decreases maxAttempts - attempts
      {
        var endpoint;
        endpoint, slot := PickNext(idle, tries[attempts].pickedAt, slot, s0);
        if endpoint < 0 {
          slot := -1;
          return;
        }
        var last := attempts + 1 == maxAttempts;
        var o := tries[attempts].outcome;
        MarkOutcome(endpoint, tries[attempts]);
        attempts := attempts + 1;
        if Delivers(o, last) {
          kept := true;
          return;
        }
        if !Retries(o) {
          return;
        }
      }
    }

    /** Tries the endpoints and returns the slot. */
    method Exchange(idle: bool, encodes: bool, tries: seq<Attempt>) returns (kept: bool)
      requires |tries| >= 2 && CountsOk(pool.Abs())
      modifies pool
      ensures var t := Attempts(old(pool.Abs()), old(pool.endpoints), idle, tries, 0, -1);
              kept == (encodes && t.kept)
              && if encodes then pool.Abs() == ReleaseSlot(t.slots, t.slot) && pool.endpoints == t.endpoints
                 else pool.Abs() == old(pool.Abs()) && pool.endpoints == old(pool.endpoints)
      ensures Holding(old(pool.Abs()), pool.Abs(), -1)
    {
      hide Attempts;
      kept := false;
      var slot := -1;
      NothingHeld();
      NoSlotHeld(pool.Abs());
      if encodes {
        var attempts;
        kept, slot, attempts := TryEndpoints(idle, tries);
        ReturnSlot(old(pool.Abs()), pool.Abs(), slot);
      }
      pool.ReleaseBucketSlot(slot);
    }

    /** The deferred end of a poll: take the batch back unless it was kept, then free the sessions. */
    method Settle(kept: bool, w: Work, ghost b: Batch)
      requires client.Valid() && client.BatchOf(w) == b
      modifies client`inFlight, client`txReady
      modifies client.sessions.Values`txBuf, client.sessions.Values`txSeq, client.sessions.Values`synNeeded
      modifies client.sessions.Values`finSent, client.sessions.Values`finSentAt, client.sessions.Values`firstQueuedAt
      ensures client.Abs() == Release(if kept then b.core else RollbackAll(b.core, b.snaps), b.ids)
    {
      if !kept {
        client.RollbackDrained(w.snaps);
      }
      client.ReleaseInFlight(w.ids);
    }

    /** Whatever happens, a poll ends as cleanly as it began: every slot is returned, every
        session it held is free, and its batch is either wholly kept - if and only if it could
        be encoded and its attempts delivered it - or wholly taken back. */
    method PollOnce(now: int, encodes: bool, tries: seq<Attempt>)
      returns (kept: bool, ghost refs: seq<SessionId>)
      requires |tries| >= 2 && client.Valid() && CountsOk(pool.Abs())
      modifies pool, client`inFlight, client`txReady
      modifies client.sessions.Values`txBuf, client.sessions.Values`txSeq, client.sessions.Values`synNeeded
      modifies client.sessions.Values`finSent, client.sessions.Values`finSentAt, client.sessions.Values`firstQueuedAt
      ensures OldestFirst(old(client.Abs()), refs, old(client.Ages()))
      ensures var b := CarrierSpec.DrainAll(old(client.Abs()), refs);
              client.Abs() == Release(if kept then b.core else RollbackAll(b.core, b.snaps), b.ids)
      ensures var b := CarrierSpec.DrainAll(old(client.Abs()), refs);
              var t := Attempts(old(pool.Abs()), old(pool.endpoints), |Flatten(b.parts)| == 0, tries, 0, -1);
              && kept == (encodes && t.kept)
              && if encodes then pool.Abs() == ReleaseSlot(t.slots, t.slot) && pool.endpoints == t.endpoints
                 else pool.Abs() == old(pool.Abs()) && pool.endpoints == old(pool.endpoints)
      ensures Holding(old(pool.Abs()), pool.Abs(), -1)
    {
      hide CarrierSpec.DrainAll, RollbackAll, Release, OldestFirst, Holding, CountsOk, Attempts, ReleaseSlot;
      var out, w;
      out, w, refs := client.DrainAll(now);
      ghost var b := client.BatchOf(w);
      kept := Exchange(|out| == 0, encodes, tries);
      Settle(kept, w, b);
    }
  }

  /** Either way the in-flight set is back to what it was. */
  lemma PollFreesItsSessions(core: Core, refs: seq<SessionId>)
    ensures var b := CarrierSpec.DrainAll(core, refs);
            && Release(b.core, b.ids).inFlight == core.inFlight
            && Release(RollbackAll(b.core, b.snaps), b.ids).inFlight == core.inFlight
  {
    BatchContract(core, refs);
  }
}

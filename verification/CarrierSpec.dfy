/** The client scheduler on values: one batch drained from the ready sessions in two passes,
    and the bookkeeping that commits it, takes it back or hands its sessions on. */
module CarrierSpec {
  import opened Prelude
  import opened Frames
  import opened TxSpec
  import opened Drains
  import opened Sessions

  const MAX_FRAME_PAYLOAD: nat := 256 * 1024
  const MAX_FRAMES_PER_SESSION: nat := 8
  const MAX_FRAMES_PER_BATCH: nat := 48
  const BUSY_SESSION_THRESHOLD: nat := 24
  const MAX_FRAMES_PER_BATCH_BUSY: nat := 144

  /** Registered sessions, those held by a poll, and those believed to have frames to send. */
  datatype Core = Core(sessions: map<SessionId, TxState>, inFlight: set<SessionId>, txReady: set<SessionId>)

  function BatchCap(core: Core): nat {
    if |core.sessions| >= BUSY_SESSION_THRESHOLD then MAX_FRAMES_PER_BATCH_BUSY else MAX_FRAMES_PER_BATCH
  }

  /** A batch in the making: `parts[i]` are the frames taken from session `ids[i]`. */
  datatype Batch = Batch(core: Core, ids: seq<SessionId>, parts: seq<seq<Frame>>,
                         snaps: map<SessionId, Snapshot>, remaining: int)

  /** The frames one session may still put into the batch. */
  function ShareOf(b: Batch): int {
    Min(MAX_FRAMES_PER_SESSION, b.remaining)
  }

  function Take(b: Batch, id: SessionId): Batch
    requires id in b.core.sessions
  {
    var t := b.core.sessions[id];
    var frames := DrainFrames(t, MAX_FRAME_PAYLOAD, ShareOf(b));
    Batch(Core(b.core.sessions[id := DrainState(t, MAX_FRAME_PAYLOAD, ShareOf(b))],
               b.core.inFlight + {id}, b.core.txReady - {id}),
          b.ids + [id], b.parts + [frames], b.snaps[id := SnapshotOf(t)], b.remaining - |frames|)
  }

  function Unready(b: Batch, id: SessionId): Batch {
    b.(core := b.core.(txReady := b.core.txReady - {id}))
  }

  function DrainOne(b: Batch, id: SessionId, synOnly: bool): Batch {
    if b.remaining <= 0 then b
    else if id !in b.core.sessions then Unready(b, id)
    else if id in b.core.inFlight then b
    else if synOnly && !b.core.sessions[id].synNeeded then b
    else if |DrainFrames(b.core.sessions[id], MAX_FRAME_PAYLOAD, ShareOf(b))| == 0 then Unready(b, id)
    else Take(b, id)
  }

  function DrainPass(b: Batch, refs: seq<SessionId>, synOnly: bool): Batch
    decreases |refs|
  {
    if |refs| == 0 then b else DrainPass(DrainOne(b, refs[0], synOnly), refs[1..], synOnly)
  }

  function StartBatch(core: Core): Batch {
    Batch(core.(txReady := core.txReady * core.sessions.Keys), [], [], map[], BatchCap(core))
  }

  /** SYN sessions first, then the rest; `refs` lists the ready sessions, oldest first. */
  function DrainAll(core: Core, refs: seq<SessionId>): Batch {
    DrainPass(DrainPass(StartBatch(core), refs, true), refs, false)
  }

  /** `id` may be drained in a pass that stands at `b`. */
  ghost predicate Eligible(b: Batch, id: SessionId, synOnly: bool) {
    && id in b.core.sessions && id !in b.core.inFlight && b.core.sessions[id].Pending()
    && (synOnly ==> b.core.sessions[id].synNeeded)
  }

  lemma DrainOneCases(b: Batch, id: SessionId, synOnly: bool)
    ensures b.remaining > 0 && Eligible(b, id, synOnly) ==> DrainOne(b, id, synOnly) == Take(b, id)
    ensures !(b.remaining > 0 && Eligible(b, id, synOnly)) ==>
              || DrainOne(b, id, synOnly) == b
              || (DrainOne(b, id, synOnly) == Unready(b, id)
                  && (id in b.core.sessions ==> !b.core.sessions[id].Pending()))
  {
    if id in b.core.sessions {
      DrainContract(b.core.sessions[id], MAX_FRAME_PAYLOAD, ShareOf(b));
    }
  }

  // ---- What a batch looks like while it is being made ---------------------------------

  /** Session state `t` became `t'` by giving up `part`, between one and eight frames. */
  ghost predicate Took(t: TxState, t': TxState, part: seq<Frame>) {
    exists cap :: TookCap(t, t', part, cap)
  }

  ghost predicate TookCap(t: TxState, t': TxState, part: seq<Frame>, cap: int) {
    && 0 < |part| <= cap <= MAX_FRAMES_PER_SESSION
    && part == DrainFrames(t, MAX_FRAME_PAYLOAD, cap) && t' == DrainState(t, MAX_FRAME_PAYLOAD, cap)
  }

  function Total(parts: seq<seq<Frame>>): nat {
    |Flatten(parts)|
  }

  function IdSet(ids: seq<SessionId>): set<SessionId> {
    set id | id in ids
  }

  /** Who is in the batch: each session once, none of them held by another poll. */
  ghost predicate Books(c0: Core, b: Batch) {
    && b.core.sessions.Keys == c0.sessions.Keys
    && |b.ids| == |b.parts|
    && (forall i, j :: 0 <= i < j < |b.ids| ==> b.ids[i] != b.ids[j])
    && b.snaps.Keys == IdSet(b.ids) && IdSet(b.ids) <= c0.sessions.Keys
    && c0.inFlight !! IdSet(b.ids) && b.core.inFlight == c0.inFlight + IdSet(b.ids)
  }

  /** What each session gave, and that all others are as they were. */
  ghost predicate Shares(c0: Core, b: Batch)
    requires Books(c0, b)
  {
    && (forall i :: 0 <= i < |b.ids| ==>
          b.ids[i] in IdSet(b.ids) && Took(c0.sessions[b.ids[i]], b.core.sessions[b.ids[i]], b.parts[i]))
    && (forall id :: id in b.snaps ==> b.snaps[id] == SnapshotOf(c0.sessions[id]))
    && (forall id :: id in c0.sessions && id !in b.snaps ==> b.core.sessions[id] == c0.sessions[id])
  }

  /** What left the ready set: sessions in the batch, and ones with nothing to send. */
  ghost predicate ReadyKept(c0: Core, b: Batch) {
    && b.core.txReady <= c0.txReady
    && (forall id :: id in c0.txReady && id in c0.sessions && id !in b.core.txReady ==>
          id in b.snaps || !c0.sessions[id].Pending())
  }

  ghost predicate BatchOk(c0: Core, b: Batch) {
    && Books(c0, b) && Shares(c0, b) && ReadyKept(c0, b)
    && b.remaining == BatchCap(c0) - Total(b.parts) && b.remaining >= 0
  }

  lemma TakeBooks(c0: Core, b: Batch, id: SessionId)
    requires Books(c0, b) && id in b.core.sessions && id !in b.core.inFlight
    ensures Books(c0, Take(b, id)) && IdSet(Take(b, id).ids) == IdSet(b.ids) + {id}
  {
    assert id in b.ids ==> id in IdSet(b.ids);
  }

  lemma TakeShares(c0: Core, b: Batch, id: SessionId)
    requires Books(c0, b) && Shares(c0, b) && b.remaining > 0 && Eligible(b, id, false)
    requires Books(c0, Take(b, id)) && id !in b.snaps
    ensures Shares(c0, Take(b, id))
  {
    var t, cap, b' := b.core.sessions[id], ShareOf(b), Take(b, id);
    var part := DrainFrames(t, MAX_FRAME_PAYLOAD, cap);
    DrainContract(t, MAX_FRAME_PAYLOAD, cap);
    assert TookCap(t, b'.core.sessions[id], part, cap);
    forall i | 0 <= i < |b'.ids|
      ensures b'.ids[i] in IdSet(b'.ids) && Took(c0.sessions[b'.ids[i]], b'.core.sessions[b'.ids[i]], b'.parts[i])
    {
      if i < |b.ids| {
        assert b'.ids[i] == b.ids[i] && b'.parts[i] == b.parts[i] && b.ids[i] in b.snaps;
      }
    }
  }

  lemma TakeOk(c0: Core, b: Batch, id: SessionId)
    requires BatchOk(c0, b) && b.remaining > 0 && Eligible(b, id, false)
    ensures BatchOk(c0, Take(b, id))
  {
    var part := DrainFrames(b.core.sessions[id], MAX_FRAME_PAYLOAD, ShareOf(b));
    TakeBooks(c0, b, id);
    TakeShares(c0, b, id);
    assert |part| <= b.remaining by { DrainContract(b.core.sessions[id], MAX_FRAME_PAYLOAD, ShareOf(b)); }
    assert Total(Take(b, id).parts) == Total(b.parts) + |part| by {
      FlattenAppend(b.parts, [part]);
      assert Flatten([part]) == part;
    }
  }

  lemma DrainOneOk(c0: Core, b: Batch, id: SessionId, synOnly: bool)
    requires BatchOk(c0, b)
    ensures BatchOk(c0, DrainOne(b, id, synOnly))
  {
    DrainOneCases(b, id, synOnly);
    if b.remaining > 0 && Eligible(b, id, synOnly) {
      TakeOk(c0, b, id);
    }
  }

  lemma {:induction false} DrainPassOk(c0: Core, b: Batch, refs: seq<SessionId>, synOnly: bool)
    requires BatchOk(c0, b)
    ensures BatchOk(c0, DrainPass(b, refs, synOnly))
    decreases |refs|
  {
    if |refs| > 0 {
      DrainOneOk(c0, b, refs[0], synOnly);
      DrainPassOk(c0, DrainOne(b, refs[0], synOnly), refs[1..], synOnly);
    }
  }

  lemma StartOk(core: Core)
    ensures BatchOk(core, StartBatch(core))
  {
    assert IdSet([]) == {};
  }

  /** A batch holds at most 48 frames, 144 when busy, and at most eight of any one session;
      it takes each session once, never one that another poll holds; it snapshots exactly
      the sessions it takes, leaves all others as they are, and drops from the ready set
      only sessions with nothing to send. */
  lemma BatchContract(core: Core, refs: seq<SessionId>)
    ensures BatchOk(core, DrainAll(core, refs))
    ensures var b := DrainAll(core, refs);
            && Total(b.parts) <= (if |core.sessions| >= 24 then 144 else 48)
            && (forall i :: 0 <= i < |b.parts| ==> 0 < |b.parts[i]| <= 8)
            && b.core.inFlight == core.inFlight + (set id | id in b.ids) && (forall id :: id in b.ids ==> id !in core.inFlight)
            && (forall id :: id in core.sessions && id !in b.ids ==>
                  id in b.core.sessions && b.core.sessions[id] == core.sessions[id])
  {
    var b0 := StartBatch(core);
    StartOk(core);
    DrainPassOk(core, b0, refs, true);
    DrainPassOk(core, DrainPass(b0, refs, true), refs, false);
    var b := DrainAll(core, refs);
    assert b.core.inFlight == core.inFlight + IdSet(b.ids);
    forall i | 0 <= i < |b.parts| ensures 0 < |b.parts[i]| <= 8 {
      assert Took(core.sessions[b.ids[i]], b.core.sessions[b.ids[i]], b.parts[i]);
    }
  }

  // ---- How much a batch takes ----------------------------------------------------------------

  /** The places a part had when its turn came. */
  function PlacesFor(c0: Core, parts: seq<seq<Frame>>, i: nat): int
    requires i < |parts|
  {
    Min(MAX_FRAMES_PER_SESSION, BatchCap(c0) - Total(parts[..i]))
  }

  /** Every session gave all it could in the places there were. */
  ghost predicate GaveAll(c0: Core, b: Batch)
    requires Books(c0, b)
  {
    forall i :: 0 <= i < |b.ids| ==>
      b.ids[i] in IdSet(b.ids)
      && TookCap(c0.sessions[b.ids[i]], b.core.sessions[b.ids[i]], b.parts[i], PlacesFor(c0, b.parts, i))
  }

  lemma TakeGaveAll(c0: Core, b: Batch, id: SessionId)
    requires BatchOk(c0, b) && GaveAll(c0, b) && b.remaining > 0 && Eligible(b, id, false)
    requires Books(c0, Take(b, id))
    ensures GaveAll(c0, Take(b, id))
  {
    hide Took, TookCap, PlacesFor, Total, Flatten, BatchCap, Shares, ReadyKept, DrainFrames, DrainState;
    var b' := Take(b, id);
    assert id !in IdSet(b.ids);
    LastTook(c0, b, id);
    forall i | 0 <= i < |b'.ids|
      ensures b'.ids[i] in IdSet(b'.ids)
      ensures TookCap(c0.sessions[b'.ids[i]], b'.core.sessions[b'.ids[i]], b'.parts[i], PlacesFor(c0, b'.parts, i))
    {
      if i < |b.ids| {
        assert b.ids[i] in IdSet(b.ids) && b'.ids[i] == b.ids[i];
        SamePlaces(c0, b.parts, b'.parts, i);
      }
    }
  }

  lemma SamePlaces(c0: Core, parts: seq<seq<Frame>>, parts': seq<seq<Frame>>, i: nat)
    requires i < |parts| && parts <= parts'
    ensures PlacesFor(c0, parts', i) == PlacesFor(c0, parts, i)
  {
    assert parts'[..i] == parts[..i];
  }

  lemma LastTook(c0: Core, b: Batch, id: SessionId)
    requires BatchOk(c0, b) && b.remaining > 0 && Eligible(b, id, false)
    ensures var b', n := Take(b, id), |b.parts|;
            && id in c0.sessions
            && TookCap(c0.sessions[id], b'.core.sessions[id], b'.parts[n], PlacesFor(c0, b'.parts, n))
  {
    hide Emitted, Advanced, FrameCount, EstFrames, ReadyKept, Took, Flatten;
    var b' := Take(b, id);
    assert id !in IdSet(b.ids);
    assert b'.parts[..|b.parts|] == b.parts;
    DrainContract(b.core.sessions[id], MAX_FRAME_PAYLOAD, ShareOf(b));
  }

  lemma OneGaveAll(c0: Core, b: Batch, id: SessionId, synOnly: bool)
    requires BatchOk(c0, b) && GaveAll(c0, b)
    ensures BatchOk(c0, DrainOne(b, id, synOnly)) && GaveAll(c0, DrainOne(b, id, synOnly))
  {
    hide Take, Shares, ReadyKept, DrainOne, PlacesFor, TookCap;
    DrainOneOk(c0, b, id, synOnly);
    DrainOneCases(b, id, synOnly);
    if b.remaining > 0 && Eligible(b, id, synOnly) {
      TakeBooks(c0, b, id);
      TakeGaveAll(c0, b, id);
    }
  }

  lemma {:induction false} PassGaveAll(c0: Core, b: Batch, refs: seq<SessionId>, synOnly: bool)
    requires BatchOk(c0, b) && GaveAll(c0, b)
    ensures BatchOk(c0, DrainPass(b, refs, synOnly)) && GaveAll(c0, DrainPass(b, refs, synOnly))
    decreases |refs|
  {
    hide Shares, ReadyKept, Books, GaveAll, BatchOk, Eligible, DrainOne;
    if |refs| > 0 {
      OneGaveAll(c0, b, refs[0], synOnly);
      PassGaveAll(c0, DrainOne(b, refs[0], synOnly), refs[1..], synOnly);
    }
  }

  lemma BatchGaveAll(core: Core, refs: seq<SessionId>)
    ensures BatchOk(core, DrainAll(core, refs)) && GaveAll(core, DrainAll(core, refs))
  {
    StartOk(core);
    PassGaveAll(core, StartBatch(core), refs, true);
    PassGaveAll(core, DrainPass(StartBatch(core), refs, true), refs, false);
  }

  /** One turn in `cap` places. */
  lemma TurnFills(t: TxState, t': TxState, part: seq<Frame>, cap: int)
    requires TookCap(t, t', part, cap)
    ensures |part| == cap || !(t'.synNeeded || t'.txBuf != [] || (t'.closeReq && !t'.finSent))
    ensures Payloads(part) + t'.txBuf == t.txBuf
    ensures forall j :: 0 <= j < |part| ==> |part[j].payload| <= 256 * 1024
    ensures forall j, k :: 0 <= j < k < |part| && part[k].payload != [] ==> |part[j].payload| == 256 * 1024
  {
    hide Emitted, Advanced, FrameCount, EstFrames, Payloads;
    DrainContract(t, MAX_FRAME_PAYLOAD, cap);
    FullBeforeLast(t, Chunk(t, MAX_FRAME_PAYLOAD), Limit(t, cap));
    assert part == Emitted(t, MAX_FRAME_PAYLOAD, cap);
    assert |part| != cap ==> !t'.Pending();
  }

  /** Nothing is held back: a session in the batch gives eight frames, or the batch is full with
      48 frames, 144 when busy, or the session has nothing more to send; and its frames carry
      256 KiB each as long as there are bytes for another. */
  lemma NothingHeldBack(core: Core, refs: seq<SessionId>, i: nat)
    requires i < |DrainAll(core, refs).parts|
    ensures var b := DrainAll(core, refs);
            && |b.ids| == |b.parts| && b.ids[i] in core.sessions && b.ids[i] in b.core.sessions
            && var part, t, t' := b.parts[i], core.sessions[b.ids[i]], b.core.sessions[b.ids[i]];
            && (|part| == 8 || |Flatten(b.parts)| == (if |core.sessions| >= 24 then 144 else 48)
                || !(t'.synNeeded || t'.txBuf != [] || (t'.closeReq && !t'.finSent)))
            && Payloads(part) + t'.txBuf == t.txBuf
            && (forall j :: 0 <= j < |part| ==> |part[j].payload| <= 256 * 1024)
            && (forall j, k :: 0 <= j < k < |part| && part[k].payload != [] ==> |part[j].payload| == 256 * 1024)
  {
    hide DrainAll, DrainFrames, DrainState, Shares, ReadyKept, TookCap;
    BatchGaveAll(core, refs);
    var b := DrainAll(core, refs);
    assert b.ids[i] in IdSet(b.ids);
    TurnFills(core.sessions[b.ids[i]], b.core.sessions[b.ids[i]], b.parts[i], PlacesFor(core, b.parts, i));
    SplitAt(b.parts, i);
  }

  lemma SplitAt(parts: seq<seq<Frame>>, i: nat)
    requires i < |parts|
    ensures |Flatten(parts)| >= |Flatten(parts[..i])| + |parts[i]|
  {
    assert parts == parts[..i] + ([parts[i]] + parts[i + 1..]);
    FlattenAppend(parts[..i], [parts[i]] + parts[i + 1..]);
    FlattenAppend([parts[i]], parts[i + 1..]);
    assert Flatten([parts[i]]) == parts[i];
  }

  // ---- Who is left out ---------------------------------------------------------------------

  /** Draining one session only ever adds that session to the batch. */
  lemma DrainOneEffect(b: Batch, id: SessionId, synOnly: bool)
    ensures var b' := DrainOne(b, id, synOnly);
            && b'.ids == (if b.remaining > 0 && Eligible(b, id, synOnly) then b.ids + [id] else b.ids)
            && (forall x :: x != id ==> (Eligible(b, x, synOnly) <==> Eligible(b', x, synOnly)))
            && (!Eligible(b, id, synOnly) ==> !Eligible(b', id, synOnly))
            && (b.remaining <= 0 ==> b' == b)
  {
    DrainOneCases(b, id, synOnly);
  }

  lemma {:induction false} NothingLeft(b: Batch, refs: seq<SessionId>, synOnly: bool)
    requires b.remaining <= 0
    ensures DrainPass(b, refs, synOnly) == b
    decreases |refs|
  {
    if |refs| > 0 {
      NothingLeft(b, refs[1..], synOnly);
    }
  }

  /** A pass keeps what it has and adds only sessions eligible at its start. */
  lemma {:induction false} PassGrows(b: Batch, refs: seq<SessionId>, synOnly: bool)
    ensures b.ids <= DrainPass(b, refs, synOnly).ids
    ensures forall y :: y in DrainPass(b, refs, synOnly).ids && y !in b.ids ==> y in refs && Eligible(b, y, synOnly)
    decreases |refs|
  {
    if |refs| > 0 {
      DrainOneEffect(b, refs[0], synOnly);
      PassGrows(DrainOne(b, refs[0], synOnly), refs[1..], synOnly);
    }
  }

  /** A session at position `i` that a pass left out although eligible: the pass ran out of
      frames, and everything it drained stands before position `i`. */
  lemma {:induction false} LeftOut(b: Batch, refs: seq<SessionId>, synOnly: bool, i: nat)
    requires i < |refs| && Eligible(b, refs[i], synOnly)
    requires refs[i] !in DrainPass(b, refs, synOnly).ids
    ensures DrainPass(b, refs, synOnly).remaining <= 0
    ensures forall y :: y in DrainPass(b, refs, synOnly).ids && y !in b.ids ==> y in refs[..i]
    decreases |refs|
  {
    hide DrainOne, Eligible;
    var b1 := DrainOne(b, refs[0], synOnly);
    DrainOneEffect(b, refs[0], synOnly);
    PassGrows(b1, refs[1..], synOnly);
    if b.remaining <= 0 {
      NothingLeft(b, refs, synOnly);
    } else {
      assert Eligible(b, refs[0], synOnly) ==> b1.ids[|b.ids|] == refs[0];
      LeftOut(b1, refs[1..], synOnly, i - 1);
      assert refs[..i] == [refs[0]] + refs[1..][..i - 1];
    }
  }

  /** `refs` lists the ready, registered sessions once each, none before a strictly older one. */
  ghost predicate OldestFirst(core: Core, refs: seq<SessionId>, age: map<SessionId, Stamp>) {
    && core.sessions.Keys <= age.Keys
    && (forall id :: id in refs <==> id in core.txReady && id in core.sessions)
    && (forall i, j :: 0 <= i < j < |refs| ==> refs[i] != refs[j])
    && (forall i, j :: 0 <= i < j < |refs| ==> !Before(age[refs[j]], age[refs[i]]))
  }

  /** A session with frames to send that this batch could have taken. */
  ghost predicate Waiting(core: Core, id: SessionId) {
    id in core.txReady && id in core.sessions && id !in core.inFlight && core.sessions[id].Pending()
  }

  /** A waiting session gets no frame only if the batch is full. */
  lemma LeftOutOnlyIfFull(core: Core, refs: seq<SessionId>, age: map<SessionId, Stamp>, x: SessionId)
    requires OldestFirst(core, refs, age) && x in core.txReady && x in core.sessions && x !in core.inFlight
    requires var t := core.sessions[x]; t.synNeeded || t.txBuf != [] || (t.closeReq && !t.finSent)
    ensures var b := DrainAll(core, refs);
            x in b.ids || |Flatten(b.parts)| == if |core.sessions| >= 24 then 144 else 48
  {
    BatchContract(core, refs);
    var b1 := DrainPass(StartBatch(core), refs, true);
    PassGrows(b1, refs, false);
    if x !in DrainAll(core, refs).ids {
      var i :| 0 <= i < |refs| && refs[i] == x;
      StillEligible(core, refs, x);
      LeftOut(b1, refs, false, i);
    }
  }

  /** The same for all of them at once. */
  lemma NoneLeftOut(core: Core, refs: seq<SessionId>, age: map<SessionId, Stamp>)
    requires OldestFirst(core, refs, age)
    ensures var b, full := DrainAll(core, refs), if |core.sessions| >= 24 then 144 else 48;
            && |Flatten(b.parts)| <= full
            && forall x :: Waiting(core, x) ==> x in b.ids || |Flatten(b.parts)| == full
  {
    hide DrainAll, OldestFirst;
    BatchContract(core, refs);
    forall x | Waiting(core, x)
      ensures x in DrainAll(core, refs).ids || |Flatten(DrainAll(core, refs).parts)| == if |core.sessions| >= 24 then 144 else 48
    {
      LeftOutOnlyIfFull(core, refs, age, x);
    }
  }

  /** Connection setup first: if a waiting SYN session gets no frame, no session without a
      pending SYN gets one. */
  lemma SynFirst(core: Core, refs: seq<SessionId>, age: map<SessionId, Stamp>, x: SessionId)
    requires OldestFirst(core, refs, age) && Waiting(core, x) && core.sessions[x].synNeeded
    ensures x in DrainAll(core, refs).ids
         || forall y :: y in DrainAll(core, refs).ids ==> y in core.sessions && core.sessions[y].synNeeded
  {
    if x in DrainAll(core, refs).ids {
      return;
    }
    var b0 := StartBatch(core);
    var b1 := DrainPass(b0, refs, true);
    PassGrows(b0, refs, true);
    PassGrows(b1, refs, false);
    var i :| 0 <= i < |refs| && refs[i] == x;
    LeftOut(b0, refs, true, i);
    NothingLeft(b1, refs, false);
  }

  /** The pass drained `y` and left out `x`, which it could have drained. */
  ghost predicate PassedOver(core: Core, refs: seq<SessionId>, x: SessionId, y: SessionId, synPass: bool)
    requires x in core.sessions
  {
    var b1, b2 := DrainPass(StartBatch(core), refs, true), DrainAll(core, refs);
    if synPass then core.sessions[x].synNeeded && x !in b1.ids && y in b1.ids
    else x !in b2.ids && y in b2.ids && y !in b1.ids
  }

  /** Oldest first: within a pass, no waiting session left out by the cap is strictly older
      than one the pass drained. */
  lemma OldestFirstWithinAPass(core: Core, refs: seq<SessionId>, age: map<SessionId, Stamp>,
                               x: SessionId, y: SessionId, synPass: bool)
    requires OldestFirst(core, refs, age) && Waiting(core, x)
    ensures PassedOver(core, refs, x, y, synPass) ==>
              y in core.sessions && (age[y] == Never || (age[x] != Never && age[y].time <= age[x].time))
  {
    var b0 := StartBatch(core);
    var b1 := DrainPass(b0, refs, true);
    if !PassedOver(core, refs, x, y, synPass) {
      return;
    }
    PassGrows(b0, refs, true);
    PassGrows(b1, refs, false);
    var i :| 0 <= i < |refs| && refs[i] == x;
    if synPass {
      LeftOut(b0, refs, true, i);
    } else {
      StillEligible(core, refs, x);
      LeftOut(b1, refs, false, i);
    }
  }

  /** A session the first pass did not take may still be taken by the second. */
  lemma StillEligible(core: Core, refs: seq<SessionId>, x: SessionId)
    requires Waiting(core, x) && x !in DrainPass(StartBatch(core), refs, true).ids
    ensures Eligible(DrainPass(StartBatch(core), refs, true), x, false)
  {
    StartOk(core);
    DrainPassOk(core, StartBatch(core), refs, true);
    assert x !in IdSet(DrainPass(StartBatch(core), refs, true).ids);
  }

  // ---- After the batch --------------------------------------------------------------------------

  /** `rollbackDrained`: every snapshotted session that is still registered is restored, and
      its callback marks it ready. */
  function RollbackAll(core: Core, snaps: map<SessionId, Snapshot>): Core {
    Core(map id | id in core.sessions ::
           if id in snaps then Rollback(core.sessions[id], Some(snaps[id])) else core.sessions[id],
         core.inFlight,
         core.txReady + (snaps.Keys * core.sessions.Keys))
  }

  /** `releaseInFlight`: the sessions are free again, and ready if they have more to send. */
  function Release(core: Core, ids: seq<SessionId>): Core {
    core.(inFlight := core.inFlight - IdSet(ids),
          txReady := core.txReady + (set id | id in ids && id in core.sessions && core.sessions[id].Pending()))
  }

  /** No registered session with frames to send is forgotten. */
  ghost predicate NoneStranded(core: Core) {
    forall id :: id in core.sessions && core.sessions[id].Pending() ==> id in core.txReady || id in core.inFlight
  }

  /** A poll that sends nothing - drain, roll back, release - forgets no session, holds none,
      and leaves a session as it found it if and only if the drain had emptied its buffer;
      sessions that were not in the batch are not touched. */
  lemma FailedPoll(core: Core, refs: seq<SessionId>)
    requires NoneStranded(core)
    ensures var b := DrainAll(core, refs);
            var end := Release(RollbackAll(b.core, b.snaps), b.ids);
            && NoneStranded(end) && end.inFlight == core.inFlight
            && end.sessions.Keys == core.sessions.Keys
            && (forall id :: id in core.sessions ==>
                  (end.sessions[id] == core.sessions[id] <==> id !in b.ids || b.core.sessions[id].txBuf == []))
  {
    BatchContract(core, refs);
    var b := DrainAll(core, refs);
    var end := Release(RollbackAll(b.core, b.snaps), b.ids);
    RollbackForgetsNone(core, b);
    forall id | id in core.sessions
      ensures end.sessions[id] == core.sessions[id] <==> id !in b.ids || b.core.sessions[id].txBuf == []
    {
      assert id in b.ids <==> id in b.snaps;
      if id in b.snaps {
        UndoOne(core, b, id);
      }
    }
  }

  lemma RollbackForgetsNone(core: Core, b: Batch)
    requires NoneStranded(core) && BatchOk(core, b)
    ensures var end := Release(RollbackAll(b.core, b.snaps), b.ids);
            NoneStranded(end) && end.inFlight == core.inFlight && end.sessions.Keys == core.sessions.Keys
  {
    var mid := RollbackAll(b.core, b.snaps);
    var end := Release(mid, b.ids);
    forall id | id in end.sessions && end.sessions[id].Pending()
      ensures id in end.txReady || id in end.inFlight
    {
      if id !in b.snaps {
        assert mid.sessions[id] == core.sessions[id];
      }
    }
  }

  lemma UndoOne(core: Core, b: Batch, id: SessionId)
    requires BatchOk(core, b) && id in b.snaps
    ensures id in core.sessions
    ensures Rollback(b.core.sessions[id], Some(b.snaps[id])) == core.sessions[id]
            <==> b.core.sessions[id].txBuf == []
  {
    hide DrainFrames, DrainState, Rollback, ReadyKept;
    assert id in IdSet(b.ids);
    var i :| 0 <= i < |b.ids| && b.ids[i] == id;
    assert Took(core.sessions[id], b.core.sessions[id], b.parts[i]);
    var cap :| TookCap(core.sessions[id], b.core.sessions[id], b.parts[i], cap);
    UndoTurn(core.sessions[id], b.core.sessions[id], b.parts[i], cap);
  }

  lemma UndoTurn(t: TxState, u: TxState, part: seq<Frame>, cap: int)
    requires TookCap(t, u, part, cap)
    ensures Rollback(u, Some(SnapshotOf(t))) == t <==> u.txBuf == []
  {
    hide Emitted, Advanced, FrameCount;
    DrainEmptiesIffFits(t, MAX_FRAME_PAYLOAD, cap);
    RollbackExactIffFits(t, MAX_FRAME_PAYLOAD, cap, []);
    AdvancedFields(t, Chunk(t, MAX_FRAME_PAYLOAD), Limit(t, cap));
    assert t.txBuf + TakenAll(u, []) == t.txBuf;
    assert FailedSend(t, MAX_FRAME_PAYLOAD, cap, []) == Rollback(u, Some(SnapshotOf(t)));
  }
}

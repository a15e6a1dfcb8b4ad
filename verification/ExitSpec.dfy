/** The exit server's scheduler on values: one client's response drained under a frame and a
    byte budget, and the clean-up of the tables that must agree. */
module ExitSpec {
  import opened Prelude
  import opened Frames
  import opened TxSpec
  import opened Drains
  import opened Sessions

  const MAX_FRAME_PAYLOAD: nat := 256 * 1024
  const MAX_FRAMES_PER_SESSION: nat := 8
  const MAX_FRAMES_PER_BATCH: nat := 48
  const BUSY_SESSION_THRESHOLD: nat := 24
  const MAX_FRAMES_PER_BATCH_BUSY: nat := 144
  const MAX_RESPONSE_BYTES: nat := 22 * 1024 * 1024
  const INITIAL_RESPONSE_BYTES: nat := 512 * 1024

  /** The most payload one session can add to a response. */
  const SESSION_BURST: nat := MAX_FRAMES_PER_SESSION * MAX_FRAME_PAYLOAD

  /** The tables under the server lock; `S` is what stands for a session. */
  datatype Tables<S> = Tables(
    sessions: map<SessionId, S>,
    owners: map<SessionId, ClientId>,
    txReady: set<SessionId>,
    firstReply: set<SessionId>,
    upstreams: set<SessionId>,
    lastActivity: map<SessionId, int>,
    pendingRSTs: map<ClientId, seq<Frame>>,
    pendingCtrl: map<ClientId, seq<Frame>>)

  /** The tables with every session's sending side. */
  type Core = Tables<TxState>

  /** The session tables have one domain, and only registered sessions await a first reply. */
  ghost predicate TablesAgree<S>(c: Tables<S>) {
    && c.owners.Keys == c.sessions.Keys && c.upstreams == c.sessions.Keys
    && c.lastActivity.Keys == c.sessions.Keys && c.firstReply <= c.sessions.Keys
  }

  /** No registered session with frames to send is forgotten. */
  ghost predicate NoneStranded(c: Core) {
    forall id :: id in c.sessions && c.sessions[id].Pending() ==> id in c.txReady
  }

  // ---- One drain ---------------------------------------------------------------------------

  /** A response in the making: `parts[i]` are the frames taken from session `ids[i]`. */
  datatype Reply = Reply(core: Core, ids: seq<SessionId>, parts: seq<seq<Frame>>,
                         remaining: int, remainingBytes: int, urgent: bool)

  function BatchCap<S>(c: Tables<S>): nat {
    if |c.sessions| >= BUSY_SESSION_THRESHOLD then MAX_FRAMES_PER_BATCH_BUSY else MAX_FRAMES_PER_BATCH
  }

  function ShareOf(r: Reply): int {
    Min(MAX_FRAMES_PER_SESSION, r.remaining)
  }

  /** A first reply is cut into smaller chunks so that its burst stays small. */
  function ChunkFor(first: bool, cap: int, initial: int): int
    requires cap > 0
  {
    var firstPayload := (initial + cap - 1) / cap;
    if first && 0 < firstPayload < MAX_FRAME_PAYLOAD then firstPayload else MAX_FRAME_PAYLOAD
  }

  function Take(r: Reply, id: SessionId, initial: int, now: int): Reply
    requires id in r.core.sessions && ShareOf(r) > 0
  {
    var c, t, cap := r.core, r.core.sessions[id], ShareOf(r);
    var chunk := ChunkFor(id in c.firstReply, cap, initial);
    var frames, t' := DrainFrames(t, chunk, cap), DrainState(t, chunk, cap);
    var c1 := c.(sessions := c.sessions[id := t'], txReady := if t'.Pending() then c.txReady else c.txReady - {id});
    if |frames| == 0 then r.(core := c1)
    else Reply(c1.(firstReply := c.firstReply - {id}, lastActivity := c.lastActivity[id := now]),
               r.ids + [id], r.parts + [frames],
               r.remaining - |frames|, r.remainingBytes - |Payloads(frames)|,
               r.urgent || id in c.firstReply)
  }

  /** One session's turn; once a budget is used up the remaining turns change nothing. */
  function DrainOne(r: Reply, id: SessionId, initial: int, now: int): Reply {
    if r.remaining <= 0 || r.remainingBytes <= 0 then r
    else if id !in r.core.sessions then r.(core := r.core.(txReady := r.core.txReady - {id}))
    else Take(r, id, initial, now)
  }

  function DrainPass(r: Reply, refs: seq<SessionId>, initial: int, now: int): Reply
    decreases |refs|
  {
    if |refs| == 0 then r else DrainPass(DrainOne(r, refs[0], initial, now), refs[1..], initial, now)
  }

  function QueuedFor(q: map<ClientId, seq<Frame>>, owner: ClientId): seq<Frame> {
    if owner in q then q[owner] else []
  }

  /** What was queued for this client besides session data: control replies, then resets. */
  function Control<S>(c: Tables<S>, owner: ClientId): seq<Frame> {
    QueuedFor(c.pendingCtrl, owner) + QueuedFor(c.pendingRSTs, owner)
  }

  function Flush(q: map<ClientId, seq<Frame>>, owner: ClientId): map<ClientId, seq<Frame>> {
    if |QueuedFor(q, owner)| > 0 then q - {owner} else q
  }

  function StartReply(c: Core, owner: ClientId, budget: int): Reply {
    Reply(c.(txReady := c.txReady * c.sessions.Keys,
             pendingCtrl := Flush(c.pendingCtrl, owner), pendingRSTs := Flush(c.pendingRSTs, owner)),
          [], [], BatchCap(c), budget, |Control(c, owner)| > 0)
  }

  /** `refs` lists this client's ready sessions, oldest first. */
  function DrainAll(c: Core, owner: ClientId, budget: int, refs: seq<SessionId>, initial: int, now: int): Reply {
    DrainPass(StartReply(c, owner, budget), refs, initial, now)
  }

  function SessionFrames(r: Reply): seq<Frame> {
    Flatten(r.parts)
  }

  // ---- Budgets --------------------------------------------------------------------------------

  lemma {:induction false} PayloadBound(fs: seq<Frame>, p: nat)
    requires forall i :: 0 <= i < |fs| ==> |fs[i].payload| <= p
    ensures |Payloads(fs)| <= |fs| * p
  {
    if |fs| > 0 {
      PayloadBound(fs[1..], p);
      PayloadsAppend([fs[0]], fs[1..]);
      PayloadsSingle(fs[0]);
      assert fs == [fs[0]] + fs[1..];
      assert |fs| * p == p + (|fs| - 1) * p;
    } else {
      assert Payloads(fs) == [];
    }
  }

  lemma ChunkForBounds(first: bool, cap: int, initial: int)
    requires 0 < cap <= MAX_FRAMES_PER_SESSION && initial > 0
    ensures 0 < ChunkFor(first, cap, initial) <= MAX_FRAME_PAYLOAD
    ensures cap * ChunkFor(first, cap, initial) <= SESSION_BURST
    ensures first ==> cap * ChunkFor(first, cap, initial) <= initial + cap - 1
  {
    var chunk := ChunkFor(first, cap, initial);
    var firstPayload := (initial + cap - 1) / cap;
    assert firstPayload == CeilDiv(initial, cap);
    CeilDivFits(initial, cap, 0);
    MulMono(cap, MAX_FRAMES_PER_SESSION, chunk);
    MulMono(chunk, MAX_FRAME_PAYLOAD, MAX_FRAMES_PER_SESSION);
    if first {
      MulMono(chunk, firstPayload, cap);
    }
  }

  /** What one session's turn adds: at most eight frames and one burst; a first reply at most
      the configured initial size and less than one byte per frame more. */
  lemma TurnBound(t: TxState, first: bool, cap: int, initial: int)
    requires 0 < cap <= MAX_FRAMES_PER_SESSION && initial > 0
    ensures var frames := DrainFrames(t, ChunkFor(first, cap, initial), cap);
            && |frames| <= cap
            && |Payloads(frames)| <= SESSION_BURST
            && (first ==> |Payloads(frames)| <= initial + cap - 1)
  {
    hide DrainFrames, DrainState, EstFrames, ChunkFor;
    var chunk := ChunkFor(first, cap, initial);
    ChunkForBounds(first, cap, initial);
    var frames := DrainFrames(t, chunk, cap);
    DrainContract(t, chunk, cap);
    PayloadBound(frames, chunk);
    MulMono(|frames|, cap, chunk);
  }

  ghost predicate BudgetsKept(r0: Reply, r: Reply) {
    && r0.ids <= r.ids && r0.parts <= r.parts && |r.ids| == |r.parts|
    && r.remaining == r0.remaining - (|SessionFrames(r)| - |SessionFrames(r0)|) >= 0
    && r.remainingBytes == r0.remainingBytes - (|Payloads(SessionFrames(r))| - |Payloads(SessionFrames(r0))|)
    && (r.remainingBytes == r0.remainingBytes || r.remainingBytes + SESSION_BURST > 0)
  }

  lemma TurnBudgets(r0: Reply, r: Reply, id: SessionId, initial: int, now: int)
    requires BudgetsKept(r0, r) && initial > 0
    ensures BudgetsKept(r0, DrainOne(r, id, initial, now))
  {
    if r.remaining > 0 && r.remainingBytes > 0 && id in r.core.sessions {
      var cap := ShareOf(r);
      var frames := DrainFrames(r.core.sessions[id], ChunkFor(id in r.core.firstReply, cap, initial), cap);
      TurnBound(r.core.sessions[id], id in r.core.firstReply, cap, initial);
      FlattenAppend(r.parts, [frames]);
      assert Flatten([frames]) == frames;
      PayloadsAppend(SessionFrames(r), frames);
    }
  }

  lemma {:induction false} PassBudgets(r0: Reply, r: Reply, refs: seq<SessionId>, initial: int, now: int)
    requires BudgetsKept(r0, r) && initial > 0
    ensures BudgetsKept(r0, DrainPass(r, refs, initial, now))
    decreases |refs|
  {
    if |refs| > 0 {
      TurnBudgets(r0, r, refs[0], initial, now);
      PassBudgets(r0, DrainOne(r, refs[0], initial, now), refs[1..], initial, now);
    }
  }

  /** One drain stays within its frame cap, and overshoots its byte budget by less than one
      session's burst. */
  lemma DrainWithinBudget(c: Core, owner: ClientId, budget: int, refs: seq<SessionId>, initial: int, now: int)
    requires initial > 0
    ensures var r := DrainAll(c, owner, budget, refs, initial, now);
            && |SessionFrames(r)| <= (if |c.sessions| >= 24 then 144 else 48)
            && |Payloads(SessionFrames(r))| <= Max(0, budget - 1 + SESSION_BURST)
            && r.remainingBytes == budget - |Payloads(SessionFrames(r))|
            && (budget <= 0 ==> |Payloads(SessionFrames(r))| == 0)
  {
    var r0 := StartReply(c, owner, budget);
    assert SessionFrames(r0) == [] && Payloads([]) == [];
    PassBudgets(r0, r0, refs, initial, now);
    if budget <= 0 {
      SpentPass(r0, refs, initial, now);
    }
  }

  lemma {:induction false} SpentPass(r: Reply, refs: seq<SessionId>, initial: int, now: int)
    requires r.remaining <= 0 || r.remainingBytes <= 0
    ensures DrainPass(r, refs, initial, now) == r
    decreases |refs|
  {
    if |refs| > 0 {
      SpentPass(r, refs[1..], initial, now);
    }
  }

  // ---- A whole response ----------------------------------------------------------------------------

  /** One of the drains a response is coalesced from: the tables as that drain finds them. */
  datatype Round = Round(core: Core, refs: seq<SessionId>, now: int)

  /** What has been gathered for a response, and how many of its payload bytes are session data. */
  datatype Response = Response(frames: seq<Frame>, sessionBytes: nat) {
    function TotalBytes(): nat {
      |Payloads(frames)|
    }
  }

  const NO_RESPONSE := Response([], 0)

  /** A further drain gets what is left of the byte budget, control payloads counted too. */
  function NextRound(sofar: Response, round: Round, owner: ClientId, initial: int): Response {
    var r := DrainAll(round.core, owner, MAX_RESPONSE_BYTES - sofar.TotalBytes(), round.refs, initial, round.now);
    Response(sofar.frames + (Control(round.core, owner) + SessionFrames(r)),
             sofar.sessionBytes + |Payloads(SessionFrames(r))|)
  }

  /** The coalesce loop ends when its rounds do or nothing is left of the budget. */
  function Coalesce(sofar: Response, rounds: seq<Round>, owner: ClientId, initial: int): Response
    decreases |rounds|
  {
    if |rounds| == 0 || sofar.TotalBytes() >= MAX_RESPONSE_BYTES then sofar
    else Coalesce(NextRound(sofar, rounds[0], owner, initial), rounds[1..], owner, initial)
  }

  ghost predicate WithinBound(r: Response) {
    r.sessionBytes <= r.TotalBytes() && r.sessionBytes <= MAX_RESPONSE_BYTES - 1 + SESSION_BURST
  }

  lemma RoundBound(sofar: Response, round: Round, owner: ClientId, initial: int)
    requires initial > 0 && WithinBound(sofar) && sofar.TotalBytes() < MAX_RESPONSE_BYTES
    ensures WithinBound(NextRound(sofar, round, owner, initial))
  {
    hide DrainAll;
    var r := DrainAll(round.core, owner, MAX_RESPONSE_BYTES - sofar.TotalBytes(), round.refs, initial, round.now);
    DrainWithinBudget(round.core, owner, MAX_RESPONSE_BYTES - sofar.TotalBytes(), round.refs, initial, round.now);
    PayloadsAppend(Control(round.core, owner), SessionFrames(r));
    PayloadsAppend(sofar.frames, Control(round.core, owner) + SessionFrames(r));
  }

  lemma {:induction false} CoalesceBound(sofar: Response, rounds: seq<Round>, owner: ClientId, initial: int)
    requires initial > 0 && WithinBound(sofar)
    ensures WithinBound(Coalesce(sofar, rounds, owner, initial))
    decreases |rounds|
  {
    if |rounds| > 0 && sofar.TotalBytes() < MAX_RESPONSE_BYTES {
      RoundBound(sofar, rounds[0], owner, initial);
      CoalesceBound(NextRound(sofar, rounds[0], owner, initial), rounds[1..], owner, initial);
    }
  }

  /** However many drains a response is coalesced from, and whatever happens to the tables in
      between, its session payload is at most 22 MiB - 1 + 8 * 256 KiB. */
  lemma ResponseByteBound(rounds: seq<Round>, owner: ClientId, initial: int)
    requires initial > 0
    ensures Coalesce(NO_RESPONSE, rounds, owner, initial).sessionBytes
            <= 22 * 1024 * 1024 - 1 + 8 * 256 * 1024
  {
    assert Payloads([]) == [];
    CoalesceBound(NO_RESPONSE, rounds, owner, initial);
  }

  // ---- The tables ---------------------------------------------------------------------------------

  /** What a drain keeps. */
  ghost predicate TablesKept(c: Core, r: Reply) {
    && r.core.sessions.Keys == c.sessions.Keys && r.core.owners == c.owners && r.core.upstreams == c.upstreams
    && (TablesAgree(c) ==> TablesAgree(r.core))
    && (NoneStranded(c) ==> NoneStranded(r.core))
  }

  /** Whom it serves: only this client's sessions, each once, at most eight frames each, a
      first reply small, and a response with a first reply in it urgent. */
  ghost predicate Serves(c: Core, owner: ClientId, initial: int, r: Reply) {
    && |r.ids| == |r.parts|
    && (forall i :: 0 <= i < |r.ids| ==> Served(c, owner, initial, r.ids[i], r.parts[i]))
    && (forall id :: id in c.firstReply <==> id in r.core.firstReply || (id in c.firstReply && id in r.ids))
    && (forall id :: id in r.core.firstReply ==> id !in r.ids)
    && (forall id :: id in r.ids && id in c.firstReply ==> r.urgent)
  }

  ghost predicate Served(c: Core, owner: ClientId, initial: int, id: SessionId, part: seq<Frame>) {
    && id in c.owners && c.owners[id] == owner && 0 < |part| <= MAX_FRAMES_PER_SESSION
    && (id in c.firstReply ==> |Payloads(part)| <= initial + MAX_FRAMES_PER_SESSION - 1)
  }

  lemma TurnKept(c: Core, r: Reply, id: SessionId, initial: int, now: int)
    requires TablesKept(c, r)
    ensures TablesKept(c, DrainOne(r, id, initial, now))
  {
    hide Emitted, Advanced, ChunkFor, Payloads;
    if r.remaining > 0 && r.remainingBytes > 0 && id in r.core.sessions {
      var cap := ShareOf(r);
      DrainContract(r.core.sessions[id], ChunkFor(id in r.core.firstReply, cap, initial), cap);
    }
  }

  lemma TurnServes(c: Core, owner: ClientId, r: Reply, id: SessionId, initial: int, now: int)
    requires Serves(c, owner, initial, r) && initial > 0
    requires id in c.owners && c.owners[id] == owner && id !in r.ids
    ensures Serves(c, owner, initial, DrainOne(r, id, initial, now))
    ensures DrainOne(r, id, initial, now).ids == r.ids || DrainOne(r, id, initial, now).ids == r.ids + [id]
  {
    if r.remaining > 0 && r.remainingBytes > 0 && id in r.core.sessions {
      var cap := ShareOf(r);
      var frames := DrainFrames(r.core.sessions[id], ChunkFor(id in r.core.firstReply, cap, initial), cap);
      TurnBound(r.core.sessions[id], id in r.core.firstReply, cap, initial);
      assert |frames| > 0 ==> Served(c, owner, initial, id, frames);
    }
  }

  ghost predicate RefsOk(c: Core, owner: ClientId, refs: seq<SessionId>) {
    && (forall id :: id in refs ==> id in c.owners && c.owners[id] == owner)
    && (forall i, j :: 0 <= i < j < |refs| ==> refs[i] != refs[j])
  }

  lemma {:induction false} PassOk(c: Core, owner: ClientId, r: Reply, refs: seq<SessionId>, initial: int, now: int)
    requires TablesKept(c, r) && Serves(c, owner, initial, r) && initial > 0
    requires RefsOk(c, owner, refs) && forall id :: id in refs ==> id !in r.ids
    ensures TablesKept(c, DrainPass(r, refs, initial, now))
    ensures Serves(c, owner, initial, DrainPass(r, refs, initial, now))
    decreases |refs|
  {
    if |refs| > 0 {
      TurnKept(c, r, refs[0], initial, now);
      TurnServes(c, owner, r, refs[0], initial, now);
      assert forall id :: id in refs[1..] ==> id in refs && id != refs[0];
      PassOk(c, owner, DrainOne(r, refs[0], initial, now), refs[1..], initial, now);
    }
  }

  /** A drain serves its own client only, keeps the tables in agreement, strands no session
      however it is cut short by frame or byte caps, and keeps every first reply small. */
  lemma DrainKeepsTables(c: Core, owner: ClientId, budget: int, refs: seq<SessionId>, initial: int, now: int)
    requires initial > 0 && RefsOk(c, owner, refs)
    ensures TablesKept(c, DrainAll(c, owner, budget, refs, initial, now))
    ensures Serves(c, owner, initial, DrainAll(c, owner, budget, refs, initial, now))
  {
    PassOk(c, owner, StartReply(c, owner, budget), refs, initial, now);
  }

  // ---- Who is left out ----------------------------------------------------------------------------

  /** `refs` lists exactly the client's ready, registered sessions, once each, none before a
      strictly older one. */
  ghost predicate ReadyInOrder(c: Core, owner: ClientId, refs: seq<SessionId>, age: map<SessionId, Stamp>) {
    && c.sessions.Keys <= age.Keys
    && (forall id :: id in refs <==> id in c.txReady && id in c.sessions && id in c.owners && c.owners[id] == owner)
    && (forall i, j :: 0 <= i < j < |refs| ==> refs[i] != refs[j])
    && (forall i, j :: 0 <= i < j < |refs| ==> !Before(age[refs[j]], age[refs[i]]))
  }

  /** The session has a turn that yields frames. */
  predicate Eligible(r: Reply, id: SessionId) {
    id in r.core.sessions && r.core.sessions[id].Pending()
  }

  /** A session drained to the end forgets since when it had frames queued. */
  function Aged(age: map<SessionId, Stamp>, r: Reply, r': Reply, id: SessionId): map<SessionId, Stamp> {
    if Eligible(r, id) && !Eligible(r', id) then age[id := Never] else age
  }

  lemma AgedByTurn(age: map<SessionId, Stamp>, r: Reply, id: SessionId, initial: int, now: int)
    requires id in r.core.sessions && ShareOf(r) > 0
    ensures var t := r.core.sessions[id];
            var t' := DrainState(t, ChunkFor(id in r.core.firstReply, ShareOf(r), initial), ShareOf(r));
            Aged(age, r, Take(r, id, initial, now), id) == if t.Pending() && !t'.Pending() then age[id := Never] else age
  {
    hide DrainFrames, DrainState, ChunkFor, Payloads;
  }

  function PassAges(age: map<SessionId, Stamp>, r: Reply, refs: seq<SessionId>, initial: int, now: int): map<SessionId, Stamp>
    decreases |refs|
  {
    if |refs| == 0 then age
    else
      var r1 := DrainOne(r, refs[0], initial, now);
      PassAges(Aged(age, r, r1, refs[0]), r1, refs[1..], initial, now)
  }

  /** Once a budget is used up no age changes either. */
  lemma {:induction false} SpentAges(age: map<SessionId, Stamp>, r: Reply, refs: seq<SessionId>, initial: int, now: int)
    requires r.remaining <= 0 || r.remainingBytes <= 0
    ensures PassAges(age, r, refs, initial, now) == age
    decreases |refs|
  {
    if |refs| > 0 {
      SpentAges(age, r, refs[1..], initial, now);
    }
  }

  /** A turn adds its own session to the reply exactly when the budgets last and it has frames
      to send, and leaves all others eligible or not as they were. */
  lemma TurnEffect(r: Reply, id: SessionId, initial: int, now: int)
    ensures var r' := DrainOne(r, id, initial, now);
            && r'.ids == (if r.remaining > 0 && r.remainingBytes > 0 && Eligible(r, id) then r.ids + [id] else r.ids)
            && (forall x :: x != id ==> (Eligible(r, x) <==> Eligible(r', x)))
            && (r.remaining <= 0 || r.remainingBytes <= 0 ==> r' == r)
  {
    hide Emitted, Advanced, ChunkFor, Payloads;
    if r.remaining > 0 && r.remainingBytes > 0 && id in r.core.sessions {
      var cap := ShareOf(r);
      DrainContract(r.core.sessions[id], ChunkFor(id in r.core.firstReply, cap, initial), cap);
    }
  }

  lemma {:induction false} PassGrows(r: Reply, refs: seq<SessionId>, initial: int, now: int)
    ensures r.ids <= DrainPass(r, refs, initial, now).ids
    ensures forall y :: y in DrainPass(r, refs, initial, now).ids && y !in r.ids ==> y in refs
    decreases |refs|
  {
    hide DrainOne, Eligible;
    if |refs| > 0 {
      TurnEffect(r, refs[0], initial, now);
      PassGrows(DrainOne(r, refs[0], initial, now), refs[1..], initial, now);
    }
  }

  /** A session with frames to send at position `i` gets none only because a budget ran out,
      and then everything that was served stands before position `i`. */
  lemma {:induction false} LeftOut(r: Reply, refs: seq<SessionId>, initial: int, now: int, i: nat)
    requires i < |refs| && Eligible(r, refs[i]) && refs[i] !in DrainPass(r, refs, initial, now).ids
    ensures var end := DrainPass(r, refs, initial, now); end.remaining <= 0 || end.remainingBytes <= 0
    ensures forall y :: y in DrainPass(r, refs, initial, now).ids && y !in r.ids ==> y in refs[..i]
    decreases |refs|
  {
    hide DrainOne, Eligible;
    var r1 := DrainOne(r, refs[0], initial, now);
    TurnEffect(r, refs[0], initial, now);
    PassGrows(r1, refs[1..], initial, now);
    if r.remaining <= 0 || r.remainingBytes <= 0 {
      SpentPass(r, refs, initial, now);
    } else {
      assert Eligible(r, refs[0]) ==> r1.ids[|r.ids|] == refs[0];
      LeftOut(r1, refs[1..], initial, now, i - 1);
      assert refs[..i] == [refs[0]] + refs[1..][..i - 1];
    }
  }

  /** Oldest first: a ready session of the client with frames to send gets none only if a
      budget ran out, and then no session that was served is strictly younger. */
  lemma LeftOutOnlyBehindOlder(c: Core, owner: ClientId, budget: int, refs: seq<SessionId>,
                               age: map<SessionId, Stamp>, initial: int, now: int, x: SessionId)
    requires ReadyInOrder(c, owner, refs, age)
    requires x in c.txReady && x in c.sessions && x in c.owners && c.owners[x] == owner && c.sessions[x].Pending()
    ensures var r := DrainAll(c, owner, budget, refs, initial, now);
            x in r.ids || ((r.remaining <= 0 || r.remainingBytes <= 0)
                           && forall y :: y in r.ids ==>
                                y in c.sessions && (age[y] == Never || (age[x] != Never && age[y].time <= age[x].time)))
  {
    var r0 := StartReply(c, owner, budget);
    PassGrows(r0, refs, initial, now);
    if x !in DrainAll(c, owner, budget, refs, initial, now).ids {
      var i :| 0 <= i < |refs| && refs[i] == x;
      LeftOut(r0, refs, initial, now, i);
    }
  }

  // ---- How much it takes ---------------------------------------------------------------------------

  /** The places a part had when its turn came. */
  function PlacesFor(c: Core, parts: seq<seq<Frame>>, i: nat): int
    requires i < |parts|
  {
    Min(MAX_FRAMES_PER_SESSION, BatchCap(c) - |Flatten(parts[..i])|)
  }

  /** A session gave all it could in `k` places. */
  ghost predicate GaveAll(t: TxState, t': TxState, first: bool, part: seq<Frame>, k: int, initial: int) {
    0 < k <= MAX_FRAMES_PER_SESSION && part == DrainFrames(t, ChunkFor(first, k, initial), k)
    && t' == DrainState(t, ChunkFor(first, k, initial), k)
  }

  /** How far a drain of these tables has come. */
  ghost predicate Progress(c: Core, initial: int, r: Reply) {
    && r.core.sessions.Keys == c.sessions.Keys && |r.ids| == |r.parts|
    && r.remaining == BatchCap(c) - |Flatten(r.parts)|
    && (forall i, j :: 0 <= i < j < |r.ids| ==> r.ids[i] != r.ids[j])
    && (forall id :: id in c.sessions && id !in r.ids ==>
          r.core.sessions[id] == c.sessions[id] && (id in r.core.firstReply <==> id in c.firstReply))
    && (forall i :: 0 <= i < |r.ids| ==> r.ids[i] in c.sessions && GaveAt(c, initial, r, i))
  }

  ghost predicate GaveAt(c: Core, initial: int, r: Reply, i: nat)
    requires i < |r.ids| == |r.parts|
  {
    && r.ids[i] in c.sessions && r.ids[i] in r.core.sessions
    && GaveAll(c.sessions[r.ids[i]], r.core.sessions[r.ids[i]], r.ids[i] in c.firstReply, r.parts[i],
               PlacesFor(c, r.parts, i), initial)
  }

  lemma TurnProgress(c: Core, initial: int, r: Reply, id: SessionId, now: int)
    requires Progress(c, initial, r) && id !in r.ids
    ensures Progress(c, initial, DrainOne(r, id, initial, now))
    ensures var r' := DrainOne(r, id, initial, now); r'.ids == r.ids || r'.ids == r.ids + [id]
  {
    hide Emitted, Advanced, ChunkFor, Payloads, Flatten, GaveAll, GaveAt, PlacesFor, BatchCap, FrameCount, EstFrames;
    var r' := DrainOne(r, id, initial, now);
    if r.remaining > 0 && r.remainingBytes > 0 && id in r.core.sessions {
      var k, t := ShareOf(r), r.core.sessions[id];
      var chunk := ChunkFor(id in r.core.firstReply, k, initial);
      NothingTaken(t, chunk, k);
      GaveNow(t, id in c.firstReply, k, initial);
      if |DrainFrames(t, chunk, k)| > 0 {
        ServedProgress(c, initial, r, r', id, DrainFrames(t, chunk, k));
      } else {
        SameProgress(c, initial, r, r');
      }
    } else {
      SameProgress(c, initial, r, r');
    }
  }

  lemma SameProgress(c: Core, initial: int, r: Reply, r': Reply)
    requires Progress(c, initial, r)
    requires r'.ids == r.ids && r'.parts == r.parts && r'.remaining == r.remaining
    requires r'.core.sessions == r.core.sessions && r'.core.firstReply == r.core.firstReply
    ensures Progress(c, initial, r')
  {
    hide GaveAll, PlacesFor, BatchCap, Flatten;
    forall i | 0 <= i < |r'.ids| ensures GaveAt(c, initial, r', i) {
      assert GaveAt(c, initial, r, i);
    }
  }

  lemma ServedProgress(c: Core, initial: int, r: Reply, r': Reply, id: SessionId, part: seq<Frame>)
    requires Progress(c, initial, r) && id !in r.ids && id in r.core.sessions && id in r'.core.sessions
    requires r'.ids == r.ids + [id] && r'.parts == r.parts + [part] && r'.remaining == r.remaining - |part|
    requires r'.core.sessions == r.core.sessions[id := r'.core.sessions[id]]
    requires r'.core.firstReply == r.core.firstReply - {id}
    requires GaveAll(r.core.sessions[id], r'.core.sessions[id], id in c.firstReply, part,
                     Min(MAX_FRAMES_PER_SESSION, r.remaining), initial)
    ensures Progress(c, initial, r')
  {
    hide GaveAll, PlacesFor, BatchCap, Flatten;
    OneMorePart(c, r.parts, part, r.remaining);
    forall i | 0 <= i < |r'.ids| ensures r'.ids[i] in c.sessions && GaveAt(c, initial, r', i) {
      if i < |r.ids| {
        assert GaveAt(c, initial, r, i);
        SamePlaces(c, r.parts, r'.parts, i);
      }
    }
  }

  lemma GaveNow(t: TxState, first: bool, k: int, initial: int)
    requires 0 < k <= MAX_FRAMES_PER_SESSION
    ensures var chunk := ChunkFor(first, k, initial);
            GaveAll(t, DrainState(t, chunk, k), first, DrainFrames(t, chunk, k), k, initial)
  {
  }

  lemma NothingTaken(t: TxState, chunk: int, k: int)
    ensures |DrainFrames(t, chunk, k)| == 0 ==> DrainState(t, chunk, k) == t
  {
    DrainContract(t, chunk, k);
  }

  lemma SamePlaces(c: Core, parts: seq<seq<Frame>>, parts': seq<seq<Frame>>, i: nat)
    requires i < |parts| && parts <= parts'
    ensures PlacesFor(c, parts', i) == PlacesFor(c, parts, i)
  {
    assert parts'[..i] == parts[..i];
  }

  lemma OneMorePart(c: Core, parts: seq<seq<Frame>>, part: seq<Frame>, remaining: int)
    requires remaining == BatchCap(c) - |Flatten(parts)|
    ensures |Flatten(parts + [part])| == |Flatten(parts)| + |part|
    ensures PlacesFor(c, parts + [part], |parts|) == Min(MAX_FRAMES_PER_SESSION, remaining)
  {
    FlattenAppend(parts, [part]);
    assert Flatten([part]) == part;
    assert (parts + [part])[..|parts|] == parts;
  }

  lemma {:induction false} PassProgress(c: Core, initial: int, r: Reply, refs: seq<SessionId>, now: int)
    requires Progress(c, initial, r) && forall id :: id in refs ==> id !in r.ids
    requires forall i, j :: 0 <= i < j < |refs| ==> refs[i] != refs[j]
    ensures Progress(c, initial, DrainPass(r, refs, initial, now))
    decreases |refs|
  {
    hide Progress, DrainOne;
    if |refs| > 0 {
      TurnProgress(c, initial, r, refs[0], now);
      assert forall id :: id in refs[1..] ==> id in refs && id != refs[0];
      PassProgress(c, initial, DrainOne(r, refs[0], initial, now), refs[1..], now);
    }
  }

  /** What `k` places are enough for. */
  lemma TurnFills(t: TxState, t': TxState, first: bool, part: seq<Frame>, k: int, initial: int)
    requires GaveAll(t, t', first, part, k, initial) && initial > 0
    ensures 0 < k && (|part| == k || !(t'.synNeeded || t'.txBuf != [] || (t'.closeReq && !t'.finSent)))
    ensures Payloads(part) + t'.txBuf == t.txBuf
    ensures |Payloads(part)| >= Min(|t.txBuf|, if first then Min(initial, k * (256 * 1024)) else k * (256 * 1024))
    ensures !first ==> forall j, l :: 0 <= j < l < |part| && part[l].payload != [] ==> |part[j].payload| == 256 * 1024
  {
    hide Emitted, Advanced, FrameCount, EstFrames, Payloads, ChunkFor;
    var chunk := ChunkFor(first, k, initial);
    ChunkForEnough(first, k, initial);
    DrainContract(t, chunk, k);
    assert |part| != k ==> !t'.Pending();
    assert t' == Advanced(t, chunk, k) && part == Emitted(t, chunk, k);
    assert |Payloads(part)| + |t'.txBuf| == |t.txBuf|;
    assert |t'.txBuf| == 0 || |Payloads(part)| >= k * chunk by {
      BytesLeft(t, chunk, k);
    }
    FullBeforeLast(t, chunk, k);
    forall j, l | !first && 0 <= j < l < |part| && part[l].payload != [] ensures |part[j].payload| == 256 * 1024 {
      assert Emitted(t, chunk, k)[l].payload != [] && |Emitted(t, chunk, k)[j].payload| == chunk;
    }
  }

  lemma ChunkForEnough(first: bool, k: int, initial: int)
    requires 0 < k && initial > 0
    ensures var chunk := ChunkFor(first, k, initial);
            && chunk > 0 && (!first ==> chunk == 256 * 1024)
            && k * chunk >= if first then Min(initial, k * (256 * 1024)) else k * (256 * 1024)
  {
    var firstPayload := (initial + k - 1) / k;
    assert firstPayload == CeilDiv(initial, k);
    CeilDivFits(initial, k, 0);
    CeilDivFits(initial, k, firstPayload);
    assert firstPayload * k == k * firstPayload;
  }

  /** Nothing is held back: a session that is served in `k` places - eight, or as many as are
      left of 48, 144 when busy - fills them or has nothing more to send, and gives at least the
      bytes they hold at 256 KiB each, or for a first reply the configured initial size. */
  lemma NothingHeldBack(c: Core, owner: ClientId, budget: int, refs: seq<SessionId>, initial: int, now: int, i: nat)
    requires initial > 0 && forall i, j :: 0 <= i < j < |refs| ==> refs[i] != refs[j]
    requires i < |DrainAll(c, owner, budget, refs, initial, now).parts|
    ensures var r := DrainAll(c, owner, budget, refs, initial, now);
            && |r.ids| == |r.parts| && r.ids[i] in c.sessions && r.ids[i] in r.core.sessions
            && var part, t, t' := r.parts[i], c.sessions[r.ids[i]], r.core.sessions[r.ids[i]];
               var k := Min(8, (if |c.sessions| >= 24 then 144 else 48) - |Flatten(r.parts[..i])|);
            && k > 0 && (|part| == k || !(t'.synNeeded || t'.txBuf != [] || (t'.closeReq && !t'.finSent)))
            && Payloads(part) + t'.txBuf == t.txBuf
            && |Payloads(part)| >=
               Min(|t.txBuf|, if r.ids[i] in c.firstReply then Min(initial, k * (256 * 1024)) else k * (256 * 1024))
            && (r.ids[i] !in c.firstReply ==>
                  forall j, l :: 0 <= j < l < |part| && part[l].payload != [] ==> |part[j].payload| == 256 * 1024)
  {
    hide DrainPass, GaveAll, Payloads;
    PassProgress(c, initial, StartReply(c, owner, budget), refs, now);
    var r := DrainAll(c, owner, budget, refs, initial, now);
    assert GaveAt(c, initial, r, i);
    TurnFills(c.sessions[r.ids[i]], r.core.sessions[r.ids[i]], r.ids[i] in c.firstReply, r.parts[i],
              PlacesFor(c, r.parts, i), initial);
  }

  /** A ready session of the client with frames to send is served unless the frames are full or
      the byte budget is used up. */
  lemma LeftOutOnlyIfSpent(c: Core, owner: ClientId, budget: int, refs: seq<SessionId>,
                           age: map<SessionId, Stamp>, initial: int, now: int, x: SessionId)
    requires initial > 0 && ReadyInOrder(c, owner, refs, age)
    requires x in c.txReady && x in c.sessions && x in c.owners && c.owners[x] == owner
    requires var t := c.sessions[x]; t.synNeeded || t.txBuf != [] || (t.closeReq && !t.finSent)
    ensures var r := DrainAll(c, owner, budget, refs, initial, now);
            || x in r.ids || |SessionFrames(r)| == (if |c.sessions| >= 24 then 144 else 48)
            || |Payloads(SessionFrames(r))| >= budget
  {
    hide DrainAll, Payloads, DrainPass;
    LeftOutOnlyBehindOlder(c, owner, budget, refs, age, initial, now, x);
    DrainWithinBudget(c, owner, budget, refs, initial, now);
    FramesLeft(c, owner, budget, refs, initial, now);
  }

  lemma FramesLeft(c: Core, owner: ClientId, budget: int, refs: seq<SessionId>, initial: int, now: int)
    requires initial > 0
    ensures var r := DrainAll(c, owner, budget, refs, initial, now);
            r.remaining == (if |c.sessions| >= 24 then 144 else 48) - |SessionFrames(r)|
  {
    hide DrainPass;
    var r0 := StartReply(c, owner, budget);
    assert SessionFrames(r0) == [];
    PassBudgets(r0, r0, refs, initial, now);
  }

  /** A session that is not listed is left as it is. */
  lemma {:induction false} PassLeaves(r: Reply, refs: seq<SessionId>, initial: int, now: int, x: SessionId)
    requires x !in refs
    ensures var end := DrainPass(r, refs, initial, now);
            && (x in end.ids <==> x in r.ids) && (x in end.core.sessions <==> x in r.core.sessions)
            && (x in r.core.sessions ==> end.core.sessions[x] == r.core.sessions[x])
    decreases |refs|
  {
    hide Emitted, Advanced, ChunkFor, Payloads;
    if |refs| > 0 {
      PassLeaves(DrainOne(r, refs[0], initial, now), refs[1..], initial, now, x);
    }
  }

  /** After a drain exactly the sessions that were served and have nothing more to send have
      forgotten since when they had frames queued; all others keep their place. */
  lemma {:induction false} AgesAfter(age: map<SessionId, Stamp>, r: Reply, refs: seq<SessionId>, initial: int, now: int, x: SessionId)
    requires x in age && x !in r.ids && forall i, j :: 0 <= i < j < |refs| ==> refs[i] != refs[j]
    ensures var end := DrainPass(r, refs, initial, now);
            && x in PassAges(age, r, refs, initial, now)
            && PassAges(age, r, refs, initial, now)[x] ==
               if x in end.ids && x in end.core.sessions && !end.core.sessions[x].Pending() then Never else age[x]
    decreases |refs|
  {
    hide DrainOne;
    if |refs| > 0 {
      var r1 := DrainOne(r, refs[0], initial, now);
      TurnEffect(r, refs[0], initial, now);
      TurnKeys(r, refs[0], initial, now);
      if refs[0] == x {
        PassLeaves(r1, refs[1..], initial, now, x);
        AgesUntouched(Aged(age, r, r1, x), r1, refs[1..], initial, now, x);
      } else {
        AgesAfter(Aged(age, r, r1, refs[0]), r1, refs[1..], initial, now, x);
      }
    }
  }

  lemma TurnKeys(r: Reply, id: SessionId, initial: int, now: int)
    ensures var r' := DrainOne(r, id, initial, now);
            && r'.core.sessions.Keys == r.core.sessions.Keys
            && (id !in r'.ids ==> (Eligible(r, id) <==> Eligible(r', id)))
  {
    hide Emitted, Advanced, ChunkFor, Payloads;
    if r.remaining > 0 && r.remainingBytes > 0 && id in r.core.sessions {
      NothingTaken(r.core.sessions[id], ChunkFor(id in r.core.firstReply, ShareOf(r), initial), ShareOf(r));
    }
  }

  /** Being served counts as activity; a session that was served and has nothing more to send
      leaves the ready set, and one that has stays in it. */
  lemma {:induction false} ActivityAfter(r: Reply, refs: seq<SessionId>, initial: int, now: int, x: SessionId)
    requires x !in r.ids && x in r.core.lastActivity && forall i, j :: 0 <= i < j < |refs| ==> refs[i] != refs[j]
    ensures var end := DrainPass(r, refs, initial, now);
            && x in end.core.lastActivity
            && end.core.lastActivity[x] == (if x in end.ids then now else r.core.lastActivity[x])
            && (x in end.ids ==> x in end.core.sessions
                                 && (x in end.core.txReady <==> x in r.core.txReady && end.core.sessions[x].Pending()))
    decreases |refs|
  {
    hide DrainOne;
    if |refs| > 0 {
      var r1 := DrainOne(r, refs[0], initial, now);
      TurnActivity(r, refs[0], initial, now, x);
      if refs[0] == x {
        ActivityKept(r1, refs[1..], initial, now, x);
      } else {
        ActivityAfter(r1, refs[1..], initial, now, x);
      }
    }
  }

  lemma TurnActivity(r: Reply, id: SessionId, initial: int, now: int, x: SessionId)
    requires x !in r.ids && x in r.core.lastActivity
    ensures var r' := DrainOne(r, id, initial, now);
            && (x != id ==> x !in r'.ids) && x in r'.core.lastActivity
            && r'.core.lastActivity[x] == (if x in r'.ids then now else r.core.lastActivity[x])
            && (x != id ==> (x in r'.core.txReady <==> x in r.core.txReady))
            && (x in r'.ids ==> x in r'.core.sessions
                                && (x in r'.core.txReady <==> x in r.core.txReady && r'.core.sessions[x].Pending()))
  {
    hide Emitted, Advanced, ChunkFor, Payloads;
  }

  lemma {:induction false} ActivityKept(r: Reply, refs: seq<SessionId>, initial: int, now: int, x: SessionId)
    requires x !in refs && x in r.core.lastActivity
    ensures var end := DrainPass(r, refs, initial, now);
            && x in end.core.lastActivity && end.core.lastActivity[x] == r.core.lastActivity[x]
            && (x in end.ids <==> x in r.ids) && (x in end.core.txReady <==> x in r.core.txReady)
            && (x in end.core.sessions <==> x in r.core.sessions)
            && (x in r.core.sessions ==> end.core.sessions[x] == r.core.sessions[x])
    decreases |refs|
  {
    hide Emitted, Advanced, ChunkFor, Payloads;
    if |refs| > 0 {
      ActivityKept(DrainOne(r, refs[0], initial, now), refs[1..], initial, now, x);
    }
  }

  lemma {:induction false} AgesUntouched(age: map<SessionId, Stamp>, r: Reply, refs: seq<SessionId>, initial: int, now: int, x: SessionId)
    requires x in age && x !in refs
    ensures x in PassAges(age, r, refs, initial, now) && PassAges(age, r, refs, initial, now)[x] == age[x]
    decreases |refs|
  {
    hide DrainOne;
    if |refs| > 0 {
      var r1 := DrainOne(r, refs[0], initial, now);
      AgesUntouched(Aged(age, r, r1, refs[0]), r1, refs[1..], initial, now, x);
    }
  }

  // ---- Other sections under the lock -----------------------------------------------------------------

  /** A session enters the tables, not yet ready, its first reply still to come. */
  function Registered<S>(c: Tables<S>, id: SessionId, s: S, owner: ClientId, now: int): Tables<S> {
    c.(sessions := c.sessions[id := s], owners := c.owners[id := owner], upstreams := c.upstreams + {id},
       firstReply := c.firstReply + {id}, lastActivity := c.lastActivity[id := now])
  }

  /** The exit's end of a session has no SYN to send. */
  function NewExitSession(id: SessionId, target: Bytes): TxState {
    TxState(id, target, false, [], 0, false, false)
  }

  function Removed<S>(c: Tables<S>, gone: set<SessionId>): Tables<S> {
    c.(sessions := c.sessions - gone, owners := c.owners - gone, txReady := c.txReady - gone,
       firstReply := c.firstReply - gone, upstreams := c.upstreams - gone, lastActivity := c.lastActivity - gone)
  }

  const IDLE_SESSION_TIMEOUT: int := 600

  predicate Idle<S>(c: Tables<S>, id: SessionId, now: int) {
    id in c.lastActivity && c.lastActivity[id] <= now - IDLE_SESSION_TIMEOUT
  }

  /** The sessions without activity for the timeout. */
  function IdleSince<S>(c: Tables<S>, now: int): set<SessionId> {
    set id | id in c.lastActivity && Idle(c, id, now)
  }

  /** `lastActivity[id] = now`, only while the session is still registered. */
  function Touched<S>(c: Tables<S>, id: SessionId, now: int): Tables<S> {
    if id in c.sessions then c.(lastActivity := c.lastActivity[id := now]) else c
  }

  function Queued(q: map<ClientId, seq<Frame>>, owner: ClientId, f: Frame): map<ClientId, seq<Frame>> {
    q[owner := QueuedFor(q, owner) + [f]]
  }
}

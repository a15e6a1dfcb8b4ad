/** The exit server: the object that owns the session tables, routes incoming frames, drains
    responses and cleans up. Each method is proved against the function of ExitSpec that
    says what it does to the tables and to every session in them. */
module Exits {
  import opened Prelude
  import opened Frames
  import opened TxSpec
  import opened Sessions
  import opened ExitSpec

  datatype Work = Work(ids: seq<SessionId>, parts: seq<seq<Frame>>, remaining: int, remainingBytes: int, urgent: bool)

  /** What dialing a SYN's target comes to. */
  datatype Dial = Connected | Failed | Suppressed

  datatype Route = ToSession(s: Session) | Reset | Version | NotDialed

  /** What becomes of a frame. */
  datatype Kind = Reached | TurnedAway | Answered | Undialed

  function KindOf(r: Route): Kind {
    match r
    case ToSession(_) => Reached
    case Reset => TurnedAway
    case Version => Answered
    case NotDialed => Undialed
  }

  function Routing(c: Core, f: Frame, owner: ClientId, dial: Dial, probe: bool): Kind {
    if f.sessionId in c.sessions then
      if f.sessionId in c.owners && c.owners[f.sessionId] != owner then TurnedAway else Reached
    else if !f.HasFlag(FLAG_SYN) then
      if probe then Answered else TurnedAway
    else match dial case Connected => Reached case Failed => Undialed case Suppressed => TurnedAway
  }

  /** The tables after it: a session registered, or an answer queued. */
  function Directed(c: Core, f: Frame, owner: ClientId, dial: Dial, probe: bool, version: Bytes, now: int): Core {
    match Routing(c, f, owner, dial, probe)
    case Undialed => c
    case TurnedAway => c.(pendingRSTs := Queued(c.pendingRSTs, owner, Frame(f.sessionId, 0, FLAG_RST, [], [])))
    case Answered => c.(pendingCtrl := Queued(c.pendingCtrl, owner, Frame(f.sessionId, 0, FLAG_RST, [], version)))
    case Reached =>
      if f.sessionId in c.sessions then c
      else Registered(c, f.sessionId, NewExitSession(f.sessionId, f.target), owner, now)
  }

  /** A write that is not taken leaves no trace. */
  lemma EnqueueOutcome(t: TxState, data: Bytes)
    ensures Refused(t, Write(data)) ==> Apply(t, Write(data)) == t && !Blocked(t, Write(data)) && t.closeReq
    ensures !Refused(t, Write(data)) ==> !t.closeReq
  {
    assert t.txBuf + [] == t.txBuf;
  }

  /** What that means table by table. */
  lemma DirectedFields(c: Core, f: Frame, owner: ClientId, dial: Dial, probe: bool, version: Bytes, now: int)
    requires TablesAgree(c)
    ensures var d, k, id := Directed(c, f, owner, dial, probe, version, now), Routing(c, f, owner, dial, probe), f.sessionId;
            && TablesAgree(d) && (k == Reached ==> id in d.owners && d.owners[id] == owner)
            && (k == Reached <==> if id in c.sessions then c.owners[id] == owner else f.HasFlag(FLAG_SYN) && dial == Connected)
            && (forall x :: x in c.sessions ==> x in d.owners && d.owners[x] == c.owners[x])
            && d.pendingRSTs == (if k == TurnedAway then Queued(c.pendingRSTs, owner, Frame(id, 0, FLAG_RST, [], [])) else c.pendingRSTs)
            && d.pendingCtrl == (if k == Answered then Queued(c.pendingCtrl, owner, Frame(id, 0, FLAG_RST, [], version)) else c.pendingCtrl)
            && (k == Undialed <==> id !in c.sessions && f.HasFlag(FLAG_SYN) && dial == Failed)
            && (k == Answered <==> id !in c.sessions && !f.HasFlag(FLAG_SYN) && probe)
            && if id !in c.sessions && k == Reached
               then d == Registered(c, id, NewExitSession(id, f.target), owner, now)
               else d.sessions == c.sessions && d.owners == c.owners && d.upstreams == c.upstreams
                    && d.firstReply == c.firstReply && d.lastActivity == c.lastActivity
  {
    hide Queued;
  }

  ghost function StatesOf(table: map<SessionId, Session>): (r: map<SessionId, TxState>)
    reads table.Values
    ensures r.Keys == table.Keys
  {
    map id | id in table :: table[id].Tx()
  }

  lemma StatesWithout(table: map<SessionId, Session>, id: SessionId)
    ensures StatesOf(table - {id}) == StatesOf(table) - {id}
  {
  }

  lemma StatesWith(table: map<SessionId, Session>, id: SessionId, s: Session)
    ensures StatesOf(table[id := s]) == StatesOf(table)[id := s.Tx()]
  {
  }

  class Server {
    var sessions: map<SessionId, Session>
    var sessionOwners: map<SessionId, ClientId>
    var txReady: set<SessionId>
    var firstReply: set<SessionId>
    var upstreams: set<SessionId>
    var lastActivity: map<SessionId, int>
    var pendingRSTs: map<ClientId, seq<Frame>>
    var pendingCtrl: map<ClientId, seq<Frame>>
    const initialResponseBytes: int

    constructor (configured: int)
      ensures Valid() && sessions == map[] && sessionOwners == map[] && upstreams == {} && lastActivity == map[]
      ensures firstReply == {} && txReady == {} && pendingRSTs == map[] && pendingCtrl == map[]
      ensures initialResponseBytes == if configured <= 0 then 512 * 1024 else configured
    {
      initialResponseBytes := if configured <= 0 then INITIAL_RESPONSE_BYTES else configured;
      sessions, sessionOwners, txReady, firstReply := map[], map[], {}, {};
      upstreams, lastActivity, pendingRSTs, pendingCtrl := {}, map[], map[], map[];
    }

    ghost predicate Valid()
      reads this
    {
      initialResponseBytes > 0 && forall id :: id in sessions ==> sessions[id].id == id
    }

    /** The sending side of every registered session. */
    ghost function States(): (r: map<SessionId, TxState>)
      reads this`sessions, sessions.Values
      ensures r.Keys == sessions.Keys
    {
      StatesOf(sessions)
    }

    ghost function Ages(): (r: map<SessionId, Stamp>)
      reads this`sessions, sessions.Values
      ensures r.Keys == sessions.Keys
    {
      map id | id in sessions :: sessions[id].firstQueuedAt
    }

    lemma StateOf(id: SessionId)
      requires id in sessions
      ensures States()[id] == sessions[id].Tx()
    {
    }

    lemma AgeOf(id: SessionId)
      requires id in sessions
      ensures Ages()[id] == sessions[id].firstQueuedAt
    {
    }

    ghost function Abs(): (c: Core)
      reads this, sessions.Values
      ensures Is(c)
    {
      Tables(States(), sessionOwners, txReady, firstReply, upstreams, lastActivity, pendingRSTs, pendingCtrl)
    }

    /** The tables and the sessions in them are those of `c`. */
    ghost predicate Is(c: Core)
      reads this, sessions.Values
    {
      && States() == c.sessions && sessionOwners == c.owners && txReady == c.txReady
      && firstReply == c.firstReply && upstreams == c.upstreams && lastActivity == c.lastActivity
      && pendingRSTs == c.pendingRSTs && pendingCtrl == c.pendingCtrl
    }

    lemma AgreeingKeys()
      requires TablesAgree(Abs())
      ensures sessionOwners.Keys == sessions.Keys
    {
    }

    lemma IsFields(c: Core)
      requires Is(c)
      ensures c.sessions.Keys == sessions.Keys && c.owners == sessionOwners
      ensures c.txReady == txReady && c.firstReply == firstReply && c.upstreams == upstreams
      ensures c.lastActivity == lastActivity && c.pendingRSTs == pendingRSTs && c.pendingCtrl == pendingCtrl
    {
    }

    lemma IsAbs(c: Core)
      requires Is(c)
      ensures Abs() == c
    {
    }

    method QueueRST(owner: ClientId, id: SessionId)
      modifies this`pendingRSTs
      ensures pendingRSTs == Queued(old(pendingRSTs), owner, Frame(id, 0, FLAG_RST, [], []))
      ensures var before := if owner in old(pendingRSTs) then old(pendingRSTs)[owner] else [];
              pendingRSTs == old(pendingRSTs)[owner := before + [Frame(id, 0, 8, [], [])]]
    {
      pendingRSTs := pendingRSTs[owner := (if owner in pendingRSTs then pendingRSTs[owner] else []) + [Frame(id, 0, FLAG_RST, [], [])]];
    }

    /** The version answer rides on a reset frame. */
    method QueueVersionResponse(owner: ClientId, id: SessionId, payload: Bytes)
      modifies this`pendingCtrl
      ensures pendingCtrl == Queued(old(pendingCtrl), owner, Frame(id, 0, FLAG_RST, [], payload))
      ensures var before := if owner in old(pendingCtrl) then old(pendingCtrl)[owner] else [];
              pendingCtrl == old(pendingCtrl)[owner := before + [Frame(id, 0, 8, [], payload)]]
    {
      pendingCtrl := pendingCtrl[owner := (if owner in pendingCtrl then pendingCtrl[owner] else []) + [Frame(id, 0, FLAG_RST, [], payload)]];
    }

    /** Registers a session whose upstream has been dialed. */
    method OpenSession(id: SessionId, target: Bytes, owner: ClientId, now: int) returns (s: Session)
      requires Valid()
      modifies this`sessions, this`sessionOwners, this`upstreams, this`firstReply, this`lastActivity
      ensures Valid() && fresh(s) && sessions == old(sessions)[id := s]
      ensures Is(Registered(old(Abs()), id, NewExitSession(id, target), owner, now))
      ensures s.Tx() == TxState(id, target, false, [], 0, false, false) && s.firstQueuedAt == Never
      ensures sessionOwners == old(sessionOwners)[id := owner] && upstreams == old(upstreams) + {id}
      ensures firstReply == old(firstReply) + {id} && lastActivity == old(lastActivity)[id := now]
    {
      hide StatesOf;
      s := new Session(id, target, false, now);
      StatesWith(sessions, id, s);
      sessions := sessions[id := s];
      RegisterTables(id, owner, now);
    }

    method RegisterTables(id: SessionId, owner: ClientId, now: int)
      modifies this`sessionOwners, this`upstreams, this`firstReply, this`lastActivity
      ensures sessionOwners == old(sessionOwners)[id := owner] && upstreams == old(upstreams) + {id}
      ensures firstReply == old(firstReply) + {id} && lastActivity == old(lastActivity)[id := now]
    {
      sessionOwners := sessionOwners[id := owner];
      upstreams := upstreams + {id};
      firstReply := firstReply + {id};
      lastActivity := lastActivity[id := now];
    }

    /** Only one session's sending side has changed. */
    twostate predicate OnlyOne(id: SessionId)
      reads this, sessions.Values
    {
      && sessions == old(sessions) && id in sessions
      && forall x :: x in sessions && x != id ==>
           sessions[x].Tx() == old(sessions[x].Tx()) && sessions[x].firstQueuedAt == old(sessions[x].firstQueuedAt)
    }

    twostate lemma OneChanged(id: SessionId)
      requires OnlyOne(id)
      ensures States() == old(States())[id := sessions[id].Tx()]
      ensures Ages() == old(Ages())[id := sessions[id].firstQueuedAt]
    {
      var states, ages := old(States()), old(Ages());
      assert forall x :: x in sessions ==> states[x] == old(sessions[x].Tx()) && ages[x] == old(sessions[x].firstQueuedAt);
      SameBut(states, States(), id);
      SameBut(ages, Ages(), id);
    }

    /** What a session's upstream reader does with data it has read. */
    method Upstream(id: SessionId, data: Bytes, now: int, ghost t: TxState, ghost q: Stamp) returns (r: EnqueueResult)
      requires Valid() && id in sessions && t == sessions[id].Tx() && q == sessions[id].firstQueuedAt
      modifies {sessions[id]}`txBuf, {sessions[id]}`firstQueuedAt, this`txReady
      ensures r == Accepted <==> !Blocked(t, Write(data)) && !Refused(t, Write(data))
      ensures States() == if r == Accepted then old(States())[id := Apply(t, Write(data))] else old(States())
      ensures Ages() == if r == Accepted then old(Ages())[id := SetOnce(q, now)] else old(Ages())
      ensures txReady == if r == Accepted then old(txReady) + {id} else old(txReady)
    {
      hide StatesOf, Ages;
      r := Enqueue(id, data, now, t, q);
      if r == Accepted {
        txReady := txReady + {id};
      }
    }

    method Enqueue(id: SessionId, data: Bytes, now: int, ghost t: TxState, ghost q: Stamp) returns (r: EnqueueResult)
      requires Valid() && id in sessions && t == sessions[id].Tx() && q == sessions[id].firstQueuedAt
      modifies {sessions[id]}`txBuf, {sessions[id]}`firstQueuedAt
      ensures r == Accepted <==> !Blocked(t, Write(data)) && !Refused(t, Write(data))
      ensures States() == if r == Accepted then old(States())[id := Apply(t, Write(data))] else old(States())
      ensures Ages() == if r == Accepted then old(Ages())[id := SetOnce(q, now)] else old(Ages())
    {
      hide StatesOf, Ages, Blocked, Refused, Apply;
      StateOf(id);
      AgeOf(id);
      EnqueueOutcome(t, data);
      assert forall x :: x in sessions && x != id ==> sessions[x] != sessions[id];
      r := sessions[id].EnqueueTx(data, now);
      OneChanged(id);
    }

    /** The client is told that its frame has no session. */
    method TurnAway(owner: ClientId, id: SessionId, ghost c: Core)
      requires Is(c)
      modifies this`pendingRSTs
      ensures Is(c.(pendingRSTs := Queued(c.pendingRSTs, owner, Frame(id, 0, FLAG_RST, [], []))))
    {
      hide Queued;
      QueueRST(owner, id);
    }

    method Answer(owner: ClientId, id: SessionId, version: Bytes, ghost c: Core)
      requires Is(c)
      modifies this`pendingCtrl
      ensures Is(c.(pendingCtrl := Queued(c.pendingCtrl, owner, Frame(id, 0, FLAG_RST, [], version))))
    {
      hide Queued;
      QueueVersionResponse(owner, id, version);
    }

    /** The routing itself, table by table. */
    method Direct(f: Frame, owner: ClientId, dial: Dial, probe: bool, version: Bytes, now: int) returns (r: Route)
      requires Valid() && TablesAgree(Abs())
      modifies this`sessions, this`sessionOwners, this`upstreams, this`firstReply, this`lastActivity,
               this`pendingRSTs, this`pendingCtrl
      ensures Valid() && KindOf(r) == Routing(old(Abs()), f, owner, dial, probe)
      ensures Is(Directed(old(Abs()), f, owner, dial, probe, version, now))
      ensures r.ToSession? ==> f.sessionId in sessions && sessions[f.sessionId] == r.s
      ensures forall id :: id in old(sessions) ==> id in sessions && sessions[id] == old(sessions)[id]
    {
      hide StatesOf, Queued, TablesAgree, Registered, Is, Abs;
      ghost var c := Abs();
      AgreeingKeys();
      assert c.sessions.Keys == sessions.Keys && c.owners == sessionOwners by { IsFields(c); }
      var exists_ := f.sessionId in sessions;
      var hasOwner := f.sessionId in sessionOwners;
      if exists_ && hasOwner && sessionOwners[f.sessionId] != owner {
        TurnAway(owner, f.sessionId, c);
        return Reset;
      }
      if exists_ {
        return ToSession(sessions[f.sessionId]);
      }
      if !f.HasFlag(FLAG_SYN) {
        if probe {
          Answer(owner, f.sessionId, version, c);
          return Version;
        }
        TurnAway(owner, f.sessionId, c);
        return Reset;
      }
      if dial == Suppressed {
        TurnAway(owner, f.sessionId, c);
        return Reset;
      }
      if dial == Failed {
        return NotDialed;
      }
      var s := OpenSession(f.sessionId, f.target, owner, now);
      return ToSession(s);
    }

    /** Where an incoming frame goes: to its session, which belongs to the sending client; or
        nowhere, and the client is told so unless the dial failed. */
    method RouteIncoming(f: Frame, owner: ClientId, dial: Dial, probe: bool, version: Bytes, now: int) returns (r: Route)
      requires Valid() && TablesAgree(Abs())
      modifies this`sessions, this`sessionOwners, this`upstreams, this`firstReply, this`lastActivity,
               this`pendingRSTs, this`pendingCtrl
      ensures Valid() && TablesAgree(Abs())
      ensures KindOf(r) == Routing(old(Abs()), f, owner, dial, probe)
      ensures Is(Directed(old(Abs()), f, owner, dial, probe, version, now))
      ensures r.ToSession? ==> f.sessionId in sessions && sessions[f.sessionId] == r.s && sessionOwners[f.sessionId] == owner
      ensures r.ToSession? <==>
              if f.sessionId in old(sessions) then old(sessionOwners)[f.sessionId] == owner
              else f.flags % 2 == 1 && dial == Connected
      ensures forall id :: id in old(sessions) ==> id in sessions && sessions[id] == old(sessions)[id] && sessionOwners[id] == old(sessionOwners)[id]
      ensures pendingRSTs == if r == Reset
                             then old(pendingRSTs)[owner := QueuedFor(old(pendingRSTs), owner) + [Frame(f.sessionId, 0, 8, [], [])]]
                             else old(pendingRSTs)
      ensures pendingCtrl == if r == Version
                             then old(pendingCtrl)[owner := QueuedFor(old(pendingCtrl), owner) + [Frame(f.sessionId, 0, 8, [], version)]]
                             else old(pendingCtrl)
      ensures r == NotDialed <==> f.sessionId !in old(sessions) && f.flags % 2 == 1 && dial == Failed
      ensures r == Version <==> f.sessionId !in old(sessions) && f.flags % 2 == 0 && probe
      ensures if f.sessionId !in old(sessions) && r.ToSession?
              then Is(Registered(old(Abs()), f.sessionId, NewExitSession(f.sessionId, f.target), owner, now))
              else && sessions == old(sessions) && sessionOwners == old(sessionOwners) && upstreams == old(upstreams)
                   && firstReply == old(firstReply) && lastActivity == old(lastActivity)
    {
      hide StatesOf, TablesAgree, Registered, Directed, Routing, QueuedFor;
      FlagBits(f);
      ghost var c := Abs();
      ghost var d := Directed(c, f, owner, dial, probe, version, now);
      AgreeingKeys();
      DirectedFields(c, f, owner, dial, probe, version, now);
      r := Direct(f, owner, dial, probe, version, now);
      IsAbs(d);
      assert d.sessions.Keys == c.sessions.Keys ==> sessions == old(sessions);
    }

    method Touch(id: SessionId, now: int)
      modifies this`lastActivity
      ensures Abs() == Touched(old(Abs()), id, now)
      ensures lastActivity == if id in sessions then old(lastActivity)[id := now] else old(lastActivity)
    {
      if id in sessions {
        lastActivity := lastActivity[id := now];
      }
    }

    // ---- Draining -------------------------------------------------------------------------

    /** The reply in the making is `r`. */
    ghost predicate Makes(w: Work, r: Reply)
      reads this, sessions.Values
    {
      && Is(r.core) && w.ids == r.ids && w.parts == r.parts && w.remaining == r.remaining
      && w.remainingBytes == r.remainingBytes && w.urgent == r.urgent
    }

    /** A first reply is cut into chunks of the initial size's even share. */
    method ChunkSize(first: bool, cap: int) returns (chunk: int)
      requires cap > 0
      ensures chunk == ChunkFor(first, cap, initialResponseBytes)
    {
      chunk := MAX_FRAME_PAYLOAD;
      if first && cap > 0 {
        var firstPayload := (initialResponseBytes + cap - 1) / cap;
        if firstPayload > 0 && firstPayload < chunk {
          chunk := firstPayload;
        }
      }
    }

    method DrainReady(id: SessionId, chunk: int, cap: int, now: int, ghost t: TxState)
      returns (frames: seq<Frame>, pending: bool)
      requires Valid() && id in sessions && t == sessions[id].Tx()
      modifies {sessions[id]}`txBuf, {sessions[id]}`txSeq, {sessions[id]}`synNeeded
      modifies {sessions[id]}`finSent, {sessions[id]}`finSentAt, {sessions[id]}`firstQueuedAt
      ensures frames == DrainFrames(t, chunk, cap) && (pending <==> DrainState(t, chunk, cap).Pending())
      ensures States() == old(States())[id := DrainState(t, chunk, cap)]
      ensures Ages() == if t.Pending() && !pending then old(Ages())[id := Never] else old(Ages())
    {
      hide DrainFrames, DrainState, StatesOf, Ages;
      StateOf(id);
      AgeOf(id);
      assert forall x :: x in sessions && x != id ==> sessions[x] != sessions[id];
      var snap;
      frames, snap := sessions[id].DrainTx(chunk, cap, false, now);
      pending := sessions[id].HasPendingTx();
      OneChanged(id);
    }

    /** Drains one session; it leaves the ready set only when it has nothing more to send. */
    method DrainTurn(w: Work, id: SessionId, cap: int, now: int, ghost r: Reply) returns (w': Work)
      requires Valid() && id in sessions && Makes(w, r) && cap == ShareOf(r) && cap > 0
      modifies this`txReady, this`firstReply, this`lastActivity
      modifies {sessions[id]}`txBuf, {sessions[id]}`txSeq, {sessions[id]}`synNeeded
      modifies {sessions[id]}`finSent, {sessions[id]}`finSentAt, {sessions[id]}`firstQueuedAt
      ensures Makes(w', ExitSpec.Take(r, id, initialResponseBytes, now))
      ensures Ages() == Aged(old(Ages()), r, ExitSpec.Take(r, id, initialResponseBytes, now), id)
    {
      hide DrainFrames, DrainState, ChunkFor, StatesOf, Ages, ExitSpec.Take, Aged;
      var chunk := ChunkSize(id in firstReply, cap);
      StateOf(id);
      AgedByTurn(Ages(), r, id, initialResponseBytes, now);
      var frames, pending := DrainReady(id, chunk, cap, now, r.core.sessions[id]);
      w' := BookTurn(w, id, frames, pending, now, r, cap);
    }

    /** The tables after a turn that yielded these frames. */
    method BookTurn(w: Work, id: SessionId, frames: seq<Frame>, pending: bool, now: int, ghost r: Reply, ghost cap: int)
      returns (w': Work)
      requires id in r.core.sessions && cap == ShareOf(r) && cap > 0
      requires var chunk := ChunkFor(id in r.core.firstReply, cap, initialResponseBytes);
               var t := DrainState(r.core.sessions[id], chunk, cap);
               && frames == DrainFrames(r.core.sessions[id], chunk, cap) && pending == t.Pending()
               && Makes(w, r.(core := r.core.(sessions := r.core.sessions[id := t])))
      modifies this`txReady, this`firstReply, this`lastActivity
      ensures Makes(w', ExitSpec.Take(r, id, initialResponseBytes, now))
    {
      hide DrainFrames, DrainState, ChunkFor, Payloads, StatesOf;
      if !pending {
        txReady := txReady - {id};
      }
      w' := w;
      if |frames| > 0 {
        w' := Work(w.ids + [id], w.parts + [frames], w.remaining - |frames|,
                   w.remainingBytes - |Payloads(frames)|, w.urgent || id in firstReply);
        MarkReplied(id, now);
      }
    }

    method MarkReplied(id: SessionId, now: int)
      modifies this`firstReply, this`lastActivity
      ensures firstReply == old(firstReply) - {id} && lastActivity == old(lastActivity)[id := now]
    {
      firstReply := firstReply - {id};
      lastActivity := lastActivity[id := now];
    }

    /** One session's turn, while the budgets last. */
    method DrainRef(w: Work, id: SessionId, now: int, ghost r: Reply) returns (w': Work)
      requires Valid() && w.remaining > 0 && w.remainingBytes > 0 && Makes(w, r)
      modifies this`txReady, this`firstReply, this`lastActivity
      modifies sessions.Values`txBuf, sessions.Values`txSeq, sessions.Values`synNeeded
      modifies sessions.Values`finSent, sessions.Values`finSentAt, sessions.Values`firstQueuedAt
      ensures Valid() && Makes(w', DrainOne(r, id, initialResponseBytes, now))
      ensures Ages() == Aged(old(Ages()), r, DrainOne(r, id, initialResponseBytes, now), id)
    {
      hide ExitSpec.Take, Ages;
      if id !in sessions {
        txReady := txReady - {id};
        return w;
      }
      var perSessionCap := MAX_FRAMES_PER_SESSION;
      if w.remaining < perSessionCap {
        perSessionCap := w.remaining;
      }
      w' := DrainTurn(w, id, perSessionCap, now, r);
    }

    method DrainRefs(w: Work, refs: seq<SessionId>, now: int, ghost r: Reply) returns (w': Work)
      requires Valid() && Makes(w, r)
      modifies this`txReady, this`firstReply, this`lastActivity
      modifies sessions.Values`txBuf, sessions.Values`txSeq, sessions.Values`synNeeded
      modifies sessions.Values`finSent, sessions.Values`finSentAt, sessions.Values`firstQueuedAt
      ensures Valid() && Makes(w', DrainPass(r, refs, initialResponseBytes, now))
      ensures Ages() == PassAges(old(Ages()), r, refs, initialResponseBytes, now)
    {
      hide DrainOne, Aged, Ages;
      w' := w;
      var i := 0;
      ghost var ri := r;
      while i < |refs|
        invariant i <= |refs| && Valid() && Makes(w', ri)
        invariant DrainPass(ri, refs[i..], initialResponseBytes, now) == DrainPass(r, refs, initialResponseBytes, now)
        invariant PassAges(Ages(), ri, refs[i..], initialResponseBytes, now)
               == PassAges(old(Ages()), r, refs, initialResponseBytes, now)
      {
        if w'.remaining <= 0 || w'.remainingBytes <= 0 {
          SpentPass(ri, refs[i..], initialResponseBytes, now);
          SpentAges(Ages(), ri, refs[i..], initialResponseBytes, now);
          return;
        }
        w' := DrainRef(w', refs[i], now, ri);
        ri := DrainOne(ri, refs[i], initialResponseBytes, now);
        assert refs[i..][1..] == refs[i + 1..];
        i := i + 1;
      }
    }

    /** This client's ready sessions, oldest first; ids without a session leave the set. */
    method ReadyRefs(owner: ClientId, ghost c: Core) returns (refs: seq<SessionId>)
      requires Valid() && c.sessions == States() && c.owners == sessionOwners && c.txReady == txReady
      modifies this`txReady
      ensures txReady == old(txReady) * sessions.Keys
      ensures ReadyInOrder(c, owner, refs, Ages())
      ensures forall i, j :: 0 <= i < j < |refs| ==>
                && refs[i] in sessions && refs[j] in sessions
                && var a, b := sessions[refs[i]].firstQueuedAt, sessions[refs[j]].firstQueuedAt;
                   a == Never || (b != Never && a.time <= b.time)
    {
      hide InAgeOrder, StatesOf, Before;
      refs := [];
      NoneInAgeOrder();
      var todo := txReady;
      while todo != {}
        invariant todo <= old(txReady) && InAgeOrder(refs)
        invariant txReady == todo + (old(txReady) - todo) * sessions.Keys
        invariant forall id :: id in refs <==> id in old(txReady) - todo && id in sessions && id in sessionOwners && sessionOwners[id] == owner
        decreases todo
      {
        var id :| id in todo;
        todo := todo - {id};
        if id !in sessions {
          txReady := txReady - {id};
        } else if id in sessionOwners && sessionOwners[id] == owner {
          refs := Insert(refs, id);
        }
      }
      OrderOf(refs);
    }

    /** Different registered sessions, none older than one before it. */
    ghost predicate InAgeOrder(refs: seq<SessionId>)
      reads this`sessions, sessions.Values`firstQueuedAt
    {
      && (forall x :: x in refs ==> x in sessions)
      && (forall i, j :: 0 <= i < j < |refs| ==> refs[i] != refs[j])
      && (forall i, j :: 0 <= i < j < |refs| ==> !Before(sessions[refs[j]].firstQueuedAt, sessions[refs[i]].firstQueuedAt))
    }

    lemma NoneInAgeOrder()
      ensures InAgeOrder([])
    {
    }

    lemma OrderOf(refs: seq<SessionId>)
      requires InAgeOrder(refs)
      ensures forall x :: x in refs ==> x in sessions
      ensures forall i, j :: 0 <= i < j < |refs| ==>
                && refs[i] != refs[j]
                && var a, b := sessions[refs[i]].firstQueuedAt, sessions[refs[j]].firstQueuedAt;
                && !Before(b, a) && (a == Never || (b != Never && a.time <= b.time))
    {
    }

    method Insert(refs: seq<SessionId>, id: SessionId) returns (r: seq<SessionId>)
      requires id in sessions && id !in refs && InAgeOrder(refs)
      ensures forall x :: x in r <==> x in refs || x == id
      ensures InAgeOrder(r)
    {
      var k := 0;
      while k < |refs| && !Before(sessions[id].firstQueuedAt, sessions[refs[k]].firstQueuedAt)
        invariant k <= |refs|
        invariant forall i :: 0 <= i < k ==> !Before(sessions[id].firstQueuedAt, sessions[refs[i]].firstQueuedAt)
      {
        k := k + 1;
      }
      r := refs[..k] + [id] + refs[k..];
      assert forall x :: x in r <==> x in refs[..k] || x == id || x in refs[k..];
      assert forall x :: x in refs <==> x in refs[..k] || x in refs[k..];
    }

    method TakeControl(owner: ClientId) returns (out: seq<Frame>)
      modifies this`pendingCtrl, this`pendingRSTs
      ensures out == QueuedFor(old(pendingCtrl), owner) + QueuedFor(old(pendingRSTs), owner)
      ensures pendingCtrl == Flush(old(pendingCtrl), owner) && pendingRSTs == Flush(old(pendingRSTs), owner)
      ensures out == (if owner in old(pendingCtrl) then old(pendingCtrl)[owner] else [])
                   + (if owner in old(pendingRSTs) then old(pendingRSTs)[owner] else [])
      ensures pendingCtrl - {owner} == old(pendingCtrl) - {owner} && pendingRSTs - {owner} == old(pendingRSTs) - {owner}
      ensures owner in pendingCtrl ==> pendingCtrl[owner] == []
      ensures owner in pendingRSTs ==> pendingRSTs[owner] == []
    {
      out := [];
      if owner in pendingCtrl && |pendingCtrl[owner]| > 0 {
        out := out + pendingCtrl[owner];
        pendingCtrl := pendingCtrl - {owner};
      }
      if owner in pendingRSTs && |pendingRSTs[owner]| > 0 {
        out := out + pendingRSTs[owner];
        pendingRSTs := pendingRSTs - {owner};
      }
    }

    method BatchLimit(ghost c: Core) returns (batchCap: nat)
      requires c.sessions == States()
      ensures batchCap == BatchCap(c)
    {
      batchCap := MAX_FRAMES_PER_BATCH;
      if |sessions| >= BUSY_SESSION_THRESHOLD {
        batchCap := MAX_FRAMES_PER_BATCH_BUSY;
      }
      assert |States()| == |States().Keys| == |sessions.Keys| == |sessions|;
    }

    method BeginDrain(owner: ClientId, budget: int) returns (control: seq<Frame>, refs: seq<SessionId>, w: Work)
      requires Valid()
      modifies this`txReady, this`pendingCtrl, this`pendingRSTs
      ensures control == Control(old(Abs()), owner) && ReadyInOrder(old(Abs()), owner, refs, old(Ages()))
      ensures Makes(w, StartReply(old(Abs()), owner, budget))
    {
      hide QueuedFor, Flush, ReadyInOrder, StatesOf, Ages, BatchCap, Abs;
      ghost var c0 := Abs();
      control := TakeControl(owner);
      var batchCap := BatchLimit(c0);
      refs := ReadyRefs(owner, c0);
      w := Work([], [], batchCap, budget, |control| > 0);
    }

    /** One drain for a client: what was queued for it, then frames of its own sessions. */
    method DrainAll(owner: ClientId, budget: int, now: int)
      returns (out: seq<Frame>, urgent: bool, ghost refs: seq<SessionId>)
      requires Valid()
      modifies this`txReady, this`firstReply, this`lastActivity, this`pendingCtrl, this`pendingRSTs
      modifies sessions.Values`txBuf, sessions.Values`txSeq, sessions.Values`synNeeded
      modifies sessions.Values`finSent, sessions.Values`finSentAt, sessions.Values`firstQueuedAt
      ensures Valid() && ReadyInOrder(old(Abs()), owner, refs, old(Ages()))
      ensures var r := ExitSpec.DrainAll(old(Abs()), owner, budget, refs, initialResponseBytes, now);
              && Is(r.core) && urgent == r.urgent
              && out == Control(old(Abs()), owner) + SessionFrames(r)
      ensures Ages() == PassAges(old(Ages()), StartReply(old(Abs()), owner, budget), refs, initialResponseBytes, now)
    {
      hide StartReply, DrainPass, Control, Ages, StatesOf, ReadyInOrder, PassAges, Abs;
      ghost var r0 := StartReply(Abs(), owner, budget);
      var control, order, w := BeginDrain(owner, budget);
      w := DrainRefs(w, order, now, r0);
      out := control + Flatten(w.parts);
      urgent := w.urgent;
      refs := order;
    }

    // ---- Clean-up ---------------------------------------------------------------------------

    /** Deletes one session from every table. */
    method Forget(id: SessionId, ghost c: Core)
      requires Valid() && Is(c)
      modifies this`sessions, this`sessionOwners, this`txReady, this`firstReply, this`upstreams, this`lastActivity
      ensures Valid() && Is(Removed(c, {id})) && sessions == old(sessions) - {id}
    {
      hide StatesOf;
      StatesWithout(sessions, id);
      sessions := sessions - {id};
      ForgetTables(id);
    }

    method ForgetTables(id: SessionId)
      modifies this`sessionOwners, this`txReady, this`firstReply, this`upstreams, this`lastActivity
      ensures sessionOwners == old(sessionOwners) - {id} && txReady == old(txReady) - {id}
      ensures firstReply == old(firstReply) - {id} && upstreams == old(upstreams) - {id}
      ensures lastActivity == old(lastActivity) - {id}
    {
      sessionOwners := sessionOwners - {id};
      txReady := txReady - {id};
      firstReply := firstReply - {id};
      upstreams := upstreams - {id};
      lastActivity := lastActivity - {id};
    }

    method StopAndForget(id: SessionId, ghost c: Core)
      requires Valid() && id in sessions && Is(c)
      modifies this, {sessions[id]}`stopped
      ensures Valid() && Is(Removed(c, {id})) && sessions == old(sessions) - {id}
      ensures old(sessions)[id].stopped
    {
      sessions[id].Stop();
      assert States() == c.sessions;
      Forget(id, c);
    }

    method GcOne(id: SessionId, now: int, ghost c: Core) returns (done: bool)
      requires Valid() && id in sessions && Is(c)
      modifies this, {sessions[id]}`stopped
      ensures done == old(sessions[id].IsDone(now))
      ensures Valid() && Is(if done then Removed(c, {id}) else c)
      ensures sessions == if done then old(sessions) - {id} else old(sessions)
      ensures if done then old(sessions)[id].stopped else unchanged(old(sessions)[id])
    {
      done := sessions[id].IsDone(now);
      if done {
        StopAndForget(id, c);
      }
    }

    ghost function DoneIds(now: int): set<SessionId>
      reads this`sessions, sessions.Values
    {
      set id | id in sessions && sessions[id].IsDone(now)
    }

    /** The loop over the table. */
    method ForgetDone(now: int)
      requires Valid()
      modifies this, sessions.Values`stopped
      ensures Valid()
      ensures Is(Removed(old(Abs()), old(DoneIds(now)))) && sessions == old(sessions) - old(DoneIds(now))
      ensures forall id :: id in old(DoneIds(now)) ==> old(sessions)[id].stopped
      ensures forall id :: id in sessions ==> unchanged(sessions[id])
    {
      hide Removed, Is, Abs;
      ghost var c0, all, gone := Abs(), DoneIds(now), {};
      ghost var c := Removed(c0, {});
      NoneRemoved(c0);
      var todo := sessions.Keys;
      while todo != {}
        invariant Valid() && Is(c) && c == Removed(c0, gone) && gone == all - todo
        invariant todo <= sessions.Keys && forall id :: id in todo ==> (sessions[id].IsDone(now) <==> id in all)
        invariant sessions == old(sessions) - gone
        invariant forall id :: id in gone ==> old(sessions)[id].stopped
        invariant forall id :: id in sessions ==> unchanged(sessions[id])
        decreases todo
      {
        var id :| id in todo;
        todo := todo - {id};
        var done := GcOne(id, now, c);
        if done {
          RemovedTwice(c0, gone, id);
          c, gone := Removed(c, {id}), gone + {id};
        }
      }
      assert gone == all;
    }

    /** Forgets the sessions that are done. */
    method GcDoneSessions(now: int)
      requires Valid()
      modifies this, sessions.Values`stopped
      ensures Valid()
      ensures Is(Removed(old(Abs()), old(DoneIds(now)))) && sessions == old(sessions) - old(DoneIds(now))
      ensures forall id :: id in old(sessions) ==>
                (id !in sessions <==> old(sessions[id].finSent
                   && (sessions[id].rxClosed || (sessions[id].finSentAt.At? && now - sessions[id].finSentAt.time > 30))))
      ensures var gone := old(sessions).Keys - sessions.Keys;
              && sessions == old(sessions) - gone && sessionOwners == old(sessionOwners) - gone
              && txReady == old(txReady) - gone && firstReply == old(firstReply) - gone
              && upstreams == old(upstreams) - gone && lastActivity == old(lastActivity) - gone
      ensures forall id :: id in old(DoneIds(now)) ==> old(sessions)[id].stopped
      ensures forall id :: id in sessions ==> unchanged(sessions[id])
    {
      hide Removed, Is, Abs;
      ghost var c0, gone := Abs(), DoneIds(now);
      IsFields(c0);
      ForgetDone(now);
      assert gone == old(sessions).Keys - sessions.Keys;
      IsFields(Removed(c0, gone));
      RemovedFields(c0, gone);
    }

    method TakeOne(victims: seq<Session>, id: SessionId, now: int, ghost c: Core) returns (victims': seq<Session>)
      requires Valid() && id in sessions && Is(c) && TablesAgree(c)
      modifies this
      ensures victims' == if Idle(c, id, now) then victims + [old(sessions)[id]] else victims
      ensures Valid() && Is(if Idle(c, id, now) then Removed(c, {id}) else c)
      ensures sessions == if Idle(c, id, now) then old(sessions) - {id} else old(sessions)
    {
      victims' := victims;
      if lastActivity[id] <= now - IDLE_SESSION_TIMEOUT {
        victims' := victims + [sessions[id]];
        Forget(id, c);
      }
    }

    lemma IdleRegistered(now: int)
      requires TablesAgree(Abs())
      ensures lastActivity.Keys == sessions.Keys && IdleSince(Abs(), now) <= sessions.Keys
    {
      assert States().Keys == sessions.Keys;
    }

    method TakeIdle(now: int) returns (victims: seq<Session>)
      requires Valid() && TablesAgree(Abs())
      modifies this
      ensures Valid() && Is(Removed(old(Abs()), IdleSince(old(Abs()), now)))
      ensures sessions == old(sessions) - IdleSince(old(Abs()), now)
      ensures Named(victims, IdleSince(old(Abs()), now), old(sessions))
    {
      hide Removed, Is, Abs, TablesAgree, Idle, IdleSince, Named;
      ghost var c0, gone := Abs(), {};
      ghost var c := Removed(c0, {});
      NoneRemoved(c0);
      IdleRegistered(now);
      NamedNone(old(sessions));
      var todo := lastActivity.Keys;
      victims := [];
      while todo != {}
        invariant Valid() && Is(c) && c == Removed(c0, gone) && todo <= sessions.Keys && TablesAgree(c)
        invariant gone == IdleSince(c0, now) - todo && sessions == old(sessions) - gone
        invariant Named(victims, gone, old(sessions))
        decreases todo
      {
        var id :| id in todo;
        todo := todo - {id};
        NamedMore(victims, gone, old(sessions), id);
        victims := TakeOne(victims, id, now, c);
        RemovedOne(c0, gone, id, now);
        if Idle(c, id, now) {
          c, gone := Removed(c, {id}), gone + {id};
        }
      }
      assert gone == IdleSince(c0, now);
    }

    /** Takes the sessions idle for too long out of the tables, and only then, outside the
        lock, closes and stops them. */
    method GcIdleSessions(now: int)
      requires Valid() && TablesAgree(Abs())
      modifies this, sessions.Values`rxClosed, sessions.Values`rxChanClosed, sessions.Values`stopped
      ensures Valid()
      ensures var gone := IdleSince(old(Abs()), now);
              && Is(Removed(old(Abs()), gone)) && sessions == old(sessions) - gone
              && forall id :: id in gone ==> old(sessions)[id].rxClosed && old(sessions)[id].stopped
      ensures forall id :: id in old(sessions) ==> (id !in sessions <==> old(lastActivity)[id] <= now - 600)
      ensures var gone := old(sessions).Keys - sessions.Keys;
              && sessions == old(sessions) - gone && sessionOwners == old(sessionOwners) - gone
              && txReady == old(txReady) - gone && firstReply == old(firstReply) - gone
              && upstreams == old(upstreams) - gone && lastActivity == old(lastActivity) - gone
      ensures forall id :: id in sessions ==> unchanged(sessions[id])
    {
      hide Removed, StatesOf, Is, Abs, TablesAgree;
      ghost var c0, gone := Abs(), IdleSince(Abs(), now);
      IsFields(c0);
      IdleRegistered(now);
      var victims := TakeIdle(now);
      assert gone == old(sessions).Keys - sessions.Keys;
      IsFields(Removed(c0, gone));
      RemovedFields(c0, gone);
      assert forall s :: s in victims ==> s in old(sessions).Values;
      assert forall id :: id in sessions ==> sessions[id] !in victims;
      CloseAll(victims);
    }

    method CloseAll(victims: seq<Session>)
      modifies victims`rxClosed, victims`rxChanClosed, victims`stopped
      ensures forall s :: s in victims ==> s.rxClosed && s.stopped
    {
      var i := 0;
      while i < |victims|
        invariant i <= |victims|
        invariant forall s :: s in victims[..i] ==> s.rxClosed && s.stopped
      {
        victims[i].CloseRx();
        victims[i].Stop();
        i := i + 1;
      }
    }
  }

  lemma RemovedFields(c: Core, gone: set<SessionId>)
    ensures var d := Removed(c, gone);
            && d.sessions == c.sessions - gone && d.owners == c.owners - gone && d.txReady == c.txReady - gone
            && d.firstReply == c.firstReply - gone && d.upstreams == c.upstreams - gone
            && d.lastActivity == c.lastActivity - gone && d.pendingRSTs == c.pendingRSTs && d.pendingCtrl == c.pendingCtrl
  {
  }

  lemma NoneRemoved(c: Core)
    ensures Removed(c, {}) == c
  {
    assert c.sessions - {} == c.sessions && c.owners - {} == c.owners && c.lastActivity - {} == c.lastActivity;
  }

  /** These are the objects the ids in `gone` stand for. */
  ghost predicate Named(victims: seq<Session>, gone: set<SessionId>, table: map<SessionId, Session>) {
    && (forall s :: s in victims ==> s.id in gone && s.id in table && table[s.id] == s)
    && (forall id :: id in gone ==> id in table && table[id] in victims)
  }

  lemma NamedNone(table: map<SessionId, Session>)
    ensures Named([], {}, table)
  {
  }

  lemma NamedMore(victims: seq<Session>, gone: set<SessionId>, table: map<SessionId, Session>, id: SessionId)
    requires Named(victims, gone, table) && id in table && table[id].id == id
    ensures Named(victims + [table[id]], gone + {id}, table)
  {
  }

  /** One step of a clean-up that has already removed `gone`. */
  lemma RemovedOne(c: Core, gone: set<SessionId>, id: SessionId, now: int)
    requires TablesAgree(Removed(c, gone)) && id !in gone
    ensures TablesAgree(Removed(c, gone + {id}))
    ensures Removed(Removed(c, gone), {id}) == Removed(c, gone + {id})
    ensures Idle(Removed(c, gone), id, now) <==> id in IdleSince(c, now)
  {
    RemovedTwice(c, gone, id);
    assert Removed(c, gone + {id}).sessions.Keys == Removed(c, gone).sessions.Keys - {id};
  }

  lemma RemovedTwice(c: Core, gone: set<SessionId>, id: SessionId)
    ensures Removed(Removed(c, gone), {id}) == Removed(c, gone + {id})
  {
    var a, b := Removed(Removed(c, gone), {id}), Removed(c, gone + {id});
    assert a.sessions == b.sessions && a.owners == b.owners && a.txReady == b.txReady;
    assert a.firstReply == b.firstReply && a.upstreams == b.upstreams && a.lastActivity == b.lastActivity;
  }
}

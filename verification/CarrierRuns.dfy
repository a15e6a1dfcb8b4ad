/** Any number of poll workers over one session table, interleaved with writers, late
    callbacks and clean-up. Sections under the client lock are single steps, except the
    drain, which holds the lock while writers go on between its sessions. */
module CarrierRuns {
  import opened Prelude
  import opened Frames
  import opened TxSpec
  import opened Drains
  import opened Senders
  import opened CarrierSpec

  type Worker = nat

  datatype Stage = Draining | Sending | RollingBack(todo: set<SessionId>) | Settled

  datatype Poll = Poll(ids: set<SessionId>, snaps: map<SessionId, Snapshot>, stage: Stage)

  /** `callbacks` are the `OnTx` calls still to run, `used` every id ever registered, and
      `holder` (history) which worker took a session into flight. */
  datatype Sched = Sched(
    sessions: map<SessionId, Sender>,
    inFlight: set<SessionId>,
    txReady: set<SessionId>,
    callbacks: multiset<SessionId>,
    polls: map<Worker, Poll>,
    lock: Option<Worker>,
    used: set<SessionId>,
    holder: map<SessionId, Worker>)

  const NEW_SCHED := Sched(map[], {}, {}, multiset{}, map[], None, {}, map[])

  datatype Event =
    | Register(id: SessionId, target: Bytes)
    | Unregister(id: SessionId)                      // clean-up of a finished or reset session
    | Writer(id: SessionId, op: WriterOp)
    | Callback(id: SessionId)
    | BeginDrain(w: Worker)
    | DrainOne(w: Worker, id: SessionId, cap: nat)
    | EndDrain(w: Worker)
    | ReachPeer(w: Worker)                           // the batch arrives at the exit server
    | Keep(w: Worker)                                // the poll counts as delivered
    | GiveUp(w: Worker)                              // it does not: start rolling back
    | RollBackOne(w: Worker, id: SessionId)
    | ReleaseAll(w: Worker)

  predicate At(c: Sched, w: Worker, stage: Stage) {
    w in c.polls && c.polls[w].stage == stage
  }

  predicate Can(c: Sched, e: Event) {
    match e
    case Register(id, _) => c.lock.None? && id !in c.used
    case Unregister(id) => c.lock.None?
    case Writer(id, op) => id in c.sessions && !Blocked(c.sessions[id].tx, op)
    case Callback(id) => c.lock.None? && id in c.callbacks
    case BeginDrain(w) => c.lock.None? && w !in c.polls
    case DrainOne(w, id, cap) =>
      && c.lock == Some(w) && At(c, w, Draining) && id in c.sessions && id !in c.inFlight
      && 0 < cap <= MAX_FRAMES_PER_SESSION
    case EndDrain(w) => c.lock == Some(w) && At(c, w, Draining)
    case ReachPeer(w) => At(c, w, Sending)
    case Keep(w) => At(c, w, Sending)
    case GiveUp(w) => At(c, w, Sending) && c.lock.None?
    case RollBackOne(w, id) => w in c.polls && c.polls[w].stage.RollingBack? && id in c.polls[w].stage.todo && id in c.polls[w].snaps
    case ReleaseAll(w) => (At(c, w, Settled) || At(c, w, RollingBack({}))) && c.lock.None?
  }

  /** `RollbackDrain` with the snapshot the poll kept, whatever the session's own history. */
  function Undo(s: Sender, snap: Snapshot): Sender {
    Sender(Rollback(s.tx, Some(snap)), s.needsSyn, s.accepted, s.log[..Min(snap.txSeq, |s.log|)], None)
  }

  /** Applies `f` to the registered sessions of a poll. */
  function OnAll(sessions: map<SessionId, Sender>, ids: set<SessionId>, f: Sender -> Sender): map<SessionId, Sender> {
    map id | id in sessions :: if id in ids then f(sessions[id]) else sessions[id]
  }

  function MarkReached(s: Sender): Sender {
    if s.out.Some? then Reached(s) else s
  }

  function Step(c: Sched, e: Event): Sched
    requires Can(c, e)
  {
    match e
    case Register(id, target) =>
      c.(sessions := c.sessions[id := NewSender(id, target, true)],
         txReady := c.txReady + {id}, used := c.used + {id})
    case Unregister(id) => c.(sessions := c.sessions - {id}, txReady := c.txReady - {id})
    case Writer(id, op) =>
      c.(sessions := c.sessions[id := Written(c.sessions[id], op)],
         callbacks := if Refused(c.sessions[id].tx, op) then c.callbacks else c.callbacks + multiset{id})
    case Callback(id) => c.(txReady := c.txReady + {id}, callbacks := c.callbacks - multiset{id})
    case BeginDrain(w) =>
      c.(lock := Some(w), polls := c.polls[w := Poll({}, map[], Draining)],
         txReady := c.txReady * c.sessions.Keys)
    case DrainOne(w, id, cap) =>
      var s := c.sessions[id];
      var c1 := c.(sessions := c.sessions[id := Drained(s, MAX_FRAME_PAYLOAD, cap)], txReady := c.txReady - {id});
      if |DrainFrames(s.tx, MAX_FRAME_PAYLOAD, cap)| == 0 then c1
      else
        var p := c.polls[w];
        c1.(inFlight := c.inFlight + {id}, holder := c.holder[id := w],
            polls := c.polls[w := Poll(p.ids + {id}, p.snaps[id := SnapshotOf(s.tx)], Draining)])
    case EndDrain(w) => c.(lock := None, polls := c.polls[w := c.polls[w].(stage := Sending)])
    case ReachPeer(w) => c.(sessions := OnAll(c.sessions, c.polls[w].ids, MarkReached))
    case Keep(w) =>
      c.(sessions := OnAll(c.sessions, c.polls[w].ids, Committed),
         polls := c.polls[w := c.polls[w].(stage := Settled)])
    case GiveUp(w) =>
      var p := c.polls[w];
      c.(polls := c.polls[w := p.(stage := RollingBack(p.snaps.Keys * c.sessions.Keys))])
    case RollBackOne(w, id) =>
      var p := c.polls[w];
      var c1 := c.(polls := c.polls[w := p.(stage := RollingBack(p.stage.todo - {id}))],
                   callbacks := c.callbacks + multiset{id});
      if id in c.sessions then c1.(sessions := c.sessions[id := Undo(c.sessions[id], p.snaps[id])]) else c1
    case ReleaseAll(w) =>
      var p := c.polls[w];
      c.(inFlight := c.inFlight - p.ids, holder := c.holder - p.ids, polls := c.polls - {w},
         txReady := c.txReady + (set id | id in p.ids && id in c.sessions && c.sessions[id].tx.Pending()))
  }

  // ---- Who holds what --------------------------------------------------------------------

  /** A worker in this stage still answers for the session's outstanding batch. */
  predicate Open(p: Poll, id: SessionId) {
    match p.stage
    case Draining => true
    case Sending => true
    case RollingBack(todo) => id in todo
    case Settled => false
  }

  predicate Owns(c: Sched, w: Worker, id: SessionId) {
    w in c.polls && id in c.polls[w].ids
  }

  /** `inFlight` is exactly what the outstanding polls hold, and no two hold the same. */
  ghost predicate Held(c: Sched) {
    && c.holder.Keys == c.inFlight
    && (forall id :: id in c.holder ==> Owns(c, c.holder[id], id))
    && (forall w, id :: Owns(c, w, id) ==> id in c.holder && c.holder[id] == w)
    && (forall w :: w in c.polls ==> PollOk(c.polls[w]))
    && c.sessions.Keys <= c.used && c.inFlight <= c.used
  }

  ghost predicate PollOk(p: Poll) {
    p.snaps.Keys == p.ids && (p.stage.RollingBack? ==> p.stage.todo <= p.ids)
  }

  /** A session has a batch out exactly while some worker answers for it, and the snapshot
      that worker kept is that batch's. */
  ghost predicate Answered(c: Sched, id: SessionId)
    requires Held(c) && id in c.sessions
  {
    var out := c.sessions[id].out;
    if id in c.holder && Open(c.polls[c.holder[id]], id)
    then out.Some? && out.value.snap == c.polls[c.holder[id]].snaps[id]
    else out.None?
  }

  ghost predicate NoneForgotten(c: Sched) {
    forall id :: id in c.sessions && c.sessions[id].tx.Pending() ==>
      id in c.txReady || id in c.inFlight || id in c.callbacks
  }

  ghost predicate Inv(c: Sched) {
    Held(c) && NoneForgotten(c) && forall id :: id in c.sessions ==> Answered(c, id)
  }

  lemma StepOwner(c: Sched, e: Event, w: Worker, id: SessionId)
    requires Held(c) && Can(c, e) && Owns(Step(c, e), w, id)
    ensures id in Step(c, e).holder && Step(c, e).holder[id] == w
  {
    hide DrainFrames, DrainState, Drained, Written, Undo, Blocked, PollOk;
    assert Owns(c, w, id) || (e.DrainOne? && w == e.w && id == e.id);
    match e
    case ReleaseAll(v) => assert id in c.polls[v].ids ==> Owns(c, v, id);
    case _ =>
  }

  lemma StepHolder(c: Sched, e: Event, id: SessionId)
    requires Held(c) && Can(c, e) && id in Step(c, e).holder
    ensures Owns(Step(c, e), Step(c, e).holder[id], id)
  {
    hide DrainFrames, DrainState, Drained, Written, Undo, Blocked, PollOk;
    if id in c.holder {
      assert Owns(c, c.holder[id], id);
    }
  }

  lemma StepPollOk(c: Sched, e: Event, w: Worker)
    requires Held(c) && Can(c, e) && w in Step(c, e).polls
    ensures PollOk(Step(c, e).polls[w])
  {
    hide DrainFrames, DrainState, Drained, Written, Undo, Blocked;
    if w in c.polls {
      assert PollOk(c.polls[w]);
    }
  }

  lemma StepKeys(c: Sched, e: Event)
    requires Held(c) && Can(c, e)
    ensures var d := Step(c, e);
            d.holder.Keys == d.inFlight && d.sessions.Keys <= d.used && d.inFlight <= d.used
  {
    hide DrainFrames, DrainState, Drained, Written, Undo, Blocked, PollOk;
  }

  lemma StepHeld(c: Sched, e: Event)
    requires Held(c) && Can(c, e)
    ensures Held(Step(c, e))
  {
    hide Can, Step, PollOk;
    StepKeys(c, e);
    forall w, id | Owns(Step(c, e), w, id) ensures id in Step(c, e).holder && Step(c, e).holder[id] == w {
      StepOwner(c, e, w, id);
    }
    forall id | id in Step(c, e).holder ensures Owns(Step(c, e), Step(c, e).holder[id], id) {
      StepHolder(c, e, id);
    }
    forall w | w in Step(c, e).polls ensures PollOk(Step(c, e).polls[w]) {
      StepPollOk(c, e, w);
    }
  }

  lemma StepNoneForgotten(c: Sched, e: Event)
    requires Inv(c) && Can(c, e)
    ensures NoneForgotten(Step(c, e))
  {
    if e.DrainOne? {
      DrainContract(c.sessions[e.id].tx, MAX_FRAME_PAYLOAD, e.cap);
    }
  }

  lemma StepAnswered(c: Sched, e: Event, id: SessionId)
    requires Inv(c) && Can(c, e) && Held(Step(c, e)) && id in Step(c, e).sessions
    ensures Answered(Step(c, e), id)
  {
    if id in c.sessions {
      assert Answered(c, id);
      if id in c.holder {
        assert Owns(c, c.holder[id], id);
      }
      match e
      case DrainOne(w, x, cap) => DrainAnswered(c, w, x, cap, id);
      case ReachPeer(w) => PollAnswered(c, e, w, id);
      case Keep(w) => PollAnswered(c, e, w, id);
      case GiveUp(w) => PollAnswered(c, e, w, id);
      case RollBackOne(w, _) => PollAnswered(c, e, w, id);
      case ReleaseAll(w) => PollAnswered(c, e, w, id);
      case _ =>
    }
  }

  lemma DrainAnswered(c: Sched, w: Worker, x: SessionId, cap: nat, id: SessionId)
    requires Held(c) && Can(c, DrainOne(w, x, cap)) && Held(Step(c, DrainOne(w, x, cap)))
    requires id in c.sessions && Answered(c, id)
    ensures Answered(Step(c, DrainOne(w, x, cap)), id)
  {
    if id in c.holder {
      assert Owns(c, c.holder[id], id);
    }
  }

  lemma PollAnswered(c: Sched, e: Event, w: Worker, id: SessionId)
    requires Held(c) && Can(c, e) && Held(Step(c, e)) && id in c.sessions && Answered(c, id)
    requires e == ReachPeer(w) || e == Keep(w) || e == GiveUp(w) || e == ReleaseAll(w)
             || (e.RollBackOne? && e.w == w)
    ensures Answered(Step(c, e), id)
  {
    if id in c.holder {
      assert Owns(c, c.holder[id], id);
    }
    assert Owns(c, w, id) <==> id in c.polls[w].ids;
    assert PollOk(c.polls[w]);
  }

  lemma StepInv(c: Sched, e: Event)
    requires Inv(c) && Can(c, e)
    ensures Inv(Step(c, e))
  {
    StepHeld(c, e);
    StepNoneForgotten(c, e);
    forall id | id in Step(c, e).sessions ensures Answered(Step(c, e), id) {
      StepAnswered(c, e, id);
    }
  }

  // ---- Runs ------------------------------------------------------------------------------------

  ghost predicate Run(c: Sched, es: seq<Event>)
    decreases |es|
  {
    |es| > 0 ==> Can(c, es[0]) && Run(Step(c, es[0]), es[1..])
  }

  ghost function End(c: Sched, es: seq<Event>): Sched
    requires Run(c, es)
    decreases |es|
  {
    if |es| == 0 then c else End(Step(c, es[0]), es[1..])
  }

  lemma {:induction false} RunInv(c: Sched, es: seq<Event>)
    requires Inv(c) && Run(c, es)
    ensures Inv(End(c, es))
    decreases |es|
  {
    if |es| > 0 {
      StepInv(c, es[0]);
      RunInv(Step(c, es[0]), es[1..]);
    }
  }

  /** In every interleaving: the in-flight set is exactly the union of what the outstanding
      polls hold, no session is in two polls, and every registered session with frames to
      send is ready, in flight, or about to be called back. */
  lemma PollsHoldWhatIsInFlight(es: seq<Event>)
    requires Run(NEW_SCHED, es)
    ensures var c := End(NEW_SCHED, es);
            && (forall id :: id in c.inFlight <==> exists w :: Owns(c, w, id))
            && (forall v, w, id :: Owns(c, v, id) && Owns(c, w, id) ==> v == w)
            && (forall id :: id in c.sessions && c.sessions[id].tx.Pending() ==>
                  id in c.txReady || id in c.inFlight || id in c.callbacks)
  {
    RunInv(NEW_SCHED, es);
    var c := End(NEW_SCHED, es);
    forall id ensures id in c.inFlight <==> exists w :: Owns(c, w, id) {
      if id in c.inFlight {
        assert Owns(c, c.holder[id], id);
      }
    }
  }

  // ---- Every session's stream ------------------------------------------------------------------------

  ghost predicate Streams(c: Sched) {
    forall id :: id in c.sessions ==> SenderInv(c.sessions[id])
  }

  /** The drain being undone had emptied the buffer. */
  ghost predicate Emptied(c: Sched, e: Event) {
    e.RollBackOne? && e.id in c.sessions && c.sessions[e.id].out.Some? ==>
      c.sessions[e.id].out.value.tail == []
  }

  /** Thanks to the in-flight set, every step a worker takes on a session is a legal step of
      that session's own protocol: it never drains with a batch out, and it rolls back with
      the snapshot of the batch that is out. */
  lemma StepStreams(c: Sched, e: Event)
    requires Inv(c) && Streams(c) && Can(c, e) && Emptied(c, e)
    ensures Streams(Step(c, e))
  {
    forall id | id in Step(c, e).sessions ensures SenderInv(Step(c, e).sessions[id]) {
      StepOneStream(c, e, id);
    }
  }

  lemma StepOneStream(c: Sched, e: Event, id: SessionId)
    requires Inv(c) && Can(c, e) && Emptied(c, e) && id in Step(c, e).sessions
    requires id in c.sessions ==> SenderInv(c.sessions[id])
    ensures SenderInv(Step(c, e).sessions[id])
  {
    match e
    case Register(x, target) => NewSenderOk(x, target, true);
    case Writer(x, op) =>
      if x == id {
        WrittenOk(c.sessions[id], op);
      }
    case DrainOne(w, x, cap) =>
      if x == id {
        assert Answered(c, id);
        DrainedOk(c.sessions[id], MAX_FRAME_PAYLOAD, cap);
      }
    case RollBackOne(w, x) =>
      if x == id {
        UndoIsRollback(c, w, id);
        RolledBackOk(c.sessions[id]);
      }
    case _ =>
  }

  lemma UndoIsRollback(c: Sched, w: Worker, id: SessionId)
    requires Inv(c) && Can(c, RollBackOne(w, id)) && id in c.sessions && SenderInv(c.sessions[id])
    ensures c.sessions[id].out.Some?
    ensures Undo(c.sessions[id], c.polls[w].snaps[id]) == RolledBack(c.sessions[id])
  {
    assert PollOk(c.polls[w]);
    assert Owns(c, w, id);
    assert Answered(c, id);
  }

  ghost predicate EmptiedRun(c: Sched, es: seq<Event>)
    decreases |es|
  {
    |es| > 0 ==> Can(c, es[0]) && Emptied(c, es[0]) && EmptiedRun(Step(c, es[0]), es[1..])
  }

  /** In every interleaving whose rollbacks undo emptying drains, each session's frames form
      one well-shaped stream of exactly the bytes accepted for it. */
  lemma {:induction false} EverySessionOneStream(c: Sched, es: seq<Event>)
    requires Inv(c) && Streams(c) && EmptiedRun(c, es)
    ensures Run(c, es) && Inv(End(c, es)) && Streams(End(c, es))
    decreases |es|
  {
    if |es| > 0 {
      StepInv(c, es[0]);
      StepStreams(c, es[0]);
      EverySessionOneStream(Step(c, es[0]), es[1..]);
    }
  }
}

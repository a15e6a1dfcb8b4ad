/** The carrier client with all its sessions, and for each session the network, the exit's
    receiver and its reader: the scheduling of `CarrierRuns` and the streams of `EndToEnd` in
    one machine, where a worker's step on a session is a step of that session's stream. */
module FleetRuns {
  import opened Prelude
  import opened Frames
  import opened TxSpec
  import opened CarrierSpec
  import opened RxLoops
  import opened Senders
  import C = CarrierRuns
  import W = EndToEnd

  /** `worlds` keeps the stream of every session ever registered. */
  datatype Fleet = Fleet(sched: C.Sched, worlds: map<SessionId, W.World>)

  const NEW_FLEET := Fleet(C.NEW_SCHED, map[])

  datatype Event =
    | Near(e: C.Event)
    | Far(id: SessionId, we: W.Event)   // arrivals, the receive loop, the reader; late arrivals,
                                        // also of a batch whose session has left the table

  /** What a step of the client is to one session: at most one step of its stream. */
  function Mine(c: Fleet, e: C.Event, id: SessionId): Option<SendEvent>
    requires C.Can(c.sched, e) && id in c.worlds
  {
    match e
    case Writer(x, op) => if x == id then Some(SendEvent.Writer(op)) else None
    case DrainOne(_, x, cap) => if x == id then Some(Drain(MAX_FRAME_PAYLOAD, cap)) else None
    case ReachPeer(w) => if id in c.sched.polls[w].ids && c.worlds[id].snd.out.Some? then Some(Reach) else None
    case Keep(w) =>
      if id in c.sched.polls[w].ids && id in c.sched.sessions then Some(Commit) else None
    case RollBackOne(_, x) => if x == id && id in c.sched.sessions then Some(RollBack) else None
    case _ => None
  }

  function Seen(c: Fleet, e: Event, id: SessionId): Option<W.Event>
    requires Can(c, e) && id in c.worlds
  {
    match e
    case Near(ne) =>
      (match Mine(c, ne, id)
       case Some(se) => Some(W.Send(se))
       case None => None)
    case Far(x, we) => if x == id then Some(we) else None
  }

  predicate Can(c: Fleet, e: Event) {
    match e
    case Near(ne) => C.Can(c.sched, ne)
    case Far(id, we) =>
      && id in c.worlds && W.Can(c.worlds[id], we)
      && (we.Send? ==> we.se == Reach && id !in c.sched.sessions)
  }

  /** The guard never holds a step back: see `StepsAreLegal`. */
  function Moved(w: W.World, seen: Option<W.Event>): W.World {
    if seen.Some? && W.Can(w, seen.value) then W.Step(w, seen.value) else w
  }

  function Step(c: Fleet, e: Event): Fleet
    requires Can(c, e)
  {
    var worlds := map id | id in c.worlds :: Moved(c.worlds[id], Seen(c, e, id));
    match e
    case Near(ne) =>
      Fleet(C.Step(c.sched, ne), if ne.Register? then worlds[ne.id := W.NewWorld(ne.id, ne.target, true)] else worlds)
    case Far(_, _) => Fleet(c.sched, worlds)
  }

  ghost predicate Benign(c: Fleet, e: Event)
    requires Can(c, e)
  {
    forall id :: id in c.worlds && Seen(c, e, id).Some? ==> W.Benign(c.worlds[id], Seen(c, e, id).value)
  }

  // ---- The invariant ------------------------------------------------------------------

  /** A registered session is the sending end of its stream. */
  ghost predicate Mirrors(c: Fleet) {
    && c.worlds.Keys == c.sched.used
    && (forall id :: id in c.sched.sessions ==> id in c.worlds && c.worlds[id].snd == c.sched.sessions[id])
  }

  ghost predicate Inv(c: Fleet) {
    C.Inv(c.sched) && Mirrors(c) && forall id :: id in c.worlds ==> W.Inv(c.worlds[id])
  }

  /** Whatever a worker does to a session, the session's own protocol allows it: it drains
      only with no batch out, and commits or rolls back only one that is. */
  lemma StepsAreLegal(c: Fleet, e: Event, id: SessionId)
    requires Inv(c) && Can(c, e) && id in c.worlds && Seen(c, e, id).Some?
    ensures W.Can(c.worlds[id], Seen(c, e, id).value)
  {
    hide W.Inv, C.Inv, DrainFrames, Blocked;
    if e.Near? && id in c.sched.sessions {
      OutIsAnswered(c, id);
      Owner(c.sched, id);
    }
  }

  lemma OutIsAnswered(c: Fleet, id: SessionId)
    requires Inv(c) && id in c.sched.sessions
    ensures C.Held(c.sched) && C.Answered(c.sched, id) && SenderInv(c.worlds[id].snd)
  {
    assert W.Inv(c.worlds[id]);
  }

  lemma Owner(s: C.Sched, id: SessionId)
    requires C.Held(s)
    ensures id in s.holder ==> C.Owns(s, s.holder[id], id)
    ensures forall w :: w in s.polls && id in s.polls[w].ids ==> id in s.holder && s.holder[id] == w
    ensures forall w :: w in s.polls ==> C.PollOk(s.polls[w])
  {
    forall w | w in s.polls && id in s.polls[w].ids ensures id in s.holder && s.holder[id] == w {
      assert C.Owns(s, w, id);
    }
  }

  // ---- The steps ------------------------------------------------------------------------

  /** The client's copy of a session takes the same step. */
  lemma SessionMoves(c: Fleet, e: C.Event, id: SessionId)
    requires Inv(c) && Can(c, Near(e)) && id in c.sched.sessions && id in C.Step(c.sched, e).sessions
    requires Mine(c, e, id).Some? ==> CanSend(c.worlds[id].snd, Mine(c, e, id).value)
    ensures var s, s' := c.sched.sessions[id], C.Step(c.sched, e).sessions[id];
            s' == if Mine(c, e, id).Some? then SendStep(s, Mine(c, e, id).value) else s
  {
    hide W.Inv, C.Inv, C.Step, DrainFrames, DrainState, Blocked, C.Undo, Written, Drained, RolledBack, C.Held, C.Answered;
    OutIsAnswered(c, id);
    if e.RollBackOne? {
      if e.id == id {
        C.UndoIsRollback(c.sched, e.w, id);
      }
      RollBackMoves(c, e, id);
    } else {
      OtherMoves(c, e, id);
    }
  }

  lemma RollBackMoves(c: Fleet, e: C.Event, id: SessionId)
    requires C.Can(c.sched, e) && e.RollBackOne? && id in c.sched.sessions && id in c.worlds
    ensures id in C.Step(c.sched, e).sessions
    ensures C.Step(c.sched, e).sessions[id] ==
            if id == e.id then C.Undo(c.sched.sessions[id], c.sched.polls[e.w].snaps[id]) else c.sched.sessions[id]
  {
    hide C.Undo;
  }

  lemma OtherMoves(c: Fleet, e: C.Event, id: SessionId)
    requires C.Held(c.sched) && Mirrors(c) && C.Can(c.sched, e) && !e.RollBackOne?
    requires id in c.sched.sessions && id in C.Step(c.sched, e).sessions
    requires Mine(c, e, id).Some? ==> CanSend(c.worlds[id].snd, Mine(c, e, id).value)
    ensures var s, s' := c.sched.sessions[id], C.Step(c.sched, e).sessions[id];
            s' == if Mine(c, e, id).Some? then SendStep(s, Mine(c, e, id).value) else s
  {
    hide DrainFrames, DrainState, Blocked, C.Undo, Written, Drained, RolledBack, C.PollOk;
  }

  lemma StepMirrors(c: Fleet, e: C.Event, id: SessionId)
    requires Inv(c) && Can(c, Near(e)) && id in c.sched.sessions && id in C.Step(c.sched, e).sessions
    ensures Moved(c.worlds[id], Seen(c, Near(e), id)).snd == C.Step(c.sched, e).sessions[id]
  {
    hide W.Inv, C.Inv, W.Step, W.Can, C.Step, C.Can, SendStep, CanSend, Mine;
    if Mine(c, e, id).Some? {
      StepsAreLegal(c, Near(e), id);
      SendMoves(c.worlds[id], Mine(c, e, id).value);
    }
    SessionMoves(c, e, id);
  }

  lemma SendMoves(w: W.World, se: SendEvent)
    requires W.Can(w, W.Send(se))
    ensures CanSend(w.snd, se) && W.Step(w, W.Send(se)).snd == SendStep(w.snd, se)
  {
    hide W.Resumable, DrainFrames;
  }

  lemma StepInv(c: Fleet, e: Event)
    requires Inv(c) && Can(c, e) && Benign(c, e)
    ensures Inv(Step(c, e))
  {
    hide W.Inv, C.Inv, W.Step, C.Step, W.Benign, Moved;
    forall id | id in c.worlds ensures W.Inv(Moved(c.worlds[id], Seen(c, e, id))) {
      MovedInv(c, e, id);
    }
    match e
    case Near(ne) =>
      C.StepInv(c.sched, ne);
      UsedGrows(c.sched, ne);
      forall id | id in C.Step(c.sched, ne).sessions && id in c.sched.sessions
        ensures Moved(c.worlds[id], Seen(c, e, id)).snd == C.Step(c.sched, ne).sessions[id]
      {
        StepMirrors(c, ne, id);
      }
      if ne.Register? {
        W.NewWorldInv(ne.id, ne.target, true);
      }
    case Far(x, we) =>
      forall id | id in c.sched.sessions ensures Moved(c.worlds[id], Seen(c, e, id)).snd == c.worlds[id].snd {
        FarKeepsSender(c.worlds[id], Seen(c, e, id));
      }
  }

  lemma MovedInv(c: Fleet, e: Event, id: SessionId)
    requires Inv(c) && Can(c, e) && Benign(c, e) && id in c.worlds
    ensures W.Inv(Moved(c.worlds[id], Seen(c, e, id)))
  {
    hide W.Inv, C.Inv, W.Step, W.Benign, Seen;
    if Seen(c, e, id).Some? {
      StepsAreLegal(c, e, id);
      W.StepInv(c.worlds[id], Seen(c, e, id).value);
    }
  }

  lemma UsedGrows(s: C.Sched, e: C.Event)
    requires C.Can(s, e)
    ensures C.Step(s, e).used == (if e.Register? then s.used + {e.id} else s.used)
    ensures forall id :: id in C.Step(s, e).sessions ==> id in s.sessions || (e.Register? && e.id == id)
    ensures e.Register? ==> e.id !in s.used && C.Step(s, e).sessions[e.id] == NewSender(e.id, e.target, true)
  {
    hide DrainFrames, Blocked, C.Undo, Drained, Written;
  }

  lemma FarKeepsSender(w: W.World, seen: Option<W.Event>)
    requires seen.Some? ==> !seen.value.Send?
    ensures Moved(w, seen).snd == w.snd
  {
  }

  // ---- Runs -----------------------------------------------------------------------------

  ghost predicate BenignRun(c: Fleet, es: seq<Event>)
    decreases |es|
  {
    |es| > 0 ==> Can(c, es[0]) && Benign(c, es[0]) && BenignRun(Step(c, es[0]), es[1..])
  }

  ghost function End(c: Fleet, es: seq<Event>): Fleet
    requires BenignRun(c, es)
    decreases |es|
  {
    if |es| == 0 then c else End(Step(c, es[0]), es[1..])
  }

  lemma {:induction false} RunInv(c: Fleet, es: seq<Event>)
    requires Inv(c) && BenignRun(c, es)
    ensures Inv(End(c, es))
    decreases |es|
  {
    if |es| > 0 {
      StepInv(c, es[0]);
      RunInv(Step(c, es[0]), es[1..]);
    }
  }

  lemma NewFleetOk()
    ensures Inv(NEW_FLEET)
  {
  }

  /** With any number of poll workers, interleaved in any way with writers, callbacks,
      clean-up, arrivals, receive loops and readers: what has been read of a session is a
      prefix of what that session accepted, and the client's table holds those sessions. */
  lemma EveryStreamIsSafe(es: seq<Event>)
    requires BenignRun(NEW_FLEET, es)
    ensures var c := End(NEW_FLEET, es);
            && (forall id :: id in c.worlds ==> c.worlds[id].got <= c.worlds[id].snd.accepted)
            && (forall id :: id in c.sched.sessions ==> id in c.worlds && c.worlds[id].snd == c.sched.sessions[id])
  {
    RunInv(NEW_FLEET, es);
    var c := End(NEW_FLEET, es);
    forall id | id in c.worlds ensures c.worlds[id].got <= c.worlds[id].snd.accepted {
      W.HandedIsPrefix(c.worlds[id]);
    }
  }

  // ---- End of stream --------------------------------------------------------------------

  ghost predicate LeavesAlone(e: Event, id: SessionId) {
    e.Far? && e.id == id ==> W.Harmless(e.we)
  }

  lemma StepUnharmed(c: Fleet, e: Event, id: SessionId)
    requires Inv(c) && Can(c, e) && id in Step(c, e).worlds && LeavesAlone(e, id)
    requires id in c.worlds ==> W.Unharmed(c.worlds[id].rcv)
    ensures W.Unharmed(Step(c, e).worlds[id].rcv)
  {
    hide W.Inv, C.Inv, Step, W.Step, W.Can, Seen, LeavesAlone, W.Unharmed, W.Harmless;
    WorldMoves(c, e, id);
    if id in c.worlds && Seen(c, e, id).Some? {
      StepsAreLegal(c, e, id);
      SeenHarmless(c, e, id);
      ClosesOnce(c.worlds[id]);
      W.UnharmedStep(c.worlds[id], Seen(c, e, id).value);
    } else if id !in c.worlds {
      assert W.Unharmed(W.NewWorld(id, e.e.target, true).rcv) by { Fresh(id, e.e.target); }
    }
  }

  lemma WorldMoves(c: Fleet, e: Event, id: SessionId)
    requires Inv(c) && Can(c, e) && id in Step(c, e).worlds
    ensures id in c.worlds ==> Step(c, e).worlds[id] == Moved(c.worlds[id], Seen(c, e, id))
    ensures id !in c.worlds ==>
              e.Near? && e.e.Register? && e.e.id == id && Step(c, e).worlds[id] == W.NewWorld(id, e.e.target, true)
  {
    hide W.Inv, C.Inv, C.Step, Moved, Seen;
  }

  lemma SeenHarmless(c: Fleet, e: Event, id: SessionId)
    requires Can(c, e) && id in c.worlds && Seen(c, e, id).Some? && LeavesAlone(e, id)
    ensures W.Harmless(Seen(c, e, id).value)
  {
  }

  lemma ClosesOnce(w: W.World)
    requires W.Inv(w)
    ensures CloseInv(w.rcv)
  {
  }

  lemma Fresh(id: SessionId, target: Bytes)
    ensures W.Unharmed(W.NewWorld(id, target, true).rcv)
  {
  }

  lemma {:induction false} RunUnharmed(c: Fleet, es: seq<Event>, id: SessionId)
    requires Inv(c) && BenignRun(c, es) && id in End(c, es).worlds && forall e :: e in es ==> LeavesAlone(e, id)
    requires id in c.worlds ==> W.Unharmed(c.worlds[id].rcv)
    ensures W.Unharmed(End(c, es).worlds[id].rcv)
    decreases |es|
  {
    if |es| > 0 {
      StepInv(c, es[0]);
      if id in Step(c, es[0]).worlds {
        StepUnharmed(c, es[0], id);
      }
      RunUnharmed(Step(c, es[0]), es[1..], id);
    }
  }

  /** In the same runs, a reader that finds the end of a stream nobody stopped at its side,
      with no rolled-back batch waiting to be sent again, has read everything accepted. */
  lemma EndedStreamsAreComplete(es: seq<Event>, id: SessionId)
    requires BenignRun(NEW_FLEET, es) && forall e :: e in es ==> LeavesAlone(e, id)
    ensures var c := End(NEW_FLEET, es);
            id in c.worlds ==>
              var w := c.worlds[id];
              w.rcv.chanClosed && w.rcv.items == [] && w.readBuf == [] && w.shadow == [] ==> w.got == w.snd.accepted
  {
    RunInv(NEW_FLEET, es);
    var c := End(NEW_FLEET, es);
    if id in c.worlds && c.worlds[id].rcv.chanClosed && c.worlds[id].rcv.items == [] && c.worlds[id].readBuf == [] {
      RunUnharmed(NEW_FLEET, es, id);
      W.ClosedIsComplete(c.worlds[id]);
    }
  }
}

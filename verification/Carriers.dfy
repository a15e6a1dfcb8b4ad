/** The carrier client: the object that owns the session table and schedules its frames.
    Each method is proved against the function of CarrierSpec that says what it does to the
    table and to every session in it. */
module Carriers {
  import opened Prelude
  import opened Frames
  import opened TxSpec
  import opened Drains
  import opened Sessions
  import opened CarrierSpec

  /** The local variables of a drain: sessions taken, their frames, their snapshots, and the
      frames still allowed. */
  datatype Work = Work(ids: seq<SessionId>, parts: seq<seq<Frame>>, snaps: map<SessionId, DrainSnap>, remaining: int)

  function TxSnaps(snaps: map<SessionId, DrainSnap>): map<SessionId, Snapshot> {
    map id | id in snaps :: snaps[id].tx
  }

  lemma AllRestored(core: Core, core': Core, snaps: map<SessionId, DrainSnap>)
    requires core'.sessions.Keys == core.sessions.Keys && core'.inFlight == core.inFlight
    requires core'.txReady == core.txReady + snaps.Keys * core.sessions.Keys
    requires forall id :: id in core.sessions ==>
               core'.sessions[id] == if id in snaps then Rollback(core.sessions[id], Some(snaps[id].tx)) else core.sessions[id]
    ensures core' == RollbackAll(core, TxSnaps(snaps))
  {
    hide Rollback;
    assert TxSnaps(snaps).Keys == snaps.Keys;
  }

  lemma SnapshotTaken(t: TxState, maxPayload: int, maxFrames: int)
    ensures |DrainFrames(t, maxPayload, maxFrames)| > 0 ==>
              DrainSnapshot(t, maxPayload, maxFrames) == Some(SnapshotOf(t))
  {
  }

  lemma NoSnaps()
    ensures TxSnaps(map[]) == map[]
  {
  }

  lemma TxSnapsUpdate(snaps: map<SessionId, DrainSnap>, id: SessionId, snap: DrainSnap)
    ensures TxSnaps(snaps[id := snap]) == TxSnaps(snaps)[id := snap.tx]
  {
  }

  lemma NothingDrained(t: TxState, maxPayload: int, maxFrames: int)
    requires |DrainFrames(t, maxPayload, maxFrames)| == 0
    ensures DrainState(t, maxPayload, maxFrames) == t
  {
    DrainContract(t, maxPayload, maxFrames);
  }

  lemma TwoPasses(core: Core, refs: seq<SessionId>)
    ensures CarrierSpec.DrainAll(core, refs) == DrainPass(DrainPass(StartBatch(core), refs, true), refs, false)
  {
  }

  lemma ReleaseSnoc(core: Core, ids: seq<SessionId>, i: nat)
    requires i < |ids|
    ensures var before, after, id := Release(core, ids[..i]), Release(core, ids[..i + 1]), ids[i];
            && after.inFlight == before.inFlight - {id}
            && after.txReady == before.txReady
               + (if id in core.sessions && core.sessions[id].Pending() then {id} else {})
  {
    assert ids[..i + 1] == ids[..i] + [ids[i]];
    assert IdSet(ids[..i + 1]) == IdSet(ids[..i]) + {ids[i]};
  }

  class Client {
    var sessions: map<SessionId, Session>
    var inFlight: set<SessionId>
    var txReady: set<SessionId>

    constructor ()
      ensures Valid() && Abs() == Core(map[], {}, {})
    {
      sessions, inFlight, txReady := map[], {}, {};
    }

    ghost predicate Valid()
      reads this
    {
      forall id :: id in sessions ==> sessions[id].id == id
    }

    function Abs(): Core
      reads this, sessions.Values
    {
      Core(map id | id in sessions :: sessions[id].Tx(), inFlight, txReady)
    }

    function Ages(): map<SessionId, Stamp>
      reads this, sessions.Values
    {
      map id | id in sessions :: sessions[id].firstQueuedAt
    }

    ghost function BatchOf(w: Work): Batch
      reads this, sessions.Values
    {
      Batch(Abs(), w.ids, w.parts, TxSnaps(w.snaps), w.remaining)
    }

    /** Registers a new session; the caller supplies the random id. */
    method NewSession(id: SessionId, target: Bytes, now: int) returns (s: Session)
      requires Valid()
      modifies this`sessions, this`txReady
      ensures Valid() && fresh(s) && sessions == old(sessions)[id := s]
      ensures s.Tx() == TxState(id, target, true, [], 0, false, false)
      ensures inFlight == old(inFlight) && txReady == old(txReady) + {id}
    {
      s := new Session(id, target, true, now);
      sessions := sessions[id := s];
      txReady := txReady + {id};
    }

    /** The ready sessions, oldest first; ids without a session leave the ready set. */
    method ReadyRefs() returns (refs: seq<SessionId>)
      requires Valid()
      modifies this`txReady
      ensures txReady == old(txReady) * sessions.Keys
      ensures OldestFirst(old(Abs()), refs, old(Ages()))
      ensures forall id :: id in refs <==> id in old(txReady) && id in sessions
      ensures forall i, j :: 0 <= i < j < |refs| ==>
                var a, b := sessions[refs[i]].firstQueuedAt, sessions[refs[j]].firstQueuedAt;
                a == Never || (b != Never && a.time <= b.time)
    {
      hide InAgeOrder, Before;
      refs := [];
      NoneInAgeOrder();
      var todo := txReady;
      while todo != {}
        invariant todo <= old(txReady) && InAgeOrder(refs)
        invariant txReady == todo + (old(txReady) - todo) * sessions.Keys
        invariant forall id :: id in refs <==> id in old(txReady) - todo && id in sessions
        decreases todo
      {
        var id :| id in todo;
        todo := todo - {id};
        if id in sessions {
          refs := Insert(refs, id);
        } else {
          txReady := txReady - {id};
        }
      }
      OrderOf(refs);
    }

    /** Different registered sessions, none older than one before it. */
    ghost predicate InAgeOrder(refs: seq<SessionId>)
      reads this`sessions, sessions.Values`firstQueuedAt
    {
      && (forall x :: x in refs ==> x in sessions)
      && (forall i, j :: 0 <= i < j < |refs| ==> refs[i] != refs[j])
      && (forall i, j :: 0 <= i < j < |refs| ==> !Before(sessions[refs[j]].firstQueuedAt, sessions[refs[i]].firstQueuedAt))
    }

    lemma NoneInAgeOrder()
      ensures InAgeOrder([])
    {
    }

    lemma OrderOf(refs: seq<SessionId>)
      requires InAgeOrder(refs)
      ensures Ages().Keys == sessions.Keys && forall x :: x in refs ==> x in sessions
      ensures forall i, j :: 0 <= i < j < |refs| ==>
                && refs[i] != refs[j] && !Before(Ages()[refs[j]], Ages()[refs[i]])
                && var a, b := sessions[refs[i]].firstQueuedAt, sessions[refs[j]].firstQueuedAt;
                   a == Never || (b != Never && a.time <= b.time)
    {
    }

    /** Puts `id` behind every session that is not younger. */
    method Insert(refs: seq<SessionId>, id: SessionId) returns (r: seq<SessionId>)
      requires id in sessions && id !in refs && InAgeOrder(refs)
      ensures forall x :: x in r <==> x in refs || x == id
      ensures InAgeOrder(r)
    {
      var k := 0;
      while k < |refs| && !Before(sessions[id].firstQueuedAt, sessions[refs[k]].firstQueuedAt)
        invariant k <= |refs|
        invariant forall i :: 0 <= i < k ==> !Before(sessions[id].firstQueuedAt, sessions[refs[i]].firstQueuedAt)
      {
        k := k + 1;
      }
      r := refs[..k] + [id] + refs[k..];
      assert forall x :: x in r <==> x in refs[..k] || x == id || x in refs[k..];
      assert forall x :: x in refs <==> x in refs[..k] || x in refs[k..];
    }

    /** Only one session's sending side has changed. */
    twostate predicate OnlyOne(id: SessionId)
      reads this, sessions.Values
    {
      && sessions == old(sessions) && id in sessions
      && forall x :: x in sessions && x != id ==> sessions[x].Tx() == old(sessions[x].Tx())
    }

    twostate lemma OneChanged(id: SessionId)
      requires OnlyOne(id)
      ensures Abs().sessions == old(Abs()).sessions[id := sessions[id].Tx()]
    {
      var states := old(Abs()).sessions;
      assert forall x :: x in sessions ==> states[x] == old(sessions[x].Tx());
      SameBut(states, Abs().sessions, id);
    }

    /** Drains one registered session and takes it out of the ready set. */
    method DrainReady(id: SessionId, cap: int, now: int) returns (frames: seq<Frame>, snap: Option<DrainSnap>)
      requires Valid() && id in sessions
      modifies this`txReady
      modifies {sessions[id]}`txBuf, {sessions[id]}`txSeq, {sessions[id]}`synNeeded
      modifies {sessions[id]}`finSent, {sessions[id]}`finSentAt, {sessions[id]}`firstQueuedAt
      ensures frames == DrainFrames(old(Abs()).sessions[id], MAX_FRAME_PAYLOAD, cap)
      ensures TxPart(snap) == DrainSnapshot(old(Abs()).sessions[id], MAX_FRAME_PAYLOAD, cap)
      ensures Abs().sessions == old(Abs()).sessions[id := DrainState(old(Abs()).sessions[id], MAX_FRAME_PAYLOAD, cap)]
      ensures txReady == old(txReady) - {id}
    {
      hide DrainFrames, DrainState, DrainSnapshot;
      assert forall x :: x in sessions && x != id ==> sessions[x] != sessions[id];
      frames, snap := sessions[id].DrainTx(MAX_FRAME_PAYLOAD, cap, true, now);
      OneChanged(id);
      txReady := txReady - {id};
    }

    /** The part of a turn that drains: the batch grows, or the session had nothing. */
    method DrainTurn(w: Work, id: SessionId, cap: int, now: int) returns (w': Work)
      requires Valid() && id in sessions && cap == ShareOf(BatchOf(w))
      modifies this`inFlight, this`txReady
      modifies {sessions[id]}`txBuf, {sessions[id]}`txSeq, {sessions[id]}`synNeeded
      modifies {sessions[id]}`finSent, {sessions[id]}`finSentAt, {sessions[id]}`firstQueuedAt
      ensures BatchOf(w') == if |DrainFrames(old(Abs()).sessions[id], MAX_FRAME_PAYLOAD, cap)| == 0
                             then Unready(old(BatchOf(w)), id) else Take(old(BatchOf(w)), id)
    {
      hide DrainFrames, DrainState, DrainSnapshot, TxSnaps;
      ghost var b := BatchOf(w);
      SnapshotTaken(b.core.sessions[id], MAX_FRAME_PAYLOAD, cap);
      var frames, snap := DrainReady(id, cap, now);
      w' := w;
      if |frames| == 0 {
        NothingDrained(b.core.sessions[id], MAX_FRAME_PAYLOAD, cap);
        assert b.core.sessions[id := b.core.sessions[id]] == b.core.sessions;
        return;
      }
      inFlight := inFlight + {id};
      TxSnapsUpdate(w.snaps, id, snap.value);
      w' := Work(w.ids + [id], w.parts + [frames], w.snaps[id := snap.value], w.remaining - |frames|);
    }

    /** One session's turn in a pass. */
    method DrainSession(w: Work, id: SessionId, synOnly: bool, now: int) returns (w': Work)
      requires Valid()
      modifies this`inFlight, this`txReady
      modifies sessions.Values`txBuf, sessions.Values`txSeq, sessions.Values`synNeeded
      modifies sessions.Values`finSent, sessions.Values`finSentAt, sessions.Values`firstQueuedAt
      ensures Valid() && sessions == old(sessions)
      ensures BatchOf(w') == DrainOne(old(BatchOf(w)), id, synOnly)
    {
      w' := w;
      if w.remaining <= 0 {
        return;
      }
      if id !in sessions {
        txReady := txReady - {id};
        return;
      }
      if id in inFlight {
        return;
      }
      if synOnly && !sessions[id].synNeeded {
        return;
      }
      var perSessionCap := MAX_FRAMES_PER_SESSION;
      if w.remaining < perSessionCap {
        perSessionCap := w.remaining;
      }
      w' := DrainTurn(w, id, perSessionCap, now);
    }

    method DrainRefs(w: Work, refs: seq<SessionId>, synOnly: bool, now: int) returns (w': Work)
      requires Valid()
      modifies this`inFlight, this`txReady
      modifies sessions.Values`txBuf, sessions.Values`txSeq, sessions.Values`synNeeded
      modifies sessions.Values`finSent, sessions.Values`finSentAt, sessions.Values`firstQueuedAt
      ensures Valid() && sessions == old(sessions)
      ensures BatchOf(w') == DrainPass(old(BatchOf(w)), refs, synOnly)
    {
      w' := w;
      var i := 0;
      while i < |refs|
        invariant i <= |refs| && Valid() && sessions == old(sessions)
        invariant DrainPass(BatchOf(w'), refs[i..], synOnly) == DrainPass(old(BatchOf(w)), refs, synOnly)
      {
        w' := DrainSession(w', refs[i], synOnly, now);
        assert refs[i..][1..] == refs[i + 1..];
        i := i + 1;
      }
    }

    lemma AsManySessions()
      ensures |Abs().sessions| == |sessions|
    {
      assert Abs().sessions.Keys == sessions.Keys;
      assert |Abs().sessions| == |Abs().sessions.Keys| == |sessions.Keys| == |sessions|;
    }

    method BatchLimit() returns (batchCap: nat)
      ensures batchCap == BatchCap(Abs())
    {
      AsManySessions();
      batchCap := MAX_FRAMES_PER_BATCH;
      if |sessions| >= BUSY_SESSION_THRESHOLD {
        batchCap := MAX_FRAMES_PER_BATCH_BUSY;
      }
    }

    method BeginDrain() returns (order: seq<SessionId>, w: Work)
      requires Valid()
      modifies this`txReady
      ensures OldestFirst(old(Abs()), order, old(Ages()))
      ensures BatchOf(w) == StartBatch(old(Abs()))
    {
      hide OldestFirst, TxSnaps, BatchCap;
      NoSnaps();
      var batchCap := BatchLimit();
      order := ReadyRefs();
      w := Work([], [], map[], batchCap);
    }

    /** Drains one batch. `refs` is the order the sort chose. */
    method DrainAll(now: int) returns (out: seq<Frame>, w: Work, ghost refs: seq<SessionId>)
      requires Valid()
      modifies this`inFlight, this`txReady
      modifies sessions.Values`txBuf, sessions.Values`txSeq, sessions.Values`synNeeded
      modifies sessions.Values`finSent, sessions.Values`finSentAt, sessions.Values`firstQueuedAt
      ensures Valid() && sessions == old(sessions)
      ensures OldestFirst(old(Abs()), refs, old(Ages()))
      ensures BatchOf(w) == CarrierSpec.DrainAll(old(Abs()), refs)
      ensures out == Flatten(w.parts)
      ensures |out| <= if |sessions| >= 24 then 144 else 48
      ensures forall x :: x in old(txReady) && x in sessions && x !in old(inFlight) && old(sessions[x].Tx().Pending()) ==>
                x in w.ids || |out| == if |sessions| >= 24 then 144 else 48
    {
      hide CarrierSpec.DrainAll, DrainPass, StartBatch, OldestFirst, Flatten, TxSnaps;
      var order;
      ghost var core, age := Abs(), Ages();
      AsManySessions();
      order, w := BeginDrain();
      w := DrainRefs(w, order, true, now);
      w := DrainRefs(w, order, false, now);
      TwoPasses(core, order);
      out := Flatten(w.parts);
      refs := order;
      NoneLeftOut(core, refs, age);
    }

    method RestoreOne(id: SessionId, snap: DrainSnap)
      requires Valid() && id in sessions
      modifies this`txReady
      modifies {sessions[id]}`txBuf, {sessions[id]}`txSeq, {sessions[id]}`synNeeded
      modifies {sessions[id]}`finSent, {sessions[id]}`finSentAt, {sessions[id]}`firstQueuedAt
      ensures txReady == old(txReady) + {id}
      ensures sessions[id].Tx() == Rollback(old(sessions[id].Tx()), Some(snap.tx))
      ensures forall x :: x in sessions && x != id ==> sessions[x].Tx() == old(sessions[x].Tx())
    {
      hide Rollback;
      assert forall x :: x in sessions && x != id ==> sessions[x] != sessions[id];
      sessions[id].RollbackDrain(Some(snap));
      txReady := txReady + {id};
    }

    method RestoreEach(snaps: map<SessionId, DrainSnap>)
      requires Valid()
      modifies this`txReady
      modifies sessions.Values`txBuf, sessions.Values`txSeq, sessions.Values`synNeeded
      modifies sessions.Values`finSent, sessions.Values`finSentAt, sessions.Values`firstQueuedAt
      ensures txReady == old(txReady) + snaps.Keys * sessions.Keys
      ensures forall id :: id in sessions ==>
                sessions[id].Tx() == if id in snaps then Rollback(old(sessions[id].Tx()), Some(snaps[id].tx))
                                     else old(sessions[id].Tx())
    {
      hide Rollback;
      var todo := snaps.Keys * sessions.Keys;
      ghost var done: set<SessionId> := {};
      while todo != {}
        invariant todo + done == snaps.Keys * sessions.Keys && todo !! done
        invariant txReady == old(txReady) + done
        invariant forall id :: id in sessions ==>
                    sessions[id].Tx() == if id in done then Rollback(old(sessions[id].Tx()), Some(snaps[id].tx))
                                         else old(sessions[id].Tx())
        decreases todo
      {
        var id :| id in todo;
        todo, done := todo - {id}, done + {id};
        RestoreOne(id, snaps[id]);
      }
    }

    /** Restores the sessions of a batch that could not be sent. */
    method RollbackDrained(snaps: map<SessionId, DrainSnap>)
      requires Valid()
      modifies this`txReady
      modifies sessions.Values`txBuf, sessions.Values`txSeq, sessions.Values`synNeeded
      modifies sessions.Values`finSent, sessions.Values`finSentAt, sessions.Values`firstQueuedAt
      ensures Abs() == RollbackAll(old(Abs()), TxSnaps(snaps))
    {
      hide Rollback, TxSnaps, RollbackAll;
      ghost var core := Abs();
      RestoreEach(snaps);
      AllRestored(core, Abs(), snaps);
    }

    method ReleaseInFlight(ids: seq<SessionId>)
      requires Valid()
      modifies this`inFlight, this`txReady
      ensures Abs() == Release(old(Abs()), ids)
    {
      ghost var core := Abs();
      var i := 0;
      while i < |ids|
        invariant i <= |ids| && Core(core.sessions, inFlight, txReady) == Release(core, ids[..i])
      {
        var id := ids[i];
        ReleaseSnoc(core, ids, i);
        inFlight := inFlight - {id};
        if id in sessions {
          var pending := sessions[id].HasPendingTx();
          if pending {
            txReady := txReady + {id};
          }
        }
        i := i + 1;
      }
      assert ids[..i] == ids;
    }

    ghost function DoneIds(now: int): set<SessionId>
      reads this`sessions, sessions.Values
    {
      set id | id in sessions && sessions[id].IsDone(now)
    }

    method StopAndForget(id: SessionId)
      requires id in sessions
      modifies this`sessions, this`txReady, {sessions[id]}`stopped
      ensures old(sessions)[id].stopped && sessions == old(sessions) - {id} && txReady == old(txReady) - {id}
    {
      sessions[id].Stop();
      sessions := sessions - {id};
      txReady := txReady - {id};
    }

    /** Forgets finished sessions. Sessions held by a poll stay in `inFlight` until released. */
    method GcDoneSessions(now: int)
      requires Valid()
      modifies this`sessions, this`txReady, sessions.Values`stopped
      ensures Valid() && sessions == old(sessions) - old(DoneIds(now)) && txReady == old(txReady) - old(DoneIds(now))
      ensures forall id :: id in old(sessions) ==>
                (id !in sessions <==> old(sessions[id].finSent
                   && (sessions[id].rxClosed || (sessions[id].finSentAt.At? && now - sessions[id].finSentAt.time > 30))))
      ensures forall id :: id in old(DoneIds(now)) ==> old(sessions)[id].stopped
      ensures forall id :: id in sessions ==> unchanged(sessions[id])
    {
      ghost var all, gone := DoneIds(now), {};
      var todo := sessions.Keys;
      while todo != {}
        invariant Valid() && gone == all - todo && todo <= sessions.Keys
        invariant sessions == old(sessions) - gone && txReady == old(txReady) - gone
        invariant forall id :: id in todo ==> (sessions[id].IsDone(now) <==> id in all)
        invariant forall id :: id in gone ==> old(sessions)[id].stopped
        invariant forall id :: id in sessions ==> unchanged(sessions[id])
        decreases todo
      {
        var id :| id in todo;
        todo := todo - {id};
        if sessions[id].IsDone(now) {
          StopAndForget(id);
          gone := gone + {id};
        }
      }
      assert gone == all;
    }
  }
}

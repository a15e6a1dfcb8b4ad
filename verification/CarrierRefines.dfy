/** A poll that nobody interrupts, as a run of `CarrierRuns`: step by step it does what the
    client object does in one go. */
module CarrierRefines {
  import opened Prelude
  import opened Frames
  import opened TxSpec
  import opened Drains
  import opened Senders
  import opened CarrierSpec
  import M = CarrierRuns

  type Sched = M.Sched
  type Worker = M.Worker

  /** The tables as the client object has them. */
  function View(c: Sched): Core {
    Core(map id | id in c.sessions :: c.sessions[id].tx, c.inFlight, c.txReady)
  }

  lemma {:induction false} RunAppend(c: Sched, a: seq<M.Event>, b: seq<M.Event>)
    requires M.Run(c, a) && M.Run(M.End(c, a), b)
    ensures M.Run(c, a + b) && M.End(c, a + b) == M.End(M.End(c, a), b)
    decreases |a|
  {
    hide M.Step, M.Can;
    if |a| == 0 {
      assert a + b == b;
    } else {
      RunAppend(M.Step(c, a[0]), a[1..], b);
      assert (a + b)[1..] == a[1..] + b && (a + b)[0] == a[0];
    }
  }

  lemma OneStep(c: Sched, e: M.Event)
    requires M.Can(c, e)
    ensures M.Run(c, [e]) && M.End(c, [e]) == M.Step(c, e)
  {
    hide M.Step, M.Can;
    assert [e][1..] == [];
    assert M.Run(M.Step(c, e), []);
  }

  // ---- Draining ------------------------------------------------------------------------------

  /** Worker `w` holds the lock and has got as far as `b`; the rest is as it was in `c0`. */
  ghost predicate Mirrors(c0: Sched, c: Sched, w: Worker, b: Batch) {
    && c.lock == Some(w) && c.polls == c0.polls[w := M.Poll(IdSet(b.ids), b.snaps, M.Draining)]
    && c.callbacks == c0.callbacks && View(c) == b.core && b.core.txReady <= b.core.sessions.Keys
  }

  lemma NothingTaken(t: TxState, cap: int)
    ensures |DrainFrames(t, MAX_FRAME_PAYLOAD, cap)| == 0 ==> DrainState(t, MAX_FRAME_PAYLOAD, cap) == t
  {
    DrainContract(t, MAX_FRAME_PAYLOAD, cap);
  }

  lemma OneTurn(c0: Sched, c: Sched, w: Worker, b: Batch, id: SessionId, synOnly: bool) returns (es: seq<M.Event>)
    requires Mirrors(c0, c, w, b)
    ensures M.Run(c, es) && Mirrors(c0, M.End(c, es), w, CarrierSpec.DrainOne(b, id, synOnly))
  {
    hide DrainFrames, DrainState;
    if b.remaining <= 0 || id !in b.core.sessions || id in b.core.inFlight || (synOnly && !b.core.sessions[id].synNeeded) {
      es := [];
      assert b.core.txReady - {id} == b.core.txReady || id in b.core.sessions;
    } else {
      var e := M.DrainOne(w, id, ShareOf(b));
      es := [e];
      OneStep(c, e);
      NothingTaken(b.core.sessions[id], ShareOf(b));
      TurnMirrors(c0, c, w, b, id, synOnly);
    }
  }

  lemma TurnMirrors(c0: Sched, c: Sched, w: Worker, b: Batch, id: SessionId, synOnly: bool)
    requires Mirrors(c0, c, w, b) && b.remaining > 0 && id in b.core.sessions && id !in b.core.inFlight
    requires synOnly ==> b.core.sessions[id].synNeeded
    requires M.Can(c, M.DrainOne(w, id, ShareOf(b)))
    ensures Mirrors(c0, M.Step(c, M.DrainOne(w, id, ShareOf(b))), w, CarrierSpec.DrainOne(b, id, synOnly))
  {
    hide DrainFrames, DrainState;
    NothingTaken(b.core.sessions[id], ShareOf(b));
    var d, b' := M.Step(c, M.DrainOne(w, id, ShareOf(b))), CarrierSpec.DrainOne(b, id, synOnly);
    assert View(d).sessions == b'.core.sessions;
    assert IdSet(b.ids + [id]) == IdSet(b.ids) + {id};
  }

  lemma {:induction false} OnePass(c0: Sched, c: Sched, w: Worker, b: Batch, refs: seq<SessionId>, synOnly: bool)
    returns (es: seq<M.Event>)
    requires Mirrors(c0, c, w, b)
    ensures M.Run(c, es) && Mirrors(c0, M.End(c, es), w, DrainPass(b, refs, synOnly))
    decreases |refs|
  {
    hide Mirrors, CarrierSpec.DrainOne;
    if |refs| == 0 {
      es := [];
    } else {
      var first := OneTurn(c0, c, w, b, refs[0], synOnly);
      var rest := OnePass(c0, M.End(c, first), w, CarrierSpec.DrainOne(b, refs[0], synOnly), refs[1..], synOnly);
      RunAppend(c, first, rest);
      es := first + rest;
    }
  }

  lemma DrainBegins(c: Sched, w: Worker)
    requires c.lock.None? && w !in c.polls
    ensures Mirrors(c, M.Step(c, M.BeginDrain(w)), w, StartBatch(View(c)))
  {
    var c1, b := M.Step(c, M.BeginDrain(w)), StartBatch(View(c));
    assert IdSet(b.ids) == {};
    assert View(c1).sessions == View(c).sessions && View(c).sessions.Keys == c.sessions.Keys;
  }

  /** The whole drain: an uninterrupted worker can take exactly the batch the client object
      takes, whatever the order of the sessions. */
  lemma WholeDrain(c: Sched, w: Worker, refs: seq<SessionId>) returns (es: seq<M.Event>)
    requires c.lock.None? && w !in c.polls
    ensures M.Run(c, es)
    ensures var d, b := M.End(c, es), DrainAll(View(c), refs);
            && View(d) == b.core && d.lock.None? && d.callbacks == c.callbacks
            && d.polls == c.polls[w := M.Poll(IdSet(b.ids), b.snaps, M.Sending)]
  {
    hide DrainPass;
    var begin, end := M.BeginDrain(w), M.EndDrain(w);
    OneStep(c, begin);
    var c1, b := M.Step(c, begin), StartBatch(View(c));
    DrainBegins(c, w);
    var first := OnePass(c, c1, w, b, refs, true);
    var c2 := M.End(c1, first);
    var second := OnePass(c, c2, w, DrainPass(b, refs, true), refs, false);
    var c3 := M.End(c2, second);
    OneStep(c3, end);
    RunAppend(c2, second, [end]);
    RunAppend(c1, first, second + [end]);
    RunAppend(c, [begin], first + (second + [end]));
    es := [begin] + (first + (second + [end]));
  }

  // ---- After it ----------------------------------------------------------------------------------

  lemma Releases(c: Sched, w: Worker, ids: seq<SessionId>)
    requires M.Can(c, M.ReleaseAll(w)) && c.polls[w].ids == IdSet(ids)
    ensures View(M.Step(c, M.ReleaseAll(w))) == Release(View(c), ids)
  {
    assert View(M.Step(c, M.ReleaseAll(w))).txReady == Release(View(c), ids).txReady;
  }

  /** A batch that is kept: the sessions are as after its drain, and free again. */
  lemma KeptPoll(c: Sched, w: Worker, ids: seq<SessionId>) returns (es: seq<M.Event>)
    requires c.lock.None? && M.At(c, w, M.Sending) && c.polls[w].ids == IdSet(ids)
    ensures M.Run(c, es) && View(M.End(c, es)) == Release(View(c), ids) && M.End(c, es).polls == c.polls - {w}
  {
    var keep, release := M.Keep(w), M.ReleaseAll(w);
    var d := M.Step(c, keep);
    OneStep(c, keep);
    OneStep(d, release);
    RunAppend(c, [keep], [release]);
    assert View(d).sessions == View(c).sessions;
    Releases(d, w, ids);
    assert (c.polls[w := d.polls[w]]) - {w} == c.polls - {w};
    es := [keep] + [release];
  }

  function Only(snaps: map<SessionId, Snapshot>, todo: set<SessionId>): map<SessionId, Snapshot> {
    map id | id in snaps && id in todo :: snaps[id]
  }

  /** `c` is where the rollback of the sessions in `done` has led from `c0`. */
  ghost predicate Undone(c0: Sched, c: Sched, w: Worker, p: M.Poll, done: set<SessionId>) {
    && c.lock.None? && c.polls == c0.polls[w := p.(stage := M.RollingBack(p.snaps.Keys * c0.sessions.Keys - done))]
    && View(c) == RollbackAll(View(c0), Only(p.snaps, done))
  }

  lemma UndoOneMore(c0: Sched, c: Sched, w: Worker, p: M.Poll, done: set<SessionId>, id: SessionId) returns (es: seq<M.Event>)
    requires Undone(c0, c, w, p, done) && id in p.snaps && id in c0.sessions && id !in done
    ensures M.Run(c, es) && Undone(c0, M.End(c, es), w, p, done + {id})
  {
    var back, call := M.RollBackOne(w, id), M.Callback(id);
    assert id in View(c).sessions;
    var d := M.Step(c, back);
    OneStep(c, back);
    assert id in d.callbacks;
    OneStep(d, call);
    RunAppend(c, [back], [call]);
    es := [back] + [call];
    UndoView(c0, c, w, p, done, id);
  }

  function Restored(core: Core, id: SessionId, t: TxState): Core {
    Core(core.sessions[id := t], core.inFlight, core.txReady + {id})
  }

  lemma BackAndCalled(c: Sched, w: Worker, id: SessionId)
    requires c.lock.None? && M.Can(c, M.RollBackOne(w, id)) && id in c.sessions
    requires M.Can(M.Step(c, M.RollBackOne(w, id)), M.Callback(id))
    ensures var p, d := c.polls[w], M.Step(M.Step(c, M.RollBackOne(w, id)), M.Callback(id));
            && d.lock.None? && d.polls == c.polls[w := p.(stage := M.RollingBack(p.stage.todo - {id}))]
            && View(d) == Restored(View(c), id, Rollback(c.sessions[id].tx, Some(p.snaps[id])))
  {
    hide Rollback;
    var d := M.Step(M.Step(c, M.RollBackOne(w, id)), M.Callback(id));
    assert View(d).sessions == View(c).sessions[id := Rollback(c.sessions[id].tx, Some(c.polls[w].snaps[id]))];
  }

  lemma OneMoreRestored(core: Core, snaps: map<SessionId, Snapshot>, done: set<SessionId>, id: SessionId)
    requires id in snaps && id in core.sessions
    ensures RollbackAll(core, Only(snaps, done + {id}))
         == Restored(RollbackAll(core, Only(snaps, done)), id, Rollback(core.sessions[id], Some(snaps[id])))
  {
    hide Rollback;
    var less, more := Only(snaps, done), Only(snaps, done + {id});
    assert more.Keys == less.Keys + {id};
    assert more.Keys * core.sessions.Keys == less.Keys * core.sessions.Keys + {id};
    assert RollbackAll(core, more).sessions
        == RollbackAll(core, less).sessions[id := Rollback(core.sessions[id], Some(snaps[id]))];
  }

  lemma NotYetRestored(core: Core, snaps: map<SessionId, Snapshot>, done: set<SessionId>, id: SessionId)
    requires id in core.sessions && id !in done
    ensures var r := RollbackAll(core, Only(snaps, done));
            r.sessions.Keys == core.sessions.Keys && r.sessions[id] == core.sessions[id]
  {
    hide Rollback;
  }

  lemma UndoView(c0: Sched, c: Sched, w: Worker, p: M.Poll, done: set<SessionId>, id: SessionId)
    requires Undone(c0, c, w, p, done) && id in p.snaps && id in c0.sessions && id !in done && id in c.sessions
    requires M.Can(c, M.RollBackOne(w, id)) && M.Can(M.Step(c, M.RollBackOne(w, id)), M.Callback(id))
    ensures Undone(c0, M.Step(M.Step(c, M.RollBackOne(w, id)), M.Callback(id)), w, p, done + {id})
  {
    hide Rollback, RollbackAll, M.Step, M.Can, Only;
    var all := p.snaps.Keys * c0.sessions.Keys;
    assert all - done - {id} == all - (done + {id});
    BackAndCalled(c, w, id);
    OneMoreRestored(View(c0), p.snaps, done, id);
    NotYetRestored(View(c0), p.snaps, done, id);
    assert c.sessions[id].tx == View(c).sessions[id] == View(c0).sessions[id];
  }

  lemma {:induction false} UndoRest(c0: Sched, c: Sched, w: Worker, p: M.Poll, done: set<SessionId>) returns (es: seq<M.Event>)
    requires Undone(c0, c, w, p, done) && done <= p.snaps.Keys * c0.sessions.Keys
    ensures M.Run(c, es) && Undone(c0, M.End(c, es), w, p, p.snaps.Keys * c0.sessions.Keys)
    decreases p.snaps.Keys * c0.sessions.Keys - done
  {
    hide Undone;
    var all := p.snaps.Keys * c0.sessions.Keys;
    if done == all {
      es := [];
    } else {
      assert exists id :: id in all && id !in done;
      var id :| id in all && id !in done;
      var first := UndoOneMore(c0, c, w, p, done, id);
      var rest := UndoRest(c0, M.End(c, first), w, p, done + {id});
      RunAppend(c, first, rest);
      es := first + rest;
    }
  }

  /** A batch that is not: the sessions are restored, called back and free again. */
  lemma FailedPollRuns(c: Sched, w: Worker, ids: seq<SessionId>) returns (es: seq<M.Event>)
    requires c.lock.None? && M.At(c, w, M.Sending) && c.polls[w].ids == IdSet(ids)
    ensures M.Run(c, es)
    ensures View(M.End(c, es)) == Release(RollbackAll(View(c), c.polls[w].snaps), ids)
    ensures M.End(c, es).polls == c.polls - {w}
  {
    hide RollbackAll;
    var p, give, release := c.polls[w], M.GiveUp(w), M.ReleaseAll(w);
    var all := p.snaps.Keys * c.sessions.Keys;
    var d := M.Step(c, give);
    OneStep(c, give);
    NoneUndone(c, p);
    assert all - {} == all;
    assert Undone(c, d, w, p, {});
    var undo := UndoRest(c, d, w, p, {});
    var e := M.End(d, undo);
    assert all - all == {};
    OneStep(e, release);
    RunAppend(d, undo, [release]);
    RunAppend(c, [give], undo + [release]);
    AllUndone(c, p);
    Releases(e, w, ids);
    assert e.polls - {w} == c.polls - {w};
    es := [give] + (undo + [release]);
  }

  lemma NoneUndone(c: Sched, p: M.Poll)
    ensures RollbackAll(View(c), Only(p.snaps, {})) == View(c)
  {
    assert RollbackAll(View(c), Only(p.snaps, {})).sessions == View(c).sessions;
  }

  lemma AllUndone(c: Sched, p: M.Poll)
    ensures RollbackAll(View(c), Only(p.snaps, p.snaps.Keys * c.sessions.Keys)) == RollbackAll(View(c), p.snaps)
  {
    var some := Only(p.snaps, p.snaps.Keys * c.sessions.Keys);
    assert RollbackAll(View(c), some).sessions == RollbackAll(View(c), p.snaps).sessions;
    assert some.Keys * View(c).sessions.Keys == p.snaps.Keys * View(c).sessions.Keys;
  }
}

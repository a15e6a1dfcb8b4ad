/** What a capped drain, a run of drains, and a rolled-back drain amount to. */
module Drains {
  import opened Prelude
  import opened Frames
  import opened TxSpec

  // ---- One drain ---------------------------------------------------------------

  lemma CountWithinWeight(t: TxState, p: int)
    requires Cuts(t, p)
    ensures FrameCount(t, p) <= t.Weight()
    ensures FrameCount(t, p) > 0 <==> t.Pending()
  {
    if |t.txBuf| > 0 {
      MulMono(1, p, |t.txBuf|);
      CeilDivFits(|t.txBuf|, p, |t.txBuf|);
      CeilDivFits(|t.txBuf|, p, 0);
    }
  }

  /** The documented contract of a drain: bytes conserved, chunks bounded, the frame
      count exact and within the reserved capacity, and something emitted exactly when
      something was pending. */
  lemma DrainContract(t: TxState, maxPayload: int, maxFrames: int)
    ensures var fs, u := DrainFrames(t, maxPayload, maxFrames), DrainState(t, maxPayload, maxFrames);
            var all := FrameCount(t, Chunk(t, maxPayload));
            && Payloads(fs) + u.txBuf == t.txBuf
            && (maxPayload > 0 ==> forall i :: 0 <= i < |fs| ==> |fs[i].payload| <= maxPayload)
            && |fs| == (if maxFrames > 0 then Min(maxFrames, all) else all)
            && |fs| <= EstFrames(t, maxPayload, maxFrames)
            && (|fs| > 0 <==> t.Pending())
            && (u.Pending() <==> |fs| < all)
            && u.txSeq == t.txSeq + |fs|
  {
    var p, n := Chunk(t, maxPayload), Limit(t, maxFrames);
    EmittedConserves(t, p, n);
    EmittedFits(t, p, n);
    EmittedCount(t, p, n);
    AdvancedFields(t, p, n);
    CountWithinWeight(t, p);
  }

  /** A drain that stops because nothing is pending, or at its frame limit, is complete. */
  lemma DrainComplete(t0: TxState, maxPayload: int, maxFrames: int, frames: seq<Frame>, t: TxState)
    requires LeadsTo(t0, Chunk(t0, maxPayload), frames, t)
    requires maxFrames > 0 ==> |frames| <= maxFrames
    requires !t.Pending() || (maxFrames > 0 && |frames| == maxFrames)
    ensures frames == DrainFrames(t0, maxPayload, maxFrames)
    ensures t == DrainState(t0, maxPayload, maxFrames)
    ensures |frames| <= EstFrames(t0, maxPayload, maxFrames)
    ensures |frames| > 0 <==> t0.Pending()
  {
    var p := Chunk(t0, maxPayload);
    EmittedCount(t0, p, |frames|);
    CountWithinWeight(t0, p);
    LeadsToEnd(t0, p, Limit(t0, maxFrames), frames, t);
    DrainContract(t0, maxPayload, maxFrames);
  }

  /** The drain leaves no byte behind exactly when the buffer fits the frame limit. */
  predicate Fits(t: TxState, maxPayload: int, maxFrames: int) {
    maxFrames <= 0 || |t.txBuf| <= maxFrames * Chunk(t, maxPayload)
  }

  lemma {:induction false} EmptiesIffFits(t: TxState, p: int, n: nat)
    requires Cuts(t, p)
    ensures |Advanced(t, p, n).txBuf| == 0 <==> |t.txBuf| <= n * p || |t.txBuf| == 0
    decreases n
  {
    if n > 0 && t.Pending() {
      EmptiesIffFits(AfterNext(t, p), p, n - 1);
      assert n * p == (n - 1) * p + p;
      if |t.txBuf| > 0 {
        MulMono(0, n - 1, p);
      }
    }
  }

  /** How many bytes `n` frames of at most `p` leave. */
  lemma {:induction false} BytesLeft(t: TxState, p: int, n: nat)
    requires p > 0
    ensures |Advanced(t, p, n).txBuf| == if |t.txBuf| <= n * p then 0 else |t.txBuf| - n * p
    decreases n
  {
    MulMono(0, n, p);
    if n > 0 && t.Pending() {
      BytesLeft(AfterNext(t, p), p, n - 1);
      MulMono(0, n - 1, p);
      assert n * p == (n - 1) * p + p;
    } else {
      assert 0 * p == 0;
    }
  }

  lemma DrainEmptiesIffFits(t: TxState, maxPayload: int, maxFrames: int)
    ensures DrainState(t, maxPayload, maxFrames).txBuf == [] <==> Fits(t, maxPayload, maxFrames)
  {
    var p, n := Chunk(t, maxPayload), Limit(t, maxFrames);
    EmptiesIffFits(t, p, n);
    if maxFrames > 0 {
      MulMono(0, maxFrames, p);
    } else if |t.txBuf| > 0 {
      MulMono(1, p, |t.txBuf|);
      MulMono(|t.txBuf|, n, p);
    }
  }

  // ---- Splitting ---------------------------------------------------------------

  lemma {:induction false} EmittedSaturates(t: TxState, p: int, n: nat)
    requires Cuts(t, p) && n >= FrameCount(t, p)
    ensures Emitted(t, p, n) == Emitted(t, p, FrameCount(t, p))
  {
    var m := FrameCount(t, p);
    EmittedCount(t, p, m);
    EmittedCompose(t, p, m, n - m);
    assert Emitted(t, p, m) + [] == Emitted(t, p, m);
  }

  /** With no bytes buffered the chunk size is never looked at. */
  lemma {:induction false} ChunkIrrelevant(t: TxState, p: int, q: int, n: nat)
    requires |t.txBuf| == 0
    ensures Emitted(t, p, n) == Emitted(t, q, n)
    decreases n
  {
    if n > 0 && t.Pending() {
      ChunkIrrelevant(AfterNext(t, p), p, q, n - 1);
    }
  }

  /** A capped drain followed by an uncapped one is one uncapped drain. */
  lemma DrainThenRest(t: TxState, maxPayload: int, maxFrames: int)
    ensures DrainFrames(t, maxPayload, maxFrames)
          + DrainFrames(DrainState(t, maxPayload, maxFrames), maxPayload, 0)
         == DrainFrames(t, maxPayload, 0)
  {
    var p, n := Chunk(t, maxPayload), Limit(t, maxFrames);
    var u := DrainState(t, maxPayload, maxFrames);
    var q := Chunk(u, maxPayload);
    EmittedCompose(t, p, n, u.Weight());
    EmittedCount(t, p, n);
    EmittedCount(u, p, u.Weight());
    EmittedCount(t, p, n + u.Weight());
    CountWithinWeight(t, p);
    CountWithinWeight(u, p);
    EmittedSaturates(t, p, t.Weight());
    if n + u.Weight() >= FrameCount(t, p) {
      EmittedSaturates(t, p, n + u.Weight());
    }
    if p != q && n > 0 {
      DrainEmptiesIffFits(t, maxPayload, maxFrames);
      MulMono(1, n, p);
      ChunkIrrelevant(u, p, q, u.Weight());
    }
  }

  function DrainRun(t: TxState, maxPayload: int, caps: seq<int>): seq<Frame>
    decreases |caps|
  {
    if |caps| == 0 then []
    else DrainFrames(t, maxPayload, caps[0]) + DrainRun(DrainState(t, maxPayload, caps[0]), maxPayload, caps[1..])
  }

  function DrainRunState(t: TxState, maxPayload: int, caps: seq<int>): TxState
    decreases |caps|
  {
    if |caps| == 0 then t else DrainRunState(DrainState(t, maxPayload, caps[0]), maxPayload, caps[1..])
  }

  /** Splitting does not matter: whatever the frame limits of the calls, together they
      emit a prefix of what one unlimited drain emits, the whole of it once nothing is
      pending, and that happens after at most one call per frame. */
  lemma {:induction false} SplittingDoesNotMatter(t: TxState, maxPayload: int, caps: seq<int>)
    ensures DrainRun(t, maxPayload, caps) + DrainFrames(DrainRunState(t, maxPayload, caps), maxPayload, 0)
         == DrainFrames(t, maxPayload, 0)
    ensures !DrainRunState(t, maxPayload, caps).Pending() ==>
              DrainRun(t, maxPayload, caps) == DrainFrames(t, maxPayload, 0)
    ensures |caps| >= |DrainFrames(t, maxPayload, 0)| ==> !DrainRunState(t, maxPayload, caps).Pending()
    decreases |caps|
  {
    DrainContract(DrainRunState(t, maxPayload, caps), maxPayload, 0);
    DrainContract(t, maxPayload, 0);
    if |caps| > 0 {
      var u := DrainState(t, maxPayload, caps[0]);
      DrainContract(t, maxPayload, caps[0]);
      DrainThenRest(t, maxPayload, caps[0]);
      SplittingDoesNotMatter(u, maxPayload, caps[1..]);
      Assoc(DrainFrames(t, maxPayload, caps[0]), DrainRun(u, maxPayload, caps[1..]),
            DrainFrames(DrainRunState(t, maxPayload, caps), maxPayload, 0));
    }
  }

  // ---- Snapshots -----------------------------------------------------------------

  datatype Snapshot = Snapshot(synNeeded: bool, txBuf: Bytes, txSeq: nat, finSent: bool)

  function SnapshotOf(t: TxState): Snapshot {
    Snapshot(t.synNeeded, t.txBuf, t.txSeq, t.finSent)
  }

  /** The snapshot a drain hands out: none when it produced no frame. */
  function DrainSnapshot(t: TxState, maxPayload: int, maxFrames: int): Option<Snapshot> {
    if |DrainFrames(t, maxPayload, maxFrames)| == 0 then None else Some(SnapshotOf(t))
  }

  /** `RollbackDrain` as written: the snapshot's whole buffer goes in front of
      whatever the buffer holds now. */
  function Rollback(t: TxState, snap: Option<Snapshot>): TxState {
    match snap
    case None => t
    case Some(s) =>
      t.(synNeeded := t.synNeeded || s.synNeeded,
         txBuf := s.txBuf + t.txBuf,
         txSeq := s.txSeq,
         finSent := t.finSent && s.finSent)
  }

  /** A drain that failed to send, with writers active in between. */
  function FailedSend(t: TxState, maxPayload: int, maxFrames: int, ops: seq<WriterOp>): TxState {
    Rollback(ApplyAll(DrainState(t, maxPayload, maxFrames), ops), DrainSnapshot(t, maxPayload, maxFrames))
  }

  /** The exact effect of a rollback, partial drains included: the tail the drain left
      behind is in the buffer twice. SYN, FIN and sequence state are always restored. */
  lemma RollbackResult(t: TxState, maxPayload: int, maxFrames: int, ops: seq<WriterOp>)
    requires t.Pending()
    ensures var u := DrainState(t, maxPayload, maxFrames);
            FailedSend(t, maxPayload, maxFrames, ops) ==
            t.(txBuf := t.txBuf + u.txBuf + TakenAll(u, ops), closeReq := ApplyAll(u, ops).closeReq)
  {
    var p, n := Chunk(t, maxPayload), Limit(t, maxFrames);
    var u := DrainState(t, maxPayload, maxFrames);
    DrainContract(t, maxPayload, maxFrames);
    AdvancedFields(t, p, n);
    WritersAppend(u, ops);
    Assoc(t.txBuf, u.txBuf, TakenAll(u, ops));
  }

  /** The documented intent - the unsent bytes first, then the bytes written meanwhile -
      is met if and only if the buffer fitted the drain's limits. */
  lemma RollbackExactIffFits(t: TxState, maxPayload: int, maxFrames: int, ops: seq<WriterOp>)
    ensures var u := DrainState(t, maxPayload, maxFrames);
            FailedSend(t, maxPayload, maxFrames, ops) ==
            t.(txBuf := t.txBuf + TakenAll(u, ops), closeReq := ApplyAll(u, ops).closeReq)
            <==> Fits(t, maxPayload, maxFrames)
  {
    var u := DrainState(t, maxPayload, maxFrames);
    DrainEmptiesIffFits(t, maxPayload, maxFrames);
    DrainContract(t, maxPayload, maxFrames);
    if t.Pending() {
      RollbackResult(t, maxPayload, maxFrames, ops);
      assert |t.txBuf + u.txBuf + TakenAll(u, ops)| == |t.txBuf + TakenAll(u, ops)| + |u.txBuf|;
    } else {
      assert u == t;
      WritersAppend(t, ops);
    }
  }

  /** With nothing written or closed in between, an exact rollback is a perfect undo, so
      the same limits emit the identical frames again. */
  lemma UnchangedRetransmission(t: TxState, maxPayload: int, maxFrames: int)
    requires Fits(t, maxPayload, maxFrames)
    ensures FailedSend(t, maxPayload, maxFrames, []) == t
    ensures DrainFrames(FailedSend(t, maxPayload, maxFrames, []), maxPayload, maxFrames)
         == DrainFrames(t, maxPayload, maxFrames)
  {
    var u := DrainState(t, maxPayload, maxFrames);
    RollbackExactIffFits(t, maxPayload, maxFrames, []);
    AdvancedFields(t, Chunk(t, maxPayload), Limit(t, maxFrames));
    assert t.txBuf + TakenAll(u, []) == t.txBuf;
  }

  /** Without the fit, bytes are duplicated on the wire: three buffered bytes, one frame
      of one byte, a failed send, and the stream now carries five bytes. */
  lemma PartialRollbackDuplicates(id: SessionId)
    ensures var t := TxState(id, [], false, [1, 2, 3], 0, false, false);
            Payloads(DrainFrames(FailedSend(t, 1, 1, []), 1, 0)) == [1, 2, 3, 2, 3]
  {
    var t := TxState(id, [], false, [1, 2, 3], 0, false, false);
    RollbackResult(t, 1, 1, []);
    assert AfterNext(t, 1) == TxState(id, [], false, [2, 3], 1, false, false);
    assert DrainState(t, 1, 1) == Advanced(AfterNext(t, 1), 1, 0);
    var v := FailedSend(t, 1, 1, []);
    assert v.txBuf == [1, 2, 3, 2, 3];
    DrainContract(v, 1, 0);
    DrainEmptiesIffFits(v, 1, 0);
    var sent := Payloads(DrainFrames(v, 1, 0));
    assert sent == sent + [];
  }
}

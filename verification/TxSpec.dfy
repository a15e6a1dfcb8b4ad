/** The sending half of a session as values: one frame at a time, the capped
    drain as an iteration of that step, and the snapshot that undoes a drain. */
module TxSpec {
  import opened Prelude
  import opened Frames

  /** Soft ceiling on the transmit buffer; a writer above it waits. */
  const TX_BUF_HIGH_WATER: nat := 8 * 1024 * 1024

  datatype TxState = TxState(
    id: SessionId,
    target: Bytes,
    synNeeded: bool,
    txBuf: Bytes,
    txSeq: nat,
    closeReq: bool,
    finSent: bool)
  {
    predicate FinDue() {
      closeReq && !finSent
    }

    predicate Pending() {
      synNeeded || |txBuf| > 0 || FinDue()
    }

    /** An upper bound on the frames still to come, whatever the chunk size. */
    function Weight(): nat {
      (if synNeeded then 1 else 0) + |txBuf| + (if FinDue() then 1 else 0)
    }

    /** A sent FIN leaves nothing behind it. */
    predicate Sound() {
      finSent ==> closeReq && !synNeeded && txBuf == []
    }
  }

  // ---- Writers -------------------------------------------------------------

  datatype WriterOp = Write(data: Bytes) | Initial(data: Bytes) | Close

  /** `EnqueueTx` waits while this holds. */
  predicate Blocked(t: TxState, op: WriterOp) {
    && (op.Write? || (op.Initial? && !t.synNeeded))
    && |t.txBuf| > TX_BUF_HIGH_WATER && !t.closeReq
  }

  /** A write after a close is dropped without a word, except that data bundled with a SYN
      still pending is always taken. */
  predicate Refused(t: TxState, op: WriterOp) {
    t.closeReq && (op.Write? || (op.Initial? && !t.synNeeded))
  }

  /** The bytes a writer's call adds to the stream. */
  function Taken(t: TxState, op: WriterOp): Bytes {
    match op
    case Write(data) => if Refused(t, op) then [] else data
    case Initial(data) => if Refused(t, op) then [] else data
    case Close => []
  }

  function Apply(t: TxState, op: WriterOp): TxState {
    t.(txBuf := t.txBuf + Taken(t, op), closeReq := t.closeReq || op.Close?)
  }

  function ApplyAll(t: TxState, ops: seq<WriterOp>): TxState
    decreases |ops|
  {
    if |ops| == 0 then t else ApplyAll(Apply(t, ops[0]), ops[1..])
  }

  function TakenAll(t: TxState, ops: seq<WriterOp>): Bytes
    decreases |ops|
  {
    if |ops| == 0 then [] else Taken(t, ops[0]) + TakenAll(Apply(t, ops[0]), ops[1..])
  }

  /** Writers only append what they were taken for, and only ever close. */
  lemma {:induction false} WritersAppend(t: TxState, ops: seq<WriterOp>)
    ensures ApplyAll(t, ops) ==
            t.(txBuf := t.txBuf + TakenAll(t, ops), closeReq := ApplyAll(t, ops).closeReq)
    ensures t.closeReq ==> ApplyAll(t, ops).closeReq
    decreases |ops|
  {
    if |ops| == 0 {
      assert t.txBuf + [] == t.txBuf;
    } else {
      WritersAppend(Apply(t, ops[0]), ops[1..]);
      assert (t.txBuf + Taken(t, ops[0])) + TakenAll(Apply(t, ops[0]), ops[1..])
          == t.txBuf + TakenAll(t, ops);
    }
  }

  // ---- One frame at a time ---------------------------------------------------

  /** A positive chunk size is only needed while there are bytes to cut. */
  predicate Cuts(t: TxState, p: int) {
    |t.txBuf| > 0 ==> p > 0
  }

  function ChunkLen(t: TxState, p: int): nat
    requires Cuts(t, p)
  {
    if |t.txBuf| == 0 then 0 else Min(|t.txBuf|, p)
  }

  /** The next frame of the stream: SYN with the first chunk, else a chunk, else FIN. */
  function NextFrame(t: TxState, p: int): Frame
    requires t.Pending() && Cuts(t, p)
  {
    if t.synNeeded then
      Frame(t.id, t.txSeq, FLAG_SYN, t.target, t.txBuf[..ChunkLen(t, p)])
    else if |t.txBuf| > 0 then
      Frame(t.id, t.txSeq, 0, [], t.txBuf[..ChunkLen(t, p)])
    else
      Frame(t.id, t.txSeq, FLAG_FIN, [], [])
  }

  function AfterNext(t: TxState, p: int): (t': TxState)
    requires t.Pending() && Cuts(t, p)
    ensures Cuts(t', p) && t'.Weight() < t.Weight()
  {
    if t.synNeeded || |t.txBuf| > 0 then
      t.(synNeeded := false, txBuf := t.txBuf[ChunkLen(t, p)..], txSeq := t.txSeq + 1)
    else
      t.(finSent := true, txSeq := t.txSeq + 1)
  }

  /** The first `n` frames of the stream (fewer when it runs dry). */
  function Emitted(t: TxState, p: int, n: nat): seq<Frame>
    requires Cuts(t, p)
    decreases n
  {
    if n == 0 || !t.Pending() then [] else [NextFrame(t, p)] + Emitted(AfterNext(t, p), p, n - 1)
  }

  function Advanced(t: TxState, p: int, n: nat): (t': TxState)
    requires Cuts(t, p)
    ensures Cuts(t', p)
    decreases n
  {
    if n == 0 || !t.Pending() then t else Advanced(AfterNext(t, p), p, n - 1)
  }

  // ---- The capped drain -------------------------------------------------------

  /** A chunk size of zero or less means "the whole buffer". */
  function Chunk(t: TxState, maxPayload: int): (p: int)
    ensures Cuts(t, p)
  {
    if maxPayload <= 0 then |t.txBuf| else maxPayload
  }

  /** A frame limit of zero or less means "no limit". */
  function Limit(t: TxState, maxFrames: int): nat {
    if maxFrames <= 0 then t.Weight() else maxFrames
  }

  function DrainFrames(t: TxState, maxPayload: int, maxFrames: int): seq<Frame> {
    Emitted(t, Chunk(t, maxPayload), Limit(t, maxFrames))
  }

  function DrainState(t: TxState, maxPayload: int, maxFrames: int): TxState {
    Advanced(t, Chunk(t, maxPayload), Limit(t, maxFrames))
  }

  /** Frames a whole drain emits: the SYN shares a frame with the first chunk. */
  function FrameCount(t: TxState, p: int): nat
    requires Cuts(t, p)
  {
    (if |t.txBuf| == 0 then (if t.synNeeded then 1 else 0) else CeilDiv(|t.txBuf|, p))
    + (if t.FinDue() then 1 else 0)
  }

  /** The capacity the drain reserves up front. */
  function EstFrames(t: TxState, maxPayload: int, maxFrames: int): nat {
    var est := (if t.synNeeded then 1 else 0)
             + (if |t.txBuf| == 0 then 0 else CeilDiv(|t.txBuf|, Chunk(t, maxPayload)))
             + (if t.FinDue() then 1 else 0);
    if maxFrames > 0 && est > maxFrames then maxFrames else est
  }

  /** Emitting `m` frames and then `n` is emitting `m + n`. */
  lemma {:induction false} EmittedCompose(t: TxState, p: int, m: nat, n: nat)
    requires Cuts(t, p)
    ensures Emitted(t, p, m + n) == Emitted(t, p, m) + Emitted(Advanced(t, p, m), p, n)
    ensures Advanced(t, p, m + n) == Advanced(Advanced(t, p, m), p, n)
    decreases m
  {
    hide NextFrame, AfterNext;
    if m > 0 && t.Pending() {
      var t' := AfterNext(t, p);
      EmittedCompose(t', p, m - 1, n);
      Assoc([NextFrame(t, p)], Emitted(t', p, m - 1), Emitted(Advanced(t', p, m - 1), p, n));
    }
  }

  /** Emitting `frames` one at a time leads from `t0` to `t`. */
  ghost predicate LeadsTo(t0: TxState, p: int, frames: seq<Frame>, t: TxState)
    requires Cuts(t0, p)
  {
    frames == Emitted(t0, p, |frames|) && t == Advanced(t0, p, |frames|)
  }

  lemma LeadsToStep(t0: TxState, p: int, frames: seq<Frame>, t: TxState)
    requires Cuts(t0, p) && LeadsTo(t0, p, frames, t) && t.Pending()
    ensures LeadsTo(t0, p, frames + [NextFrame(t, p)], AfterNext(t, p))
  {
    EmittedCompose(t0, p, |frames|, 1);
    assert Emitted(t, p, 1) == [NextFrame(t, p)] + Emitted(AfterNext(t, p), p, 0);
  }

  lemma LeadsToEnd(t0: TxState, p: int, n: nat, frames: seq<Frame>, t: TxState)
    requires Cuts(t0, p) && LeadsTo(t0, p, frames, t)
    requires |frames| == n || (|frames| <= n && !t.Pending())
    ensures frames == Emitted(t0, p, n) && t == Advanced(t0, p, n)
  {
    EmittedCompose(t0, p, |frames|, n - |frames|);
    assert frames + [] == frames;
  }

  /** No byte is lost, duplicated or reordered. */
  lemma {:induction false} EmittedConserves(t: TxState, p: int, n: nat)
    requires Cuts(t, p)
    ensures Payloads(Emitted(t, p, n)) + Advanced(t, p, n).txBuf == t.txBuf
    decreases n
  {
    if n > 0 && t.Pending() {
      var f, t' := NextFrame(t, p), AfterNext(t, p);
      var rest := Emitted(t', p, n - 1);
      EmittedConserves(t', p, n - 1);
      PayloadsAppend([f], rest);
      PayloadsSingle(f);
      assert f.payload + t'.txBuf == t.txBuf;
      Assoc(f.payload, Payloads(rest), Advanced(t, p, n).txBuf);
    } else {
      assert Payloads([]) == [];
    }
  }

  /** No chunk is too long. */
  lemma {:induction false} EmittedFits(t: TxState, p: int, n: nat)
    requires Cuts(t, p)
    ensures forall i :: 0 <= i < |Emitted(t, p, n)| ==> |Emitted(t, p, n)[i].payload| <= Max(p, 0)
    decreases n
  {
    if n > 0 && t.Pending() {
      EmittedFits(AfterNext(t, p), p, n - 1);
    }
  }

  lemma {:induction false} EmittedCount(t: TxState, p: int, n: nat)
    requires Cuts(t, p)
    ensures |Emitted(t, p, n)| == Min(n, FrameCount(t, p))
    ensures Advanced(t, p, n).Pending() <==> n < FrameCount(t, p)
    decreases n
  {
    if |t.txBuf| > 0 {
      CeilDivStep(|t.txBuf|, p);
    }
    if n > 0 && t.Pending() {
      var t' := AfterNext(t, p);
      EmittedCount(t', p, n - 1);
      if |t'.txBuf| > 0 {
        assert |t'.txBuf| == |t.txBuf| - p;
      }
    }
  }

  /** The fields a drain never touches, and the ones it moves one way only. */
  lemma {:induction false} AdvancedFields(t: TxState, p: int, n: nat)
    requires Cuts(t, p)
    ensures var u := Advanced(t, p, n);
            && u.id == t.id && u.target == t.target && u.closeReq == t.closeReq
            && u.txSeq == t.txSeq + |Emitted(t, p, n)|
            && (u.synNeeded ==> t.synNeeded) && (t.finSent ==> u.finSent)
            && (t.Sound() ==> u.Sound())
            && (n > 0 ==> !u.synNeeded)
            && (u.finSent && !t.finSent ==> !u.Pending())
    decreases n
  {
    if n > 0 && t.Pending() {
      AdvancedFields(AfterNext(t, p), p, n - 1);
    }
  }

  /** Frame `i` of the stream, written directly: byte range `[i*p, (i+1)*p)` of the
      buffer, SYN and target on frame 0 only, FIN and no payload on the last only. */
  function FrameAt(t: TxState, p: int, i: nat): Frame
    requires Cuts(t, p) && i < FrameCount(t, p)
  {
    var q := if |t.txBuf| == 0 then 0 else p;
    if t.synNeeded && i == 0 then
      Frame(t.id, t.txSeq, FLAG_SYN, t.target, t.txBuf[..Min(q, |t.txBuf|)])
    else if t.FinDue() && i == FrameCount(t, p) - 1 then
      Frame(t.id, t.txSeq + i, FLAG_FIN, [], [])
    else
      Frame(t.id, t.txSeq + i, 0, [], Slice(t.txBuf, i * q, i * q + q))
  }

  function Slice(s: Bytes, lo: nat, hi: nat): Bytes
    requires lo <= hi
  {
    s[Min(lo, |s|)..Min(hi, |s|)]
  }

  /** Dropping the first chunk moves every later byte range down by one chunk. */
  lemma SliceStep(s: Bytes, p: nat, i: nat)
    requires 0 < p < |s| && i > 0
    ensures Slice(s, i * p, i * p + p) == Slice(s[p..], (i - 1) * p, (i - 1) * p + p)
  {
    assert i * p == (i - 1) * p + p;
    SliceShift(s, p, (i - 1) * p, (i - 1) * p + p);
  }

  lemma SliceShift(s: Bytes, d: nat, lo: nat, hi: nat)
    requires lo <= hi && d <= |s|
    ensures Slice(s, lo + d, hi + d) == Slice(s[d..], lo, hi)
  {
  }

  lemma FrameCountStep(t: TxState, p: int)
    requires Cuts(t, p) && t.Pending()
    ensures FrameCount(t, p) == FrameCount(AfterNext(t, p), p) + 1
  {
    if |t.txBuf| > 0 {
      CeilDivStep(|t.txBuf|, p);
    }
  }

  lemma FrameAtFirst(t: TxState, p: int)
    requires Cuts(t, p) && t.Pending() && FrameCount(t, p) > 0
    ensures FrameAt(t, p, 0) == NextFrame(t, p)
  {
    FrameCountStep(t, p);
    if |t.txBuf| > 0 {
      assert 0 * p == 0;
    }
  }

  lemma FrameAtStep(t: TxState, p: int, i: nat)
    requires Cuts(t, p) && t.Pending() && 0 < i < FrameCount(t, p)
    ensures i - 1 < FrameCount(AfterNext(t, p), p)
    ensures FrameAt(t, p, i) == FrameAt(AfterNext(t, p), p, i - 1)
  {
    hide FrameCount, CeilDiv, Slice;
    FrameCountStep(t, p);
    var t' := AfterNext(t, p);
    if 0 < |t'.txBuf| {
      assert |t'.txBuf| == |t.txBuf| - p;
      SliceStep(t.txBuf, p, i);
    } else {
      LastFrame(t, p, i);
    }
  }

  lemma OnlyFinLeft(t: TxState, p: int)
    requires Cuts(t, p) && !t.synNeeded && |t.txBuf| == 0
    ensures FrameCount(t, p) == if t.FinDue() then 1 else 0
  {
  }

  lemma LastFrame(t: TxState, p: int, i: nat)
    requires Cuts(t, p) && t.Pending() && 0 < i < FrameCount(t, p) && |AfterNext(t, p).txBuf| == 0
    ensures t.FinDue() && AfterNext(t, p).FinDue() && i == FrameCount(t, p) - 1
  {
    hide CeilDiv, Min;
    FrameCountStep(t, p);
    OnlyFinLeft(AfterNext(t, p), p);
  }

  lemma {:induction false} EmittedShape(t: TxState, p: int, n: nat, i: nat)
    requires Cuts(t, p) && i < |Emitted(t, p, n)|
    ensures i < FrameCount(t, p) && Emitted(t, p, n)[i] == FrameAt(t, p, i)
    decreases n
  {
    hide FrameAt, FrameCount, NextFrame;
    EmittedCount(t, p, n);
    if i == 0 {
      FrameAtFirst(t, p);
    } else {
      FrameAtStep(t, p, i);
      EmittedShape(AfterNext(t, p), p, n - 1, i - 1);
    }
  }

  lemma {:induction false} NoBytesLeft(t: TxState, p: int, n: nat)
    requires t.txBuf == []
    ensures forall k :: 0 <= k < |Emitted(t, p, n)| ==> Emitted(t, p, n)[k].payload == []
    decreases n
  {
    if n > 0 && t.Pending() {
      NoBytesLeft(AfterNext(t, p), p, n - 1);
    }
  }

  /** No frame is sent short while bytes for a later one are waiting. */
  lemma FullBeforeLast(t: TxState, p: int, n: nat)
    requires Cuts(t, p)
    ensures var fs := Emitted(t, p, n);
            forall j, k :: 0 <= j < k < |fs| && fs[k].payload != [] ==> |fs[j].payload| == p
  {
    hide Emitted;
    forall j, k | 0 <= j < k < |Emitted(t, p, n)| && Emitted(t, p, n)[k].payload != []
      ensures |Emitted(t, p, n)[j].payload| == p
    {
      FullBefore(t, p, n, j, k);
    }
  }

  lemma {:induction false} FullBefore(t: TxState, p: int, n: nat, j: nat, k: nat)
    requires Cuts(t, p) && j < k < |Emitted(t, p, n)| && Emitted(t, p, n)[k].payload != []
    ensures |Emitted(t, p, n)[j].payload| == p
    decreases n
  {
    var a := AfterNext(t, p);
    assert Emitted(t, p, n)[k] == Emitted(a, p, n - 1)[k - 1];
    if j > 0 {
      assert Emitted(t, p, n)[j] == Emitted(a, p, n - 1)[j - 1];
      FullBefore(a, p, n - 1, j - 1, k - 1);
    } else if a.txBuf == [] {
      NoBytesLeft(a, p, n - 1);
    }
  }

  lemma {:induction false} EmittedIds(t: TxState, p: int, n: nat)
    requires Cuts(t, p)
    ensures forall f :: f in Emitted(t, p, n) ==> f.sessionId == t.id
    decreases n
  {
    if n > 0 && t.Pending() {
      EmittedIds(AfterNext(t, p), p, n - 1);
    }
  }
}

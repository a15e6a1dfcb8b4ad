/** One tunneled TCP connection: the object whose methods run under the session lock.
    Every method is proved against the value-level functions of TxSpec, Drains and
    RxSpec; timestamps are the only state those functions do not carry. */
module Sessions {
  import opened Prelude
  import opened Frames
  import opened TxSpec
  import opened Drains
  import opened RxSpec

  /** A `time.Time`, whose zero value means "not set". */
  datatype Stamp = Never | At(time: int)

  /** Seconds to wait for the peer's FIN after sending ours. */
  const SESSION_FINAL_TIMEOUT: int := 30

  datatype EnqueueResult = WouldBlock | Dropped | Accepted

  datatype DrainSnap = DrainSnap(tx: Snapshot, finSentAt: Stamp, firstQueuedAt: Stamp)

  function TxPart(snap: Option<DrainSnap>): Option<Snapshot> {
    match snap case None => None case Some(s) => Some(s.tx)
  }

  /** `a` is strictly older than `b`; an unset stamp is older than any other. */
  predicate Before(a: Stamp, b: Stamp) {
    match (a, b)
    case (Never, At(_)) => true
    case (At(x), At(y)) => x < y
    case (_, Never) => false
  }

  function SetOnce(s: Stamp, now: int): Stamp {
    if s == Never then At(now) else s
  }

  function Older(a: Stamp, b: Stamp): Stamp
    requires a != Never
  {
    if b == Never || a.time < b.time then a else b
  }

  class Session {
    const id: SessionId
    const target: Bytes

    var txBuf: Bytes
    var txSeq: nat
    var rxSeq: nat
    var rxQueue: map<nat, Frame>

    var synNeeded: bool
    var closeReq: bool
    var finSent: bool
    var finSentAt: Stamp
    var firstQueuedAt: Stamp
    var rxClosed: bool

    /** `RxChan`: the payloads waiting in it, and whether it has been closed. */
    var rxChan: seq<Bytes>
    var rxChanClosed: bool
    /** `rxDone` has been closed. */
    var stopped: bool

    function Tx(): TxState
      reads this
    {
      TxState(id, target, synNeeded, txBuf, txSeq, closeReq, finSent)
    }

    function Rx(): RxState
      reads this
    {
      RxState(rxSeq, rxQueue, rxClosed)
    }

    constructor (id: SessionId, target: Bytes, needsSYN: bool, now: int)
      ensures Tx() == TxState(id, target, needsSYN, [], 0, false, false)
      ensures Rx() == RX_START && rxChan == [] && !rxChanClosed && !stopped
      ensures rxSeq == 0 && rxQueue == map[] && !rxClosed
      ensures finSentAt == Never && firstQueuedAt == if needsSYN then At(now) else Never
    {
      this.id, this.target := id, target;
      synNeeded, txBuf, txSeq, closeReq, finSent := needsSYN, [], 0, false, false;
      rxSeq, rxQueue, rxClosed := 0, map[], false;
      rxChan, rxChanClosed, stopped := [], false, false;
      finSentAt, firstQueuedAt := Never, if needsSYN then At(now) else Never;
    }

    method Stop()
      modifies this`stopped
      ensures stopped
    {
      stopped := true;
    }

    /** A call that would wait on the condition variable reports `WouldBlock` instead. */
    method EnqueueTx(data: Bytes, now: int) returns (r: EnqueueResult)
      modifies this`txBuf, this`firstQueuedAt
      ensures r == WouldBlock <==> Blocked(old(Tx()), Write(data))
      ensures r == WouldBlock ==> Tx() == old(Tx())
      ensures r != WouldBlock ==> Tx() == Apply(old(Tx()), Write(data))
      ensures r == WouldBlock <==> |old(txBuf)| > 8 * 1024 * 1024 && !closeReq
      ensures r == Dropped <==> closeReq
      ensures txBuf == if r == Accepted then old(txBuf) + data else old(txBuf)
      ensures firstQueuedAt == if r == Accepted then SetOnce(old(firstQueuedAt), now) else old(firstQueuedAt)
      ensures r == Accepted ==> firstQueuedAt == if old(firstQueuedAt) == Never then At(now) else old(firstQueuedAt)
    {
      if |txBuf| > TX_BUF_HIGH_WATER && !closeReq {
        return WouldBlock;
      }
      if closeReq {
        return Dropped;
      }
      txBuf := txBuf + data;
      if firstQueuedAt == Never {
        firstQueuedAt := At(now);
      }
      return Accepted;
    }

    /** Bundles data with a SYN that has not been drained yet; otherwise a plain enqueue. */
    method EnqueueInitialData(data: Bytes, now: int) returns (r: EnqueueResult)
      modifies this`txBuf, this`firstQueuedAt
      ensures r == WouldBlock <==> Blocked(old(Tx()), Initial(data))
      ensures r == WouldBlock ==> Tx() == old(Tx())
      ensures r != WouldBlock ==> Tx() == Apply(old(Tx()), Initial(data))
      ensures r == WouldBlock <==> !synNeeded && |old(txBuf)| > 8 * 1024 * 1024 && !closeReq
      ensures r == Dropped <==> closeReq && !synNeeded
      ensures txBuf == if r == Accepted then old(txBuf) + data else old(txBuf)
      ensures firstQueuedAt == if r == Accepted then SetOnce(old(firstQueuedAt), now) else old(firstQueuedAt)
    {
      if !synNeeded {
        r := EnqueueTx(data, now);
        return;
      }
      txBuf := txBuf + data;
      if firstQueuedAt == Never {
        firstQueuedAt := At(now);
      }
      return Accepted;
    }

    method RequestClose(now: int)
      modifies this`closeReq, this`firstQueuedAt
      ensures Tx() == Apply(old(Tx()), Close) && closeReq
      ensures firstQueuedAt == SetOnce(old(firstQueuedAt), now)
    {
      closeReq := true;
      if firstQueuedAt == Never {
        firstQueuedAt := At(now);
      }
    }

    method CloseRx()
      modifies this`rxClosed, this`rxChanClosed
      ensures rxClosed
      ensures rxChanClosed == (old(rxChanClosed) || !old(rxClosed))
    {
      if !rxClosed {
        rxClosed := true;
        rxChanClosed := true;
      }
    }

    method HasPendingTx() returns (b: bool)
      ensures b <==> Tx().Pending()
      ensures b <==> synNeeded || txBuf != [] || (closeReq && !finSent)
    {
      b := synNeeded || |txBuf| > 0 || (closeReq && !finSent);
    }

    /** Both FINs have flowed, or ours has and the peer's is overdue. */
    predicate IsDone(now: int)
      reads this
    {
      finSent && (rxClosed || (finSentAt != Never && now - finSentAt.time > SESSION_FINAL_TIMEOUT))
    }

    /** First phase of a drain: the SYN, carrying the first chunk if there is one. */
    method DrainSyn(p: int) returns (frames: seq<Frame>)
      requires Cuts(Tx(), p)
      modifies this`txBuf, this`txSeq, this`synNeeded
      ensures LeadsTo(old(Tx()), p, frames, Tx()) && |frames| <= 1 && !synNeeded
    {
      frames := [];
      if synNeeded {
        LeadsToStep(Tx(), p, frames, Tx());
        var n := if |txBuf| == 0 then 0 else if |txBuf| > p then p else |txBuf|;
        frames := [Frame(id, txSeq, FLAG_SYN, target, txBuf[..n])];
        txSeq, synNeeded, txBuf := txSeq + 1, false, txBuf[n..];
      }
    }

    /** Second phase: chunks until the buffer is empty or the frame limit is hit. */
    method DrainChunks(p: int, maxFrames: int, sent: seq<Frame>, ghost t0: TxState)
      returns (frames: seq<Frame>)
      requires Cuts(t0, p) && LeadsTo(t0, p, sent, Tx()) && !synNeeded
      requires maxFrames <= 0 || |sent| <= maxFrames
      modifies this`txBuf, this`txSeq
      ensures LeadsTo(t0, p, frames, Tx())
      ensures maxFrames <= 0 || |frames| <= maxFrames
      ensures |txBuf| == 0 || (maxFrames > 0 && |frames| == maxFrames)
    {
      frames := sent;
      while |txBuf| > 0 && (maxFrames <= 0 || |frames| < maxFrames)
        invariant LeadsTo(t0, p, frames, Tx())
        invariant maxFrames <= 0 || |frames| <= maxFrames
        decreases |txBuf|
      {
        LeadsToStep(t0, p, frames, Tx());
        var n := if |txBuf| > p then p else |txBuf|;
        frames := frames + [Frame(id, txSeq, 0, [], txBuf[..n])];
        txSeq, txBuf := txSeq + 1, txBuf[n..];
      }
    }

    /** Last phase: the FIN, once everything before it is out. */
    method DrainFin(maxFrames: int, sent: seq<Frame>, now: int, ghost t0: TxState, ghost p: int)
      returns (frames: seq<Frame>)
      requires Cuts(t0, p) && LeadsTo(t0, p, sent, Tx()) && !synNeeded
      requires maxFrames <= 0 || |sent| <= maxFrames
      requires |txBuf| == 0 || (maxFrames > 0 && |sent| == maxFrames)
      modifies this`txSeq, this`finSent, this`finSentAt
      ensures LeadsTo(t0, p, frames, Tx())
      ensures maxFrames <= 0 || |frames| <= maxFrames
      ensures !Tx().Pending() || (maxFrames > 0 && |frames| == maxFrames)
      ensures finSentAt == if finSent && !old(finSent) then At(now) else old(finSentAt)
    {
      frames := sent;
      if closeReq && !finSent && (maxFrames <= 0 || |frames| < maxFrames) {
        LeadsToStep(t0, p, frames, Tx());
        frames := frames + [Frame(id, txSeq, FLAG_FIN, [], [])];
        txSeq, finSent, finSentAt := txSeq + 1, true, At(now);
      }
    }

    /** The three phases in order. */
    method DrainPhases(maxPayload: int, maxFrames: int, now: int) returns (frames: seq<Frame>)
      modifies this`txBuf, this`txSeq, this`synNeeded, this`finSent, this`finSentAt
      ensures frames == DrainFrames(old(Tx()), maxPayload, maxFrames)
      ensures Tx() == DrainState(old(Tx()), maxPayload, maxFrames)
      ensures finSentAt == if finSent && !old(finSent) then At(now) else old(finSentAt)
      ensures |frames| <= EstFrames(old(Tx()), maxPayload, maxFrames)
      ensures |frames| > 0 <==> old(Tx()).Pending()
    {
      ghost var t0 := Tx();
      var p := if maxPayload <= 0 then |txBuf| else maxPayload;
      frames := DrainSyn(p);
      frames := DrainChunks(p, maxFrames, frames, t0);
      frames := DrainFin(maxFrames, frames, now, t0, p);
      DrainComplete(t0, maxPayload, maxFrames, frames, Tx());
    }

    method DrainTx(maxPayload: int, maxFrames: int, withSnapshot: bool, now: int)
      returns (frames: seq<Frame>, snap: Option<DrainSnap>)
      modifies this`txBuf, this`txSeq, this`synNeeded, this`finSent, this`finSentAt, this`firstQueuedAt
      ensures frames == DrainFrames(old(Tx()), maxPayload, maxFrames)
      ensures Tx() == DrainState(old(Tx()), maxPayload, maxFrames)
      ensures TxPart(snap) ==
              if withSnapshot then DrainSnapshot(old(Tx()), maxPayload, maxFrames) else None
      ensures snap.Some? ==> snap.value.firstQueuedAt == old(firstQueuedAt)
      ensures firstQueuedAt == if Tx().Pending() || !old(Tx()).Pending() then old(firstQueuedAt) else Never
      ensures finSentAt == if finSent && !old(finSent) then At(now) else old(finSentAt)
    {
      snap := None;
      if withSnapshot {
        snap := Some(DrainSnap(Snapshot(synNeeded, txBuf, txSeq, finSent), finSentAt, firstQueuedAt));
      }
      if !synNeeded && |txBuf| == 0 && !(closeReq && !finSent) {
        DrainComplete(Tx(), maxPayload, maxFrames, [], Tx());
        return [], None;
      }
      var estFrames := EstFrames(Tx(), maxPayload, maxFrames);
      frames := DrainPhases(maxPayload, maxFrames, now);
      if !synNeeded && |txBuf| == 0 && !(closeReq && !finSent) {
        firstQueuedAt := Never;
      }
      if |frames| == 0 {
        snap := None;
      }
      assert |frames| <= estFrames;
    }

    /** Undoes a drain whose frames could not be sent. */
    method RollbackDrain(snap: Option<DrainSnap>)
      modifies this`txBuf, this`txSeq, this`synNeeded, this`finSent, this`finSentAt, this`firstQueuedAt
      ensures Tx() == Rollback(old(Tx()), TxPart(snap))
      ensures firstQueuedAt == if snap.Some? && snap.value.firstQueuedAt != Never
                               then Older(snap.value.firstQueuedAt, old(firstQueuedAt))
                               else old(firstQueuedAt)
      ensures snap.Some? && snap.value.firstQueuedAt.At? ==>
                && firstQueuedAt.At? && firstQueuedAt.time <= snap.value.firstQueuedAt.time
                && (old(firstQueuedAt).At? ==> firstQueuedAt.time <= old(firstQueuedAt).time)
                && (firstQueuedAt == snap.value.firstQueuedAt || firstQueuedAt == old(firstQueuedAt))
      ensures finSentAt == if snap.Some? && !snap.value.tx.finSent then Never else old(finSentAt)
    {
      if snap.None? {
        return;
      }
      var s := snap.value;
      if |s.tx.txBuf| > 0 {
        if |txBuf| == 0 {
          txBuf := s.tx.txBuf;
        } else {
          txBuf := s.tx.txBuf + txBuf;
        }
      }
      if s.tx.synNeeded {
        synNeeded := true;
      }
      txSeq := s.tx.txSeq;
      if !s.tx.finSent {
        finSent := false;
        finSentAt := Never;
      }
      if s.firstQueuedAt != Never {
        if firstQueuedAt == Never || s.firstQueuedAt.time < firstQueuedAt.time {
          firstQueuedAt := s.firstQueuedAt;
        }
      }
    }

    /** The part of `deliverRx` under the lock, for a frame that is next in order: collect
        its payload and those of the parked frames that follow on. */
    method Collect(f: Frame) returns (toSend: seq<Bytes>, closeAfter: bool)
      requires !rxClosed && f.seqNo == rxSeq
      modifies this`rxSeq, this`rxQueue, this`rxClosed
      ensures Accept(old(Rx()), f) == (Rx(), Ready(toSend, closeAfter))
    {
      ghost var end := Advance(Rx(), f);
      var g := f;
      toSend, closeAfter := [], false;
      while true
        invariant !rxClosed && !closeAfter
        invariant Advance(Rx(), g).0 == end.0
        invariant toSend + Advance(Rx(), g).1.chunks == end.1.chunks
        invariant Advance(Rx(), g).1.closeAfter == end.1.closeAfter
        decreases |rxQueue|
      {
        ghost var sent, prev := toSend, g;
        if |g.payload| > 0 {
          toSend := toSend + [g.payload];
        }
        assert toSend == sent + ChunkOf(g);
        rxSeq := rxSeq + 1;
        if g.HasFlag(FLAG_FIN) {
          rxClosed := true;
          closeAfter := true;
          return;
        }
        if rxSeq !in rxQueue {
          return;
        }
        DropsOne(rxQueue, rxSeq);
        g := rxQueue[rxSeq];
        rxQueue := rxQueue - {rxSeq};
        Assoc(sent, ChunkOf(prev), Advance(Rx(), g).1.chunks);
      }
    }

    /** The part outside the lock: the payloads go to the channel, and a FIN closes it and
        stops the session. */
    method HandOver(toSend: seq<Bytes>, closeAfter: bool, sends: nat) returns (exit: bool)
      modifies this`rxChan, this`rxChanClosed, this`stopped
      ensures rxChan == old(rxChan) + toSend[..Min(sends, |toSend|)]
      ensures rxChanClosed == (old(rxChanClosed) || closeAfter)
      ensures stopped == (old(stopped) || (closeAfter && sends >= |toSend|))
      ensures exit <==> closeAfter || sends < |toSend|
    {
      var i := 0;
      while i < |toSend|
        invariant i <= |toSend| && i <= sends && rxChanClosed == old(rxChanClosed)
        invariant rxChan == old(rxChan) + toSend[..i] && stopped == old(stopped)
      {
        if i == sends {
          if closeAfter {
            rxChanClosed := true;
          }
          return true;
        }
        rxChan := rxChan + [toSend[i]];
        i := i + 1;
      }
      if closeAfter {
        rxChanClosed := true;
        Stop();
      }
      return closeAfter;
    }

    /** In-order reassembly and delivery of one frame. The sends run outside the lock, so
        another goroutine's `Stop` may be noticed after `sends` of them; a larger value
        means it is not noticed. */
    method DeliverRx(f: Frame, sends: nat) returns (exit: bool)
      modifies this`rxSeq, this`rxQueue, this`rxClosed, this`rxChan, this`rxChanClosed, this`stopped
      ensures old(rxClosed) ==> exit
      ensures old(rxClosed) || f.seqNo != old(rxSeq) ==>
                && rxSeq == old(rxSeq) && rxClosed == old(rxClosed) && rxChan == old(rxChan)
                && rxChanClosed == old(rxChanClosed) && stopped == old(stopped)
                && rxQueue == (if !old(rxClosed) && f.seqNo > old(rxSeq) then old(rxQueue)[f.seqNo := f] else old(rxQueue))
      ensures !old(rxClosed) && f.seqNo != old(rxSeq) ==> !exit
      ensures !old(rxClosed) && f.seqNo == old(rxSeq) ==>
                && rxSeq > old(rxSeq) && old(rxChan) <= rxChan && (rxClosed ==> exit && rxChanClosed)
                && (rxChanClosed ==> old(rxChanClosed) || rxClosed) && (stopped ==> old(stopped) || rxClosed)
                && (exit && !rxClosed ==> |rxChan| == |old(rxChan)| + sends)
                && (rxClosed && !stopped ==> |rxChan| == |old(rxChan)| + sends)
                && (f.payload != [] && sends > 0 ==> |rxChan| > |old(rxChan)| && rxChan[|old(rxChan)|] == f.payload)
      ensures Rx() == Accept(old(Rx()), f).0
      ensures var o := Accept(old(Rx()), f).1;
              && rxChan == old(rxChan) + o.Handed()[..Min(sends, |o.Handed()|)]
              && rxChanClosed == (old(rxChanClosed) || (o.Ready? && o.closeAfter))
              && (exit <==> o.Shut? || (o.Ready? && o.closeAfter) || sends < |o.Handed()|)
              && stopped == (old(stopped) || (o.Ready? && o.closeAfter && sends >= |o.Handed()|))
    {
      hide Advance;
      assert rxChan + [] == rxChan;
      if rxClosed {
        return true;
      }
      if f.seqNo < rxSeq {
        return false;
      }
      if f.seqNo > rxSeq {
        rxQueue := rxQueue[f.seqNo := f];
        return false;
      }
      AdvanceRun(Rx(), f);
      var toSend, closeAfter := Collect(f);
      exit := HandOver(toSend, closeAfter, sends);
    }
  }
}

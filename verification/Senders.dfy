/** One session's sending side over its whole life: writers, drains, and batches that are
    committed or rolled back. `log` is the stream of frames that count, `accepted` every
    byte the writers were taken for. */
module Senders {
  import opened Prelude
  import opened Frames
  import opened TxSpec
  import opened Drains

  /** A drained batch whose fate is open: where it starts in the log, the snapshot taken,
      what the drain left in the buffer, and whether it has reached the peer. */
  datatype Out = Out(start: nat, snap: Snapshot, tail: Bytes, reached: bool)

  datatype Sender = Sender(tx: TxState, needsSyn: bool, accepted: Bytes, log: seq<Frame>, out: Option<Out>)

  function NewSender(id: SessionId, target: Bytes, needsSyn: bool): Sender {
    Sender(TxState(id, target, needsSyn, [], 0, false, false), needsSyn, [], [], None)
  }

  function Written(s: Sender, op: WriterOp): Sender {
    s.(tx := Apply(s.tx, op), accepted := s.accepted + Taken(s.tx, op))
  }

  function Drained(s: Sender, maxPayload: int, maxFrames: int): Sender {
    var frames, tx := DrainFrames(s.tx, maxPayload, maxFrames), DrainState(s.tx, maxPayload, maxFrames);
    if |frames| == 0 then s.(tx := tx)
    else s.(tx := tx, log := s.log + frames, out := Some(Out(|s.log|, SnapshotOf(s.tx), tx.txBuf, false)))
  }

  function Reached(s: Sender): Sender
    requires s.out.Some?
  {
    s.(out := Some(s.out.value.(reached := true)))
  }

  function Committed(s: Sender): Sender {
    s.(out := None)
  }

  function RolledBack(s: Sender): Sender
    requires s.out.Some? && s.out.value.start <= |s.log|
  {
    s.(tx := Rollback(s.tx, Some(s.out.value.snap)), log := s.log[..s.out.value.start], out := None)
  }

  // ---- The invariant -------------------------------------------------------------

  /** What frame `i` of a well-shaped stream looks like: numbered `i`, SYN with the target
      first and nowhere else, FIN bare and last, and every other frame carrying bytes. */
  ghost predicate FrameOk(f: Frame, i: nat, tx: TxState, needsSyn: bool, last: bool) {
    && f.sessionId == tx.id && f.seqNo == i
    && if needsSyn && i == 0 then f.flags == FLAG_SYN && f.target == tx.target
       else if tx.finSent && last then f.flags == FLAG_FIN && f.target == [] && f.payload == []
       else f.flags == 0 && f.target == [] && f.payload != []
  }

  ghost predicate LogOk(tx: TxState, needsSyn: bool, log: seq<Frame>) {
    forall i :: 0 <= i < |log| ==> FrameOk(log[i], i, tx, needsSyn, i == |log| - 1)
  }

  ghost predicate StreamOk(tx: TxState, needsSyn: bool, accepted: Bytes, log: seq<Frame>) {
    && tx.Sound() && |log| == tx.txSeq
    && (tx.synNeeded <==> needsSyn && |log| == 0)
    && (tx.finSent ==> |log| > if needsSyn then 1 else 0)
    && Payloads(log) + tx.txBuf == accepted
    && LogOk(tx, needsSyn, log)
  }

  ghost predicate OutOk(s: Sender) {
    s.out.Some? ==>
      var o := s.out.value;
      && o.start < |s.log| && o.snap.txSeq == o.start && !o.snap.finSent
      && (o.snap.synNeeded <==> s.needsSyn && o.start == 0)
      && Payloads(s.log[o.start..]) + o.tail == o.snap.txBuf
      && o.tail <= s.tx.txBuf
  }

  ghost predicate SenderInv(s: Sender) {
    StreamOk(s.tx, s.needsSyn, s.accepted, s.log) && OutOk(s)
  }

  lemma NewSenderOk(id: SessionId, target: Bytes, needsSyn: bool)
    ensures SenderInv(NewSender(id, target, needsSyn))
  {
    assert Payloads([]) == [];
  }

  lemma WrittenOk(s: Sender, op: WriterOp)
    requires SenderInv(s)
    ensures SenderInv(Written(s, op)) && Written(s, op).log == s.log
  {
    Assoc(Payloads(s.log), s.tx.txBuf, Taken(s.tx, op));
    if s.out.Some? {
      assert s.out.value.tail <= s.tx.txBuf <= Written(s, op).tx.txBuf;
    }
  }

  /** Sending one more frame keeps the stream well-shaped. */
  lemma NextFrameOk(tx: TxState, needsSyn: bool, accepted: Bytes, log: seq<Frame>, p: int)
    requires StreamOk(tx, needsSyn, accepted, log) && tx.Pending() && Cuts(tx, p)
    ensures StreamOk(AfterNext(tx, p), needsSyn, accepted, log + [NextFrame(tx, p)])
  {
    var f, tx' := NextFrame(tx, p), AfterNext(tx, p);
    PayloadsAppend(log, [f]);
    PayloadsSingle(f);
    assert f.payload + tx'.txBuf == tx.txBuf;
    Assoc(Payloads(log), f.payload, tx'.txBuf);
    assert !tx.finSent;
    forall i | 0 <= i < |log| + 1
      ensures FrameOk((log + [f])[i], i, tx', needsSyn, i == |log|)
    {
      if i < |log| {
        assert FrameOk(log[i], i, tx, needsSyn, i == |log| - 1);
      }
    }
  }

  lemma {:induction false} EmittedOk(tx: TxState, needsSyn: bool, accepted: Bytes, log: seq<Frame>, p: int, n: nat)
    requires StreamOk(tx, needsSyn, accepted, log) && Cuts(tx, p)
    ensures StreamOk(Advanced(tx, p, n), needsSyn, accepted, log + Emitted(tx, p, n))
    decreases n
  {
    if n > 0 && tx.Pending() {
      var f := NextFrame(tx, p);
      NextFrameOk(tx, needsSyn, accepted, log, p);
      EmittedOk(AfterNext(tx, p), needsSyn, accepted, log + [f], p, n - 1);
      Assoc(log, [f], Emitted(AfterNext(tx, p), p, n - 1));
    } else {
      assert log + [] == log;
    }
  }

  lemma DrainedOk(s: Sender, maxPayload: int, maxFrames: int)
    requires SenderInv(s) && s.out.None?
    ensures SenderInv(Drained(s, maxPayload, maxFrames))
    ensures s.log <= Drained(s, maxPayload, maxFrames).log
  {
    var frames := DrainFrames(s.tx, maxPayload, maxFrames);
    EmittedOk(s.tx, s.needsSyn, s.accepted, s.log, Chunk(s.tx, maxPayload), Limit(s.tx, maxFrames));
    DrainContract(s.tx, maxPayload, maxFrames);
    if |frames| == 0 {
      assert s.log + frames == s.log;
    } else {
      assert (s.log + frames)[|s.log|..] == frames;
    }
  }

  /** A prefix of the stream that stops short of its end is a stream without FIN. */
  lemma PrefixOk(tx: TxState, tx': TxState, needsSyn: bool, log: seq<Frame>, n: nat)
    requires LogOk(tx, needsSyn, log) && n < |log|
    requires tx'.id == tx.id && tx'.target == tx.target && !tx'.finSent
    ensures LogOk(tx', needsSyn, log[..n])
  {
    forall i | 0 <= i < n ensures FrameOk(log[..n][i], i, tx', needsSyn, i == n - 1) {
      assert FrameOk(log[i], i, tx, needsSyn, false);
    }
  }

  /** Rolling back a batch keeps the stream well-shaped, provided its drain emptied the buffer. */
  lemma RolledBackOk(s: Sender)
    requires SenderInv(s) && s.out.Some? && s.out.value.tail == []
    ensures SenderInv(RolledBack(s))
  {
    var o := s.out.value;
    var s' := RolledBack(s);
    PrefixOk(s.tx, s'.tx, s.needsSyn, s.log, o.start);
    assert s.log == s.log[..o.start] + s.log[o.start..];
    PayloadsAppend(s.log[..o.start], s.log[o.start..]);
    assert o.snap.txBuf + [] == o.snap.txBuf;
    Assoc(Payloads(s.log[..o.start]), o.snap.txBuf, s.tx.txBuf);
  }

  // ---- What was written is what is sent ------------------------------------------------

  /** The data arguments of a run of writers, one after the other. */
  function DataOf(ops: seq<WriterOp>): Bytes {
    if |ops| == 0 then []
    else (match ops[0] case Write(data) => data case Initial(data) => data case Close => []) + DataOf(ops[1..])
  }

  /** Until it is closed, a session takes every byte it is given. */
  lemma {:induction false} ThenClosed(t: TxState, ops: seq<WriterOp>)
    requires !t.closeReq && Close !in ops
    ensures ApplyAll(t, ops + [Close]) == t.(txBuf := t.txBuf + DataOf(ops), closeReq := true)
    decreases |ops|
  {
    if |ops| == 0 {
      assert ops + [Close] == [Close] && ApplyAll(Apply(t, Close), []) == Apply(t, Close);
      assert t.txBuf + [] == t.txBuf;
    } else {
      var data := match ops[0] case Write(data) => data case Initial(data) => data;
      assert Apply(t, ops[0]) == t.(txBuf := t.txBuf + data);
      assert Close !in ops[1..] && (ops + [Close])[1..] == ops[1..] + [Close];
      ThenClosed(Apply(t, ops[0]), ops[1..]);
      Assoc(t.txBuf, data, DataOf(ops[1..]));
    }
  }

  lemma FramesOfAll(t: TxState, p: int)
    requires Cuts(t, p) && t.FinDue()
    ensures FrameCount(t, p) > if t.synNeeded then 1 else 0
  {
    if |t.txBuf| > 0 {
      CeilDivFits(|t.txBuf|, p, 0);
    }
  }

  /** A new session that is written to, closed and drained sends exactly what was written, in
      order, in frames numbered from 0: flag 1 and the target on the first if it needs a SYN,
      and a bare frame with flag 2 at the end. */
  lemma WrittenThenClosed(id: SessionId, target: Bytes, needsSyn: bool, ops: seq<WriterOp>, maxPayload: int)
    requires Close !in ops
    ensures var t := ApplyAll(NewSender(id, target, needsSyn).tx, ops + [Close]);
            var fs := DrainFrames(t, maxPayload, 0);
            && Payloads(fs) == DataOf(ops) && |fs| > (if needsSyn then 1 else 0)
            && (forall i :: 0 <= i < |fs| ==> fs[i].sessionId == id && fs[i].seqNo == i)
            && (forall i :: 0 <= i < |fs| ==>
                  fs[i].flags == if needsSyn && i == 0 then 1 else if i == |fs| - 1 then 2 else 0)
            && (needsSyn ==> fs[0].target == target) && fs[|fs| - 1].payload == []
  {
    var t0 := NewSender(id, target, needsSyn).tx;
    var t := ApplyAll(t0, ops + [Close]);
    ThenClosed(t0, ops);
    assert [] + DataOf(ops) == DataOf(ops);
    var p, n := Chunk(t, maxPayload), Limit(t, 0);
    var fs := DrainFrames(t, maxPayload, 0);
    DrainContract(t, maxPayload, 0);
    DrainEmptiesIffFits(t, maxPayload, 0);
    assert Payloads(fs) + [] == t.txBuf;
    FramesOfAll(t, p);
    forall i | 0 <= i < |fs| ensures fs[i] == FrameAt(t, p, i) {
      EmittedShape(t, p, n, i);
    }
  }

  // ---- Runs ------------------------------------------------------------------------

  datatype SendEvent =
    | Writer(op: WriterOp)
    | Drain(maxPayload: int, maxFrames: int)
    | Reach
    | Commit
    | RollBack

  /** A writer waits while blocked; only one batch of a session is out at a time. */
  predicate CanSend(s: Sender, e: SendEvent) {
    match e
    case Writer(op) => !Blocked(s.tx, op)
    case Drain(_, _) => s.out.None?
    case Reach => s.out.Some?
    case Commit => s.out.Some?
    case RollBack => s.out.Some? && s.out.value.start <= |s.log|
  }

  function SendStep(s: Sender, e: SendEvent): Sender
    requires CanSend(s, e)
  {
    match e
    case Writer(op) => Written(s, op)
    case Drain(p, k) => Drained(s, p, k)
    case Reach => Reached(s)
    case Commit => Committed(s)
    case RollBack => RolledBack(s)
  }

  /** The drain being undone emptied the buffer. */
  predicate Emptying(s: Sender, e: SendEvent) {
    e.RollBack? && s.out.Some? ==> s.out.value.tail == []
  }

  predicate SameIdentity(s: Sender, s': Sender) {
    s'.needsSyn == s.needsSyn && s'.tx.id == s.tx.id && s'.tx.target == s.tx.target
  }

  lemma SendStepOk(s: Sender, e: SendEvent)
    requires SenderInv(s) && CanSend(s, e) && Emptying(s, e)
    ensures SenderInv(SendStep(s, e)) && SameIdentity(s, SendStep(s, e))
    ensures s.accepted <= SendStep(s, e).accepted
  {
    match e
    case Writer(op) => WrittenOk(s, op);
    case Drain(p, k) =>
      DrainedOk(s, p, k);
      AdvancedFields(s.tx, Chunk(s.tx, p), Limit(s.tx, k));
    case Reach =>
    case Commit =>
    case RollBack => RolledBackOk(s);
  }

  ghost predicate SendRun(s: Sender, es: seq<SendEvent>)
    decreases |es|
  {
    |es| > 0 ==> CanSend(s, es[0]) && Emptying(s, es[0]) && SendRun(SendStep(s, es[0]), es[1..])
  }

  ghost function SendEnd(s: Sender, es: seq<SendEvent>): Sender
    requires SendRun(s, es)
    decreases |es|
  {
    if |es| == 0 then s else SendEnd(SendStep(s, es[0]), es[1..])
  }

  /** Over any life of a session the frames that count form one well-shaped stream: numbers
      0, 1, 2, ..., one SYN first, at most one FIN and that one last, and the payloads
      followed by what is still buffered are exactly the accepted bytes. */
  lemma {:induction false} OneWellShapedStream(s: Sender, es: seq<SendEvent>)
    requires SenderInv(s) && SendRun(s, es)
    ensures SenderInv(SendEnd(s, es)) && SameIdentity(s, SendEnd(s, es))
    decreases |es|
  {
    if |es| > 0 {
      SendStepOk(s, es[0]);
      OneWellShapedStream(SendStep(s, es[0]), es[1..]);
    }
  }

  /** The same, spelled out for a session from its creation. */
  lemma LifeOfASession(id: SessionId, target: Bytes, needsSyn: bool, es: seq<SendEvent>)
    requires SendRun(NewSender(id, target, needsSyn), es)
    ensures var s := SendEnd(NewSender(id, target, needsSyn), es);
            && (forall i :: 0 <= i < |s.log| ==>
                  && s.log[i].seqNo == i
                  && (s.log[i].flags == FLAG_SYN <==> needsSyn && i == 0)
                  && (s.log[i].flags == FLAG_FIN <==> s.tx.finSent && i == |s.log| - 1))
            && (needsSyn && |s.log| > 0 ==> s.log[0].target == target)
            && Payloads(s.log) <= s.accepted
            && (s.tx.finSent ==> Payloads(s.log) == s.accepted && !s.tx.synNeeded && s.tx.txBuf == [])
  {
    NewSenderOk(id, target, needsSyn);
    var s0 := NewSender(id, target, needsSyn);
    OneWellShapedStream(s0, es);
    var s := SendEnd(s0, es);
    assert s.tx.finSent ==> Payloads(s.log) + [] == s.accepted;
    forall i | 0 <= i < |s.log|
      ensures s.log[i].seqNo == i
      ensures s.log[i].flags == FLAG_SYN <==> s.needsSyn && i == 0
      ensures s.log[i].flags == FLAG_FIN <==> s.tx.finSent && i == |s.log| - 1
    {
      assert FrameOk(s.log[i], i, s.tx, s.needsSyn, i == |s.log| - 1);
    }
  }
}

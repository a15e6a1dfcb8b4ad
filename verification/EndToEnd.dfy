/** Sender, network, receiver and reader of one direction of one session, together. The
    network may lose, duplicate, delay and reorder whatever has reached it. */
module EndToEnd {
  import opened Prelude
  import opened Frames
  import opened TxSpec
  import opened Drains
  import opened RxSpec
  import opened RxLoops
  import opened Senders
  import opened LateCopies
  import opened VirtualConns

  /** `net` holds the frames that have reached the peer's side, `stale` those of batches that
      were rolled back, `abandoned` those among them that the session will not send again as
      they are, `shadow` the ones rolled back and not yet drained again, in order, cut into
      chunks of `chunk`; `got` is everything the reader has read. */
  datatype World = World(snd: Sender, chunk: int, shadow: seq<Frame>,
                         net: set<Frame>, stale: set<Frame>, abandoned: set<Frame>,
                         rcv: Receiver, readBuf: Bytes, got: Bytes)

  function NewWorld(id: SessionId, target: Bytes, needsSyn: bool): World {
    World(NewSender(id, target, needsSyn), 0, [], {}, {}, {}, NEW_RECEIVER, [], [])
  }

  datatype Event =
    | Send(se: SendEvent)
    | StaleReach(f: Frame)   // a frame of a rolled-back batch arrives after all
    | Arrive(f: Frame)       // ProcessRx is called with a frame from the network
    | Rx(re: RxEvent)        // a step of rxLoop, Stop or CloseRx
    | Read(cap: nat)

  function OutSeq(s: Sender): seq<Frame> {
    if s.out.Some? && s.out.value.start <= |s.log| then s.log[s.out.value.start..] else []
  }

  function FrameSet(fs: seq<Frame>): set<Frame> {
    set f | f in fs
  }

  predicate Can(w: World, e: Event) {
    match e
    case Send(se) => CanSend(w.snd, se)
    case StaleReach(f) => f in w.stale
    case Arrive(f) => f in w.net && CanRx(w.rcv, Push(f))
    case Rx(re) => !re.Push? && !re.Receive? && CanRx(w.rcv, re)
    case Read(cap) => !w.rcv.panicked && Peel(w.readBuf, w.rcv.items, cap).Some?
  }

  /** The bytes taken since the shadow was drained, and those it carries. */
  function ShadowLen(w: World): nat {
    Min(|Payloads(w.shadow)|, |w.snd.tx.txBuf|)
  }

  /** A drain with this chunk size begins with the shadow's frames: it can be told from the
      bytes taken since. */
  predicate Resumable(w: World, chunk: int) {
    w.shadow == [] ||
    (chunk == w.chunk &&
     SafeToResend(Cut(w.snd.tx, ShadowLen(w), HasFin(w.shadow)), chunk, w.shadow, w.snd.tx.txBuf[ShadowLen(w)..]))
  }

  function DrainStep(w: World, maxPayload: int, maxFrames: int): World {
    var frames, q := DrainFrames(w.snd.tx, maxPayload, maxFrames), Chunk(w.snd.tx, maxPayload);
    var w1 := w.(snd := Drained(w.snd, maxPayload, maxFrames));
    if |frames| == 0 then w1
    else if Resumable(w, q) then w1.(chunk := q, shadow := w.shadow[Min(|frames|, |w.shadow|)..])
    else w1.(chunk := q, shadow := [], abandoned := w.abandoned + FrameSet(w.shadow))
  }

  function Step(w: World, e: Event): World
    requires Can(w, e)
  {
    match e
    case Send(se) =>
      (match se
       case Drain(p, k) => DrainStep(w, p, k)
       case Reach => w.(snd := SendStep(w.snd, se), net := w.net + FrameSet(OutSeq(w.snd)))
       case RollBack =>
         w.(snd := SendStep(w.snd, se), shadow := OutSeq(w.snd) + w.shadow, stale := w.stale + FrameSet(OutSeq(w.snd)))
       case _ => w.(snd := SendStep(w.snd, se)))
    case StaleReach(f) => w.(net := w.net + {f})
    case Arrive(f) => w.(rcv := RxStep(w.rcv, Push(f)))
    case Rx(re) => w.(rcv := RxStep(w.rcv, re))
    case Read(cap) =>
      var p := Peel(w.readBuf, w.rcv.items, cap).value;
      w.(got := w.got + p.data, readBuf := p.readBuf, rcv := w.rcv.(items := p.items))
  }

  /** No frame of a batch that is to be sent again has reached the peer. */
  ghost predicate Untouched(w: World) {
    forall f :: f in w.net ==> f.seqNo < |w.snd.log|
  }

  /** What the relay counts on when it rolls a batch back: its drain had emptied the buffer;
      and the batch is sent again as it was - unless none of it has reached the peer, nor
      ever does. */
  ghost predicate Benign(w: World, e: Event) {
    match e
    case Send(se) =>
      && Emptying(w.snd, se)
      && (se.Drain? && |DrainFrames(w.snd.tx, se.maxPayload, se.maxFrames)| > 0 ==>
            Resumable(w, Chunk(w.snd.tx, se.maxPayload)) || Untouched(w))
    case StaleReach(f) => f !in w.abandoned
    case _ => true
  }

  // ---- The invariant ------------------------------------------------------------------

  /** The stream as the peer may have seen it. */
  function Line(w: World): seq<Frame> {
    w.snd.log + w.shadow
  }

  ghost predicate OnLine(w: World, f: Frame) {
    f.seqNo < |Line(w)| && Line(w)[f.seqNo] == f
  }

  ghost predicate NetInv(w: World) {
    && (forall f :: f in w.net ==> OnLine(w, f))
    && (forall f :: f in w.stale && f !in w.abandoned ==> OnLine(w, f))
    && (forall f :: f in w.rcv.inbox ==> f in w.net)
    && (forall k :: k in w.rcv.seen ==> w.rcv.seen[k] in w.net)
  }

  /** These frames are what a session in this state would send first, had it only their bytes. */
  ghost predicate SentOnce(t: TxState, p: int, fs: seq<Frame>) {
    && |Payloads(fs)| <= |t.txBuf|
    && Cuts(Cut(t, |Payloads(fs)|, HasFin(fs)), p)
    && fs == Emitted(Cut(t, |Payloads(fs)|, HasFin(fs)), p, |fs|)
  }

  /** The session as it was when the batch that is out was drained. */
  function BeforeOut(s: Sender): TxState
    requires s.out.Some?
  {
    var o := s.out.value;
    s.tx.(synNeeded := o.snap.synNeeded, txBuf := o.snap.txBuf, txSeq := o.snap.txSeq, finSent := o.snap.finSent)
  }

  /** The shadow is what the session would send again; so is, once it is rolled back, the
      batch that is out together with the shadow behind it. */
  ghost predicate ShadowOk(s: Sender, chunk: int, shadow: seq<Frame>) {
    && SentOnce(s.tx, chunk, shadow) && (HasFin(shadow) ==> s.tx.closeReq)
    && (s.out.Some? ==>
          && SentOnce(BeforeOut(s), chunk, OutSeq(s) + shadow)
          && (HasFin(OutSeq(s) + shadow) ==> s.tx.closeReq))
  }

  ghost predicate ShadowInv(w: World) {
    ShadowOk(w.snd, w.chunk, w.shadow)
  }

  ghost predicate ReaderInv(w: World) {
    w.got + (w.readBuf + Flatten(w.rcv.items)) == Flatten(w.rcv.handed)
  }

  ghost predicate Inv(w: World) {
    SenderInv(w.snd) && ShadowInv(w) && NetInv(w) && CloseInv(w.rcv) && DataInv(w.rcv) && ReaderInv(w)
  }

  // ---- The sender's steps ----------------------------------------------------------------

  /** More bytes behind what has been sent once change nothing about it. */
  lemma SentOnceStill(t: TxState, u: TxState, p: int, fs: seq<Frame>)
    requires SentOnce(t, p, fs)
    requires u.id == t.id && u.target == t.target && u.synNeeded == t.synNeeded && u.txSeq == t.txSeq && u.finSent == t.finSent
    requires t.txBuf <= u.txBuf
    ensures SentOnce(u, p, fs)
  {
    var m := |Payloads(fs)|;
    assert u.txBuf[..m] == t.txBuf[..m];
    assert Cut(u, m, HasFin(fs)) == Cut(t, m, HasFin(fs));
  }

  lemma WriterShadow(w: World, op: WriterOp)
    requires Inv(w) && CanSend(w.snd, Writer(op))
    ensures ShadowInv(Step(w, Send(Writer(op)))) && Line(Step(w, Send(Writer(op)))) == Line(w)
  {
    hide Emitted, SenderInv, NetInv, DataInv, CloseInv, ReaderInv;
    var s, s' := w.snd, Written(w.snd, op);
    assert s.tx.txBuf <= s'.tx.txBuf;
    SentOnceStill(s.tx, s'.tx, w.chunk, w.shadow);
    if s.out.Some? {
      SentOnceStill(BeforeOut(s), BeforeOut(s'), w.chunk, OutSeq(s) + w.shadow);
    }
  }

  lemma NothingSent(t: TxState, p: int)
    ensures SentOnce(t, p, []) && !HasFin([])
  {
    assert Payloads([]) == [];
  }

  /** A drain that begins with the shadow's frames, or ends among them. */
  lemma ResumedFrames(w: World, q: int, n: nat)
    requires Inv(w) && Resumable(w, q) && w.shadow != [] && Cuts(w.snd.tx, q)
    ensures Emitted(w.snd.tx, q, |w.shadow|) == w.shadow
    ensures n <= |w.shadow| ==> Emitted(w.snd.tx, q, n) == w.shadow[..n]
    ensures n >= |w.shadow| ==> w.shadow <= Emitted(w.snd.tx, q, n)
  {
    hide Emitted, Advanced, Payloads, FrameCount, NetInv, DataInv, CloseInv, ReaderInv, FullChunks;
    var tx, k := w.snd.tx, |w.shadow|;
    ResendsCut(tx, q, |Payloads(w.shadow)|, w.shadow);
    if n <= k {
      EmittedHead(tx, q, n, w.shadow);
    } else {
      EmittedCompose(tx, q, k, n - k);
    }
  }

  /** What is left of the shadow after a drain that ended inside it. */
  lemma RestOfShadow(t: TxState, q: int, n: nat, shadow: seq<Frame>)
    requires Cuts(t, q) && SentOnce(t, q, shadow) && 0 < n < |shadow| && Emitted(t, q, |shadow|) == shadow
    ensures Emitted(t, q, n) == shadow[..n] && SentOnce(Advanced(t, q, n), q, shadow[n..])
    ensures HasFin(shadow[n..]) == HasFin(shadow)
  {
    hide Emitted, Advanced, Payloads, HasFin, FrameCount;
    var m, fin := |Payloads(shadow)|, HasFin(shadow);
    EmittedHead(t, q, n, shadow);
    EmittedHead(Cut(t, m, fin), q, n, shadow);
    CutAdvance(t, q, n, m, fin);
    PayloadsSplit(shadow, n);
    FinOfSuffix(shadow, n);
  }

  lemma PayloadsSplit(fs: seq<Frame>, n: nat)
    requires n <= |fs|
    ensures |Payloads(fs)| == |Payloads(fs[..n])| + |Payloads(fs[n..])|
  {
    hide Payloads;
    assert fs == fs[..n] + fs[n..];
    PayloadsAppend(fs[..n], fs[n..]);
  }

  lemma FinOfSuffix(fs: seq<Frame>, n: nat)
    requires n < |fs|
    ensures HasFin(fs[n..]) == HasFin(fs)
  {
  }

  lemma EmittedHead(t: TxState, q: int, n: nat, fs: seq<Frame>)
    requires Cuts(t, q) && n <= |fs| && Emitted(t, q, |fs|) == fs
    ensures Emitted(t, q, n) == fs[..n] && |Emitted(t, q, n)| == n
    ensures Emitted(Advanced(t, q, n), q, |fs| - n) == fs[n..]
  {
    hide FrameCount, Emitted, Advanced;
    EmittedCompose(t, q, n, |fs| - n);
    EmittedCount(t, q, n);
    EmittedCount(t, q, |fs|);
  }

  /** The batch that is out after a drain, and what the session was before it. */
  lemma DrainOut(s: Sender, p: int, k: int)
    requires |DrainFrames(s.tx, p, k)| > 0
    ensures var s' := Drained(s, p, k);
            && s'.out.Some? && OutSeq(s') == DrainFrames(s.tx, p, k) && BeforeOut(s') == s.tx
            && s'.tx == DrainState(s.tx, p, k) && s'.tx.closeReq == s.tx.closeReq
  {
    hide Emitted, Advanced;
    var frames := DrainFrames(s.tx, p, k);
    AdvancedFields(s.tx, Chunk(s.tx, p), Limit(s.tx, k));
    assert (s.log + frames)[|s.log|..] == frames;
  }

  /** A drain that ends among the shadow's frames. */
  lemma DrainInside(w: World, p: int, k: int)
    requires Inv(w) && w.snd.out.None? && Resumable(w, Chunk(w.snd.tx, p))
    requires 0 < |DrainFrames(w.snd.tx, p, k)| < |w.shadow|
    ensures ShadowInv(DrainStep(w, p, k)) && Line(w) == Line(DrainStep(w, p, k))
  {
    hide NetInv, DataInv, CloseInv, ReaderInv, StreamOk, Emitted, Advanced, SafeToResend, HasFin, Payloads;
    var tx, q := w.snd.tx, Chunk(w.snd.tx, p);
    var frames := DrainFrames(tx, p, k);
    var n, rest := |frames|, w.shadow[|frames|..];
    DrainOut(w.snd, p, k);
    FramesAre(tx, q, Limit(tx, k));
    AdvancedSame(tx, q, Limit(tx, k));
    ResumedFrames(w, q, n);
    RestOfShadow(tx, q, n, w.shadow);
    assert frames + rest == w.shadow;
    Assoc(w.snd.log, frames, rest);
  }

  /** A drain that leaves no shadow. */
  lemma DrainBeyond(w: World, p: int, k: int)
    requires Inv(w) && w.snd.out.None? && |DrainFrames(w.snd.tx, p, k)| > 0
    requires Resumable(w, Chunk(w.snd.tx, p)) ==> |DrainFrames(w.snd.tx, p, k)| >= |w.shadow|
    ensures ShadowInv(DrainStep(w, p, k)) && DrainStep(w, p, k).shadow == []
    ensures Resumable(w, Chunk(w.snd.tx, p)) ==> Line(w) <= Line(DrainStep(w, p, k))
    ensures w.snd.log <= Line(DrainStep(w, p, k))
  {
    hide NetInv, DataInv, CloseInv, ReaderInv, StreamOk, Emitted, Advanced, SafeToResend, HasFin, Payloads;
    var tx, q, n := w.snd.tx, Chunk(w.snd.tx, p), Limit(w.snd.tx, k);
    var frames := DrainFrames(tx, p, k);
    DrainOut(w.snd, p, k);
    NothingSent(Drained(w.snd, p, k).tx, q);
    SelfCut(tx, q, n);
    assert frames + [] == frames;
    FinMeansClosed(tx, q, n);
    assert w.shadow[|w.shadow|..] == [];
    assert Line(DrainStep(w, p, k)) == w.snd.log + frames;
    if Resumable(w, q) && w.shadow != [] {
      FramesAre(tx, q, n);
      ResumedFrames(w, q, |frames|);
      Assoc(w.snd.log, w.shadow, frames[|w.shadow|..]);
    }
  }

  lemma FramesAre(t: TxState, q: int, n: nat)
    requires Cuts(t, q)
    ensures Emitted(t, q, |Emitted(t, q, n)|) == Emitted(t, q, n)
  {
    EmittedCount(t, q, n);
    var m := |Emitted(t, q, n)|;
    EmittedCompose(t, q, m, n - m);
    EmittedCount(t, q, m);
    assert |Emitted(Advanced(t, q, m), q, n - m)| == 0;
    assert Emitted(t, q, m) + [] == Emitted(t, q, m);
  }

  lemma AdvancedSame(t: TxState, q: int, n: nat)
    requires Cuts(t, q)
    ensures Advanced(t, q, |Emitted(t, q, n)|) == Advanced(t, q, n)
  {
    EmittedCount(t, q, n);
    var m := |Emitted(t, q, n)|;
    EmittedCompose(t, q, m, n - m);
    EmittedCount(t, q, m);
    if m < n {
      assert !Advanced(t, q, m).Pending();
    }
  }

  lemma RollBackShadow(w: World)
    requires Inv(w) && CanSend(w.snd, RollBack) && Emptying(w.snd, RollBack)
    ensures ShadowInv(Step(w, Send(RollBack))) && Line(Step(w, Send(RollBack))) == Line(w)
  {
    hide Emitted, NetInv, DataInv, CloseInv, ReaderInv;
    var s, s' := w.snd, RolledBack(w.snd);
    var o := s.out.value;
    var w' := Step(w, Send(RollBack));
    assert s'.tx.txBuf == o.snap.txBuf + s.tx.txBuf && !s.tx.synNeeded;
    SentOnceStill(BeforeOut(s), s'.tx, w.chunk, w'.shadow);
    assert s.log == s.log[..o.start] + s.log[o.start..];
    Assoc(s.log[..o.start], s.log[o.start..], w.shadow);
  }

  /** No step takes back a frame that the network may still deliver. */
  lemma SendKeepsLine(w: World, se: SendEvent)
    requires Inv(w) && Can(w, Send(se)) && Benign(w, Send(se))
    ensures var w' := Step(w, Send(se));
            && SenderInv(w'.snd) && ShadowInv(w') && w.snd.accepted <= w'.snd.accepted
            && w.abandoned <= w'.abandoned
            && (Line(w) <= Line(w') || (Untouched(w) && w.snd.log <= Line(w') && FrameSet(w.shadow) <= w'.abandoned))
  {
    hide ShadowInv, SenderInv, NetInv, DataInv, CloseInv, ReaderInv, Resumable, DrainFrames;
    SendStepOk(w.snd, se);
    match se
    case Writer(op) => WriterShadow(w, op);
    case Drain(p, k) =>
      if |DrainFrames(w.snd.tx, p, k)| > 0 {
        if Resumable(w, Chunk(w.snd.tx, p)) && |DrainFrames(w.snd.tx, p, k)| < |w.shadow| {
          DrainInside(w, p, k);
        } else {
          DrainBeyond(w, p, k);
        }
      } else {
        IdleDrain(w, p, k);
      }
    case Reach => ReachShadow(w);
    case Commit => CommitShadow(w);
    case RollBack => RollBackShadow(w);
  }

  lemma IdleDrain(w: World, p: int, k: int)
    requires |DrainFrames(w.snd.tx, p, k)| == 0
    ensures DrainStep(w, p, k) == w
  {
    DrainContract(w.snd.tx, p, k);
  }

  lemma ReachShadow(w: World)
    requires ShadowInv(w) && CanSend(w.snd, Reach)
    ensures ShadowInv(Step(w, Send(Reach))) && Line(Step(w, Send(Reach))) == Line(w)
  {
    hide Emitted;
    assert OutSeq(Reached(w.snd)) == OutSeq(w.snd) && BeforeOut(Reached(w.snd)) == BeforeOut(w.snd);
  }

  lemma CommitShadow(w: World)
    requires ShadowInv(w) && CanSend(w.snd, Commit)
    ensures ShadowInv(Step(w, Send(Commit))) && Line(Step(w, Send(Commit))) == Line(w)
  {
    hide Emitted;
  }

  lemma SendNet(w: World, se: SendEvent)
    requires Inv(w) && Can(w, Send(se)) && Benign(w, Send(se))
    ensures NetInv(Step(w, Send(se)))
  {
    hide ShadowInv, SenderInv, DataInv, CloseInv, ReaderInv, Resumable, DrainFrames, Benign;
    var w' := Step(w, Send(se));
    SendKeepsLine(w, se);
    forall f | f in w'.net ensures OnLine(w', f) {
      if f in w.net {
        assert OnLine(w, f);
        StaysOnLine(w, w', f);
      } else {
        OutOnLine(w, f);
        StaysOnLine(w, w', f);
      }
    }
    forall f | f in w'.stale && f !in w'.abandoned ensures OnLine(w', f) {
      if f in w.stale {
        assert OnLine(w, f);
      } else {
        OutOnLine(w, f);
      }
      StaysOnLine(w, w', f);
    }
  }

  lemma OutOnLine(w: World, f: Frame)
    requires Inv(w) && f in OutSeq(w.snd)
    ensures OnLine(w, f) && f.seqNo < |w.snd.log|
  {
    hide ShadowInv, NetInv, DataInv, CloseInv, ReaderInv;
    var start := w.snd.out.value.start;
    var i :| 0 <= i < |OutSeq(w.snd)| && OutSeq(w.snd)[i] == f;
    assert w.snd.log[start + i] == f;
    assert FrameOk(w.snd.log[start + i], start + i, w.snd.tx, w.snd.needsSyn, start + i == |w.snd.log| - 1);
  }

  lemma StaysOnLine(w: World, w': World, f: Frame)
    requires OnLine(w, f)
    requires Line(w) <= Line(w')
             || (w.snd.log <= Line(w') && FrameSet(w.shadow) <= w'.abandoned && (f.seqNo < |w.snd.log| || f !in w'.abandoned))
    ensures OnLine(w', f)
  {
    assert f.seqNo >= |w.snd.log| ==> f == w.shadow[f.seqNo - |w.snd.log|] && f in FrameSet(w.shadow);
  }

  lemma SendInv(w: World, se: SendEvent)
    requires Inv(w) && Can(w, Send(se)) && Benign(w, Send(se))
    ensures Inv(Step(w, Send(se)))
  {
    hide ShadowInv, SenderInv, NetInv, DataInv, CloseInv, Resumable, DrainFrames, Benign;
    SendKeepsLine(w, se);
    SendNet(w, se);
  }

  // ---- The receiver's steps ----------------------------------------------------------------

  /** The loop takes frames only from the network, and changes nothing else the sender's side
      depends on. */
  lemma RxNet(w: World, re: RxEvent)
    requires NetInv(w) && Can(w, Rx(re))
    ensures NetInv(Step(w, Rx(re)))
  {
    hide Accept, OnLine;
    SameLine(w, Step(w, Rx(re)));
    if re == Take {
      assert RxStep(w.rcv, re).inbox == w.rcv.inbox[1..];
    }
  }

  lemma SameLine(w: World, w': World)
    requires w'.snd == w.snd && w'.shadow == w.shadow
    ensures forall f :: OnLine(w', f) <==> OnLine(w, f)
  {
  }

  /** Only a send that succeeds hands anything over, and it hands over one payload. */
  lemma RxHands(r: Receiver, re: RxEvent)
    requires CanRx(r, re) && !re.Receive?
    ensures var r', sent := RxStep(r, re), if re == SendOne && !r.chanClosed then [r.loop.rest[0]] else [];
            r'.handed == r.handed + sent && r'.items == r.items + sent
  {
    hide Accept;
    assert r.handed + [] == r.handed && r.items + [] == r.items;
  }

  /** Two frames of one number from the network are the same frame. */
  lemma TakenAgrees(w: World)
    requires NetInv(w) && DataInv(w.rcv) && |w.rcv.inbox| > 0
    ensures Agrees(w.rcv.seen, w.rcv.inbox[0])
  {
    hide Covers, CaughtUp, InOrder;
    var f := w.rcv.inbox[0];
    if f.seqNo in w.rcv.seen {
      assert OnLine(w, f) && OnLine(w, w.rcv.seen[f.seqNo]);
    }
  }

  lemma RxInv(w: World, re: RxEvent)
    requires Inv(w) && Can(w, Rx(re))
    ensures Inv(Step(w, Rx(re)))
  {
    hide ShadowOk, SenderInv, DataInv, CloseInv;
    var r, r' := w.rcv, RxStep(w.rcv, re);
    RxNet(w, re);
    RxHands(r, re);
    if re == Take {
      TakenAgrees(w);
    }
    DataStep(r, re);
    CloseStep(r, re);
    if re == SendOne && !r.chanClosed {
      var c := r.loop.rest[0];
      FlattenAppend(r.items, [c]);
      FlattenAppend(r.handed, [c]);
      assert Flatten([c]) == c;
      Assoc(w.readBuf, Flatten(r.items), c);
      Assoc(w.got, w.readBuf + Flatten(r.items), c);
    }
  }

  /** Taking payloads out of the channel changes nothing else the invariant looks at. */
  lemma ItemsTaken(w: World, w': World, items: seq<Bytes>)
    requires NetInv(w) && CloseInv(w.rcv) && DataInv(w.rcv)
    requires w'.snd == w.snd && w'.shadow == w.shadow && w'.net == w.net && w'.stale == w.stale && w'.abandoned == w.abandoned
    requires w'.rcv == w.rcv.(items := items)
    ensures NetInv(w') && CloseInv(w'.rcv) && DataInv(w'.rcv)
  {
    hide OnLine, Keyed, Covers, CaughtUp, InOrder;
    SameLine(w, w');
  }

  lemma ReadInv(w: World, cap: nat)
    requires Inv(w) && Can(w, Read(cap))
    ensures Inv(Step(w, Read(cap)))
  {
    hide ShadowOk, SenderInv, NetInv, CloseInv, DataInv, Flatten, Peel;
    PeelConserves(w.readBuf, w.rcv.items, cap);
    var p := Peel(w.readBuf, w.rcv.items, cap).value;
    ItemsTaken(w, Step(w, Read(cap)), p.items);
    Assoc(w.got, p.data, p.readBuf + Flatten(p.items));
  }

  lemma ArriveInv(w: World, f: Frame)
    requires Inv(w) && Can(w, Arrive(f))
    ensures Inv(Step(w, Arrive(f)))
  {
    hide ShadowOk, SenderInv, CaughtUp, InOrder, OnLine, Keyed, Covers;
    SameLine(w, Step(w, Arrive(f)));
  }

  lemma StepInv(w: World, e: Event)
    requires Inv(w) && Can(w, e) && Benign(w, e)
    ensures Inv(Step(w, e))
  {
    hide ShadowOk, SenderInv, DataInv, CloseInv;
    match e
    case Send(se) => SendInv(w, se);
    case StaleReach(f) =>
    case Arrive(f) => ArriveInv(w, f);
    case Rx(re) => RxInv(w, re);
    case Read(cap) => ReadInv(w, cap);
  }

  // ---- Runs ------------------------------------------------------------------------------

  ghost predicate Run(w: World, es: seq<Event>)
    decreases |es|
  {
    |es| > 0 ==> Can(w, es[0]) && Run(Step(w, es[0]), es[1..])
  }

  ghost predicate BenignRun(w: World, es: seq<Event>)
    decreases |es|
  {
    |es| > 0 ==> Can(w, es[0]) && Benign(w, es[0]) && BenignRun(Step(w, es[0]), es[1..])
  }

  ghost function End(w: World, es: seq<Event>): World
    requires Run(w, es)
    decreases |es|
  {
    if |es| == 0 then w else End(Step(w, es[0]), es[1..])
  }

  lemma {:induction false} BenignIsRun(w: World, es: seq<Event>)
    requires BenignRun(w, es)
    ensures Run(w, es)
    decreases |es|
  {
    if |es| > 0 {
      BenignIsRun(Step(w, es[0]), es[1..]);
    }
  }

  lemma {:induction false} RunInv(w: World, es: seq<Event>)
    requires Inv(w) && BenignRun(w, es) && Run(w, es)
    ensures Inv(End(w, es))
    decreases |es|
  {
    if |es| > 0 {
      StepInv(w, es[0]);
      RunInv(Step(w, es[0]), es[1..]);
    }
  }

  lemma NewWorldInv(id: SessionId, target: Bytes, needsSyn: bool)
    ensures Inv(NewWorld(id, target, needsSyn))
  {
    NewSenderOk(id, target, needsSyn);
    NothingSent(NewSender(id, target, needsSyn).tx, 0);
  }

  // ---- What the reader gets ------------------------------------------------------------------

  lemma {:induction false} InOrderIsPayloads(seen: map<nat, Frame>, log: seq<Frame>, n: nat)
    requires Covers(seen, n) && n <= |log|
    requires forall i :: 0 <= i < n ==> seen[i] == log[i]
    ensures Flatten(InOrder(seen, n)) == Payloads(log[..n])
  {
    hide Payloads, Flatten, ChunkOf;
    if n == 0 {
      NoPayload();
      assert Flatten<Byte>([]) == [] by { NothingFlat(); }
    } else {
      InOrderIsPayloads(seen, log, n - 1);
      assert log[..n] == log[..n - 1] + [log[n - 1]];
      PayloadsAppend(log[..n - 1], [log[n - 1]]);
      PayloadsSingle(log[n - 1]);
      FlattenAppend(InOrder(seen, n - 1), ChunkOf(seen[n - 1]));
      ChunkBytes(seen[n - 1]);
    }
  }

  lemma NothingFlat()
    ensures Flatten<Byte>([]) == []
  {
  }

  /** The line's payloads are the start of the accepted bytes. */
  lemma LineIsAccepted(w: World)
    requires SenderInv(w.snd) && ShadowInv(w)
    ensures |Payloads(w.shadow)| <= |w.snd.tx.txBuf|
    ensures Payloads(Line(w)) + w.snd.tx.txBuf[|Payloads(w.shadow)|..] == w.snd.accepted
  {
    hide Emitted, LogOk;
    var tx, m := w.snd.tx, |Payloads(w.shadow)|;
    var c := Cut(tx, m, HasFin(w.shadow));
    EmittedConserves(c, w.chunk, |w.shadow|);
    assert Payloads(w.shadow) == tx.txBuf[..m] by {
      assert |Advanced(c, w.chunk, |w.shadow|).txBuf| == 0;
      assert Payloads(w.shadow) + [] == Payloads(w.shadow);
    }
    PayloadsAppend(w.snd.log, w.shadow);
    assert tx.txBuf[..m] + tx.txBuf[m..] == tx.txBuf;
    Assoc(Payloads(w.snd.log), tx.txBuf[..m], tx.txBuf[m..]);
  }

  /** What has been taken in order is the line's beginning. */
  lemma TakenIsLine(w: World)
    requires NetInv(w) && DataInv(w.rcv)
    ensures w.rcv.rx.rxSeq <= |Line(w)| && Covers(w.rcv.seen, w.rcv.rx.rxSeq)
    ensures forall i :: 0 <= i < w.rcv.rx.rxSeq ==> w.rcv.seen[i] == Line(w)[i]
  {
    hide Line, InOrder, CaughtUp;
    var n, line := w.rcv.rx.rxSeq, Line(w);
    forall i | 0 <= i < n ensures i < |line| && w.rcv.seen[i] == line[i] {
      assert i in w.rcv.seen && OnLine(w, w.rcv.seen[i]);
    }
    if n > 0 {
      assert w.rcv.seen[n - 1] == line[n - 1];
    }
  }

  /** What has been sent to the channel is all, or the beginning, of what was taken in order. */
  lemma HandedIsTaken(r: Receiver)
    requires DataInv(r)
    ensures r.handed <= InOrder(r.seen, r.rx.rxSeq)
  {
    hide InOrder, CaughtUp, Keyed;
  }

  /** Everything sent to the channel is the start of the line's payloads. */
  lemma HandedIsPrefix(w: World)
    requires Inv(w)
    ensures w.rcv.rx.rxSeq <= |Line(w)| && Covers(w.rcv.seen, w.rcv.rx.rxSeq)
    ensures forall i :: 0 <= i < w.rcv.rx.rxSeq ==> w.rcv.seen[i] == Line(w)[i]
    ensures Flatten(w.rcv.handed) <= Payloads(Line(w)[..w.rcv.rx.rxSeq]) <= w.snd.accepted
    ensures w.got <= Flatten(w.rcv.handed)
  {
    hide ShadowInv, SenderInv, CloseInv, DataInv, NetInv, Line, InOrder, Payloads, Flatten, Covers;
    var n, line := w.rcv.rx.rxSeq, Line(w);
    TakenIsLine(w);
    HandedIsTaken(w.rcv);
    InOrderIsPayloads(w.rcv.seen, line, n);
    FlattenPrefix(w.rcv.handed, InOrder(w.rcv.seen, n));
    assert line == line[..n] + line[n..];
    PayloadsAppend(line[..n], line[n..]);
    LineIsAccepted(w);
  }

  /** Stream safety: in every run of writes, closes, drains, commits and rollbacks, losses,
      duplicates, reorderings and late copies of rolled-back batches, goroutine steps, kills
      and reads, what has been read is a prefix of what was accepted for sending. */
  lemma StreamSafety(id: SessionId, target: Bytes, needsSyn: bool, es: seq<Event>)
    requires BenignRun(NewWorld(id, target, needsSyn), es)
    ensures Run(NewWorld(id, target, needsSyn), es)
    ensures var w := End(NewWorld(id, target, needsSyn), es); w.got <= w.snd.accepted
  {
    var w0 := NewWorld(id, target, needsSyn);
    NewWorldInv(id, target, needsSyn);
    BenignIsRun(w0, es);
    RunInv(w0, es);
    HandedIsPrefix(End(w0, es));
  }

  // ---- End of stream -----------------------------------------------------------------------------

  /** Nobody has stopped the receiver from outside. */
  ghost predicate Unharmed(r: Receiver) {
    && !r.killed && !r.aborted
    && (r.done ==> r.loop == Leaving || r.loop == Exited)
    && (r.loop == Leaving ==> r.rx.rxClosed)
    && (r.chanClosed ==> r.loop == Leaving || r.loop == Exited)
  }

  ghost predicate Harmless(e: Event) {
    e != Rx(CallStop) && e != Rx(CallCloseRx)
  }

  lemma UnharmedStep(w: World, e: Event)
    requires CloseInv(w.rcv) && Unharmed(w.rcv) && Can(w, e) && Harmless(e)
    ensures Unharmed(Step(w, e).rcv)
  {
    if e == Rx(Take) {
      TakeClaims(w.rcv.rx, w.rcv.inbox[0]);
    }
  }

  lemma {:induction false} RunUnharmed(w: World, es: seq<Event>)
    requires Inv(w) && Unharmed(w.rcv) && BenignRun(w, es) && Run(w, es)
    requires forall e :: e in es ==> Harmless(e)
    ensures Unharmed(End(w, es).rcv)
    decreases |es|
  {
    if |es| > 0 {
      StepInv(w, es[0]);
      UnharmedStep(w, es[0]);
      RunUnharmed(Step(w, es[0]), es[1..]);
    }
  }

  /** End of stream means complete: when the reader finds the channel closed and empty, and
      nobody stopped the receiver, it has read every byte ever accepted - but for bytes taken
      behind a FIN that was rolled back and has arrived after all. */
  lemma EndOfStreamMeansComplete(id: SessionId, target: Bytes, needsSyn: bool, es: seq<Event>)
    requires BenignRun(NewWorld(id, target, needsSyn), es)
    requires forall e :: e in es ==> Harmless(e)
    ensures Run(NewWorld(id, target, needsSyn), es)
    ensures var w := End(NewWorld(id, target, needsSyn), es);
            w.rcv.chanClosed && w.rcv.items == [] && w.readBuf == [] ==>
              && |Payloads(w.shadow)| <= |w.snd.tx.txBuf|
              && w.got + w.snd.tx.txBuf[|Payloads(w.shadow)|..] == w.snd.accepted
              && (w.shadow == [] || Untouched(w) ==> w.got == w.snd.accepted)
  {
    var w0 := NewWorld(id, target, needsSyn);
    NewWorldInv(id, target, needsSyn);
    BenignIsRun(w0, es);
    RunInv(w0, es);
    RunUnharmed(w0, es);
    var w := End(w0, es);
    if w.rcv.chanClosed && w.rcv.items == [] && w.readBuf == [] {
      ClosedIsComplete(w);
    }
  }

  lemma ClosedIsComplete(w: World)
    requires Inv(w) && Unharmed(w.rcv) && w.rcv.chanClosed && w.rcv.items == [] && w.readBuf == []
    ensures |Payloads(w.shadow)| <= |w.snd.tx.txBuf|
    ensures w.got + w.snd.tx.txBuf[|Payloads(w.shadow)|..] == w.snd.accepted
    ensures w.shadow == [] || Untouched(w) ==> w.got == w.snd.accepted
  {
    hide ShadowInv, SenderInv, NetInv, CloseInv, DataInv, Line, InOrder, Payloads, Flatten, Unharmed, Untouched;
    var n, line := w.rcv.rx.rxSeq, Line(w);
    HandedIsPrefix(w);
    ClosedByFin(w.rcv);
    LineIsAccepted(w);
    FinEndsLine(w, n - 1);
    assert line[..n] == line;
    EverythingRead(w.got, w.readBuf, w.rcv.items);
    InOrderIsPayloads(w.rcv.seen, line, n);
    if Untouched(w) || w.shadow == [] {
      FinOnLog(w, n - 1);
    }
  }

  /** A receiver that nobody stopped has closed its channel behind a FIN, and sent it all. */
  lemma ClosedByFin(r: Receiver)
    requires CloseInv(r) && DataInv(r) && Unharmed(r) && r.chanClosed
    ensures r.rx.rxSeq > 0 && r.rx.rxSeq - 1 in r.seen && r.seen[r.rx.rxSeq - 1].HasFlag(FLAG_FIN)
    ensures r.handed == InOrder(r.seen, r.rx.rxSeq)
  {
    hide InOrder, CaughtUp, Keyed;
    assert r.handed + [] == r.handed;
  }

  lemma EverythingRead(got: Bytes, readBuf: Bytes, items: seq<Bytes>)
    requires readBuf == [] && items == []
    ensures got + (readBuf + Flatten(items)) == got
  {
  }

  /** A FIN on the line is its last frame. */
  lemma FinEndsLine(w: World, i: nat)
    requires SenderInv(w.snd) && ShadowInv(w) && i < |Line(w)| && Line(w)[i].HasFlag(FLAG_FIN)
    ensures i == |Line(w)| - 1
  {
    hide Emitted, Advanced;
    var c := Cut(w.snd.tx, |Payloads(w.shadow)|, HasFin(w.shadow));
    if i < |w.snd.log| {
      FinIsLast(w.snd, i);
      NoneAfterFin(c, w.chunk, |w.shadow|);
    } else {
      OnlyLastIsFin(c, w.chunk, |w.shadow|, i - |w.snd.log|);
    }
  }

  lemma NoneAfterFin(t: TxState, p: int, n: nat)
    requires Cuts(t, p) && t.finSent && !t.synNeeded && t.txBuf == []
    ensures Emitted(t, p, n) == []
  {
  }

  lemma {:induction false} OnlyLastIsFin(t: TxState, p: int, n: nat, i: nat)
    requires Cuts(t, p) && i < |Emitted(t, p, n)| && Emitted(t, p, n)[i].HasFlag(FLAG_FIN)
    ensures i == |Emitted(t, p, n)| - 1
    decreases n
  {
    hide NextFrame, AfterNext;
    if i > 0 {
      assert Emitted(t, p, n)[i] == Emitted(AfterNext(t, p), p, n - 1)[i - 1];
      OnlyLastIsFin(AfterNext(t, p), p, n - 1, i - 1);
    } else {
      NothingPastFin(t, p, n - 1);
    }
  }

  lemma NothingPastFin(t: TxState, p: int, n: nat)
    requires Cuts(t, p) && t.Pending() && NextFrame(t, p).HasFlag(FLAG_FIN)
    ensures Emitted(AfterNext(t, p), p, n) == []
  {
  }

  /** A FIN that was not rolled back means that everything has been sent for good. */
  lemma FinOnLog(w: World, i: nat)
    requires Inv(w) && i < |Line(w)| && Line(w)[i].HasFlag(FLAG_FIN) && i in w.rcv.seen && w.rcv.seen[i] == Line(w)[i]
    requires w.shadow == [] || Untouched(w)
    ensures w.snd.tx.txBuf == [] && w.shadow == [] && Payloads(w.shadow) == []
  {
    hide Emitted;
    assert w.rcv.seen[i] in w.net;
    assert OnLine(w, w.rcv.seen[i]);
    assert Keyed(w.rcv.seen);
    assert w.rcv.seen[i].seqNo == i && i < |w.snd.log|;
    FinIsLast(w.snd, i);
    NoneAfterFin(Cut(w.snd.tx, |Payloads(w.shadow)|, HasFin(w.shadow)), w.chunk, |w.shadow|);
    assert Payloads([]) == [];
  }

  lemma FinIsLast(s: Sender, i: nat)
    requires SenderInv(s) && i < |s.log| && s.log[i].HasFlag(FLAG_FIN)
    ensures i == |s.log| - 1 && s.tx.finSent && Payloads(s.log) == s.accepted
  {
    assert FrameOk(s.log[i], i, s.tx, s.needsSyn, i == |s.log| - 1);
    assert Payloads(s.log) + [] == Payloads(s.log);
  }

  // ---- A batch kept for nothing --------------------------------------------------------------------

  /** The session has let go of frame `n`, and no copy of it is about. */
  ghost predicate Lost(w: World, n: nat) {
    && n < |w.snd.log| && (w.snd.out.Some? ==> n < w.snd.out.value.start)
    && (forall f :: f in w.net || f in w.stale ==> f.seqNo != n)
  }

  lemma SenderLosesForGood(w: World, se: SendEvent, n: nat)
    requires SenderInv(w.snd) && Can(w, Send(se)) && Lost(w, n)
    ensures Lost(Step(w, Send(se)), n) && Step(w, Send(se)).snd.log[..n] == w.snd.log[..n]
  {
    hide StreamOk, Resumable, Apply, DrainFrames, DrainState;
    match se
    case Reach => OutBeyond(w.snd, n);
    case RollBack => OutBeyond(w.snd, n);
    case Drain(p, k) => assert w.snd.log <= DrainStep(w, p, k).snd.log;
    case _ =>
  }

  lemma OutBeyond(s: Sender, n: nat)
    requires SenderInv(s) && s.out.Some? && n < s.out.value.start
    ensures forall f :: f in OutSeq(s) ==> f.seqNo != n
  {
    forall f | f in OutSeq(s) ensures f.seqNo != n {
      var i :| 0 <= i < |OutSeq(s)| && OutSeq(s)[i] == f;
      var m := s.out.value.start + i;
      assert FrameOk(s.log[m], m, s.tx, s.needsSyn, m == |s.log| - 1);
    }
  }

  lemma LostStep(w: World, e: Event, n: nat)
    requires Inv(w) && Can(w, e) && Lost(w, n)
    ensures Lost(Step(w, e), n) && Step(w, e).snd.log[..n] == w.snd.log[..n]
  {
    hide ShadowInv, SenderInv, NetInv, DataInv, CloseInv, ReaderInv, Accept;
    match e
    case Send(se) => SenderLosesForGood(w, se, n);
    case _ =>
  }

  lemma {:induction false} LostRun(w: World, es: seq<Event>, n: nat)
    requires Inv(w) && Lost(w, n) && BenignRun(w, es) && Run(w, es)
    ensures Inv(End(w, es)) && Lost(End(w, es), n) && End(w, es).snd.log[..n] == w.snd.log[..n]
    decreases |es|
  {
    hide Inv, Lost, Step, Can, Benign;
    if |es| > 0 {
      StepInv(w, es[0]);
      LostStep(w, es[0], n);
      LostRun(Step(w, es[0]), es[1..], n);
    } else {
      assert Lost(w, n);
    }
  }

  /** The reader never gets past a frame that is lost. */
  lemma NothingPastLost(w: World, n: nat)
    requires Inv(w) && Lost(w, n)
    ensures w.rcv.rx.rxSeq <= n && w.got <= Payloads(w.snd.log[..n])
  {
    hide ShadowInv, SenderInv, CloseInv, InOrder, CaughtUp, OnLine, Payloads, Flatten;
    var m := w.rcv.rx.rxSeq;
    assert forall k :: k in w.rcv.seen ==> w.rcv.seen[k] in w.net && w.rcv.seen[k].seqNo == k;
    assert n !in w.rcv.seen;
    HandedIsPrefix(w);
    assert Line(w)[..m] == w.snd.log[..n][..m];
    assert w.snd.log[..n] == w.snd.log[..n][..m] + w.snd.log[..n][m..];
    PayloadsAppend(w.snd.log[..n][..m], w.snd.log[..n][m..]);
  }

  /** A batch that is kept though none of it has reached the peer, nor any earlier copy of it
      is about, ends the stream there: whatever follows, no byte of it or behind it is ever
      read. */
  lemma KeptForNothing(w: World, es: seq<Event>)
    requires Inv(w) && CanSend(w.snd, Commit)
    requires forall f :: f in w.net || f in w.stale ==> f.seqNo != w.snd.out.value.start
    requires BenignRun(Step(w, Send(Commit)), es)
    ensures Run(Step(w, Send(Commit)), es)
    ensures var n := w.snd.out.value.start;
            n < |w.snd.log| && End(Step(w, Send(Commit)), es).got <= Payloads(w.snd.log[..n])
  {
    var n, w1 := w.snd.out.value.start, Step(w, Send(Commit));
    StepInv(w, Send(Commit));
    assert Lost(w1, n);
    BenignIsRun(w1, es);
    LostRun(w1, es, n);
    NothingPastLost(End(w1, es), n);
  }

  lemma OneFrameDrain(t: TxState, p: int)
    requires !t.synNeeded && !t.closeReq && 0 < |t.txBuf| <= p
    ensures DrainFrames(t, p, 0) == [Frame(t.id, t.txSeq, 0, [], t.txBuf)]
    ensures DrainState(t, p, 0) == t.(txBuf := [], txSeq := t.txSeq + 1)
  {
    var u := AfterNext(t, p);
    assert u == t.(txBuf := [], txSeq := t.txSeq + 1) && !u.Pending();
    assert NextFrame(t, p) == Frame(t.id, t.txSeq, 0, [], t.txBuf);
    assert Emitted(u, p, t.Weight() - 1) == [];
    assert Advanced(u, p, t.Weight() - 1) == u;
  }

  /** The condition on late copies is needed. One byte is drained, the send is given up and rolled
      back, a second byte is written and sent with it, then a third; if the first copy
      reaches the peer after all, the peer drops the frame that carried the second byte. */
  lemma LateCopyLosesBytes(id: SessionId)
    ensures var t0 := TxState(id, [], false, [1], 0, false, false);
            var t1 := FailedSend(t0, 10, 0, [Write([2])]);
            var t2 := Apply(DrainState(t1, 10, 0), Write([3]));
            Flatten(Reassemble(DrainFrames(t0, 10, 0) + DrainFrames(t1, 10, 0) + DrainFrames(t2, 10, 0)).1)
            == [1, 3]
  {
    LateCopySent(id);
    LateCopyReceived(Frame(id, 0, 0, [], [1]), Frame(id, 0, 0, [], [1, 2]), Frame(id, 1, 0, [], [3]));
  }

  lemma LateCopySent(id: SessionId)
    ensures var t0 := TxState(id, [], false, [1], 0, false, false);
            var t1 := FailedSend(t0, 10, 0, [Write([2])]);
            var t2 := Apply(DrainState(t1, 10, 0), Write([3]));
            && DrainFrames(t0, 10, 0) == [Frame(id, 0, 0, [], [1])]
            && DrainFrames(t1, 10, 0) == [Frame(id, 0, 0, [], [1, 2])]
            && DrainFrames(t2, 10, 0) == [Frame(id, 1, 0, [], [3])]
  {
    var t0 := TxState(id, [], false, [1], 0, false, false);
    var t1 := FailedSend(t0, 10, 0, [Write([2])]);
    RollbackResult(t0, 10, 0, [Write([2])]);
    OneFrameDrain(t0, 10);
    assert t1 == TxState(id, [], false, [1, 2], 0, false, false);
    OneFrameDrain(t1, 10);
    var t2 := Apply(DrainState(t1, 10, 0), Write([3]));
    assert t2.txBuf == [3] && t2.txSeq == 1;
    OneFrameDrain(t2, 10);
  }

  lemma LateCopyReceived(f: Frame, g: Frame, h: Frame)
    requires f == Frame(f.sessionId, 0, 0, [], [1]) && g == Frame(g.sessionId, 0, 0, [], [1, 2])
    requires h == Frame(h.sessionId, 1, 0, [], [3])
    ensures Flatten(Reassemble([f] + [g] + [h]).1) == [1, 3]
  {
    hide Reassemble, Flatten, Accept;
    assert [f] + [g] + [h] == [] + [f] + [g] + [h];
    NothingArrived();
    OneMore([], f);
    OneMore([] + [f], g);
    OneMore([] + [f] + [g], h);
    NextInLine(0, f);
    assert Accept(Waiting(1, false), g) == (Waiting(1, false), Old) by { OldNews(1, g); }
    NextInLine(1, h);
    OneThree();
  }

  lemma NothingArrived()
    ensures Reassemble([]) == (RX_START, []) && RX_START == Waiting(0, false)
  {
  }

  lemma NextInLine(n: nat, f: Frame)
    requires f.seqNo == n && f.flags == 0 && |f.payload| > 0
    ensures Accept(Waiting(n, false), f) == (Waiting(n + 1, false), Ready([f.payload], false))
  {
    assert !f.HasFlag(FLAG_FIN);
  }

  lemma OldNews(n: nat, f: Frame)
    requires f.seqNo < n
    ensures Accept(Waiting(n, false), f) == (Waiting(n, false), Old)
  {
  }

  lemma OneThree()
    ensures [] + [[1]] + [] + [[3]] == [[1], [3]] && Flatten<Byte>([[1], [3]]) == [1, 3]
  {
    assert [[1], [3]][1..] == [[3]];
  }
}

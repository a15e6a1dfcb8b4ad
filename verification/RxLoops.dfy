/** The per-session receive goroutine, its inbox and its outgoing channel, step by step:
    `rxLoop` interleaved with `ProcessRx`, `Stop`, `CloseRx` and the channel's reader. */
module RxLoops {
  import opened Prelude
  import opened Frames
  import opened RxSpec

  const RX_INBOX_CAP: nat := 1024
  const RX_CHAN_CAP: nat := 1024

  /** Where `rxLoop` is: selecting, sending the payloads of one delivery outside the lock,
      about to run its deferred close, or gone. */
  datatype Loop = Selecting | Sending(rest: seq<Bytes>, closeAfter: bool) | Leaving | Exited

  /** The last six fields are history: frames taken, payloads ever sent, how often the
      channel was closed, whether a send hit the closed channel, whether a delivery was cut
      short by `Stop`, and whether the channel was closed other than by a FIN. */
  datatype Receiver = Receiver(
    rx: RxState,
    inbox: seq<Frame>,
    loop: Loop,
    done: bool,
    items: seq<Bytes>,
    chanClosed: bool,
    seen: map<nat, Frame>,
    handed: seq<Bytes>,
    closes: nat,
    panicked: bool,
    aborted: bool,
    killed: bool)

  const NEW_RECEIVER :=
    Receiver(RX_START, [], Selecting, false, [], false, map[], [], 0, false, false, false)

  datatype RxEvent =
    | Push(f: Frame)   // ProcessRx queues a frame
    | Take             // rxLoop takes a frame and runs the locked part of deliverRx
    | SendOne          // it sends the next payload
    | Abort            // it notices Stop while sending
    | Finish           // all payloads are sent
    | Quit             // it notices Stop while selecting
    | Leave            // the deferred close
    | CallStop
    | CallCloseRx
    | Receive          // the reader takes a payload

  predicate CanRx(r: Receiver, e: RxEvent) {
    && !r.panicked
    && match e
       case Push(_) => |r.inbox| < RX_INBOX_CAP
       case Take => r.loop == Selecting && |r.inbox| > 0
       case SendOne => r.loop.Sending? && |r.loop.rest| > 0 && (r.chanClosed || |r.items| < RX_CHAN_CAP)
       case Abort => r.loop.Sending? && |r.loop.rest| > 0 && r.done
       case Finish => r.loop.Sending? && |r.loop.rest| == 0
       case Quit => r.loop == Selecting && r.done
       case Leave => r.loop == Leaving
       case CallStop => true
       case CallCloseRx => true
       case Receive => |r.items| > 0
  }

  function CloseChan(r: Receiver): Receiver {
    r.(chanClosed := true, closes := r.closes + 1)
  }

  function RxStep(r: Receiver, e: RxEvent): Receiver
    requires CanRx(r, e)
  {
    match e
    case Push(f) => r.(inbox := r.inbox + [f])
    case Take =>
      var f := r.inbox[0];
      var (rx, o) := Accept(r.rx, f);
      r.(rx := rx,
         inbox := r.inbox[1..],
         seen := if r.rx.rxClosed then r.seen else r.seen[f.seqNo := f],
         loop := match o
                 case Shut => Leaving
                 case Ready(chunks, closeAfter) => Sending(chunks, closeAfter)
                 case _ => Selecting)
    case SendOne =>
      if r.chanClosed then r.(panicked := true)
      else r.(items := r.items + [r.loop.rest[0]],
              handed := r.handed + [r.loop.rest[0]],
              loop := r.loop.(rest := r.loop.rest[1..]))
    case Abort =>
      (if r.loop.closeAfter then CloseChan(r) else r).(loop := Leaving, aborted := true)
    case Finish =>
      if r.loop.closeAfter then CloseChan(r).(loop := Leaving, done := true)
      else r.(loop := Selecting)
    case Quit => r.(loop := Leaving)
    case Leave =>
      (if r.rx.rxClosed then r else CloseChan(r).(rx := r.rx.(rxClosed := true), killed := true)).(loop := Exited)
    case CallStop => r.(done := true)
    case CallCloseRx =>
      if r.rx.rxClosed then r else CloseChan(r).(rx := r.rx.(rxClosed := true), killed := true)
    case Receive => r.(items := r.items[1..])
  }

  ghost predicate RxRun(r: Receiver, es: seq<RxEvent>)
    decreases |es|
  {
    |es| > 0 ==> CanRx(r, es[0]) && RxRun(RxStep(r, es[0]), es[1..])
  }

  ghost function RxEnd(r: Receiver, es: seq<RxEvent>): Receiver
    requires RxRun(r, es)
    decreases |es|
  {
    if |es| == 0 then r else RxEnd(RxStep(r, es[0]), es[1..])
  }

  // ---- Closing the channel ---------------------------------------------------------

  /** `rxClosed` claims the channel: whoever sets it closes the channel, once. */
  ghost predicate CloseInv(r: Receiver) {
    && r.closes == (if r.chanClosed then 1 else 0)
    && (r.chanClosed ==> r.rx.rxClosed)
    && (r.loop.Sending? && r.loop.closeAfter <==> r.rx.rxClosed && !r.chanClosed)
    && (r.loop == Exited ==> r.chanClosed)
  }

  lemma CloseStep(r: Receiver, e: RxEvent)
    requires CloseInv(r) && CanRx(r, e)
    ensures CloseInv(RxStep(r, e))
  {
    if e == Take {
      TakeClaims(r.rx, r.inbox[0]);
    }
  }

  lemma TakeClaims(rx: RxState, f: Frame)
    ensures var (rx', o) := Accept(rx, f);
            && (o.Shut? <==> rx.rxClosed)
            && (o.Ready? && o.closeAfter <==> rx'.rxClosed && !rx.rxClosed)
            && (rx.rxClosed ==> rx' == rx)
  {
    if !rx.rxClosed && f.seqNo == rx.rxSeq {
      AdvanceClaims(rx, f);
    }
  }

  lemma {:induction false} AdvanceClaims(rx: RxState, f: Frame)
    requires !rx.rxClosed
    ensures Advance(rx, f).1.closeAfter <==> Advance(rx, f).0.rxClosed
    decreases |rx.rxQueue|
  {
    var next := rx.rxSeq + 1;
    if !f.HasFlag(FLAG_FIN) && next in rx.rxQueue {
      DropsOne(rx.rxQueue, next);
      AdvanceClaims(RxState(next, rx.rxQueue - {next}, false), rx.rxQueue[next]);
    }
  }

  /** In every run, `CloseRx` included, the channel is closed at most once, and by the time
      `rxLoop` has exited it is closed. */
  lemma {:induction false} ClosedOnceByExit(r: Receiver, es: seq<RxEvent>)
    requires CloseInv(r) && RxRun(r, es)
    ensures CloseInv(RxEnd(r, es))
    decreases |es|
  {
    if |es| > 0 {
      CloseStep(r, es[0]);
      ClosedOnceByExit(RxStep(r, es[0]), es[1..]);
    }
  }

  /** While nobody calls `CloseRx`, the channel is only closed once the loop is leaving. */
  ghost predicate OwnCloseInv(r: Receiver) {
    CloseInv(r) && !r.panicked && (r.chanClosed ==> r.loop == Leaving || r.loop == Exited)
  }

  lemma {:induction false} NoSendAfterOwnClose(r: Receiver, es: seq<RxEvent>)
    requires OwnCloseInv(r) && RxRun(r, es) && CallCloseRx !in es
    ensures OwnCloseInv(RxEnd(r, es))
    decreases |es|
  {
    if |es| > 0 {
      CloseStep(r, es[0]);
      NoSendAfterOwnClose(RxStep(r, es[0]), es[1..]);
    }
  }

  /** `CloseRx` may be followed by a send on the closed channel exactly when it is called
      while a delivery still has payloads to send and no FIN among them. */
  ghost predicate Exposed(r: Receiver) {
    r.loop.Sending? && |r.loop.rest| > 0 && !r.loop.closeAfter
  }

  ghost predicate Settled(r: Receiver) {
    CloseInv(r) && r.rx.rxClosed && !r.panicked && !(r.chanClosed && Exposed(r))
  }

  lemma {:induction false} SettledNeverPanics(r: Receiver, es: seq<RxEvent>)
    requires Settled(r) && RxRun(r, es)
    ensures !RxEnd(r, es).panicked
    decreases |es|
  {
    if |es| > 0 {
      CloseStep(r, es[0]);
      SettledNeverPanics(RxStep(r, es[0]), es[1..]);
    }
  }

  ghost predicate Panics(r: Receiver, es: seq<RxEvent>) {
    RxRun(r, es) && RxEnd(r, es).panicked
  }

  /** The first `CloseRx` of a run is safe if and only if no delivery is in progress. */
  lemma CloseRxSafeIffNotSending(es: seq<RxEvent>)
    requires RxRun(NEW_RECEIVER, es) && CallCloseRx !in es
    ensures var r := RxEnd(NEW_RECEIVER, es);
            CanRx(r, CallCloseRx) &&
            ((exists later :: Panics(RxStep(r, CallCloseRx), later)) <==> Exposed(r))
  {
    NoSendAfterOwnClose(NEW_RECEIVER, es);
    var r := RxEnd(NEW_RECEIVER, es);
    var c := RxStep(r, CallCloseRx);
    CloseStep(r, CallCloseRx);
    if Exposed(r) {
      assert RxRun(RxStep(c, SendOne), []);
      assert Panics(c, [SendOne]) by {
        assert [SendOne][1..] == [];
      }
    } else {
      forall later | RxRun(c, later) ensures !Panics(c, later) {
        SettledNeverPanics(c, later);
      }
    }
  }

  /** Such states are reached, and such sends follow: a frame arrives, its delivery starts,
      `CloseRx` closes the channel, and the payload is sent all the same. */
  lemma CloseRxCanPanic(id: SessionId)
    ensures var f := Frame(id, 0, 0, [], [1]);
            && RxRun(NEW_RECEIVER, [Push(f), Take]) && Exposed(RxEnd(NEW_RECEIVER, [Push(f), Take]))
            && Panics(NEW_RECEIVER, [Push(f), Take, CallCloseRx, SendOne])
  {
    hide RxStep, CanRx, RxRun, RxEnd, Exposed;
    var f := Frame(id, 0, 0, [], [1]);
    DeliveryStarts(f);
    var r1 := RxStep(NEW_RECEIVER, Push(f));
    var r2 := RxStep(r1, Take);
    InARow(Push(f), Take, CallCloseRx, SendOne);
    NoSteps(r2);
    RunOne(r1, Take, []);
    RunOne(NEW_RECEIVER, Push(f), [Take]);
    PanicFrom(r2);
    RunOne(r1, Take, [CallCloseRx, SendOne]);
    RunOne(NEW_RECEIVER, Push(f), [Take, CallCloseRx, SendOne]);
  }

  /** A first frame with a payload and no FIN is taken at once. */
  lemma DeliveryStarts(f: Frame)
    requires f.seqNo == 0 && f.flags == 0 && |f.payload| > 0
    ensures var r1 := RxStep(NEW_RECEIVER, Push(f));
            && CanRx(NEW_RECEIVER, Push(f)) && CanRx(r1, Take)
            && Exposed(RxStep(r1, Take)) && !RxStep(r1, Take).rx.rxClosed && !RxStep(r1, Take).panicked
  {
    assert !f.HasFlag(FLAG_FIN);
    assert Accept(RX_START, f) == (RxState(1, map[], false), Ready([f.payload], false));
  }

  lemma PanicFrom(r: Receiver)
    requires Exposed(r) && !r.rx.rxClosed && !r.panicked
    ensures RxRun(r, [CallCloseRx, SendOne]) && RxEnd(r, [CallCloseRx, SendOne]).panicked
  {
    var c := RxStep(r, CallCloseRx);
    RunOne(c, SendOne, []);
    RunOne(r, CallCloseRx, [SendOne]);
    assert [SendOne] + [] == [SendOne];
    assert [CallCloseRx] + [SendOne] == [CallCloseRx, SendOne];
  }

  lemma NoSteps(r: Receiver)
    ensures RxRun(r, []) && RxEnd(r, []) == r
  {
  }

  lemma InARow(a: RxEvent, b: RxEvent, c: RxEvent, d: RxEvent)
    ensures [b] + [] == [b] && [a] + [b] == [a, b] && [b] + [c, d] == [b, c, d] && [a] + [b, c, d] == [a, b, c, d]
  {
  }

  lemma RunOne(r: Receiver, e: RxEvent, es: seq<RxEvent>)
    requires CanRx(r, e) && RxRun(RxStep(r, e), es)
    ensures RxRun(r, [e] + es) && RxEnd(r, [e] + es) == RxEnd(RxStep(r, e), es)
  {
    assert ([e] + es)[1..] == es;
  }

  // ---- What is delivered -------------------------------------------------------------

  /** The payloads sent, followed by those about to be, are the in-order payloads of the
      frames seen; a delivery cut short only loses its end. */
  ghost predicate DataInv(r: Receiver) {
    && Keyed(r.seen) && Covers(r.seen, r.rx.rxSeq)
    && (!r.rx.rxClosed ==> CaughtUp(r.rx, r.seen) && !r.killed)
    && (r.rx.rxClosed && !r.killed ==> r.rx.rxSeq > 0 && r.seen[r.rx.rxSeq - 1].HasFlag(FLAG_FIN))
    && (if r.aborted then r.handed <= InOrder(r.seen, r.rx.rxSeq) && (r.loop == Leaving || r.loop == Exited)
        else r.handed + (if r.loop.Sending? then r.loop.rest else []) == InOrder(r.seen, r.rx.rxSeq))
  }

  lemma TakeData(r: Receiver)
    requires DataInv(r) && CloseInv(r) && CanRx(r, Take) && Agrees(r.seen, r.inbox[0])
    ensures DataInv(RxStep(r, Take))
  {
    hide Advance, InOrder;
    TakeClaims(r.rx, r.inbox[0]);
    if !r.rx.rxClosed {
      AcceptCatchesUp(r.rx, r.inbox[0], r.seen);
      assert r.handed + [] == r.handed;
    }
  }

  lemma DataStep(r: Receiver, e: RxEvent)
    requires DataInv(r) && CloseInv(r) && CanRx(r, e)
    requires e == Take ==> Agrees(r.seen, r.inbox[0])
    ensures DataInv(RxStep(r, e))
  {
    hide Accept, Keyed, Covers, InOrder, CaughtUp, Agrees;
    if e == Take {
      TakeData(r);
    } else if e == SendOne && !r.chanClosed {
      assert r.loop.rest == [r.loop.rest[0]] + r.loop.rest[1..];
      Assoc(r.handed, [r.loop.rest[0]], r.loop.rest[1..]);
    } else if e == Finish {
      assert r.handed + r.loop.rest == r.handed;
    }
  }
}

/** The receiving half of a session as values: in-order reassembly from frames that
    arrive in any order, any number of times. */
module RxSpec {
  import opened Prelude
  import opened Frames

  datatype RxState = RxState(rxSeq: nat, rxQueue: map<nat, Frame>, rxClosed: bool)

  const RX_START := RxState(0, map[], false)

  /** What one arriving frame leads to: nothing (old), parking, nothing because the
      channel is closed, or a run of payloads to hand over, ending with a close on FIN. */
  datatype Outcome = Old | Parked | Shut | Ready(chunks: seq<Bytes>, closeAfter: bool)
  {
    function Handed(): seq<Bytes> {
      if Ready? then chunks else []
    }
  }

  function ChunkOf(f: Frame): seq<Bytes> {
    if |f.payload| > 0 then [f.payload] else []
  }

  /** Deliver `f`, then every parked frame that has become next, stopping after a FIN. */
  function Advance(st: RxState, f: Frame): (r: (RxState, Outcome))
    ensures r.1.Ready?
    decreases |st.rxQueue|
  {
    var st1 := st.(rxSeq := st.rxSeq + 1);
    if f.HasFlag(FLAG_FIN) then
      (st1.(rxClosed := true), Ready(ChunkOf(f), true))
    else if st1.rxSeq !in st.rxQueue then
      (st1, Ready(ChunkOf(f), false))
    else
      DropsOne(st.rxQueue, st1.rxSeq);
      var (st2, o) := Advance(st1.(rxQueue := st.rxQueue - {st1.rxSeq}), st.rxQueue[st1.rxSeq]);
      (st2, Ready(ChunkOf(f) + o.chunks, o.closeAfter))
  }

  lemma DropsOne<V>(m: map<nat, V>, k: nat)
    requires k in m
    ensures |m - {k}| < |m|
  {
    assert (m - {k}).Keys == m.Keys - {k};
    assert |(m - {k}).Keys| < |m.Keys|;
  }

  /** The part of `deliverRx` that runs under the session lock. */
  function Accept(st: RxState, f: Frame): (RxState, Outcome) {
    if st.rxClosed then (st, Shut)
    else if f.seqNo < st.rxSeq then (st, Old)
    else if f.seqNo > st.rxSeq then (st.(rxQueue := st.rxQueue[f.seqNo := f]), Parked)
    else Advance(st, f)
  }

  // ---- In-order delivery, the simple form ---------------------------------------

  ghost predicate Keyed(seen: map<nat, Frame>) {
    forall k :: k in seen ==> seen[k].seqNo == k
  }

  ghost predicate Covers(seen: map<nat, Frame>, n: nat) {
    forall i :: 0 <= i < n ==> i in seen
  }

  /** The non-empty payloads of frames 0..n-1, in order. */
  ghost function InOrder(seen: map<nat, Frame>, n: nat): seq<Bytes>
    requires Covers(seen, n)
  {
    if n == 0 then [] else InOrder(seen, n - 1) + ChunkOf(seen[n - 1])
  }

  /** The reassembly state is the right one for the frames seen so far: `rxSeq` is the
      least number not seen - or one past the first FIN - and what is parked is exactly
      what was seen beyond it. */
  ghost predicate CaughtUp(st: RxState, seen: map<nat, Frame>) {
    && Keyed(seen)
    && Covers(seen, st.rxSeq)
    && (forall i :: 0 <= i < st.rxSeq - 1 ==> !seen[i].HasFlag(FLAG_FIN))
    && (st.rxClosed ==> st.rxSeq > 0 && seen[st.rxSeq - 1].HasFlag(FLAG_FIN))
    && (!st.rxClosed ==>
          && (st.rxSeq > 0 ==> !seen[st.rxSeq - 1].HasFlag(FLAG_FIN))
          && st.rxSeq !in seen
          && ParkedBeyond(st, seen))
  }

  ghost predicate ParkedBeyond(st: RxState, seen: map<nat, Frame>) {
    && (forall k :: k in st.rxQueue <==> k in seen && k > st.rxSeq)
    && (forall k :: k in st.rxQueue ==> st.rxQueue[k] == seen[k])
  }

  ghost predicate Agrees(seen: map<nat, Frame>, f: Frame) {
    f.seqNo in seen ==> seen[f.seqNo] == f
  }

  lemma {:induction false} InOrderStable(seen: map<nat, Frame>, seen': map<nat, Frame>, n: nat)
    requires Covers(seen, n) && Covers(seen', n)
    requires forall i :: 0 <= i < n ==> seen[i] == seen'[i]
    ensures InOrder(seen, n) == InOrder(seen', n)
  {
    if n > 0 {
      InOrderStable(seen, seen', n - 1);
    }
  }

  /** A frame that has been delivered counts as one more in order. */
  lemma OneDelivered(seen: map<nat, Frame>, n: nat)
    requires Covers(seen, n) && n in seen
    ensures Covers(seen, n + 1) && InOrder(seen, n + 1) == InOrder(seen, n) + ChunkOf(seen[n])
  {
  }

  /** What is parked beyond a number, one further on. */
  lemma NextParked(st: RxState, seen: map<nat, Frame>)
    requires ParkedBeyond(st, seen)
    ensures var next := st.rxSeq + 1;
            && (next in st.rxQueue <==> next in seen)
            && (next in st.rxQueue ==>
                  st.rxQueue[next] == seen[next] && ParkedBeyond(RxState(next, st.rxQueue - {next}, false), seen))
            && (next !in st.rxQueue ==> ParkedBeyond(RxState(next, st.rxQueue, false), seen))
  {
  }

  /** Everything before a number has been seen, none of it a FIN, and the rest is parked. */
  ghost predicate InTheMiddle(st: RxState, seen: map<nat, Frame>) {
    && Keyed(seen) && !st.rxClosed && Covers(seen, st.rxSeq) && ParkedBeyond(st, seen)
    && forall i :: 0 <= i < st.rxSeq ==> !seen[i].HasFlag(FLAG_FIN)
  }

  lemma AtFin(st: RxState, seen: map<nat, Frame>)
    requires InTheMiddle(st, seen) && st.rxSeq in seen && seen[st.rxSeq].HasFlag(FLAG_FIN)
    ensures CaughtUp(RxState(st.rxSeq + 1, st.rxQueue, true), seen)
  {
    hide ParkedBeyond;
  }

  lemma OneFurther(st: RxState, seen: map<nat, Frame>)
    requires InTheMiddle(st, seen) && st.rxSeq in seen && !seen[st.rxSeq].HasFlag(FLAG_FIN)
    ensures var next := st.rxSeq + 1;
            if next in st.rxQueue
            then next in seen && st.rxQueue[next] == seen[next]
                 && InTheMiddle(RxState(next, st.rxQueue - {next}, false), seen)
            else CaughtUp(RxState(next, st.rxQueue, false), seen)
  {
    hide ParkedBeyond, Keyed;
    NextParked(st, seen);
  }

  lemma {:induction false} AdvanceCatchesUp(st: RxState, f: Frame, seen: map<nat, Frame>)
    requires InTheMiddle(st, seen) && st.rxSeq in seen && seen[st.rxSeq] == f
    ensures Covers(seen, st.rxSeq)
    ensures var (st', o) := Advance(st, f);
            && CaughtUp(st', seen)
            && InOrder(seen, st'.rxSeq) == InOrder(seen, st.rxSeq) + o.chunks
            && (o.closeAfter <==> st'.rxClosed)
    decreases |st.rxQueue|
  {
    hide ParkedBeyond, Keyed, InOrder, ChunkOf;
    var next := st.rxSeq + 1;
    OneDelivered(seen, st.rxSeq);
    if f.HasFlag(FLAG_FIN) {
      AtFin(st, seen);
    } else {
      OneFurther(st, seen);
      if next in st.rxQueue {
        DropsOne(st.rxQueue, next);
        var st1 := RxState(next, st.rxQueue - {next}, false);
        AdvanceCatchesUp(st1, st.rxQueue[next], seen);
        var (st', o) := Advance(st1, st.rxQueue[next]);
        Assoc(InOrder(seen, st.rxSeq), ChunkOf(f), o.chunks);
      }
    }
  }

  /** One arrival keeps the state right and hands over exactly the payloads that have
      become deliverable. */
  lemma AcceptCatchesUp(st: RxState, f: Frame, seen: map<nat, Frame>)
    requires CaughtUp(st, seen) && Agrees(seen, f)
    ensures var (st', o) := Accept(st, f);
            var seen' := seen[f.seqNo := f];
            && CaughtUp(st', seen')
            && InOrder(seen', st'.rxSeq) == InOrder(seen, st.rxSeq) + o.Handed()
            && (o.Ready? && o.closeAfter <==> st'.rxClosed && !st.rxClosed)
            && st.rxSeq <= st'.rxSeq
  {
    hide Advance, InOrder;
    var seen' := seen[f.seqNo := f];
    InOrderStable(seen, seen', st.rxSeq);
    if !st.rxClosed && f.seqNo == st.rxSeq {
      AdvanceCatchesUp(st, f, seen');
      AdvanceForward(st, f);
    }
  }

  lemma {:induction false} AdvanceForward(st: RxState, f: Frame)
    ensures Advance(st, f).0.rxSeq > st.rxSeq
    decreases |st.rxQueue|
  {
    var next := st.rxSeq + 1;
    if !f.HasFlag(FLAG_FIN) && next in st.rxQueue {
      DropsOne(st.rxQueue, next);
      AdvanceForward(RxState(next, st.rxQueue - {next}, st.rxClosed), st.rxQueue[next]);
    }
  }

  /** A run starts with the arriving frame's payload and closes when it meets a FIN. */
  lemma {:induction false} AdvanceRun(st: RxState, f: Frame)
    requires !st.rxClosed
    ensures var (st', o) := Advance(st, f);
            ChunkOf(f) <= o.chunks && st'.rxSeq > st.rxSeq && (o.closeAfter <==> st'.rxClosed)
    decreases |st.rxQueue|
  {
    var next := st.rxSeq + 1;
    AdvanceForward(st, f);
    if !f.HasFlag(FLAG_FIN) && next in st.rxQueue {
      DropsOne(st.rxQueue, next);
      AdvanceRun(RxState(next, st.rxQueue - {next}, false), st.rxQueue[next]);
    }
  }

  // ---- Whole arrival sequences ----------------------------------------------------

  function Reassemble(arrivals: seq<Frame>): (RxState, seq<Bytes>) {
    if |arrivals| == 0 then (RX_START, [])
    else
      var n := |arrivals| - 1;
      var (st, out) := Reassemble(arrivals[..n]);
      var (st', o) := Accept(st, arrivals[n]);
      (st', out + o.Handed())
  }

  ghost function Seen(arrivals: seq<Frame>): map<nat, Frame> {
    if |arrivals| == 0 then map[]
    else var n := |arrivals| - 1; Seen(arrivals[..n])[arrivals[n].seqNo := arrivals[n]]
  }

  /** All copies of one sequence number carry the same frame. */
  ghost predicate OneStream(arrivals: seq<Frame>) {
    forall f, g :: f in arrivals && g in arrivals && f.seqNo == g.seqNo ==> f == g
  }

  lemma {:induction false} SeenIsArrived(arrivals: seq<Frame>)
    requires OneStream(arrivals)
    ensures forall f :: f in arrivals ==> f.seqNo in Seen(arrivals) && Seen(arrivals)[f.seqNo] == f
    ensures forall k :: k in Seen(arrivals) ==> Seen(arrivals)[k] in arrivals && Seen(arrivals)[k].seqNo == k
  {
    if |arrivals| > 0 {
      var n := |arrivals| - 1;
      assert arrivals == arrivals[..n] + [arrivals[n]];
      SeenIsArrived(arrivals[..n]);
    }
  }

  /** Reassembly refines in-order delivery, for every arrival order and every pattern of
      duplicates drawn from one stream. */
  lemma {:induction false} ReassemblyRefinesInOrder(arrivals: seq<Frame>)
    requires OneStream(arrivals)
    ensures var (st, out) := Reassemble(arrivals);
            CaughtUp(st, Seen(arrivals)) && out == InOrder(Seen(arrivals), st.rxSeq)
  {
    if |arrivals| > 0 {
      var n := |arrivals| - 1;
      assert arrivals == arrivals[..n] + [arrivals[n]];
      ReassemblyRefinesInOrder(arrivals[..n]);
      SeenIsArrived(arrivals[..n]);
      AcceptCatchesUp(Reassemble(arrivals[..n]).0, arrivals[n], Seen(arrivals[..n]));
    }
  }

  lemma SameSeen(a: seq<Frame>, b: seq<Frame>)
    requires OneStream(a) && forall f :: f in a <==> f in b
    ensures OneStream(b) && Seen(a) == Seen(b)
  {
    hide Seen;
    SeenIsArrived(a);
    SeenIsArrived(b);
    forall k ensures k in Seen(a) <==> k in Seen(b) {
      assert k in Seen(a) ==> Seen(a)[k] in b;
      assert k in Seen(b) ==> Seen(b)[k] in a;
    }
    forall k | k in Seen(a) ensures Seen(a)[k] == Seen(b)[k] {
      assert Seen(a)[k] in b;
    }
  }

  /** Only which frames arrived matters: not their order and not how often. (What is parked
      behind a FIN is never looked at again.) */
  lemma ArrivalOrderIrrelevant(a: seq<Frame>, b: seq<Frame>)
    requires OneStream(a) && forall f :: f in a <==> f in b
    ensures Reassemble(a).1 == Reassemble(b).1
    ensures Reassemble(a).0.rxSeq == Reassemble(b).0.rxSeq
    ensures Reassemble(a).0.rxClosed == Reassemble(b).0.rxClosed
    ensures !Reassemble(a).0.rxClosed ==> Reassemble(a).0.rxQueue == Reassemble(b).0.rxQueue
  {
    hide Seen, Reassemble, CaughtUp;
    SameSeen(a, b);
    ReassemblyRefinesInOrder(a);
    ReassemblyRefinesInOrder(b);
    CaughtUpUnique(Reassemble(a).0, Reassemble(b).0, Seen(a));
  }

  lemma CaughtUpUnique(s: RxState, t: RxState, seen: map<nat, Frame>)
    requires CaughtUp(s, seen) && CaughtUp(t, seen)
    ensures s.rxSeq == t.rxSeq && s.rxClosed == t.rxClosed && (!s.rxClosed ==> s.rxQueue == t.rxQueue)
  {
    if !s.rxClosed {
      assert forall k :: k in s.rxQueue <==> k in t.rxQueue;
    }
  }

  lemma OneMore(arrivals: seq<Frame>, f: Frame)
    ensures Reassemble(arrivals + [f]) ==
            var (st, out) := Reassemble(arrivals);
            var (st', o) := Accept(st, f);
            (st', out + o.Handed())
  {
    assert (arrivals + [f])[..|arrivals|] == arrivals;
  }

  /** A frame that has arrived before changes nothing. */
  lemma KnownFrame(arrivals: seq<Frame>, f: Frame)
    requires OneStream(arrivals) && f in arrivals
    ensures var st := Reassemble(arrivals).0; Accept(st, f).0 == st && Accept(st, f).1.Handed() == []
  {
    hide Reassemble, Seen, Advance;
    ReassemblyRefinesInOrder(arrivals);
    SeenIsArrived(arrivals);
    var st, seen := Reassemble(arrivals).0, Seen(arrivals);
    assert f.seqNo in seen && seen[f.seqNo] == f;
    if !st.rxClosed && f.seqNo > st.rxSeq {
      assert st.rxQueue[f.seqNo := f] == st.rxQueue;
    }
  }

  /** A batch that arrives twice leaves the receiver exactly where one copy would. */
  lemma SecondCopyHarmless(before: seq<Frame>, batch: seq<Frame>)
    requires OneStream(before + batch)
    ensures Reassemble(before + batch + batch) == Reassemble(before + batch)
  {
    CopiesHarmless(before + batch, batch);
  }

  lemma {:induction false} CopiesHarmless(arrivals: seq<Frame>, copies: seq<Frame>)
    requires OneStream(arrivals) && forall f :: f in copies ==> f in arrivals
    ensures Reassemble(arrivals + copies) == Reassemble(arrivals)
    decreases |copies|
  {
    hide Reassemble, Accept, OneStream;
    if |copies| == 0 {
      assert arrivals + copies == arrivals;
    } else {
      var n := |copies| - 1;
      CopiesHarmless(arrivals, copies[..n]);
      OneMore(arrivals + copies[..n], copies[n]);
      assert arrivals + copies[..n] + [copies[n]] == arrivals + copies;
      KnownFrame(arrivals, copies[n]);
      assert Reassemble(arrivals).1 + [] == Reassemble(arrivals).1;
    }
  }
}

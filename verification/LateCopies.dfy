/** A batch that was rolled back and reaches the peer after all. Its frames are harmless if and
    only if the session's next frames begin with the very same ones, and that can be told from
    the bytes taken in between. */
module LateCopies {
  import opened Prelude
  import opened Frames
  import opened TxSpec
  import opened Drains
  import opened RxSpec

  predicate HasFin(fs: seq<Frame>) {
    |fs| > 0 && fs[|fs| - 1].flags == FLAG_FIN
  }

  /** The session with more bytes taken, and perhaps closed. */
  function More(t: TxState, more: Bytes, close: bool): TxState {
    t.(txBuf := t.txBuf + more, closeReq := close)
  }

  /** These bytes are cut into full chunks only. */
  predicate FullChunks(len: nat, p: int) {
    p > 0 && len % p == 0
  }

  /** The frames `first` have been rolled back; nothing was taken since, or the bytes in them
      fill their last chunk, so that new bytes start a new frame, and they did not end the
      stream. */
  predicate SafeToResend(t: TxState, p: int, first: seq<Frame>, more: Bytes) {
    more == [] || (|t.txBuf| > 0 && FullChunks(|t.txBuf|, p) && !HasFin(first))
  }

  lemma FullChunksStep(len: nat, p: nat)
    requires 0 < p < len
    ensures FullChunks(len - p, p) <==> FullChunks(len, p)
  {
    var q := (len - p) / p;
    assert len - p == q * p + (len - p) % p;
    assert (q + 1) * p == q * p + p;
    DivIs(len, p, q + 1);
  }

  lemma FullChunksLast(len: nat, p: nat)
    requires 0 < len <= p
    ensures FullChunks(len, p) <==> len == p
  {
  }

  /** The frames that were rolled back are the first frames of the next drain if and only if it
      is safe to resend. */
  lemma {:induction false} ResendIff(t: TxState, p: int, n: nat, more: Bytes, close: bool)
    requires Cuts(t, p) && Cuts(More(t, more, close), p) && t.Sound() && (t.closeReq ==> close)
    requires n > 0 && t.Pending() && Advanced(t, p, n).txBuf == []
    ensures var first := Emitted(t, p, n);
            Emitted(More(t, more, close), p, |first|) == first <==> SafeToResend(t, p, first, more)
    decreases n
  {
    hide FullChunks, Emitted, Advanced, HasFin, NextFrame, AfterNext;
    if more == [] {
      NothingTaken(t, p, n, close);
    } else if 0 < p < |t.txBuf| {
      var a := AfterNext(t, p);
      FirstChunk(t, p, n, more, close);
      FullChunksStep(|t.txBuf|, p);
      ResendIff(a, p, n - 1, more, close);
      HeadTail(NextFrame(t, p), Emitted(More(a, more, close), p, |Emitted(a, p, n - 1)|), Emitted(a, p, n - 1));
    } else if |t.txBuf| > 0 {
      FullChunksLast(|t.txBuf|, p);
      if |t.txBuf| == p {
        LastChunkFull(t, p, n, more, close);
      } else {
        FirstDiffers(t, p, n, more, close);
      }
    } else {
      FirstDiffers(t, p, n, more, close);
    }
  }

  lemma HeadTail(f: Frame, a: seq<Frame>, b: seq<Frame>)
    ensures [f] + a == [f] + b <==> a == b
  {
    assert ([f] + a)[1..] == a && ([f] + b)[1..] == b;
  }

  /** Bytes beyond the first chunk do not show in the first frame. */
  lemma FirstChunk(t: TxState, p: int, n: nat, more: Bytes, close: bool)
    requires Cuts(t, p) && 0 < p < |t.txBuf| && n > 0 && t.Sound()
    requires Advanced(t, p, n).txBuf == []
    ensures var t', a, rest := More(t, more, close), AfterNext(t, p), Emitted(AfterNext(t, p), p, n - 1);
            && n > 1 && a.Pending() && a.Sound() && |a.txBuf| == |t.txBuf| - p
            && Advanced(a, p, n - 1) == Advanced(t, p, n) && a.closeReq == t.closeReq
            && Emitted(t, p, n) == [NextFrame(t, p)] + rest
            && HasFin(Emitted(t, p, n)) == HasFin(rest)
            && Emitted(t', p, |Emitted(t, p, n)|) == [NextFrame(t, p)] + Emitted(More(a, more, close), p, |rest|)
            && Advanced(t', p, |Emitted(t, p, n)|) == Advanced(More(a, more, close), p, |rest|)
  {
    hide NextFrame, AfterNext, HasFin, More;
    var f, a := NextFrame(t, p), AfterNext(t, p);
    SameFirst(t, p, more, close);
    assert n > 1;
    FinOfTail(f, Emitted(a, p, n - 1));
  }

  lemma SameFirst(t: TxState, p: int, more: Bytes, close: bool)
    requires Cuts(t, p) && 0 < p < |t.txBuf| && t.Sound()
    ensures var t', a := More(t, more, close), AfterNext(t, p);
            && t.Pending() && t'.Pending() && Cuts(t', p) && Cuts(More(a, more, close), p)
            && a.Pending() && a.Sound() && |a.txBuf| == |t.txBuf| - p && a.closeReq == t.closeReq
            && NextFrame(t', p) == NextFrame(t, p) && AfterNext(t', p) == More(a, more, close)
  {
    var t' := More(t, more, close);
    assert t'.txBuf[..p] == t.txBuf[..p] && t'.txBuf[p..] == t.txBuf[p..] + more;
  }

  /** A close adds at most a FIN behind the old frames. */
  lemma NothingTaken(t: TxState, p: int, n: nat, close: bool)
    requires Cuts(t, p) && (t.closeReq ==> close)
    ensures Emitted(More(t, [], close), p, |Emitted(t, p, n)|) == Emitted(t, p, n)
  {
    assert t.txBuf + [] == t.txBuf;
    OnlyClosed(t, p, n, close);
  }

  lemma {:induction false} OnlyClosed(t: TxState, p: int, n: nat, close: bool)
    requires Cuts(t, p) && (t.closeReq ==> close)
    ensures Emitted(t.(closeReq := close), p, |Emitted(t, p, n)|) == Emitted(t, p, n)
    decreases n
  {
    hide NextFrame, AfterNext;
    if n > 0 && t.Pending() {
      OnlyClosedStep(t, p, close);
      OnlyClosed(AfterNext(t, p), p, n - 1, close);
    }
  }

  lemma OnlyClosedStep(t: TxState, p: int, close: bool)
    requires Cuts(t, p) && (t.closeReq ==> close) && t.Pending()
    ensures NextFrame(t.(closeReq := close), p) == NextFrame(t, p)
    ensures AfterNext(t.(closeReq := close), p) == AfterNext(t, p).(closeReq := close)
    ensures AfterNext(t, p).closeReq == t.closeReq
  {
  }

  /** A short or empty first chunk grows, and a bare FIN gives way to data. */
  lemma FirstDiffers(t: TxState, p: int, n: nat, more: Bytes, close: bool)
    requires Cuts(t, p) && Cuts(More(t, more, close), p) && n > 0 && t.Pending() && t.Sound()
    requires |t.txBuf| < p && more != []
    ensures var first := Emitted(t, p, n); Emitted(More(t, more, close), p, |first|) != first
  {
    var t' := More(t, more, close);
    var first := Emitted(t, p, n);
    assert first[0] == NextFrame(t, p);
    assert Emitted(t', p, |first|)[0] == NextFrame(t', p);
    assert |NextFrame(t', p).payload| > |NextFrame(t, p).payload|;
  }

  lemma LastChunkFull(t: TxState, p: int, n: nat, more: Bytes, close: bool)
    requires Cuts(t, p) && Cuts(More(t, more, close), p) && t.Sound() && (t.closeReq ==> close)
    requires n > 0 && 0 < |t.txBuf| == p && more != []
    ensures var first := Emitted(t, p, n);
            Emitted(More(t, more, close), p, |first|) == first <==> !HasFin(first)
  {
    var t' := More(t, more, close);
    var f, a, a' := NextFrame(t, p), AfterNext(t, p), AfterNext(t', p);
    assert t'.txBuf[..p] == t.txBuf[..p] && t'.txBuf[p..] == more;
    assert NextFrame(t', p) == f;
    var rest := Emitted(a, p, n - 1);
    assert Emitted(t, p, n) == [f] + rest;
    if n > 1 && a.Pending() {
      assert rest == [NextFrame(a, p)] + Emitted(AfterNext(a, p), p, n - 2);
      assert Emitted(AfterNext(a, p), p, n - 2) == [];
      assert Emitted(a', p, 1) == [NextFrame(a', p)] + Emitted(AfterNext(a', p), p, 0);
      assert Emitted(t', p, 2) == [f] + Emitted(a', p, 1);
      assert HasFin([f] + rest);
      assert Emitted(t', p, 2)[1] != ([f] + rest)[1];
    } else {
      assert rest == [];
      assert Emitted(t', p, 1) == [f] + Emitted(a', p, 0);
    }
  }

  // ---- At the peer ---------------------------------------------------------------------------

  /** The receiver's state, and the bytes it has handed on, after these arrivals. */
  function Fed(st: RxState, fs: seq<Frame>): (RxState, Bytes)
    decreases |fs|
  {
    if |fs| == 0 then (st, [])
    else
      var (st1, o) := Accept(st, fs[0]);
      var (st2, bytes) := Fed(st1, fs[1..]);
      (st2, Flatten(o.Handed()) + bytes)
  }

  lemma {:induction false} FedAppend(st: RxState, a: seq<Frame>, b: seq<Frame>)
    ensures var (st1, x) := Fed(st, a); var (st2, y) := Fed(st1, b); Fed(st, a + b) == (st2, x + y)
    decreases |a|
  {
    hide Accept;
    if |a| == 0 {
      assert a + b == b && [] + Fed(st, b).1 == Fed(st, b).1;
    } else {
      var (st1, o) := Accept(st, a[0]);
      FedAppend(st1, a[1..], b);
      assert (a + b)[0] == a[0] && (a + b)[1..] == a[1..] + b;
      var (st2, x) := Fed(st1, a[1..]);
      Assoc(Flatten(o.Handed()), x, Fed(st2, b).1);
    }
  }

  /** It is what `Reassemble` does. */
  lemma {:induction false} FedIsReassembly(before: seq<Frame>, fs: seq<Frame>)
    ensures var r, s := Reassemble(before), Reassemble(before + fs);
            Fed(r.0, fs) == (s.0, Fed(r.0, fs).1) && Flatten(s.1) == Flatten(r.1) + Fed(r.0, fs).1
    decreases |fs|
  {
    hide Accept, Flatten, Reassemble, Fed;
    var r := Reassemble(before);
    if |fs| == 0 {
      assert before + fs == before;
      FedNone(r.0);
      assert Flatten(r.1) + [] == Flatten(r.1);
    } else {
      var (st1, o) := Accept(r.0, fs[0]);
      OneMore(before, fs[0]);
      FedIsReassembly(before + [fs[0]], fs[1..]);
      assert before + fs == before + [fs[0]] + fs[1..] && fs == [fs[0]] + fs[1..];
      FedCons(r.0, fs[0], fs[1..]);
      FlattenAppend(r.1, o.Handed());
      Assoc(Flatten(r.1), Flatten(o.Handed()), Fed(st1, fs[1..]).1);
    }
  }

  /** A receiver with nothing parked, waiting for this session's next frame. */
  function Waiting(seqNo: nat, closed: bool): RxState {
    RxState(seqNo, map[], closed)
  }

  /** Frames sent in order to a waiting receiver are handed on in full. */
  lemma {:induction false} FedInOrder(t: TxState, p: int, n: nat)
    requires Cuts(t, p) && t.Sound()
    ensures var fs := Emitted(t, p, n);
            Fed(Waiting(t.txSeq, false), fs) == (Waiting(t.txSeq + |fs|, HasFin(fs)), Payloads(fs))
    decreases n
  {
    hide Accept, NextFrame, AfterNext, Fed, Flatten, HasFin;
    if n > 0 && t.Pending() {
      var f, a := NextFrame(t, p), AfterNext(t, p);
      var rest := Emitted(a, p, n - 1);
      AcceptNext(t, p);
      FedCons(Waiting(t.txSeq, false), f, rest);
      PayloadsAppend([f], rest);
      PayloadsSingle(f);
      FinOfTail(f, rest);
      if rest == [] {
        assert [f] + rest == [f];
        FedNone(Waiting(t.txSeq + 1, f.flags == FLAG_FIN));
        FinOfOne(f);
      } else {
        FedInOrder(a, p, n - 1);
      }
    } else {
      FedNone(Waiting(t.txSeq, false));
    }
  }

  lemma FedCons(st: RxState, f: Frame, rest: seq<Frame>)
    ensures var (st1, o) := Accept(st, f);
            Fed(st, [f] + rest) == (Fed(st1, rest).0, Flatten(o.Handed()) + Fed(st1, rest).1)
  {
    assert ([f] + rest)[1..] == rest;
  }

  lemma FedNone(st: RxState)
    ensures Fed(st, []) == (st, []) && Payloads([]) == [] && !HasFin([])
  {
  }

  lemma FinOfOne(f: Frame)
    ensures (HasFin([f]) <==> f.flags == FLAG_FIN) && f.payload + [] == f.payload
  {
  }

  lemma AcceptNext(t: TxState, p: int)
    requires Cuts(t, p) && t.Sound() && t.Pending()
    ensures var f, a := NextFrame(t, p), AfterNext(t, p);
            var (st, o) := Accept(Waiting(t.txSeq, false), f);
            && st == Waiting(t.txSeq + 1, f.flags == FLAG_FIN) && Flatten(o.Handed()) == f.payload
            && a.txSeq == t.txSeq + 1 && a.Sound() && (f.flags == FLAG_FIN ==> !a.Pending())
  {
    ChunkBytes(NextFrame(t, p));
  }

  lemma ChunkBytes(f: Frame)
    ensures Flatten(ChunkOf(f)) == f.payload
  {
    if |f.payload| > 0 {
      assert Flatten([f.payload]) == f.payload + Flatten<Byte>([]);
    }
  }

  /** Old frames, or any frames after the end, do nothing. */
  lemma {:induction false} FedNothing(st: RxState, fs: seq<Frame>)
    requires st.rxClosed || forall i :: 0 <= i < |fs| ==> fs[i].seqNo < st.rxSeq
    ensures Fed(st, fs) == (st, [])
    decreases |fs|
  {
    if |fs| > 0 {
      assert Accept(st, fs[0]).0 == st && Accept(st, fs[0]).1.Handed() == [];
      assert Flatten<Byte>([]) + [] == [];
      FedNothing(st, fs[1..]);
    }
  }

  lemma {:induction false} Numbered(t: TxState, p: int, n: nat)
    requires Cuts(t, p)
    ensures forall i :: 0 <= i < |Emitted(t, p, n)| ==> Emitted(t, p, n)[i].seqNo == t.txSeq + i
    decreases n
  {
    if n > 0 && t.Pending() {
      Numbered(AfterNext(t, p), p, n - 1);
    }
  }

  /** How far the first frames of the longer stream reach: exactly as far as the old ones did
      if it is safe to resend, and further if it is not. */
  lemma {:induction false} ReachIff(t: TxState, p: int, n: nat, more: Bytes, close: bool)
    requires Cuts(t, p) && Cuts(More(t, more, close), p) && t.Sound() && (t.closeReq ==> close)
    requires n > 0 && t.Pending() && Advanced(t, p, n).txBuf == [] && !HasFin(Emitted(t, p, n))
    ensures var first := Emitted(t, p, n);
            |Advanced(More(t, more, close), p, |first|).txBuf| == |more| <==> SafeToResend(t, p, first, more)
    decreases n
  {
    hide FullChunks, Emitted, Advanced, HasFin, NextFrame, AfterNext;
    var a := AfterNext(t, p);
    if 0 < p < |t.txBuf| {
      FirstChunk(t, p, n, more, close);
      FullChunksStep(|t.txBuf|, p);
      ReachIff(a, p, n - 1, more, close);
    } else {
      OnlyFrame(t, p, n);
      ReachLast(t, p, more, close);
      if |t.txBuf| > 0 {
        FullChunksLast(|t.txBuf|, p);
      }
    }
  }

  lemma ReachLast(t: TxState, p: int, more: Bytes, close: bool)
    requires Cuts(t, p) && Cuts(More(t, more, close), p) && (t.synNeeded || |t.txBuf| > 0) && (|t.txBuf| > 0 ==> |t.txBuf| <= p)
    ensures |Advanced(More(t, more, close), p, 1).txBuf| == |more| <==> more == [] || (|t.txBuf| > 0 && |t.txBuf| == p)
  {
    var t' := More(t, more, close);
    assert Advanced(t', p, 1) == AfterNext(t', p);
    assert |AfterNext(t', p).txBuf| == |t.txBuf| + |more| - ChunkLen(t', p);
  }

  lemma OnlyFrame(t: TxState, p: int, n: nat)
    requires Cuts(t, p) && n > 0 && t.Pending() && (|t.txBuf| > 0 ==> |t.txBuf| <= p) && !HasFin(Emitted(t, p, n))
    ensures |Emitted(t, p, n)| == 1 && (t.synNeeded || |t.txBuf| > 0)
  {
    var a := AfterNext(t, p);
    var rest := Emitted(a, p, n - 1);
    assert Emitted(t, p, n) == [NextFrame(t, p)] + rest;
    FinOfTail(NextFrame(t, p), rest);
    EmptyNoMore(a, p, n - 1);
  }

  lemma FinOfTail(f: Frame, rest: seq<Frame>)
    ensures |rest| > 0 ==> HasFin([f] + rest) == HasFin(rest)
  {
  }

  /** With no bytes left only a FIN can follow, and that would be the last frame. */
  lemma EmptyNoMore(a: TxState, p: int, n: nat)
    requires Cuts(a, p) && a.txBuf == [] && !a.synNeeded
    ensures Emitted(a, p, n) == [] || HasFin(Emitted(a, p, n))
  {
    if n > 0 && a.Pending() {
      assert Emitted(a, p, n) == [NextFrame(a, p)] + Emitted(AfterNext(a, p), p, n - 1);
      assert Emitted(AfterNext(a, p), p, n - 1) == [];
    }
  }

  /** A batch of an emptying drain is rolled back; more bytes are taken, and all is sent again.
      If the first copy reaches the waiting peer as well, and before the second, the peer gets
      every byte if and only if it was safe to resend. */
  lemma LateCopyHarmlessIff(before: seq<Frame>, t: TxState, p: int, n: nat, more: Bytes, close: bool)
    requires Cuts(t, p) && Cuts(More(t, more, close), p) && t.Sound() && (t.closeReq ==> close)
    requires n > 0 && t.Pending() && Advanced(t, p, n).txBuf == []
    requires Reassemble(before).0 == Waiting(t.txSeq, false)
    ensures var t' := More(t, more, close);
            var first, again := Emitted(t, p, n), Emitted(t', p, FrameCount(t', p));
            Flatten(Reassemble(before + first + again).1) == Flatten(Reassemble(before).1) + t'.txBuf
            <==> SafeToResend(t, p, first, more)
  {
    hide Accept, Reassemble, FrameCount;
    var t' := More(t, more, close);
    var first, again := Emitted(t, p, n), Emitted(t', p, FrameCount(t', p));
    var st := Waiting(t.txSeq, false);
    FedIsReassembly(before, first + again);
    assert before + (first + again) == before + first + again;
    FedAppend(st, first, again);
    FedInOrder(t, p, n);
    EmittedConserves(t, p, n);
    assert Payloads(first) + [] == Payloads(first);
    var bytes := SecondCopy(t, p, n, more, close);
    assert Fed(st, first + again).1 == t.txBuf + bytes;
    PrefixCancels(Flatten(Reassemble(before).1), t.txBuf + bytes, t.txBuf + more);
    PrefixCancels(t.txBuf, bytes, more);
  }

  lemma PrefixCancels(a: Bytes, b: Bytes, c: Bytes)
    ensures a + b == a + c <==> b == c
  {
    if a + b == a + c {
      assert (a + b)[|a|..] == b && (a + c)[|a|..] == c;
    }
  }

  /** What the second copy adds to the first. */
  lemma SecondCopy(t: TxState, p: int, n: nat, more: Bytes, close: bool) returns (bytes: Bytes)
    requires Cuts(t, p) && Cuts(More(t, more, close), p) && t.Sound() && (t.closeReq ==> close)
    requires n > 0 && t.Pending() && Advanced(t, p, n).txBuf == []
    ensures var t', first := More(t, more, close), Emitted(t, p, n);
            && bytes == Fed(Waiting(t.txSeq + |first|, HasFin(first)), Emitted(t', p, FrameCount(t', p))).1
            && (bytes == more <==> SafeToResend(t, p, first, more))
  {
    hide Accept, FrameCount, Emitted, Advanced, FullChunks, HasFin, Fed;
    var t', first := More(t, more, close), Emitted(t, p, n);
    var count, st := FrameCount(t', p), Waiting(t.txSeq + |first|, HasFin(first));
    var again := Emitted(t', p, count);
    bytes := Fed(st, again).1;
    if HasFin(first) {
      FedNothing(st, again);
    } else {
      CountGrows(t, p, n, more, close);
      var v := Advanced(t', p, |first|);
      EmittedCompose(t', p, |first|, count - |first|);
      EmittedCount(t', p, |first|);
      EmittedCount(t', p, count);
      Numbered(t', p, |first|);
      AdvancedFields(t', p, |first|);
      FedAppend(st, Emitted(t', p, |first|), Emitted(v, p, count - |first|));
      FedNothing(st, Emitted(t', p, |first|));
      FedInOrder(v, p, count - |first|);
      EmittedConserves(v, p, count - |first|);
      NothingPending(Advanced(t', p, count));
      assert Payloads(Emitted(v, p, count - |first|)) + [] == v.txBuf;
      EmittedConserves(t', p, |first|);
      ReachIff(t, p, n, more, close);
      SuffixOf(Payloads(Emitted(t', p, |first|)), v.txBuf, t.txBuf, more);
    }
  }

  lemma NothingPending(t: TxState)
    ensures !t.Pending() ==> t.txBuf == []
  {
  }

  /** Of two ends of one sequence those of the same length are the same. */
  lemma SuffixOf(a: Bytes, b: Bytes, c: Bytes, d: Bytes)
    requires a + b == c + d
    ensures |b| == |d| ==> b == d
  {
    if |b| == |d| {
      assert (a + b)[|a|..] == b && (c + d)[|c|..] == d;
    }
  }

  /** The longer stream has at least as many frames. */
  lemma CountGrows(t: TxState, p: int, n: nat, more: Bytes, close: bool)
    requires Cuts(t, p) && Cuts(More(t, more, close), p) && (t.closeReq ==> close)
    ensures |Emitted(t, p, n)| <= FrameCount(More(t, more, close), p)
  {
    EmittedCount(t, p, n);
    FrameCountGrows(t, p, more, close);
  }

  lemma FrameCountGrows(t: TxState, p: int, more: Bytes, close: bool)
    requires Cuts(t, p) && Cuts(More(t, more, close), p) && (t.closeReq ==> close)
    ensures FrameCount(t, p) <= FrameCount(More(t, more, close), p)
  {
    var len := |t.txBuf| + |more|;
    if |t.txBuf| > 0 {
      CeilDivMono(|t.txBuf|, len, p);
    } else if len > 0 {
      CeilDivMono(1, len, p);
    }
  }

  lemma CeilDivMono(a: nat, b: nat, p: int)
    requires 0 < a <= b && p > 0
    ensures 0 < CeilDiv(a, p) <= CeilDiv(b, p)
  {
    CeilDivFits(b, p, CeilDiv(b, p));
    CeilDivFits(a, p, CeilDiv(b, p));
    CeilDivFits(a, p, 0);
  }

  // ---- For a drain that failed ------------------------------------------------------------------

  lemma AllOfIt(t: TxState, p: int)
    requires Cuts(t, p)
    ensures Emitted(t, p, t.Weight()) == Emitted(t, p, FrameCount(t, p))
  {
    CountWithinWeight(t, p);
    EmittedSaturates(t, p, t.Weight());
  }

  /** After a failed send what was taken is behind what was drained. */
  lemma FailedIsMore(t: TxState, p: int, k: int, ops: seq<WriterOp>)
    requires p > 0 && t.Pending() && Fits(t, p, k)
    ensures var u := DrainState(t, p, k);
            FailedSend(t, p, k, ops) == More(t, TakenAll(u, ops), ApplyAll(u, ops).closeReq)
            && u.txBuf == [] && (t.closeReq ==> ApplyAll(u, ops).closeReq)
  {
    var u := DrainState(t, p, k);
    RollbackExactIffFits(t, p, k, ops);
    DrainEmptiesIffFits(t, p, k);
    AdvancedFields(t, Chunk(t, p), Limit(t, k));
    WritersAppend(u, ops);
  }

  lemma {:induction false} FinMeansClosed(t: TxState, q: int, n: nat)
    requires Cuts(t, q)
    ensures HasFin(Emitted(t, q, n)) ==> t.closeReq
    decreases n
  {
    if n > 0 && t.Pending() {
      FinMeansClosed(AfterNext(t, q), q, n - 1);
      FinOfTail(NextFrame(t, q), Emitted(AfterNext(t, q), q, n - 1));
    }
  }

  /** A session that has been closed takes no more bytes. */
  lemma {:induction false} ClosedTakesNothing(t: TxState, ops: seq<WriterOp>)
    requires t.closeReq && !t.synNeeded
    ensures TakenAll(t, ops) == []
    decreases |ops|
  {
    if |ops| > 0 {
      ClosedTakesNothing(Apply(t, ops[0]), ops[1..]);
    }
  }

  /** A sender sees whether it is safe by the length of what it drained. */
  lemma SafeIffFull(t: TxState, p: int, k: int, ops: seq<WriterOp>)
    requires p > 0 && t.Pending() && Fits(t, p, k)
    ensures var taken := TakenAll(DrainState(t, p, k), ops);
            SafeToResend(t, p, DrainFrames(t, p, k), taken) <==> taken == [] || (|t.txBuf| > 0 && |t.txBuf| % p == 0)
  {
    hide Emitted, Advanced, TakenAll;
    AdvancedFields(t, p, Limit(t, k));
    FinMeansClosed(t, p, Limit(t, k));
    if t.closeReq {
      ClosedTakesNothing(DrainState(t, p, k), ops);
    }
  }

  /** To begin with these frames is to send them first. */
  lemma HeadOfDrain(t: TxState, p: int, fs: seq<Frame>)
    requires p > 0 && |fs| <= FrameCount(t, p)
    ensures fs <= DrainFrames(t, p, 0) <==> Emitted(t, p, |fs|) == fs
  {
    hide FrameCount, Emitted, Advanced;
    CountWithinWeight(t, p);
    EmittedCompose(t, p, |fs|, t.Weight() - |fs|);
    EmittedCount(t, p, |fs|);
    assert DrainFrames(t, p, 0)[..|fs|] == Emitted(t, p, |fs|);
  }

  /** The next drain begins with the frames of a failed emptying one if and only if nothing was
      taken since, or what it drained fills its last chunk. */
  lemma RetransmissionIff(t: TxState, p: int, k: int, ops: seq<WriterOp>)
    requires p > 0 && t.Sound() && t.Pending() && Fits(t, p, k)
    ensures var first, taken := DrainFrames(t, p, k), TakenAll(DrainState(t, p, k), ops);
            first <= DrainFrames(FailedSend(t, p, k, ops), p, 0)
            <==> taken == [] || (|t.txBuf| > 0 && |t.txBuf| % p == 0)
  {
    hide SafeToResend, FrameCount, Fits, Emitted, Advanced, Apply, ApplyAll, TakenAll, FailedSend;
    var u := DrainState(t, p, k);
    var taken, close := TakenAll(u, ops), ApplyAll(u, ops).closeReq;
    FailedIsMore(t, p, k, ops);
    SafeIffFull(t, p, k, ops);
    ResendIff(t, p, Limit(t, k), taken, close);
    CountGrows(t, p, Limit(t, k), taken, close);
    HeadOfDrain(More(t, taken, close), p, DrainFrames(t, p, k));
  }

  /** If the peer gets both, the failed batch first, it gets every byte under the same
      condition, and only then. */
  lemma LateCopyDeliversAllIff(before: seq<Frame>, t: TxState, p: int, k: int, ops: seq<WriterOp>)
    requires p > 0 && t.Sound() && t.Pending() && Fits(t, p, k) && Reassemble(before).0 == Waiting(t.txSeq, false)
    ensures var first, taken := DrainFrames(t, p, k), TakenAll(DrainState(t, p, k), ops);
            var again := DrainFrames(FailedSend(t, p, k, ops), p, 0);
            Flatten(Reassemble(before + first + again).1) == Flatten(Reassemble(before).1) + (t.txBuf + taken)
            <==> taken == [] || (|t.txBuf| > 0 && |t.txBuf| % p == 0)
  {
    hide SafeToResend, FrameCount, Fits, Reassemble, Accept;
    var u := DrainState(t, p, k);
    SafeIffFull(t, p, k, ops);
    FailedIsMore(t, p, k, ops);
    AllOfIt(More(t, TakenAll(u, ops), ApplyAll(u, ops).closeReq), p);
    LateCopyHarmlessIff(before, t, p, Limit(t, k), TakenAll(u, ops), ApplyAll(u, ops).closeReq);
  }

  // ---- The part of a session that has been sent once ----------------------------------------------

  /** The session as if it had only these bytes, and a close only if one was sent. */
  function Cut(t: TxState, m: nat, fin: bool): TxState
    requires m <= |t.txBuf|
  {
    t.(txBuf := t.txBuf[..m], closeReq := fin)
  }

  lemma {:induction false} PayloadsWithin(t: TxState, p: int, n: nat)
    requires Cuts(t, p)
    ensures |Payloads(Emitted(t, p, n))| <= |t.txBuf|
  {
    EmittedConserves(t, p, n);
  }

  /** Frames depend only on the bytes they carry. */
  lemma {:induction false} SelfCut(t: TxState, p: int, n: nat)
    requires Cuts(t, p)
    ensures var fs := Emitted(t, p, n);
            && |Payloads(fs)| <= |t.txBuf| && Cuts(Cut(t, |Payloads(fs)|, HasFin(fs)), p)
            && Emitted(Cut(t, |Payloads(fs)|, HasFin(fs)), p, |fs|) == fs
    decreases n
  {
    hide NextFrame, AfterNext, Payloads, HasFin;
    PayloadsWithin(t, p, n);
    if n > 0 && t.Pending() {
      var f, a := NextFrame(t, p), AfterNext(t, p);
      var rest := Emitted(a, p, n - 1);
      SelfCut(a, p, n - 1);
      PayloadsAppend([f], rest);
      PayloadsSingle(f);
      FinOfTail(f, rest);
      FinOfOne(f);
      assert rest == [] ==> [f] + rest == [f];
      if f.flags == FLAG_FIN {
        FinEnds(t, p, n - 1);
      }
      SelfCutStep(t, p, |Payloads(rest)|, HasFin([f] + rest));
      NextThen(Cut(t, |f.payload| + |Payloads(rest)|, HasFin([f] + rest)), p, |rest|);
    }
  }

  lemma NextThen(t: TxState, p: int, k: nat)
    requires Cuts(t, p) && t.Pending()
    ensures Emitted(t, p, k + 1) == [NextFrame(t, p)] + Emitted(AfterNext(t, p), p, k)
  {
  }

  lemma SelfCutStep(t: TxState, p: int, m: nat, fin: bool)
    requires Cuts(t, p) && t.Pending() && m <= |AfterNext(t, p).txBuf|
    requires NextFrame(t, p).flags == FLAG_FIN ==> fin
    ensures var len := |NextFrame(t, p).payload|;
            && len + m <= |t.txBuf| && Cuts(Cut(t, len + m, fin), p) && Cut(t, len + m, fin).Pending()
            && NextFrame(Cut(t, len + m, fin), p) == NextFrame(t, p)
            && AfterNext(Cut(t, len + m, fin), p) == Cut(AfterNext(t, p), m, fin)
  {
    if t.synNeeded || |t.txBuf| > 0 {
      CutData(t, p, m, fin, ChunkLen(t, p));
    } else {
      assert t.txBuf[..0] == t.txBuf;
    }
  }

  lemma CutData(t: TxState, p: int, m: nat, fin: bool, len: nat)
    requires Cuts(t, p) && (t.synNeeded || |t.txBuf| > 0) && len == ChunkLen(t, p) && len + m <= |t.txBuf|
    ensures var c := Cut(t, len + m, fin);
            && Cuts(c, p) && c.Pending() && NextFrame(c, p) == NextFrame(t, p)
            && AfterNext(c, p) == Cut(AfterNext(t, p), m, fin) && |NextFrame(t, p).payload| == len
  {
    CutSlices(t.txBuf, len, m);
    assert ChunkLen(Cut(t, len + m, fin), p) == len;
  }

  lemma CutSlices(s: Bytes, a: nat, m: nat)
    requires a + m <= |s|
    ensures s[..a + m][..a] == s[..a] && s[..a + m][a..] == s[a..][..m]
  {
  }

  lemma FinEnds(t: TxState, p: int, n: nat)
    requires Cuts(t, p) && t.Pending() && NextFrame(t, p).flags == FLAG_FIN
    ensures Emitted(AfterNext(t, p), p, n) == []
  {
  }

  /** What is left of the cut session is the session's own remainder, cut. */
  lemma {:induction false} CutAdvance(t: TxState, p: int, k: nat, m: nat, fin: bool)
    requires Cuts(t, p) && m <= |t.txBuf| && Cuts(Cut(t, m, fin), p)
    requires Emitted(Cut(t, m, fin), p, k) == Emitted(t, p, k) && |Emitted(t, p, k)| == k
    ensures var sent := |Payloads(Emitted(t, p, k))|;
            && sent <= m && m - sent <= |Advanced(t, p, k).txBuf|
            && Advanced(Cut(t, m, fin), p, k) == Cut(Advanced(t, p, k), m - sent, fin)
    decreases k
  {
    hide NextFrame, AfterNext, Payloads;
    if k > 0 {
      var c := Cut(t, m, fin);
      var f, a := NextFrame(t, p), AfterNext(t, p);
      var rest := Emitted(a, p, k - 1);
      assert Emitted(t, p, k) == [f] + rest && c.Pending();
      assert Emitted(c, p, k) == [NextFrame(c, p)] + Emitted(AfterNext(c, p), p, k - 1);
      SameHead(f, rest, NextFrame(c, p), Emitted(AfterNext(c, p), p, k - 1));
      CutAdvanceStep(t, p, m, fin);
      PayloadsAppend([f], rest);
      PayloadsSingle(f);
      CutAdvance(a, p, k - 1, m - |f.payload|, fin);
    } else {
      assert Payloads([]) == [] by { NoPayload(); }
    }
  }

  lemma NoPayload()
    ensures Payloads([]) == []
  {
  }

  lemma SameHead(f: Frame, a: seq<Frame>, g: Frame, b: seq<Frame>)
    requires [f] + a == [g] + b
    ensures f == g && a == b
  {
    assert ([f] + a)[0] == f && ([g] + b)[0] == g && ([f] + a)[1..] == a && ([g] + b)[1..] == b;
  }

  lemma CutAdvanceStep(t: TxState, p: int, m: nat, fin: bool)
    requires Cuts(t, p) && t.Pending() && m <= |t.txBuf| && Cuts(Cut(t, m, fin), p) && Cut(t, m, fin).Pending()
    requires NextFrame(Cut(t, m, fin), p) == NextFrame(t, p)
    ensures var len := |NextFrame(t, p).payload|;
            && len <= m && m - len <= |AfterNext(t, p).txBuf| && Cuts(AfterNext(t, p), p)
            && AfterNext(Cut(t, m, fin), p) == Cut(AfterNext(t, p), m - len, fin)
  {
    var len := |NextFrame(t, p).payload|;
    if len <= m {
      CutSlices(t.txBuf, len, m - len);
    }
  }

  /** What has been sent once is sent again, if that is safe. */
  lemma ResendsCut(t: TxState, p: int, m: nat, first: seq<Frame>)
    requires m <= |t.txBuf| && Cuts(Cut(t, m, HasFin(first)), p) && Cuts(t, p) && t.Sound()
    requires first == Emitted(Cut(t, m, HasFin(first)), p, |first|) && |Payloads(first)| == m && first != []
    requires HasFin(first) ==> t.closeReq
    requires SafeToResend(Cut(t, m, HasFin(first)), p, first, t.txBuf[m..])
    ensures Emitted(t, p, |first|) == first
  {
    hide FullChunks, SafeToResend;
    var c := Cut(t, m, HasFin(first));
    assert More(c, t.txBuf[m..], t.closeReq) == t by { assert t.txBuf[..m] + t.txBuf[m..] == t.txBuf; }
    EmittedConserves(c, p, |first|);
    assert c.Pending() && !t.finSent;
    assert Advanced(c, p, |first|).txBuf == [] by {
      assert |Payloads(first)| + |Advanced(c, p, |first|).txBuf| == m;
    }
    ResendIff(c, p, |first|, t.txBuf[m..], t.closeReq);
  }
}

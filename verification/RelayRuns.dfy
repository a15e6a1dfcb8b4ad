/** The two ends of the relay together: the carrier clients of `FleetRuns` and the exit of
    `ExitRuns`, whose session objects reassemble what the network brings them. */
module RelayRuns {
  import opened Prelude
  import opened Frames
  import opened RxSpec
  import opened Senders
  import W = EndToEnd
  import F = FleetRuns
  import X = ExitRuns

  /** Every frame here is the one of its number on this line. */
  ghost predicate Drawn(fs: seq<Frame>, line: seq<Frame>) {
    forall f :: f in fs ==> f.seqNo < |line| && line[f.seqNo] == f
  }

  /** Whatever is drawn from a line, in any order and any number of times, reassembles to the
      payloads of the line's beginning; closed means up to a FIN. */
  lemma DrawnReassembles(fs: seq<Frame>, line: seq<Frame>)
    requires Drawn(fs, line)
    ensures var (st, out) := Reassemble(fs);
            && st.rxSeq <= |line| && Flatten(out) == Payloads(line[..st.rxSeq]) <= Payloads(line)
            && (st.rxClosed ==> st.rxSeq > 0 && line[st.rxSeq - 1].HasFlag(FLAG_FIN))
  {
    hide Reassemble, Seen, InOrder, Payloads, Flatten, ParkedBeyond;
    assert OneStream(fs);
    ReassemblyRefinesInOrder(fs);
    SeenIsArrived(fs);
    var (st, out) := Reassemble(fs);
    var n, seen := st.rxSeq, Seen(fs);
    forall i | 0 <= i < n ensures i < |line| && seen[i] == line[i] {
      assert i in seen && seen[i] in fs && seen[i].seqNo == i;
    }
    assert n > 0 ==> n - 1 < |line|;
    W.InOrderIsPayloads(seen, line, n);
    PayloadsAppend(line[..n], line[n..]);
    assert line == line[..n] + line[n..];
  }

  /** And nothing is held back: once a line's first `n` frames have arrived, in whatever order
      and company, all their bytes have been handed over, and behind a FIN no more. */
  lemma ArrivedIsDelivered(fs: seq<Frame>, line: seq<Frame>, n: nat)
    requires Drawn(fs, line) && n <= |line|
    requires forall i :: 0 <= i < n ==> line[i] in fs && line[i].seqNo == i
    requires forall i :: 0 <= i < n - 1 ==> line[i].flags % 4 < 2
    ensures var (st, out) := Reassemble(fs);
            && n <= st.rxSeq && Payloads(line[..n]) <= Flatten(out)
            && (n > 0 && line[n - 1].flags % 4 >= 2 ==>
                  st.rxSeq == n && st.rxClosed && Flatten(out) == Payloads(line[..n]))
  {
    hide Reassemble, Seen, InOrder, Payloads, Flatten, ParkedBeyond;
    assert OneStream(fs);
    ReassemblyRefinesInOrder(fs);
    SeenIsArrived(fs);
    DrawnReassembles(fs, line);
    var (st, out) := Reassemble(fs);
    var seen := Seen(fs);
    forall i | 0 <= i < n ensures i in seen && seen[i] == line[i] && (i < n - 1 ==> !seen[i].HasFlag(FLAG_FIN)) {
      FlagBits(line[i]);
    }
    PayloadsAppend(line[..n], line[n..st.rxSeq]);
    assert line[..st.rxSeq] == line[..n] + line[n..st.rxSeq];
    if n > 0 {
      FlagBits(line[n - 1]);
    }
  }

  // ---- To the exit -----------------------------------------------------------------------

  /** The frames an object was given. */
  function Given(o: X.Obj): seq<Frame> {
    seq(|o.got|, i requires 0 <= i < |o.got| => o.got[i].1)
  }

  /** What this client's batches brought to the exit is what its sessions got to the network. */
  ghost predicate Brought(c: F.Fleet, x: X.Exit, client: ClientId) {
    forall f :: (client, f) in x.arrived ==> f.sessionId in c.worlds && f in c.worlds[f.sessionId].net
  }

  lemma GivenIsDrawn(c: F.Fleet, x: X.Exit, o: X.Obj)
    requires Brought(c, x, o.owner) && |o.got| > 0
    requires forall i :: 0 <= i < |o.got| ==>
               o.got[i].0 == o.owner && o.got[i].1.sessionId == o.id && o.got[i] in x.arrived
    requires forall id :: id in c.worlds ==> W.NetInv(c.worlds[id])
    ensures o.id in c.worlds && Drawn(Given(o), W.Line(c.worlds[o.id]))
  {
    hide W.Line;
    forall f | f in Given(o) ensures o.id in c.worlds && W.OnLine(c.worlds[o.id], f) {
      var i :| 0 <= i < |o.got| && o.got[i].1 == f;
      assert (o.owner, f) in x.arrived;
    }
    assert Given(o)[0] in Given(o);
  }

  lemma LinesAreAccepted(c: F.Fleet, id: SessionId)
    requires F.Inv(c) && id in c.worlds
    ensures W.NetInv(c.worlds[id]) && Payloads(W.Line(c.worlds[id])) <= c.worlds[id].snd.accepted
  {
    hide W.ShadowInv, SenderInv, W.Line;
    var w := c.worlds[id];
    assert W.Inv(w);
    W.LineIsAccepted(w);
  }

  /** Upstream safety, client to exit: for every run of a client, with any number of poll
      workers, failed polls and late copies, and every run of the exit, with any number of
      requests of any clients, each session object of the client that was given anything
      belongs to a session of that client, and what it reassembles is a prefix of the bytes
      accepted by that very session. */
  lemma UpstreamIsSafe(es: seq<F.Event>, xs: seq<X.Event>, h: X.Handle)
    requires F.BenignRun(F.NEW_FLEET, es) && X.Run(X.NEW_EXIT, xs) && h in X.End(X.NEW_EXIT, xs).objs
    requires Brought(F.End(F.NEW_FLEET, es), X.End(X.NEW_EXIT, xs), X.End(X.NEW_EXIT, xs).objs[h].owner)
    ensures var c, o := F.End(F.NEW_FLEET, es), X.End(X.NEW_EXIT, xs).objs[h];
            |o.got| > 0 ==>
              o.id in c.worlds && Flatten(Reassemble(Given(o)).1) <= c.worlds[o.id].snd.accepted
  {
    hide F.Inv, W.NetInv, W.Line, Reassemble, Payloads, Flatten, Drawn, Brought;
    var c, x := F.End(F.NEW_FLEET, es), X.End(X.NEW_EXIT, xs);
    var o := x.objs[h];
    F.NewFleetOk();
    F.RunInv(F.NEW_FLEET, es);
    X.ClientsAreIsolated(xs);
    forall id | id in c.worlds ensures W.NetInv(c.worlds[id]) {
      LinesAreAccepted(c, id);
    }
    if |o.got| > 0 {
      GivenIsDrawn(c, x, o);
      LinesAreAccepted(c, o.id);
      DrawnReassembles(Given(o), W.Line(c.worlds[o.id]));
    }
  }

  // ---- Back to the client ------------------------------------------------------------------

  /** Downstream safety, exit to client: whichever frames of a session object's responses
      arrive, in whatever order and however often, the client reassembles a prefix of the bytes
      read from that object's upstream - and all of them, if it sees the end. */
  lemma DownstreamIsSafe(xs: seq<X.Event>, h: X.Handle, fs: seq<Frame>)
    requires X.Run(X.NEW_EXIT, xs) && h in X.End(X.NEW_EXIT, xs).objs
    requires forall f :: f in fs ==> f in X.Of(X.End(X.NEW_EXIT, xs).sent, h)
    ensures var s := X.End(X.NEW_EXIT, xs).objs[h].snd;
            && Flatten(Reassemble(fs).1) <= s.accepted
            && (Reassemble(fs).0.rxClosed ==> Flatten(Reassemble(fs).1) == s.accepted)
  {
    hide Reassemble, Payloads, Flatten, X.Of;
    X.ResponsesCarryOneStream(xs, h);
    var log := X.Of(X.End(X.NEW_EXIT, xs).sent, h);
    DrawnReassembles(fs, log);
    var n := Reassemble(fs).0.rxSeq;
    if Reassemble(fs).0.rxClosed {
      assert log[n - 1].HasFlag(FLAG_FIN);
      assert log[..n] == log;
    }
  }
}

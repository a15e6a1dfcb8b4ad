/** A drain that nobody interrupts, as a run of `ExitRuns`: step by step it does what the
    server object does in one go. */
module ExitRefines {
  import opened Prelude
  import opened Frames
  import opened TxSpec
  import opened Drains
  import opened Senders
  import opened ExitSpec
  import M = ExitRuns

  type Exit = M.Exit

  /** The tables as the server object has them, a session's sending side in place of its handle. */
  function View(x: Exit): Core {
    var c := x.tables;
    Tables(map id | id in c.sessions && c.sessions[id] in x.objs :: x.objs[c.sessions[id]].snd.tx,
           c.owners, c.txReady, c.firstReply, c.upstreams, c.lastActivity, c.pendingRSTs, c.pendingCtrl)
  }

  lemma ViewFields(x: Exit)
    ensures View(x).pendingRSTs == x.tables.pendingRSTs && View(x).pendingCtrl == x.tables.pendingCtrl
    ensures forall client :: Control(View(x), client) == Control(x.tables, client)
  {
  }

  function FramesOf(items: seq<M.Item>): seq<Frame> {
    seq(|items|, i requires 0 <= i < |items| => items[i].f)
  }

  /** What has been put into this client's responses since. */
  ghost predicate SentSince(x0: Exit, x: Exit, client: ClientId, fs: seq<Frame>) {
    && x0.sent <= x.sent && FramesOf(x.sent[|x0.sent|..]) == fs
    && forall i :: |x0.sent| <= i < |x.sent| ==> x.sent[i].to == client
  }

  lemma SentMore(x0: Exit, x: Exit, y: Exit, client: ClientId, fs: seq<Frame>, items: seq<M.Item>)
    requires SentSince(x0, x, client, fs) && y.sent == x.sent + items && forall i :: 0 <= i < |items| ==> items[i].to == client
    ensures SentSince(x0, y, client, fs + FramesOf(items))
  {
    assert y.sent[|x0.sent|..] == x.sent[|x0.sent|..] + items;
  }

  lemma {:induction false} RunAppend(x: Exit, a: seq<M.Event>, b: seq<M.Event>)
    requires M.Run(x, a) && M.Run(M.End(x, a), b)
    ensures M.Run(x, a + b) && M.End(x, a + b) == M.End(M.End(x, a), b)
    decreases |a|
  {
    hide M.Step, M.Can;
    if |a| == 0 {
      assert a + b == b;
    } else {
      RunAppend(M.Step(x, a[0]), a[1..], b);
      assert (a + b)[1..] == a[1..] + b && (a + b)[0] == a[0];
    }
  }

  lemma OneStep(x: Exit, e: M.Event)
    requires M.Can(x, e)
    ensures M.Run(x, [e]) && M.End(x, [e]) == M.Step(x, e)
  {
    hide M.Step, M.Can;
    assert [e][1..] == [];
    assert M.Run(M.Step(x, e), []);
  }

  // ---- One turn --------------------------------------------------------------------------------

  /** The drain for this client is between two turns and has got as far as `r`. */
  ghost predicate Mirrors(x0: Exit, x: Exit, client: ClientId, r: Reply) {
    && x.lock == Some(M.Hold(client, M.Between)) && M.Bound(x) && x.tables.owners == x0.tables.owners
    && View(x) == r.core && r.core.txReady <= r.core.sessions.Keys
    && SentSince(x0, x, client, Control(x0.tables, client) + Flatten(r.parts))
  }

  /** The tables after a session's drain and before it is looked at again. */
  function Drew(c: Core, id: SessionId, t: TxState, some: bool, now: int): Core {
    var c1 := c.(sessions := c.sessions[id := t]);
    if some then c1.(firstReply := c.firstReply - {id}, lastActivity := c.lastActivity[id := now]) else c1
  }

  /** One object's sending side has changed. */
  lemma OneChanged(x: Exit, y: Exit, id: SessionId, s: Sender)
    requires M.Bound(x) && id in x.tables.sessions
    requires y.tables.sessions == x.tables.sessions && y.tables.owners == x.tables.owners
    requires var h := x.tables.sessions[id]; y.objs == x.objs[h := x.objs[h].(snd := s)]
    ensures M.Bound(y) && id in View(x).sessions && View(y).sessions == View(x).sessions[id := s.tx]
  {
  }

  lemma DrainStep(x: Exit, client: ClientId, id: SessionId, chunk: int, cap: nat, now: int)
    requires x.lock == Some(M.Hold(client, M.Between)) && M.Bound(x) && M.Can(x, M.DrainOne(id, chunk, cap, now))
    ensures id in View(x).sessions
    ensures var y, t := M.Step(x, M.DrainOne(id, chunk, cap, now)), View(x).sessions[id];
            && M.Bound(y) && y.tables.owners == x.tables.owners && y.lock == Some(M.Hold(client, M.Drained(id)))
            && y.tables.sessions == x.tables.sessions && id in y.tables.sessions
            && View(y) == Drew(View(x), id, DrainState(t, chunk, cap), |DrainFrames(t, chunk, cap)| > 0, now)
            && y.sent == x.sent + M.Items(client, x.tables.sessions[id], DrainFrames(t, chunk, cap))
  {
    hide M.Bound, DrainFrames, DrainState, M.Items, M.Lookup, M.Refusal, M.Controls, M.Flushed, Registered, Removed, Touched, Written, Blocked, Refused;
    var y, s := M.Step(x, M.DrainOne(id, chunk, cap, now)), x.objs[x.tables.sessions[id]].snd;
    OneChanged(x, y, id, Committed(Senders.Drained(s, chunk, cap)));
  }

  lemma LookAgain(x: Exit, client: ClientId, id: SessionId) returns (es: seq<M.Event>)
    requires x.lock == Some(M.Hold(client, M.Drained(id))) && M.Bound(x) && id in x.tables.sessions
    ensures M.Run(x, es) && id in View(x).sessions
    ensures var y := M.End(x, es);
            && M.Bound(y) && y.tables.owners == x.tables.owners && y.lock == Some(M.Hold(client, M.Between))
            && y.sent == x.sent
            && View(y) == if View(x).sessions[id].Pending() then View(x) else View(x).(txReady := View(x).txReady - {id})
  {
    hide M.DrainedFor, M.Items, M.Lookup, M.Refusal, M.Controls, M.Flushed, Registered, Removed, Touched, Written, Blocked, Refused;
    OneStep(x, M.CheckPending);
    var y := M.Step(x, M.CheckPending);
    es := [M.CheckPending];
    if !View(x).sessions[id].Pending() {
      OneStep(y, M.ClearReady);
      RunAppend(x, es, [M.ClearReady]);
      es := es + [M.ClearReady];
    }
  }

  lemma ItemsFrames(to: ClientId, h: M.Handle, fs: seq<Frame>)
    ensures FramesOf(M.Items(to, h, fs)) == fs
    ensures forall i :: 0 <= i < |M.Items(to, h, fs)| ==> M.Items(to, h, fs)[i].to == to
  {
  }

  lemma OneTurn(x0: Exit, x: Exit, client: ClientId, r: Reply, id: SessionId, initial: int, now: int)
    returns (es: seq<M.Event>)
    requires Mirrors(x0, x, client, r) && id in x0.tables.owners && x0.tables.owners[id] == client
    ensures M.Run(x, es) && Mirrors(x0, M.End(x, es), client, ExitSpec.DrainOne(r, id, initial, now))
  {
    hide DrainFrames, DrainState, M.Step, M.Items, SentSince, Control, Flatten, ChunkFor;
    if r.remaining <= 0 || r.remainingBytes <= 0 || id !in r.core.sessions {
      es := [];
      assert id in r.core.sessions || r.core.txReady - {id} == r.core.txReady;
    } else {
      var cap := ShareOf(r);
      var chunk, t := ChunkFor(id in r.core.firstReply, cap, initial), r.core.sessions[id];
      var e := M.DrainOne(id, chunk, cap, now);
      OneStep(x, e);
      DrainStep(x, client, id, chunk, cap, now);
      var y := M.Step(x, e);
      var look := LookAgain(y, client, id);
      RunAppend(x, [e], look);
      es := [e] + look;
      var z, fs := M.End(y, look), DrainFrames(t, chunk, cap);
      ItemsFrames(client, x.tables.sessions[id], fs);
      SentMore(x0, x, z, client, Control(x0.tables, client) + Flatten(r.parts), M.Items(client, x.tables.sessions[id], fs));
      OnePartMore(Control(x0.tables, client), r.parts, fs);
    }
  }

  lemma OnePartMore(before: seq<Frame>, parts: seq<seq<Frame>>, fs: seq<Frame>)
    ensures before + Flatten(parts) + fs == before + Flatten(parts + [fs])
    ensures |fs| == 0 ==> before + Flatten(parts) + fs == before + Flatten(parts)
  {
    FlattenAppend(parts, [fs]);
    assert Flatten([fs]) == fs + Flatten<Frame>([]);
  }

  lemma {:induction false} OnePass(x0: Exit, x: Exit, client: ClientId, r: Reply, refs: seq<SessionId>, initial: int, now: int)
    returns (es: seq<M.Event>)
    requires Mirrors(x0, x, client, r)
    requires forall id :: id in refs ==> id in x0.tables.owners && x0.tables.owners[id] == client
    ensures M.Run(x, es) && Mirrors(x0, M.End(x, es), client, DrainPass(r, refs, initial, now))
    decreases |refs|
  {
    hide Mirrors, ExitSpec.DrainOne;
    if |refs| == 0 {
      es := [];
    } else {
      var first := OneTurn(x0, x, client, r, refs[0], initial, now);
      var rest := OnePass(x0, M.End(x, first), client, ExitSpec.DrainOne(r, refs[0], initial, now), refs[1..], initial, now);
      RunAppend(x, first, rest);
      es := first + rest;
    }
  }

  // ---- The whole drain -----------------------------------------------------------------------------

  lemma DrainBegins(x: Exit, client: ClientId, budget: int)
    requires x.lock.None? && M.Bound(x)
    ensures Mirrors(x, M.Step(x, M.BeginDrain(client)), client, StartReply(View(x), client, budget))
  {
    hide M.DrainedFor, M.Items, Control, Flush, SentSince, FramesOf, BatchCap, M.Lookup, M.Refusal, M.Controls, Registered, Removed, Touched, Written, Blocked, Refused;
    hide M.Bound;
    var y := M.Step(x, M.BeginDrain(client));
    SameObjects(x, y);
    ControlSent(x, y, client, Control(x.tables, client));
  }

  lemma SameObjects(x: Exit, y: Exit)
    requires M.Bound(x) && y.objs == x.objs
    requires y.tables.sessions == x.tables.sessions && y.tables.owners == x.tables.owners
    ensures M.Bound(y) && View(y).sessions == View(x).sessions && View(x).sessions.Keys == x.tables.sessions.Keys
  {
  }

  lemma ControlSent(x: Exit, y: Exit, client: ClientId, fs: seq<Frame>)
    requires y.sent == x.sent + M.Controls(client, fs)
    ensures SentSince(x, y, client, fs + Flatten<Frame>([]))
  {
    assert y.sent[|x.sent|..] == M.Controls(client, fs);
    assert FramesOf(M.Controls(client, fs)) == fs;
    assert fs + Flatten<Frame>([]) == fs;
  }

  lemma DrainEnds(x: Exit, client: ClientId)
    requires x.lock == Some(M.Hold(client, M.Between)) && M.Bound(x)
    ensures var y := M.Step(x, M.EndDrain);
            y.lock.None? && M.Bound(y) && View(y) == View(x) && y.sent == x.sent
  {
    hide M.DrainedFor, M.Items, M.Lookup, M.Refusal, M.Controls, M.Flushed, Registered, Removed, Touched, Written, Blocked, Refused;
  }

  /** An uninterrupted drain of the machine can give exactly the response the server object
      gives, and leaves the tables as it does, whatever the order of the client's sessions. */
  lemma WholeDrain(x: Exit, client: ClientId, budget: int, refs: seq<SessionId>, initial: int, now: int)
    returns (es: seq<M.Event>)
    requires x.lock.None? && M.Bound(x)
    requires forall id :: id in refs ==> id in x.tables.owners && x.tables.owners[id] == client
    ensures M.Run(x, es)
    ensures var y, r := M.End(x, es), DrainAll(View(x), client, budget, refs, initial, now);
            && y.lock.None? && M.Bound(y) && View(y) == r.core
            && x.sent <= y.sent && FramesOf(y.sent[|x.sent|..]) == Control(View(x), client) + SessionFrames(r)
            && forall i :: |x.sent| <= i < |y.sent| ==> y.sent[i].to == client
  {
    hide DrainPass, StartReply, View, Control, M.Step, M.Bound;
    var begin, end := M.BeginDrain(client), M.EndDrain;
    OneStep(x, begin);
    DrainBegins(x, client, budget);
    var y := M.Step(x, begin);
    var pass := OnePass(x, y, client, StartReply(View(x), client, budget), refs, initial, now);
    var z := M.End(y, pass);
    OneStep(z, end);
    DrainEnds(z, client);
    ViewFields(x);
    RunAppend(y, pass, [end]);
    RunAppend(x, [begin], pass + [end]);
    es := [begin] + (pass + [end]);
  }
}

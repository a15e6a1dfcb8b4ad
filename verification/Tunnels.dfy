/** One request at the exit server: its frames are routed, SYNs first, and its response is
    coalesced from as many drains as the byte budget allows. The clock and the upstreams are
    the environment: what arrives before each wake-up is a parameter. */
module Tunnels {
  import opened Prelude
  import opened Frames
  import opened TxSpec
  import opened Sessions
  import opened ExitSpec
  import opened Exits

  const COALESCE_MIN_FRAMES: nat := 4

  /** What the environment makes of a frame: how a dial would end, and whether its payload is
      a version probe. */
  datatype Context = Context(dial: Dial, probe: bool)

  /** What the upstreams deliver before the handler wakes up, and when that is. */
  datatype Wake = Wake(arrivals: seq<(SessionId, Bytes)>, now: int)

  // ---- Routing on values ---------------------------------------------------------------------

  /** The tables after a frame: as `routeIncoming` leaves them, its session touched. */
  function Routed(c: Core, f: Frame, owner: ClientId, x: Context, version: Bytes, now: int): Core {
    var d := Directed(c, f, owner, x.dial, x.probe, version, now);
    if Routing(c, f, owner, x.dial, x.probe) == Reached then Touched(d, f.sessionId, now) else d
  }

  /** Sessions and owners change only when a SYN for a new session connects. */
  lemma RoutedFields(c: Core, f: Frame, owner: ClientId, x: Context, version: Bytes, now: int)
    requires TablesAgree(c)
    ensures var d, id := Routed(c, f, owner, x, version, now), f.sessionId;
            && TablesAgree(d)
            && if id !in c.sessions && f.HasFlag(FLAG_SYN) && x.dial == Connected
               then d.sessions.Keys == c.sessions.Keys + {id} && d.owners == c.owners[id := owner]
               else d.sessions == c.sessions && d.owners == c.owners
  {
    hide Queued, Registered, TablesAgree;
    Agreeing(c, f.sessionId, NewExitSession(f.sessionId, f.target), owner, now);
    var d := Directed(c, f, owner, x.dial, x.probe, version, now);
    QueuesDoNotMatter(c, d);
    TouchAgrees(d, f.sessionId, now);
  }

  lemma Agreeing(c: Core, id: SessionId, t: TxState, owner: ClientId, now: int)
    requires TablesAgree(c)
    ensures var d := Registered(c, id, t, owner, now);
            TablesAgree(d) && d.sessions.Keys == c.sessions.Keys + {id} && d.owners == c.owners[id := owner]
  {
  }

  lemma TouchAgrees(c: Core, id: SessionId, now: int)
    requires TablesAgree(c)
    ensures TablesAgree(Touched(c, id, now))
  {
  }

  lemma QueuesDoNotMatter(c: Core, d: Core)
    requires TablesAgree(c)
    ensures d == c.(pendingRSTs := d.pendingRSTs, pendingCtrl := d.pendingCtrl) ==> TablesAgree(d)
  {
  }

  /** The tables after those of the first `n` frames that are, or are not, SYNs. */
  function RoutedTo(c: Core, frames: seq<Frame>, owner: ClientId, xs: seq<Context>, syns: bool, version: Bytes,
                    now: int, n: nat): Core
    requires n <= |frames| == |xs|
    decreases n
  {
    if n == 0 then c
    else
      var d := RoutedTo(c, frames, owner, xs, syns, version, now, n - 1);
      if frames[n - 1].HasFlag(FLAG_SYN) == syns then Routed(d, frames[n - 1], owner, xs[n - 1], version, now) else d
  }

  /** All SYNs first, then all other frames. */
  function BatchRouted(c: Core, frames: seq<Frame>, owner: ClientId, xs: seq<Context>, version: Bytes, now: int): Core
    requires |frames| == |xs|
  {
    RoutedTo(RoutedTo(c, frames, owner, xs, true, version, now, |frames|), frames, owner, xs, false, version, now, |frames|)
  }

  /** The sessions whose SYN is among the first `n` frames and connects. */
  function Dialed(frames: seq<Frame>, xs: seq<Context>, n: nat): set<SessionId>
    requires n <= |frames| == |xs|
  {
    set i | 0 <= i < n && frames[i].HasFlag(FLAG_SYN) && xs[i].dial == Connected :: frames[i].sessionId
  }

  /** The frame has a session to go to: one registered for its client before, or one that a
      SYN of the batch opens - for a SYN, itself or one before it. */
  ghost predicate HasSession(c: Core, frames: seq<Frame>, owner: ClientId, xs: seq<Context>, i: nat)
    requires i < |frames| == |xs|
  {
    var id := frames[i].sessionId;
    if id in c.sessions then id in c.owners && c.owners[id] == owner
    else id in Dialed(frames, xs, if frames[i].HasFlag(FLAG_SYN) then i + 1 else |frames|)
  }

  /** `d` has the sessions of `c`, for the same clients, and these new ones for this client. */
  ghost predicate Joined(c: Core, d: Core, owner: ClientId, new_: set<SessionId>) {
    && TablesAgree(c) && TablesAgree(d) && d.sessions.Keys == c.sessions.Keys + new_
    && forall id :: id in d.sessions ==> d.owners[id] == if id in c.sessions then c.owners[id] else owner
  }

  lemma {:induction false} SynsJoin(c: Core, frames: seq<Frame>, owner: ClientId, xs: seq<Context>, version: Bytes,
                                    now: int, n: nat)
    requires TablesAgree(c) && n <= |frames| == |xs|
    ensures Joined(c, RoutedTo(c, frames, owner, xs, true, version, now, n), owner,
                   Dialed(frames, xs, n) - c.sessions.Keys)
    decreases n
  {
    hide Routed, Joined, TablesAgree, Dialed;
    if n == 0 {
      NoneJoin(c, owner);
      DialedNone(frames, xs);
    } else {
      SynsJoin(c, frames, owner, xs, version, now, n - 1);
      DialedNext(frames, xs, n);
      var d := RoutedTo(c, frames, owner, xs, true, version, now, n - 1);
      if frames[n - 1].HasFlag(FLAG_SYN) {
        JoinOne(c, d, owner, Dialed(frames, xs, n - 1), frames[n - 1], xs[n - 1], version, now);
      } else {
        assert Dialed(frames, xs, n) == Dialed(frames, xs, n - 1);
      }
    }
  }

  lemma DialedNone(frames: seq<Frame>, xs: seq<Context>)
    requires |frames| == |xs|
    ensures Dialed(frames, xs, 0) == {}
  {
  }

  lemma NoneJoin(c: Core, owner: ClientId)
    requires TablesAgree(c)
    ensures Joined(c, c, owner, {} - c.sessions.Keys)
  {
  }

  lemma DialedNext(frames: seq<Frame>, xs: seq<Context>, n: nat)
    requires 0 < n <= |frames| == |xs|
    ensures Dialed(frames, xs, n) == Dialed(frames, xs, n - 1)
            + if frames[n - 1].HasFlag(FLAG_SYN) && xs[n - 1].dial == Connected then {frames[n - 1].sessionId} else {}
  {
  }

  /** Routing one SYN adds its session if it is new and connects. */
  lemma JoinOne(c: Core, d: Core, owner: ClientId, dialed: set<SessionId>, f: Frame, x: Context, version: Bytes, now: int)
    requires TablesAgree(c) && Joined(c, d, owner, dialed - c.sessions.Keys) && f.HasFlag(FLAG_SYN)
    ensures Joined(c, Routed(d, f, owner, x, version, now), owner,
                   (dialed + if x.dial == Connected then {f.sessionId} else {}) - c.sessions.Keys)
  {
    hide Routed;
    RoutedFields(d, f, owner, x, version, now);
  }

  /** Routing any other frame adds none. */
  lemma {:induction false} OthersJoinNone(c: Core, frames: seq<Frame>, owner: ClientId, xs: seq<Context>, version: Bytes,
                                          now: int, n: nat)
    requires TablesAgree(c) && n <= |frames| == |xs|
    ensures var d := RoutedTo(c, frames, owner, xs, false, version, now, n);
            TablesAgree(d) && d.sessions == c.sessions && d.owners == c.owners
    decreases n
  {
    hide Routed;
    if n > 0 {
      OthersJoinNone(c, frames, owner, xs, version, now, n - 1);
      RoutedFields(RoutedTo(c, frames, owner, xs, false, version, now, n - 1), frames[n - 1], owner, xs[n - 1], version, now);
    }
  }

  /** A SYN reaches a session exactly when there is one for it. */
  lemma SynReaches(c: Core, frames: seq<Frame>, owner: ClientId, xs: seq<Context>, version: Bytes, now: int, i: nat)
    requires TablesAgree(c) && i < |frames| == |xs| && frames[i].HasFlag(FLAG_SYN)
    ensures Routing(RoutedTo(c, frames, owner, xs, true, version, now, i), frames[i], owner, xs[i].dial, xs[i].probe) == Reached
            <==> HasSession(c, frames, owner, xs, i)
  {
    hide RoutedTo, Dialed;
    SynsJoin(c, frames, owner, xs, version, now, i);
    DialedNext(frames, xs, i + 1);
  }

  /** So does any other frame, once all SYNs have been routed. */
  lemma OtherReaches(c: Core, frames: seq<Frame>, owner: ClientId, xs: seq<Context>, version: Bytes, now: int, i: nat)
    requires TablesAgree(c) && i < |frames| == |xs| && !frames[i].HasFlag(FLAG_SYN)
    ensures var d := RoutedTo(c, frames, owner, xs, true, version, now, |frames|);
            Routing(RoutedTo(d, frames, owner, xs, false, version, now, i), frames[i], owner, xs[i].dial, xs[i].probe) == Reached
            <==> HasSession(c, frames, owner, xs, i)
  {
    hide RoutedTo, Dialed;
    SynsJoin(c, frames, owner, xs, version, now, |frames|);
    OthersJoinNone(RoutedTo(c, frames, owner, xs, true, version, now, |frames|), frames, owner, xs, version, now, i);
  }

  // ---- Activity ------------------------------------------------------------------------------

  /** A frame that reaches its session makes it active now; no other session's activity changes. */
  lemma RoutedActivity(c: Core, f: Frame, owner: ClientId, x: Context, version: Bytes, now: int)
    requires TablesAgree(c)
    ensures var d, reached := Routed(c, f, owner, x, version, now), Routing(c, f, owner, x.dial, x.probe) == Reached;
            && TablesAgree(d)
            && (reached ==> f.sessionId in d.lastActivity && d.lastActivity[f.sessionId] == now)
            && forall id :: id in c.lastActivity && !(reached && id == f.sessionId) ==>
                 id in d.lastActivity && d.lastActivity[id] == c.lastActivity[id]
  {
    hide Queued;
    RoutedFields(c, f, owner, x, version, now);
  }

  lemma {:induction false} RoutedToAgrees(c: Core, frames: seq<Frame>, owner: ClientId, xs: seq<Context>, syns: bool,
                                          version: Bytes, now: int, n: nat)
    requires TablesAgree(c) && n <= |frames| == |xs|
    ensures TablesAgree(RoutedTo(c, frames, owner, xs, syns, version, now, n))
    decreases n
  {
    hide Routed, TablesAgree;
    if n > 0 {
      RoutedToAgrees(c, frames, owner, xs, syns, version, now, n - 1);
      RoutedFields(RoutedTo(c, frames, owner, xs, syns, version, now, n - 1), frames[n - 1], owner, xs[n - 1], version, now);
    }
  }

  /** What is active now stays so. */
  lemma {:induction false} StaysActive(c: Core, frames: seq<Frame>, owner: ClientId, xs: seq<Context>, syns: bool,
                                       version: Bytes, now: int, n: nat, id: SessionId)
    requires TablesAgree(c) && n <= |frames| == |xs| && id in c.lastActivity && c.lastActivity[id] == now
    ensures var d := RoutedTo(c, frames, owner, xs, syns, version, now, n); id in d.lastActivity && d.lastActivity[id] == now
    decreases n
  {
    hide Routed, TablesAgree, Routing;
    if n > 0 {
      StaysActive(c, frames, owner, xs, syns, version, now, n - 1, id);
      RoutedToAgrees(c, frames, owner, xs, syns, version, now, n - 1);
      RoutedActivity(RoutedTo(c, frames, owner, xs, syns, version, now, n - 1), frames[n - 1], owner, xs[n - 1], version, now);
    }
  }

  lemma {:induction false} BecomesActive(c: Core, frames: seq<Frame>, owner: ClientId, xs: seq<Context>, syns: bool,
                                         version: Bytes, now: int, n: nat, i: nat)
    requires TablesAgree(c) && i < n <= |frames| == |xs| && frames[i].HasFlag(FLAG_SYN) == syns
    requires Routing(RoutedTo(c, frames, owner, xs, syns, version, now, i), frames[i], owner, xs[i].dial, xs[i].probe) == Reached
    ensures var d, id := RoutedTo(c, frames, owner, xs, syns, version, now, n), frames[i].sessionId;
            id in d.lastActivity && d.lastActivity[id] == now
    decreases n
  {
    hide Routed, TablesAgree, Routing;
    RoutedToAgrees(c, frames, owner, xs, syns, version, now, n - 1);
    RoutedActivity(RoutedTo(c, frames, owner, xs, syns, version, now, n - 1), frames[n - 1], owner, xs[n - 1], version, now);
    if i < n - 1 {
      BecomesActive(c, frames, owner, xs, syns, version, now, n - 1, i);
    }
  }

  lemma {:induction false} StaysIdle(c: Core, frames: seq<Frame>, owner: ClientId, xs: seq<Context>, syns: bool,
                                     version: Bytes, now: int, routes: seq<Option<Route>>, n: nat, id: SessionId)
    requires TablesAgree(c) && n <= |frames| == |xs| == |routes| && id in c.lastActivity
    requires Went(c, frames, owner, xs, syns, version, now, routes, n)
    requires forall i :: 0 <= i < |frames| && frames[i].sessionId == id ==> !(routes[i].Some? && routes[i].value.ToSession?)
    ensures var d := RoutedTo(c, frames, owner, xs, syns, version, now, n);
            id in d.lastActivity && d.lastActivity[id] == c.lastActivity[id]
    decreases n
  {
    hide Routed, TablesAgree, Routing, Went;
    if n > 0 {
      WentThere(c, frames, owner, xs, syns, version, now, routes, n, n - 1);
      WentFewer(c, frames, owner, xs, syns, version, now, routes, n);
      StaysIdle(c, frames, owner, xs, syns, version, now, routes, n - 1, id);
      RoutedToAgrees(c, frames, owner, xs, syns, version, now, n - 1);
      RoutedActivity(RoutedTo(c, frames, owner, xs, syns, version, now, n - 1), frames[n - 1], owner, xs[n - 1], version, now);
    }
  }

  /** A batch makes exactly the sessions active that its frames reach. */
  lemma BatchActivity(c: Core, frames: seq<Frame>, owner: ClientId, xs: seq<Context>, version: Bytes, now: int,
                      routes: seq<Option<Route>>)
    requires TablesAgree(c) && |frames| == |xs| == |routes|
    requires Went(c, frames, owner, xs, true, version, now, routes, |frames|)
    requires Went(RoutedTo(c, frames, owner, xs, true, version, now, |frames|), frames, owner, xs, false, version, now, routes, |frames|)
    ensures var d := BatchRouted(c, frames, owner, xs, version, now);
            && (forall i :: 0 <= i < |frames| && routes[i].Some? && routes[i].value.ToSession? ==>
                  frames[i].sessionId in d.lastActivity && d.lastActivity[frames[i].sessionId] == now)
            && (forall id :: id in c.lastActivity ==>
                  id in d.lastActivity && (d.lastActivity[id] == c.lastActivity[id]
                  || exists i :: 0 <= i < |frames| && frames[i].sessionId == id && routes[i].Some? && routes[i].value.ToSession?))
  {
    hide TablesAgree, RoutedTo, Routing, Went;
    var n, m := |frames|, RoutedTo(c, frames, owner, xs, true, version, now, |frames|);
    RoutedToAgrees(c, frames, owner, xs, true, version, now, n);
    forall i | 0 <= i < n && routes[i].Some? && routes[i].value.ToSession?
      ensures var d := BatchRouted(c, frames, owner, xs, version, now);
              frames[i].sessionId in d.lastActivity && d.lastActivity[frames[i].sessionId] == now
    {
      WentThere(c, frames, owner, xs, true, version, now, routes, n, i);
      WentThere(m, frames, owner, xs, false, version, now, routes, n, i);
      if frames[i].HasFlag(FLAG_SYN) {
        BecomesActive(c, frames, owner, xs, true, version, now, n, i);
        StaysActive(m, frames, owner, xs, false, version, now, n, frames[i].sessionId);
      } else {
        BecomesActive(m, frames, owner, xs, false, version, now, n, i);
      }
    }
    forall id | id in c.lastActivity
      ensures var d := BatchRouted(c, frames, owner, xs, version, now);
              id in d.lastActivity && (d.lastActivity[id] == c.lastActivity[id]
              || exists i :: 0 <= i < n && frames[i].sessionId == id && routes[i].Some? && routes[i].value.ToSession?)
    {
      if i :| 0 <= i < n && frames[i].sessionId == id && routes[i].Some? && routes[i].value.ToSession? {
      } else {
        StaysIdle(c, frames, owner, xs, true, version, now, routes, n, id);
        StaysIdle(m, frames, owner, xs, false, version, now, routes, n, id);
      }
    }
  }

  lemma WentThere(c: Core, frames: seq<Frame>, owner: ClientId, xs: seq<Context>, syns: bool, version: Bytes, now: int,
                  routes: seq<Option<Route>>, n: nat, i: nat)
    requires i < n <= |frames| == |xs| == |routes| && Went(c, frames, owner, xs, syns, version, now, routes, n)
    ensures frames[i].HasFlag(FLAG_SYN) == syns ==>
              && routes[i].Some?
              && (routes[i].value.ToSession? <==>
                  Routing(RoutedTo(c, frames, owner, xs, syns, version, now, i), frames[i], owner, xs[i].dial, xs[i].probe) == Reached)
  {
    hide RoutedTo, Routing;
  }

  lemma WentFewer(c: Core, frames: seq<Frame>, owner: ClientId, xs: seq<Context>, syns: bool, version: Bytes, now: int,
                  routes: seq<Option<Route>>, n: nat)
    requires 0 < n <= |frames| == |xs| == |routes| && Went(c, frames, owner, xs, syns, version, now, routes, n)
    ensures Went(c, frames, owner, xs, syns, version, now, routes, n - 1)
  {
    hide RoutedTo, Routing;
  }

  lemma WentAlike(c: Core, frames: seq<Frame>, owner: ClientId, xs: seq<Context>, syns: bool, version: Bytes, now: int,
                  routes: seq<Option<Route>>, routes': seq<Option<Route>>, n: nat)
    requires n <= |frames| == |xs| == |routes| == |routes'| && Went(c, frames, owner, xs, syns, version, now, routes, n)
    requires forall i :: 0 <= i < |frames| && frames[i].HasFlag(FLAG_SYN) == syns ==> routes'[i] == routes[i]
    ensures Went(c, frames, owner, xs, syns, version, now, routes', n)
  {
    hide RoutedTo, Routing;
  }

  // ---- Routing a batch -----------------------------------------------------------------------

  /** The frame's session, if it got one, is the one now registered for this client. */
  ghost predicate Placed(sessions: map<SessionId, Session>, owners: map<SessionId, ClientId>, f: Frame,
                         owner: ClientId, r: Option<Route>)
  {
    r.Some? && r.value.ToSession? ==>
      && f.sessionId in sessions && sessions[f.sessionId] == r.value.s
      && f.sessionId in owners && owners[f.sessionId] == owner
  }

  ghost predicate Opened(sessions: map<SessionId, Session>, owners: map<SessionId, ClientId>, frames: seq<Frame>,
                         owner: ClientId, routes: seq<Option<Route>>)
  {
    |routes| == |frames| && forall i :: 0 <= i < |frames| ==> Placed(sessions, owners, frames[i], owner, routes[i])
  }

  ghost predicate Extends<K, V>(m: map<K, V>, m': map<K, V>) {
    forall k :: k in m ==> k in m' && m'[k] == m[k]
  }

  lemma ExtendsTwice<K, V>(a: map<K, V>, b: map<K, V>, c: map<K, V>)
    requires Extends(a, b) && Extends(b, c)
    ensures Extends(a, c)
  {
  }

  lemma OpenedMore(s0: map<SessionId, Session>, o0: map<SessionId, ClientId>, s1: map<SessionId, Session>,
                   o1: map<SessionId, ClientId>, frames: seq<Frame>, owner: ClientId, routes: seq<Option<Route>>,
                   i: nat, r: Route)
    requires Extends(s0, s1) && Extends(o0, o1) && Opened(s0, o0, frames, owner, routes)
    requires i < |frames| && Placed(s1, o1, frames[i], owner, Some(r))
    ensures Opened(s1, o1, frames, owner, routes[i := Some(r)])
  {
    forall k | 0 <= k < |frames| ensures Placed(s1, o1, frames[k], owner, routes[k]) {
      assert Placed(s0, o0, frames[k], owner, routes[k]);
    }
  }

  /** `routeIncoming` for one frame, and the touch after it. */
  method RouteOne(server: Server, f: Frame, owner: ClientId, context: Context, version: Bytes, now: int, ghost c: Core)
    returns (r: Route)
    requires server.Valid() && server.Is(c) && TablesAgree(c)
    modifies server`sessions, server`sessionOwners, server`upstreams, server`firstReply, server`lastActivity,
             server`pendingRSTs, server`pendingCtrl
    ensures server.Valid() && KindOf(r) == Routing(c, f, owner, context.dial, context.probe)
    ensures server.Is(Routed(c, f, owner, context, version, now)) && TablesAgree(Routed(c, f, owner, context, version, now))
    ensures Extends(old(server.sessions), server.sessions) && Extends(old(server.sessionOwners), server.sessionOwners)
    ensures Placed(server.sessions, server.sessionOwners, f, owner, Some(r))
  {
    hide StatesOf, Directed, Routing, Touched, TablesAgree, Server.Is, Server.Abs;
    server.IsAbs(c);
    server.AgreeingKeys();
    RoutedFields(c, f, owner, context, version, now);
    r := server.RouteIncoming(f, owner, context.dial, context.probe, version, now);
    server.AgreeingKeys();
    server.IsAbs(Directed(c, f, owner, context.dial, context.probe, version, now));
    if r.ToSession? {
      server.Touch(f.sessionId, now);
    }
  }

  /** The frames of one kind went where the tables of their moment sent them. */
  ghost predicate Went(c: Core, frames: seq<Frame>, owner: ClientId, xs: seq<Context>, syns: bool, version: Bytes,
                       now: int, routes: seq<Option<Route>>, n: nat)
    requires n <= |frames| == |xs| == |routes|
  {
    forall i :: 0 <= i < n && frames[i].HasFlag(FLAG_SYN) == syns ==>
      && routes[i].Some?
      && KindOf(routes[i].value) == Routing(RoutedTo(c, frames, owner, xs, syns, version, now, i), frames[i], owner, xs[i].dial, xs[i].probe)
  }

  lemma NothingYetRouted(s: map<SessionId, Session>, o: map<SessionId, ClientId>, c: Core, frames: seq<Frame>,
                         owner: ClientId, xs: seq<Context>, syns: bool, version: Bytes, now: int, routes: seq<Option<Route>>)
    requires |frames| == |xs| == |routes|
    ensures Extends(s, s) && Extends(o, o) && Went(c, frames, owner, xs, syns, version, now, routes, 0)
  {
  }

  lemma WentMore(c: Core, frames: seq<Frame>, owner: ClientId, xs: seq<Context>, syns: bool, version: Bytes, now: int,
                 routes: seq<Option<Route>>, i: nat, r: Route)
    requires i < |frames| == |xs| == |routes| && Went(c, frames, owner, xs, syns, version, now, routes, i)
    requires KindOf(r) == Routing(RoutedTo(c, frames, owner, xs, syns, version, now, i), frames[i], owner, xs[i].dial, xs[i].probe)
    ensures Went(c, frames, owner, xs, syns, version, now, routes[i := Some(r)], i + 1)
  {
    hide RoutedTo, Routing;
  }

  lemma WentOn(c: Core, frames: seq<Frame>, owner: ClientId, xs: seq<Context>, syns: bool, version: Bytes, now: int,
               routes: seq<Option<Route>>, i: nat)
    requires i < |frames| == |xs| == |routes| && Went(c, frames, owner, xs, syns, version, now, routes, i)
    requires frames[i].HasFlag(FLAG_SYN) != syns
    ensures Went(c, frames, owner, xs, syns, version, now, routes, i + 1)
  {
    hide RoutedTo, Routing;
  }

  /** One kind of frame, in order. */
  method RouteKind(server: Server, frames: seq<Frame>, owner: ClientId, contexts: seq<Context>, syns: bool,
                   before: seq<Option<Route>>, version: Bytes, now: int, ghost c: Core)
    returns (routes: seq<Option<Route>>)
    requires |contexts| == |frames| && server.Valid() && server.Is(c) && TablesAgree(c)
    requires Opened(server.sessions, server.sessionOwners, frames, owner, before)
    modifies server`sessions, server`sessionOwners, server`upstreams, server`firstReply, server`lastActivity,
             server`pendingRSTs, server`pendingCtrl
    ensures server.Valid() && |routes| == |frames|
    ensures server.Is(RoutedTo(c, frames, owner, contexts, syns, version, now, |frames|))
    ensures TablesAgree(RoutedTo(c, frames, owner, contexts, syns, version, now, |frames|))
    ensures Opened(server.sessions, server.sessionOwners, frames, owner, routes)
    ensures Extends(old(server.sessions), server.sessions) && Extends(old(server.sessionOwners), server.sessionOwners)
    ensures forall i :: 0 <= i < |frames| && frames[i].HasFlag(FLAG_SYN) != syns ==> routes[i] == before[i]
    ensures Went(c, frames, owner, contexts, syns, version, now, routes, |frames|)
  {
    hide TablesAgree, Opened, Placed, StatesOf, Routed, Routing, Went, Extends, Server.Is;
    routes := before;
    OpenedLength(server.sessions, server.sessionOwners, frames, owner, routes);
    NothingYetRouted(server.sessions, server.sessionOwners, c, frames, owner, contexts, syns, version, now, routes);
    ghost var d := c;
    for i := 0 to |frames|
      invariant server.Valid() && server.Is(d) && TablesAgree(d) && |routes| == |frames|
      invariant d == RoutedTo(c, frames, owner, contexts, syns, version, now, i)
      invariant Opened(server.sessions, server.sessionOwners, frames, owner, routes)
      invariant Extends(old(server.sessions), server.sessions) && Extends(old(server.sessionOwners), server.sessionOwners)
      invariant forall k :: 0 <= k < |frames| && (k >= i || frames[k].HasFlag(FLAG_SYN) != syns) ==> routes[k] == before[k]
      invariant Went(c, frames, owner, contexts, syns, version, now, routes, i)
    {
      if frames[i].HasFlag(FLAG_SYN) == syns {
        ghost var s0, o0 := server.sessions, server.sessionOwners;
        var r := RouteOne(server, frames[i], owner, contexts[i], version, now, d);
        WentMore(c, frames, owner, contexts, syns, version, now, routes, i, r);
        OpenedMore(s0, o0, server.sessions, server.sessionOwners, frames, owner, routes, i, r);
        ExtendsTwice(old(server.sessions), s0, server.sessions);
        ExtendsTwice(old(server.sessionOwners), o0, server.sessionOwners);
        routes := routes[i := Some(r)];
        d := Routed(d, frames[i], owner, contexts[i], version, now);
      } else {
        WentOn(c, frames, owner, contexts, syns, version, now, routes, i);
      }
    }
  }

  lemma OpenedLength(s: map<SessionId, Session>, o: map<SessionId, ClientId>, frames: seq<Frame>, owner: ClientId,
                     routes: seq<Option<Route>>)
    requires Opened(s, o, frames, owner, routes)
    ensures |routes| == |frames|
  {
  }

  /** Frame `j` is a SYN that got a session, and frame `i` is a later kind of frame for it. */
  predicate Follows(frames: seq<Frame>, routes: seq<Option<Route>>, i: nat, j: nat) {
    && i < |frames| == |routes| && j < |frames| && frames[i].sessionId == frames[j].sessionId
    && frames[j].HasFlag(FLAG_SYN) && !frames[i].HasFlag(FLAG_SYN)
    && routes[j].Some? && routes[j].value.ToSession?
  }

  /** All SYNs of a batch are routed before any other frame: a frame reaches a session exactly
      when its client has one registered or a SYN of the batch opens it, so that data sent in
      the same batch as its own SYN reaches the session that SYN opened. The tables end as
      routing the frames in that order leaves them, and no session is replaced. */
  method RouteBatch(server: Server, frames: seq<Frame>, owner: ClientId, contexts: seq<Context>,
                    version: Bytes, now: int)
    returns (routes: seq<Option<Route>>)
    requires |contexts| == |frames| && server.Valid() && TablesAgree(server.Abs())
    modifies server`sessions, server`sessionOwners, server`upstreams, server`firstReply, server`lastActivity,
             server`pendingRSTs, server`pendingCtrl
    ensures server.Valid() && server.Is(BatchRouted(old(server.Abs()), frames, owner, contexts, version, now))
    ensures TablesAgree(BatchRouted(old(server.Abs()), frames, owner, contexts, version, now))
    ensures Extends(old(server.sessions), server.sessions) && Extends(old(server.sessionOwners), server.sessionOwners)
    ensures |routes| == |frames| && Opened(server.sessions, server.sessionOwners, frames, owner, routes)
    ensures forall i :: 0 <= i < |frames| ==> routes[i].Some?
    ensures forall i :: 0 <= i < |frames| ==>
              (routes[i].value.ToSession? <==> HasSession(old(server.Abs()), frames, owner, contexts, i))
    ensures forall i: nat, j: nat :: Follows(frames, routes, i, j) ==> routes[i] == routes[j]
    ensures forall i :: 0 <= i < |frames| && routes[i].value.ToSession? ==>
              frames[i].sessionId in server.lastActivity && server.lastActivity[frames[i].sessionId] == now
    ensures forall id :: id in old(server.lastActivity) ==>
              id in server.lastActivity && (server.lastActivity[id] == old(server.lastActivity)[id]
              || exists i :: 0 <= i < |frames| && frames[i].sessionId == id && routes[i].value.ToSession?)
  {
    hide TablesAgree, Opened, RoutedTo, Routing, HasSession;
    ghost var c := server.Abs();
    var none: seq<Option<Route>> := seq(|frames|, _ => None);
    NoneOpened(server.sessions, server.sessionOwners, frames, owner, none);
    var syns := RouteKind(server, frames, owner, contexts, true, none, version, now, c);
    ghost var s0, o0 := server.sessions, server.sessionOwners;
    ghost var d := RoutedTo(c, frames, owner, contexts, true, version, now, |frames|);
    routes := RouteKind(server, frames, owner, contexts, false, syns, version, now, d);
    ExtendsTwice(old(server.sessions), s0, server.sessions);
    ExtendsTwice(old(server.sessionOwners), o0, server.sessionOwners);
    forall i | 0 <= i < |frames|
      ensures routes[i].Some? && (routes[i].value.ToSession? <==> HasSession(c, frames, owner, contexts, i))
    {
      if frames[i].HasFlag(FLAG_SYN) {
        SynReaches(c, frames, owner, contexts, version, now, i);
      } else {
        OtherReaches(c, frames, owner, contexts, version, now, i);
      }
    }
    FollowersShare(server.sessions, server.sessionOwners, frames, owner, routes, c, contexts);
    WentAlike(c, frames, owner, contexts, true, version, now, syns, routes, |frames|);
    BatchActivity(c, frames, owner, contexts, version, now, routes);
  }

  lemma NoneOpened(s: map<SessionId, Session>, o: map<SessionId, ClientId>, frames: seq<Frame>, owner: ClientId,
                   routes: seq<Option<Route>>)
    requires |routes| == |frames| && forall i :: 0 <= i < |frames| ==> routes[i] == None
    ensures Opened(s, o, frames, owner, routes)
  {
  }

  lemma FollowersShare(s: map<SessionId, Session>, o: map<SessionId, ClientId>, frames: seq<Frame>, owner: ClientId,
                       routes: seq<Option<Route>>, c: Core, contexts: seq<Context>)
    requires |contexts| == |frames| && Opened(s, o, frames, owner, routes)
    requires forall i :: 0 <= i < |frames| ==>
               routes[i].Some? && (routes[i].value.ToSession? <==> HasSession(c, frames, owner, contexts, i))
    ensures forall i: nat, j: nat :: Follows(frames, routes, i, j) ==> routes[i] == routes[j]
  {
    forall i: nat, j: nat | Follows(frames, routes, i, j) ensures routes[i] == routes[j] {
      assert HasSession(c, frames, owner, contexts, j) && HasSession(c, frames, owner, contexts, i);
      assert Placed(s, o, frames[j], owner, routes[j]) && Placed(s, o, frames[i], owner, routes[i]);
    }
  }

  // ---- Coalescing a response --------------------------------------------------------------------

  lemma {:induction false} CoalesceSnoc(sofar: Response, rounds: seq<Round>, round: Round, owner: ClientId, initial: int)
    ensures var r := Coalesce(sofar, rounds, owner, initial);
            Coalesce(sofar, rounds + [round], owner, initial)
            == if r.TotalBytes() >= MAX_RESPONSE_BYTES then r else NextRound(r, round, owner, initial)
    decreases |rounds|
  {
    hide NextRound;
    if |rounds| == 0 {
      assert rounds + [round] == [round] && [round][1..] == [];
    } else if sofar.TotalBytes() < MAX_RESPONSE_BYTES {
      assert (rounds + [round])[1..] == rounds[1..] + [round];
      CoalesceSnoc(NextRound(sofar, rounds[0], owner, initial), rounds[1..], round, owner, initial);
    }
  }

  // ---- One request's drains, one after the other ----------------------------------------------------

  /** What a handler goes on from: the tables, the queue ages, the drains so far, what they
      gathered, and whether the last one was urgent. */
  datatype Handler = Handler(core: Core, age: map<SessionId, Stamp>, past: seq<Round>, sofar: Response, urgent: bool)

  function Start(core: Core, age: map<SessionId, Stamp>): Handler {
    Handler(core, age, [], NO_RESPONSE, false)
  }

  /** Upstream data is taken by its session, which reports itself ready. */
  function FedOne(h: Handler, id: SessionId, data: Bytes, now: int): Handler {
    if id !in h.core.sessions || id !in h.age then h
    else
      var t := h.core.sessions[id];
      if Blocked(t, Write(data)) || Refused(t, Write(data)) then h
      else h.(core := h.core.(sessions := h.core.sessions[id := Apply(t, Write(data))], txReady := h.core.txReady + {id}),
              age := h.age[id := SetOnce(h.age[id], now)])
  }

  function FedBy(h: Handler, arrivals: seq<(SessionId, Bytes)>, now: int): Handler
    decreases |arrivals|
  {
    if |arrivals| == 0 then h
    else
      var n := |arrivals| - 1;
      FedOne(FedBy(h, arrivals[..n], now), arrivals[n].0, arrivals[n].1, now)
  }

  function Fed(h: Handler, wake: Wake): Handler {
    FedBy(h, wake.arrivals, wake.now)
  }

  /** One more drain, with what is left of the byte budget. */
  function DrainFor(h: Handler, owner: ClientId, refs: seq<SessionId>, initial: int, now: int): Handler {
    var budget, round := MAX_RESPONSE_BYTES - h.sofar.TotalBytes(), Round(h.core, refs, now);
    var r := ExitSpec.DrainAll(h.core, owner, budget, refs, initial, now);
    Handler(r.core, PassAges(h.age, StartReply(h.core, owner, budget), refs, initial, now),
            h.past + [round], NextRound(h.sofar, round, owner, initial), r.urgent)
  }

  /** It serves the client's ready sessions oldest first. */
  ghost predicate Drains(h: Handler, h': Handler, owner: ClientId, initial: int, now: int) {
    exists refs :: ReadyInOrder(h.core, owner, refs, h.age) && h' == DrainFor(h, owner, refs, initial, now)
  }

  /** What one more drain does: what was queued for the client, then frames of its sessions
      for what 22 MiB still leave, are added to the response. */
  lemma DrainsMore(h: Handler, h': Handler, owner: ClientId, initial: int, now: int)
    requires Drains(h, h', owner, initial, now)
    ensures exists refs ::
              && ReadyInOrder(h.core, owner, refs, h.age)
              && var r := ExitSpec.DrainAll(h.core, owner, 22 * 1024 * 1024 - |Payloads(h.sofar.frames)|, refs, initial, now);
              && h'.core == r.core && h'.urgent == r.urgent && h'.past == h.past + [Round(h.core, refs, now)]
              && h'.sofar.frames == h.sofar.frames + (Control(h.core, owner) + Flatten(r.parts))
              && h'.sofar.sessionBytes == h.sofar.sessionBytes + |Payloads(Flatten(r.parts))|
  {
    hide ExitSpec.DrainAll, Control, ReadyInOrder, PassAges, Payloads;
    var refs :| ReadyInOrder(h.core, owner, refs, h.age) && h' == DrainFor(h, owner, refs, initial, now);
    assert h'.core == ExitSpec.DrainAll(h.core, owner, 22 * 1024 * 1024 - |Payloads(h.sofar.frames)|, refs, initial, now).core;
  }

  /** What an arrival does: unless the session is unknown, closed, or has more than the high
      water mark buffered, its bytes are appended, the session is ready, and its place in the
      queue dates from now unless it had one. Other sessions do not notice. */
  lemma FedOneTakes(h: Handler, id: SessionId, data: Bytes, now: int)
    ensures var h' := FedOne(h, id, data, now);
            if id in h.core.sessions && id in h.age && !h.core.sessions[id].closeReq && |h.core.sessions[id].txBuf| <= 8 * 1024 * 1024
            then && h'.core.sessions == h.core.sessions[id := h.core.sessions[id].(txBuf := h.core.sessions[id].txBuf + data)]
                 && h'.core.txReady == h.core.txReady + {id}
                 && h'.age == h.age[id := if h.age[id] == Never then At(now) else h.age[id]]
            else h' == h
  {
  }

  /** Arrivals are taken one after the other. */
  lemma {:induction false} FedInTurn(h: Handler, a: seq<(SessionId, Bytes)>, b: seq<(SessionId, Bytes)>, x: (SessionId, Bytes),
                                     now: int)
    ensures FedBy(h, a + b, now) == FedBy(FedBy(h, a, now), b, now)
    ensures FedBy(h, [x], now) == FedOne(h, x.0, x.1, now)
    decreases |b|
  {
    hide FedOne;
    assert [x][..0] == [];
    if |b| == 0 {
      assert a + b == a;
    } else {
      assert (a + b)[..|a + b| - 1] == a + b[..|b| - 1];
      FedInTurn(h, a, b[..|b| - 1], x, now);
    }
  }

  /** `hs` are the handler's states after each drain, the first at once and one per wake-up. */
  ghost predicate Trace(start: Handler, hs: seq<Handler>, wakes: seq<Wake>, owner: ClientId, initial: int, now: int) {
    && |hs| == |wakes| + 1 && Drains(start, hs[0], owner, initial, now)
    && forall k :: 0 <= k < |wakes| ==> Drains(Fed(hs[k], wakes[k]), hs[k + 1], owner, initial, wakes[k].now)
  }

  predicate WorthCoalescing(h: Handler) {
    !h.urgent && |h.sofar.frames| > COALESCE_MIN_FRAMES && h.sofar.TotalBytes() < MAX_RESPONSE_BYTES
  }

  /** When a handler stops: it waits, `i` times, only while it has nothing; then it coalesces,
      `j` times, only if that is worth while and budget is left - and it stops no sooner. */
  ghost predicate Stops(hs: seq<Handler>, waits: nat, bursts: nat, i: nat, j: nat)
    requires |hs| == i + j + 1
  {
    && i <= waits && j <= bursts
    && (forall k :: 0 <= k < i ==> hs[k].sofar.frames == [])
    && (hs[i].sofar.frames != [] || i == waits)
    && (forall k :: i <= k < i + j ==> hs[k].sofar.TotalBytes() < MAX_RESPONSE_BYTES)
    && if WorthCoalescing(hs[i]) then j == bursts || hs[i + j].sofar.TotalBytes() >= MAX_RESPONSE_BYTES else j == 0
  }

  lemma TraceMore(start: Handler, hs: seq<Handler>, wakes: seq<Wake>, owner: ClientId, initial: int, now: int,
                  wake: Wake, h: Handler)
    requires Trace(start, hs, wakes, owner, initial, now)
    requires Drains(Fed(hs[|wakes|], wake), h, owner, initial, wake.now)
    ensures Trace(start, hs + [h], wakes + [wake], owner, initial, now)
  {
    hide Drains, Fed;
    var hs', wakes' := hs + [h], wakes + [wake];
    forall k | 0 <= k < |wakes'| ensures Drains(Fed(hs'[k], wakes'[k]), hs'[k + 1], owner, initial, wakes'[k].now) {
      if k < |wakes| {
        assert Drains(Fed(hs[k], wakes[k]), hs[k + 1], owner, initial, wakes[k].now);
      }
    }
  }

  // ---- What a response is made of ----------------------------------------------------------------------

  ghost predicate OwnIds(c: Core) {
    forall id :: id in c.sessions ==> c.sessions[id].id == id
  }

  /** The frame is from a session of this client. */
  predicate OwnedBy(owners: map<SessionId, ClientId>, owner: ClientId, f: Frame) {
    f.sessionId in owners && owners[f.sessionId] == owner
  }

  /** What was queued for the client at the start, then frames of its own sessions, as many
      bytes of them as counted and within the bound; nothing is queued any more. */
  ghost predicate Shaped(c0: Core, owner: ClientId, h: Handler) {
    && h.core.owners == c0.owners && OwnIds(h.core) && Control(h.core, owner) == []
    && WithinBound(h.sofar) && Control(c0, owner) <= h.sofar.frames
    && DataOk(c0.owners, owner, h.sofar.frames[|Control(c0, owner)|..], h.sofar.sessionBytes)
  }

  ghost predicate DataOk(owners: map<SessionId, ClientId>, owner: ClientId, data: seq<Frame>, bytes: nat) {
    |Payloads(data)| == bytes && forall f :: f in data ==> OwnedBy(owners, owner, f)
  }

  ghost predicate PartsOwned(owners: map<SessionId, ClientId>, owner: ClientId, r: Reply) {
    OwnIds(r.core) && forall f :: f in SessionFrames(r) ==> OwnedBy(owners, owner, f)
  }

  lemma TurnOwned(owners: map<SessionId, ClientId>, owner: ClientId, r: Reply, id: SessionId, initial: int, now: int)
    requires PartsOwned(owners, owner, r) && id in owners && owners[id] == owner
    ensures PartsOwned(owners, owner, DrainOne(r, id, initial, now))
  {
    hide Emitted, Advanced, ChunkFor, Payloads;
    if r.remaining > 0 && r.remainingBytes > 0 && id in r.core.sessions {
      var t, cap := r.core.sessions[id], ShareOf(r);
      var chunk := ChunkFor(id in r.core.firstReply, cap, initial);
      EmittedIds(t, Chunk(t, chunk), Limit(t, cap));
      AdvancedFields(t, Chunk(t, chunk), Limit(t, cap));
      FlattenAppend(r.parts, [DrainFrames(t, chunk, cap)]);
      assert Flatten([DrainFrames(t, chunk, cap)]) == DrainFrames(t, chunk, cap);
    }
  }

  lemma {:induction false} PassOwned(owners: map<SessionId, ClientId>, owner: ClientId, r: Reply, refs: seq<SessionId>,
                                     initial: int, now: int)
    requires PartsOwned(owners, owner, r) && forall id :: id in refs ==> id in owners && owners[id] == owner
    ensures PartsOwned(owners, owner, DrainPass(r, refs, initial, now))
    ensures var c, c' := r.core, DrainPass(r, refs, initial, now).core;
            c'.owners == c.owners && c'.pendingRSTs == c.pendingRSTs && c'.pendingCtrl == c.pendingCtrl
    decreases |refs|
  {
    if |refs| > 0 {
      TurnOwned(owners, owner, r, refs[0], initial, now);
      PassOwned(owners, owner, DrainOne(r, refs[0], initial, now), refs[1..], initial, now);
    }
  }

  lemma DrainOwned(c: Core, owner: ClientId, budget: int, refs: seq<SessionId>, initial: int, now: int)
    requires OwnIds(c) && forall id :: id in refs ==> id in c.owners && c.owners[id] == owner
    ensures var r := ExitSpec.DrainAll(c, owner, budget, refs, initial, now);
            && r.core.owners == c.owners && OwnIds(r.core) && Control(r.core, owner) == []
            && forall f :: f in SessionFrames(r) ==> OwnedBy(c.owners, owner, f)
  {
    hide DrainPass;
    var r0 := StartReply(c, owner, budget);
    assert SessionFrames(r0) == [];
    PassOwned(c.owners, owner, r0, refs, initial, now);
  }

  lemma {:induction false} FedKeeps(h: Handler, arrivals: seq<(SessionId, Bytes)>, now: int)
    requires OwnIds(h.core)
    ensures var h' := FedBy(h, arrivals, now);
            && h'.core.owners == h.core.owners && OwnIds(h'.core) && h'.sofar == h.sofar && h'.past == h.past
            && h'.core.pendingRSTs == h.core.pendingRSTs && h'.core.pendingCtrl == h.core.pendingCtrl
    decreases |arrivals|
  {
    if |arrivals| > 0 {
      FedKeeps(h, arrivals[..|arrivals| - 1], now);
    }
  }

  /** The first drain gives the response its shape. */
  lemma FirstShaped(c0: Core, age: map<SessionId, Stamp>, h: Handler, owner: ClientId, initial: int, now: int)
    requires OwnIds(c0) && initial > 0 && Drains(Start(c0, age), h, owner, initial, now)
    ensures Shaped(c0, owner, h)
  {
    hide ExitSpec.DrainAll, Control, WithinBound, DataOk, Payloads, ReadyInOrder, SessionFrames, PassAges, StartReply, OwnIds;
    var refs :| ReadyInOrder(c0, owner, refs, age) && h == DrainFor(Start(c0, age), owner, refs, initial, now);
    NothingYet();
    OwnersOfReady(c0, owner, refs, age);
    DrainOwned(c0, owner, MAX_RESPONSE_BYTES, refs, initial, now);
    RoundBound(NO_RESPONSE, Round(c0, refs, now), owner, initial);
    FirstData(c0, owner, SessionFrames(ExitSpec.DrainAll(c0, owner, MAX_RESPONSE_BYTES, refs, initial, now)), h.sofar);
  }

  lemma FirstData(c0: Core, owner: ClientId, more: seq<Frame>, after: Response)
    requires forall f :: f in more ==> OwnedBy(c0.owners, owner, f)
    requires after == Response([] + (Control(c0, owner) + more), 0 + |Payloads(more)|)
    ensures Control(c0, owner) <= after.frames
    ensures DataOk(c0.owners, owner, after.frames[|Control(c0, owner)|..], after.sessionBytes)
  {
    hide Control, Payloads;
    assert after.frames[|Control(c0, owner)|..] == more;
  }

  lemma NothingYet()
    ensures WithinBound(NO_RESPONSE) && NO_RESPONSE.TotalBytes() == 0
  {
    assert Payloads([]) == [];
  }

  /** Every further one keeps it. */
  lemma NextShaped(c0: Core, h: Handler, wake: Wake, h': Handler, owner: ClientId, initial: int)
    requires Shaped(c0, owner, h) && initial > 0 && h.sofar.TotalBytes() < MAX_RESPONSE_BYTES
    requires Drains(Fed(h, wake), h', owner, initial, wake.now)
    ensures Shaped(c0, owner, h')
  {
    hide ExitSpec.DrainAll, FedBy, WithinBound, DataOk, Payloads, ReadyInOrder, Control, SessionFrames, PassAges, StartReply, OwnIds;
    var g := Fed(h, wake);
    FedKeeps(h, wake.arrivals, wake.now);
    var refs :| ReadyInOrder(g.core, owner, refs, g.age) && h' == DrainFor(g, owner, refs, initial, wake.now);
    var budget := MAX_RESPONSE_BYTES - g.sofar.TotalBytes();
    OwnersOfReady(g.core, owner, refs, g.age);
    Quiet(h.core, g.core, owner);
    DrainOwned(g.core, owner, budget, refs, initial, wake.now);
    RoundBound(g.sofar, Round(g.core, refs, wake.now), owner, initial);
    MoreData(c0, owner, h.sofar, SessionFrames(ExitSpec.DrainAll(g.core, owner, budget, refs, initial, wake.now)), h'.sofar);
  }

  lemma OwnersOfReady(c: Core, owner: ClientId, refs: seq<SessionId>, age: map<SessionId, Stamp>)
    requires ReadyInOrder(c, owner, refs, age)
    ensures forall id :: id in refs ==> id in c.owners && c.owners[id] == owner
  {
  }

  lemma Quiet(c: Core, d: Core, owner: ClientId)
    requires Control(c, owner) == [] && d.pendingRSTs == c.pendingRSTs && d.pendingCtrl == c.pendingCtrl
    ensures Control(d, owner) == []
  {
  }

  lemma MoreData(c0: Core, owner: ClientId, sofar: Response, more: seq<Frame>, after: Response)
    requires Control(c0, owner) <= sofar.frames
    requires DataOk(c0.owners, owner, sofar.frames[|Control(c0, owner)|..], sofar.sessionBytes)
    requires forall f :: f in more ==> OwnedBy(c0.owners, owner, f)
    requires after == Response(sofar.frames + ([] + more), sofar.sessionBytes + |Payloads(more)|)
    ensures Control(c0, owner) <= after.frames
    ensures DataOk(c0.owners, owner, after.frames[|Control(c0, owner)|..], after.sessionBytes)
  {
    hide Control, Payloads;
    var n := |Control(c0, owner)|;
    assert after.frames[n..] == sofar.frames[n..] + more;
    PayloadsAppend(sofar.frames[n..], more);
  }

  /** A handler's drains are rounds of coalescing. */
  lemma PastCoalesces(h: Handler, h': Handler, owner: ClientId, initial: int, now: int)
    requires h.sofar == Coalesce(NO_RESPONSE, h.past, owner, initial) && h.sofar.TotalBytes() < MAX_RESPONSE_BYTES
    requires Drains(h, h', owner, initial, now)
    ensures h'.sofar == Coalesce(NO_RESPONSE, h'.past, owner, initial)
  {
    hide Coalesce, NextRound;
    var refs :| ReadyInOrder(h.core, owner, refs, h.age) && h' == DrainFor(h, owner, refs, initial, now);
    CoalesceSnoc(NO_RESPONSE, h.past, Round(h.core, refs, now), owner, initial);
  }

  // ---- The code ------------------------------------------------------------------------------------------

  /** The server is where the handler left it. */
  ghost predicate Holds(server: Server, h: Handler)
    reads server, server.sessions.Values
  {
    server.Is(h.core) && server.Ages() == h.age
  }

  method FeedOne(server: Server, id: SessionId, data: Bytes, now: int, ghost h: Handler)
    requires server.Valid() && Holds(server, h)
    modifies server`txReady, server.sessions.Values`txBuf, server.sessions.Values`firstQueuedAt
    ensures server.Valid() && Holds(server, FedOne(h, id, data, now))
  {
    hide StatesOf;
    if id in server.sessions {
      server.StateOf(id);
      server.AgeOf(id);
      var r := server.Upstream(id, data, now, h.core.sessions[id], h.age[id]);
    }
  }

  method Feed(server: Server, wake: Wake, ghost h: Handler)
    requires server.Valid() && Holds(server, h)
    modifies server`txReady, server.sessions.Values`txBuf, server.sessions.Values`firstQueuedAt
    ensures server.Valid() && Holds(server, Fed(h, wake))
  {
    hide Holds, FedOne;
    ghost var g := h;
    for i := 0 to |wake.arrivals|
      invariant server.Valid() && Holds(server, g) && g == FedBy(h, wake.arrivals[..i], wake.now)
    {
      assert wake.arrivals[..i + 1][..i] == wake.arrivals[..i];
      FeedOne(server, wake.arrivals[i].0, wake.arrivals[i].1, wake.now, g);
      g := FedOne(g, wake.arrivals[i].0, wake.arrivals[i].1, wake.now);
    }
    assert wake.arrivals[..|wake.arrivals|] == wake.arrivals;
  }

  /** One more drain, with what is left of the budget. */
  method DrainMore(server: Server, owner: ClientId, out: seq<Frame>, totalBytes: nat, now: int, ghost h: Handler)
    returns (out': seq<Frame>, totalBytes': nat, urgent: bool, ghost h': Handler)
    requires server.Valid() && Holds(server, h) && out == h.sofar.frames && totalBytes == |Payloads(out)|
    modifies server`txReady, server`firstReply, server`lastActivity, server`pendingCtrl, server`pendingRSTs
    modifies server.sessions.Values`txBuf, server.sessions.Values`txSeq, server.sessions.Values`synNeeded
    modifies server.sessions.Values`finSent, server.sessions.Values`finSentAt, server.sessions.Values`firstQueuedAt
    ensures server.Valid() && Holds(server, h') && Drains(h, h', owner, server.initialResponseBytes, now)
    ensures out' == h'.sofar.frames && totalBytes' == |Payloads(out')| && urgent == h'.urgent
  {
    hide Control, ExitSpec.DrainAll, StartReply, SessionFrames, ReadyInOrder, PassAges;
    ghost var refs;
    var more;
    server.IsAbs(h.core);
    more, urgent, refs := server.DrainAll(owner, MAX_RESPONSE_BYTES - totalBytes, now);
    out', totalBytes' := out + more, totalBytes + |Payloads(more)|;
    PayloadsAppend(out, more);
    h' := DrainFor(h, owner, refs, server.initialResponseBytes, now);
  }

  /** Drains until something is there or the wait is over. */
  method Await(server: Server, owner: ClientId, waits: seq<Wake>, now: int)
    returns (out: seq<Frame>, totalBytes: nat, urgent: bool, i: nat, ghost hs: seq<Handler>)
    requires server.Valid()
    modifies server`txReady, server`firstReply, server`lastActivity, server`pendingCtrl, server`pendingRSTs
    modifies server.sessions.Values`txBuf, server.sessions.Values`txSeq, server.sessions.Values`synNeeded
    modifies server.sessions.Values`finSent, server.sessions.Values`finSentAt, server.sessions.Values`firstQueuedAt
    ensures server.Valid() && |hs| == i + 1 && i <= |waits|
    ensures Trace(Start(old(server.Abs()), old(server.Ages())), hs, waits[..i], owner, server.initialResponseBytes, now)
    ensures Holds(server, hs[i]) && out == hs[i].sofar.frames && totalBytes == |Payloads(out)| && urgent == hs[i].urgent
    ensures (forall k :: 0 <= k < i ==> hs[k].sofar.frames == []) && (hs[i].sofar.frames != [] || i == |waits|)
  {
    hide Holds, Drains, Fed;
    ghost var start, initial := Start(server.Abs(), server.Ages()), server.initialResponseBytes;
    HoldsStart(server);
    NothingYet();
    ghost var h;
    out, totalBytes, urgent, h := DrainMore(server, owner, [], 0, now, start);
    i, hs := 0, [h];
    assert waits[..0] == [];
    while |out| == 0 && i < |waits|
      invariant server.Valid() && i <= |waits| && |hs| == i + 1 && Holds(server, hs[i])
      invariant Trace(start, hs, waits[..i], owner, initial, now)
      invariant out == hs[i].sofar.frames && totalBytes == |Payloads(out)| && urgent == hs[i].urgent
      invariant forall k :: 0 <= k < i ==> hs[k].sofar.frames == []
    {
      Feed(server, waits[i], hs[i]);
      FedSofar(hs[i], waits[i]);
      out, totalBytes, urgent, h := DrainMore(server, owner, out, totalBytes, waits[i].now, Fed(hs[i], waits[i]));
      TraceMore(start, hs, waits[..i], owner, initial, now, waits[i], h);
      assert waits[..i + 1] == waits[..i] + [waits[i]];
      i, hs := i + 1, hs + [h];
    }
  }

  lemma HoldsStart(server: Server)
    ensures Holds(server, Start(server.Abs(), server.Ages()))
  {
  }

  lemma {:induction false} FedSofar(h: Handler, wake: Wake)
    ensures Fed(h, wake).sofar == h.sofar
  {
    FedBySofar(h, wake.arrivals, wake.now);
  }

  lemma {:induction false} FedBySofar(h: Handler, arrivals: seq<(SessionId, Bytes)>, now: int)
    ensures FedBy(h, arrivals, now).sofar == h.sofar
    decreases |arrivals|
  {
    if |arrivals| > 0 {
      FedBySofar(h, arrivals[..|arrivals| - 1], now);
    }
  }

  /** Drains again on every wake-up while budget is left. */
  method CoalesceBursts(server: Server, owner: ClientId, frames: seq<Frame>, bytes: nat, bursts: seq<Wake>,
                        ghost start: Handler, ghost hs: seq<Handler>, ghost wakes: seq<Wake>, ghost now: int)
    returns (out: seq<Frame>, j: nat, ghost all: seq<Handler>)
    requires server.Valid() && Trace(start, hs, wakes, owner, server.initialResponseBytes, now)
    requires Holds(server, hs[|wakes|]) && frames == hs[|wakes|].sofar.frames && bytes == |Payloads(frames)|
    modifies server`txReady, server`firstReply, server`lastActivity, server`pendingCtrl, server`pendingRSTs
    modifies server.sessions.Values`txBuf, server.sessions.Values`txSeq, server.sessions.Values`synNeeded
    modifies server.sessions.Values`finSent, server.sessions.Values`finSentAt, server.sessions.Values`firstQueuedAt
    ensures server.Valid() && j <= |bursts| && hs <= all
    ensures Trace(start, all, wakes + bursts[..j], owner, server.initialResponseBytes, now)
    ensures Holds(server, all[|wakes| + j]) && out == all[|wakes| + j].sofar.frames
    ensures forall k :: |wakes| <= k < |wakes| + j ==> all[k].sofar.TotalBytes() < MAX_RESPONSE_BYTES
    ensures j == |bursts| || all[|wakes| + j].sofar.TotalBytes() >= MAX_RESPONSE_BYTES
  {
    hide Holds, Drains, Fed;
    ghost var n, initial := |wakes|, server.initialResponseBytes;
    out, j, all := frames, 0, hs;
    var totalBytes := bytes;
    assert wakes + bursts[..0] == wakes;
    while j < |bursts| && totalBytes < MAX_RESPONSE_BYTES
      invariant server.Valid() && j <= |bursts| && hs <= all && |all| == n + j + 1 && Holds(server, all[n + j])
      invariant Trace(start, all, wakes + bursts[..j], owner, initial, now)
      invariant out == all[n + j].sofar.frames && totalBytes == |Payloads(out)|
      invariant forall k :: n <= k < n + j ==> all[k].sofar.TotalBytes() < MAX_RESPONSE_BYTES
    {
      Feed(server, bursts[j], all[n + j]);
      FedSofar(all[n + j], bursts[j]);
      var urgent; ghost var h;
      out, totalBytes, urgent, h := DrainMore(server, owner, out, totalBytes, bursts[j].now, Fed(all[n + j], bursts[j]));
      TraceMore(start, all, wakes + bursts[..j], owner, initial, now, bursts[j], h);
      assert wakes + bursts[..j + 1] == wakes + bursts[..j] + [bursts[j]];
      j, all := j + 1, all + [h];
    }
  }

  /** Everything but the final clean-up. */
  method Gather(server: Server, owner: ClientId, waits: seq<Wake>, bursts: seq<Wake>, now: int)
    returns (out: seq<Frame>, ghost hs: seq<Handler>, ghost i: nat, ghost j: nat)
    requires server.Valid()
    modifies server`txReady, server`firstReply, server`lastActivity, server`pendingCtrl, server`pendingRSTs
    modifies server.sessions.Values`txBuf, server.sessions.Values`txSeq, server.sessions.Values`synNeeded
    modifies server.sessions.Values`finSent, server.sessions.Values`finSentAt, server.sessions.Values`firstQueuedAt
    ensures server.Valid() && |hs| == i + j + 1 && i <= |waits| && j <= |bursts|
    ensures Trace(Start(old(server.Abs()), old(server.Ages())), hs, waits[..i] + bursts[..j], owner,
                  server.initialResponseBytes, now)
    ensures Stops(hs, |waits|, |bursts|, i, j) && Holds(server, hs[i + j]) && out == hs[i + j].sofar.frames
  {
    hide Holds, Trace;
    ghost var start := Start(server.Abs(), server.Ages());
    var totalBytes, urgent, n;
    out, totalBytes, urgent, n, hs := Await(server, owner, waits, now);
    i, j := n, 0;
    assert waits[..i] + bursts[..0] == waits[..i];
    if !urgent && |out| > COALESCE_MIN_FRAMES && totalBytes < MAX_RESPONSE_BYTES {
      ghost var first := hs;
      var m;
      out, m, hs := CoalesceBursts(server, owner, out, totalBytes, bursts, start, hs, waits[..i], now);
      j := m;
      TraceLength(start, hs, waits[..i] + bursts[..j], owner, server.initialResponseBytes, now);
      assert forall k :: 0 <= k <= i ==> hs[k] == first[k];
    }
  }

  lemma TraceLength(start: Handler, hs: seq<Handler>, wakes: seq<Wake>, owner: ClientId, initial: int, now: int)
    requires Trace(start, hs, wakes, owner, initial, now)
    ensures |hs| == |wakes| + 1
  {
  }

  /** While budget is left after every drain but the last, all states are well shaped. */
  lemma {:induction false} TraceShaped(c0: Core, age: map<SessionId, Stamp>, hs: seq<Handler>, wakes: seq<Wake>,
                                       owner: ClientId, initial: int, now: int, k: nat)
    requires OwnIds(c0) && initial > 0 && Trace(Start(c0, age), hs, wakes, owner, initial, now) && k <= |wakes|
    requires forall m :: 0 <= m < k ==> hs[m].sofar.TotalBytes() < MAX_RESPONSE_BYTES
    ensures Shaped(c0, owner, hs[k]) && hs[k].sofar == Coalesce(NO_RESPONSE, hs[k].past, owner, initial)
    decreases k
  {
    hide Shaped, Coalesce, Drains, Fed;
    if k == 0 {
      FirstShaped(c0, age, hs[0], owner, initial, now);
      NothingYet();
      NoRounds(owner, initial);
      PastCoalesces(Start(c0, age), hs[0], owner, initial, now);
    } else {
      TraceShaped(c0, age, hs, wakes, owner, initial, now, k - 1);
      assert Drains(Fed(hs[k - 1], wakes[k - 1]), hs[k - 1 + 1], owner, initial, wakes[k - 1].now);
      NextShaped(c0, hs[k - 1], wakes[k - 1], hs[k], owner, initial);
      FedSame(hs[k - 1], wakes[k - 1]);
      PastCoalesces(Fed(hs[k - 1], wakes[k - 1]), hs[k], owner, initial, wakes[k - 1].now);
    }
  }

  lemma NoRounds(owner: ClientId, initial: int)
    ensures Coalesce(NO_RESPONSE, [], owner, initial) == NO_RESPONSE
  {
  }

  lemma {:induction false} FedSame(h: Handler, wake: Wake)
    ensures Fed(h, wake).sofar == h.sofar && Fed(h, wake).past == h.past
  {
    FedByPast(h, wake.arrivals, wake.now);
    FedBySofar(h, wake.arrivals, wake.now);
  }

  lemma {:induction false} FedByPast(h: Handler, arrivals: seq<(SessionId, Bytes)>, now: int)
    ensures FedBy(h, arrivals, now).past == h.past
    decreases |arrivals|
  {
    if |arrivals| > 0 {
      FedByPast(h, arrivals[..|arrivals| - 1], now);
    }
  }

  /** Where a handler stops, its response has the shape. */
  lemma StopsShaped(c0: Core, age: map<SessionId, Stamp>, hs: seq<Handler>, waits: seq<Wake>, bursts: seq<Wake>,
                    owner: ClientId, initial: int, now: int, i: nat, j: nat)
    requires OwnIds(c0) && initial > 0 && |hs| == i + j + 1 && i <= |waits| && j <= |bursts|
    requires Trace(Start(c0, age), hs, waits[..i] + bursts[..j], owner, initial, now)
    requires Stops(hs, |waits|, |bursts|, i, j)
    ensures Shaped(c0, owner, hs[i + j])
  {
    hide Shaped, Trace;
    assert Payloads([]) == [];
    TraceShaped(c0, age, hs, waits[..i] + bursts[..j], owner, initial, now, i + j);
  }

  /** A drain over sessions of this client only. */
  ghost predicate OwnRound(round: Round, owner: ClientId) {
    OwnIds(round.core) && forall id :: id in round.refs ==> id in round.core.owners && round.core.owners[id] == owner
  }

  /** Where a frame of a drain for this client comes from. */
  ghost predicate FromRound(round: Round, owner: ClientId, f: Frame) {
    f in Control(round.core, owner) || OwnedBy(round.core.owners, owner, f)
  }

  /** Whatever other requests do to the tables between a handler's drains - queue resets, drain,
      open or remove sessions - every frame of the response was queued for its client, or comes
      from a session that was its client's, at the time of one of the drains. */
  lemma {:induction false} MadeOfOwnFrames(sofar: Response, rounds: seq<Round>, owner: ClientId, initial: int, f: Frame)
    requires forall k :: 0 <= k < |rounds| ==> OwnRound(rounds[k], owner)
    requires f in Coalesce(sofar, rounds, owner, initial).frames
    ensures f in sofar.frames || exists k :: 0 <= k < |rounds| && FromRound(rounds[k], owner, f)
    decreases |rounds|
  {
    hide FromRound, OwnRound, NextRound;
    if |rounds| > 0 && sofar.TotalBytes() < MAX_RESPONSE_BYTES {
      var next := NextRound(sofar, rounds[0], owner, initial);
      MadeOfOwnFrames(next, rounds[1..], owner, initial, f);
      if f in next.frames {
        RoundFrames(sofar, rounds[0], owner, initial, f);
      } else {
        var k :| 0 <= k < |rounds[1..]| && FromRound(rounds[1..][k], owner, f);
        assert FromRound(rounds[k + 1], owner, f);
      }
    }
  }

  lemma RoundFrames(sofar: Response, round: Round, owner: ClientId, initial: int, f: Frame)
    requires OwnRound(round, owner) && f in NextRound(sofar, round, owner, initial).frames
    ensures f in sofar.frames || FromRound(round, owner, f)
  {
    hide ExitSpec.DrainAll, Control, SessionFrames;
    DrainOwned(round.core, owner, MAX_RESPONSE_BYTES - sofar.TotalBytes(), round.refs, initial, round.now);
  }

  /** Wake-up by wake-up, the waits and then the bursts; and when the handler stopped. */
  lemma TraceInTurn(start: Handler, hs: seq<Handler>, waits: seq<Wake>, bursts: seq<Wake>, owner: ClientId, initial: int,
                    now: int, i: nat, j: nat)
    requires |hs| == i + j + 1 && i <= |waits| && j <= |bursts| && Stops(hs, |waits|, |bursts|, i, j)
    requires Trace(start, hs, waits[..i] + bursts[..j], owner, initial, now)
    ensures Drains(start, hs[0], owner, initial, now)
    ensures forall k :: 0 <= k < i + j ==>
              var wake := if k < i then waits[k] else bursts[k - i];
              Drains(Fed(hs[k], wake), hs[k + 1], owner, initial, wake.now)
    ensures (forall k :: 0 <= k < i ==> hs[k].sofar.frames == []) && (hs[i].sofar.frames != [] || i == |waits|)
    ensures if !hs[i].urgent && |hs[i].sofar.frames| > 4 && |Payloads(hs[i].sofar.frames)| < 22 * 1024 * 1024
            then && (forall k :: i <= k < i + j ==> |Payloads(hs[k].sofar.frames)| < 22 * 1024 * 1024)
                 && (j == |bursts| || |Payloads(hs[i + j].sofar.frames)| >= 22 * 1024 * 1024)
            else j == 0
  {
    hide Drains, Fed;
    var wakes := waits[..i] + bursts[..j];
    forall k | 0 <= k < i + j
      ensures var wake := if k < i then waits[k] else bursts[k - i];
              Drains(Fed(hs[k], wake), hs[k + 1], owner, initial, wake.now)
    {
      assert Drains(Fed(hs[k], wakes[k]), hs[k + 1], owner, initial, wakes[k].now);
    }
  }

  /** The clean-up behind a response that carried something. */
  method CleanUp(server: Server, out: seq<Frame>, now: int, ghost c: Core) returns (ghost gone: set<SessionId>)
    requires server.Valid() && server.Is(c)
    modifies server, server.sessions.Values`stopped
    ensures server.Valid() && server.Is(Removed(c, gone))
    ensures forall id :: id in gone <==> out != [] && id in old(server.sessions) && old(server.sessions)[id].IsDone(now)
  {
    hide Removed, Server.Is, Server.Abs, StatesOf;
    gone := {};
    NoneRemoved(c);
    server.IsAbs(c);
    if |out| > 0 {
      gone := server.DoneIds(now);
      server.GcDoneSessions(now);
    }
  }

  /** The response to one request: what was queued for the client, then frames of its own
      sessions, at most 22 MiB - 1 + 8 * 256 KiB of them however many drains it took. It is
      what draining the server at once and on each wake-up yields, oldest sessions first. */
  method Respond(server: Server, owner: ClientId, waits: seq<Wake>, bursts: seq<Wake>, now: int)
    returns (out: seq<Frame>, ghost hs: seq<Handler>, ghost i: nat, ghost j: nat, ghost gone: set<SessionId>)
    requires server.Valid()
    modifies server, server.sessions.Values`txBuf, server.sessions.Values`txSeq, server.sessions.Values`synNeeded
    modifies server.sessions.Values`finSent, server.sessions.Values`finSentAt, server.sessions.Values`firstQueuedAt, server.sessions.Values`stopped
    ensures server.Valid() && |hs| == i + j + 1 && i <= |waits| && j <= |bursts|
    ensures Trace(Start(old(server.Abs()), old(server.Ages())), hs, waits[..i] + bursts[..j], owner,
                  server.initialResponseBytes, now)
    ensures Stops(hs, |waits|, |bursts|, i, j) && out == hs[i + j].sofar.frames
    ensures Drains(Start(old(server.Abs()), old(server.Ages())), hs[0], owner, server.initialResponseBytes, now)
    ensures forall k :: 0 <= k < i + j ==>
              var wake := if k < i then waits[k] else bursts[k - i];
              Drains(Fed(hs[k], wake), hs[k + 1], owner, server.initialResponseBytes, wake.now)
    ensures (forall k :: 0 <= k < i ==> hs[k].sofar.frames == []) && (hs[i].sofar.frames != [] || i == |waits|)
    ensures if !hs[i].urgent && |hs[i].sofar.frames| > 4 && |Payloads(hs[i].sofar.frames)| < 22 * 1024 * 1024
            then && (forall k :: i <= k < i + j ==> |Payloads(hs[k].sofar.frames)| < 22 * 1024 * 1024)
                 && (j == |bursts| || |Payloads(hs[i + j].sofar.frames)| >= 22 * 1024 * 1024)
            else j == 0
    ensures server.Is(Removed(hs[i + j].core, gone))
    ensures forall id :: id in gone <==> out != [] && id in old(server.sessions) && old(server.sessions)[id].IsDone(now)
    ensures Control(old(server.Abs()), owner) <= out
    ensures var data := out[|Control(old(server.Abs()), owner)|..];
            && |Payloads(data)| <= 22 * 1024 * 1024 - 1 + 8 * 256 * 1024
            && forall f :: f in data ==> OwnedBy(old(server.sessionOwners), owner, f)
  {
    hide Trace, Stops, Removed, Control, Coalesce;
    ghost var c0, age := server.Abs(), server.Ages();
    OwnedIds(server);
    out, hs, i, j := Gather(server, owner, waits, bursts, now);
    StopsShaped(c0, age, hs, waits, bursts, owner, server.initialResponseBytes, now, i, j);
    TraceInTurn(Start(c0, age), hs, waits, bursts, owner, server.initialResponseBytes, now, i, j);
    gone := CleanUp(server, out, now, hs[i + j].core);
  }

  lemma OwnedIds(server: Server)
    requires server.Valid()
    ensures OwnIds(server.Abs()) && server.Abs().owners == server.sessionOwners
  {
    forall id | id in server.sessions ensures server.Abs().sessions[id].id == id {
      server.StateOf(id);
    }
  }
}

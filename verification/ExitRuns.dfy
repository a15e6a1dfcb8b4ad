/** The exit server over whole runs: any number of requests whose frames are routed in
    separate critical sections, drains that hold the server lock while upstream readers go
    on writing, late callbacks, and clean-up. Session objects have handles of their own, as
    two requests may open one session id at the same time. */
module ExitRuns {
  import opened Prelude
  import opened Frames
  import opened TxSpec
  import opened Drains
  import opened Senders
  import opened ExitSpec

  type Handle = nat
  type Task = nat

  /** A session object: for whom it was opened, its sending side, and (history) the frames
      handed to its `ProcessRx`, each with the client whose batch carried it. */
  datatype Obj = Obj(id: SessionId, owner: ClientId, snd: Sender, got: seq<(ClientId, Frame)>)

  /** Where the routing of one frame stands. */
  datatype Stage = Dialing | Refusing(payload: Bytes, isVersion: bool) | Delivering(h: Handle) | Touching

  datatype Routing = Routing(client: ClientId, f: Frame, stage: Stage)

  /** A drain in progress, between two of its steps. */
  datatype Turn = Between | Drained(id: SessionId) | Clearing(id: SessionId)

  datatype Hold = Hold(client: ClientId, turn: Turn)

  /** One frame put into a response. */
  datatype Item = FromSession(to: ClientId, h: Handle, f: Frame) | ControlReply(to: ClientId, f: Frame)

  /** `callbacks` are the `OnTx` calls still to run. History: `arrived` is every frame of
      every client's batches, `sent` every frame put into a response. */
  datatype Exit = Exit(
    objs: map<Handle, Obj>,
    tables: Tables<Handle>,
    callbacks: multiset<SessionId>,
    tasks: map<Task, Routing>,
    lock: Option<Hold>,
    arrived: set<(ClientId, Frame)>,
    sent: seq<Item>)

  const NEW_EXIT := Exit(map[], Tables(map[], map[], {}, {}, {}, map[], map[], map[]), multiset{}, map[], None, {}, [])

  datatype Event =
    | Arrive(t: Task, client: ClientId, f: Frame, probe: bool, version: Bytes)
    | DialSuppressed(t: Task)
    | DialFailed(t: Task)
    | Open(t: Task, h: Handle, now: int)
    | Refuse(t: Task)
    | Deliver(t: Task)
    | Touch(t: Task, now: int)
    | Upstream(h: Handle, op: WriterOp)
    | Callback(id: SessionId)
    | Remove(id: SessionId)                         // either clean-up
    | BeginDrain(client: ClientId)
    | DrainOne(id: SessionId, chunk: int, cap: nat, now: int)
    | CheckPending
    | ClearReady
    | EndDrain

  predicate Routed(x: Exit, t: Task, stage: Stage) {
    t in x.tasks && x.tasks[t].stage == stage
  }

  predicate Draining(x: Exit, turn: Turn) {
    x.lock.Some? && x.lock.value.turn == turn
  }

  predicate Can(x: Exit, e: Event) {
    match e
    case Arrive(t, _, _, _, _) => x.lock.None? && t !in x.tasks
    case DialSuppressed(t) => Routed(x, t, Dialing)
    case DialFailed(t) => Routed(x, t, Dialing)
    case Open(t, h, _) => x.lock.None? && Routed(x, t, Dialing) && h !in x.objs
    case Refuse(t) => x.lock.None? && t in x.tasks && x.tasks[t].stage.Refusing?
    case Deliver(t) => t in x.tasks && x.tasks[t].stage.Delivering? && x.tasks[t].stage.h in x.objs
    case Touch(t, _) => x.lock.None? && Routed(x, t, Touching)
    case Upstream(h, op) => h in x.objs && !Blocked(x.objs[h].snd.tx, op) && !op.Initial?
    case Callback(id) => x.lock.None? && id in x.callbacks
    case Remove(id) => x.lock.None?
    case BeginDrain(_) => x.lock.None?
    case DrainOne(id, _, cap, _) =>
      && Draining(x, Between) && cap > 0 && id in x.tables.sessions && x.tables.sessions[id] in x.objs
      && id in x.tables.owners && x.tables.owners[id] == x.lock.value.client
    case CheckPending => x.lock.Some? && x.lock.value.turn.Drained? && x.lock.value.turn.id in x.tables.sessions
                         && x.tables.sessions[x.lock.value.turn.id] in x.objs
    case ClearReady => x.lock.Some? && x.lock.value.turn.Clearing?
    case EndDrain => Draining(x, Between)
  }

  /** `routeIncoming`'s first section: what the tables say about the frame's session. */
  function Lookup(c: Tables<Handle>, client: ClientId, f: Frame, probe: bool, version: Bytes): Stage {
    if f.sessionId in c.sessions then
      if f.sessionId in c.owners && c.owners[f.sessionId] != client then Refusing([], false)
      else Delivering(c.sessions[f.sessionId])
    else if f.HasFlag(FLAG_SYN) then Dialing
    else if probe then Refusing(version, true) else Refusing([], false)
  }

  function Refusal(c: Tables<Handle>, r: Routing): Tables<Handle>
    requires r.stage.Refusing?
  {
    var f := Frame(r.f.sessionId, 0, FLAG_RST, [], r.stage.payload);
    if r.stage.isVersion then c.(pendingCtrl := Queued(c.pendingCtrl, r.client, f))
    else c.(pendingRSTs := Queued(c.pendingRSTs, r.client, f))
  }

  function Controls(to: ClientId, fs: seq<Frame>): seq<Item> {
    seq(|fs|, i requires 0 <= i < |fs| => ControlReply(to, fs[i]))
  }

  function Items(to: ClientId, h: Handle, fs: seq<Frame>): seq<Item> {
    seq(|fs|, i requires 0 <= i < |fs| => FromSession(to, h, fs[i]))
  }

  function Flushed(c: Tables<Handle>, client: ClientId): Tables<Handle> {
    c.(txReady := c.txReady * c.sessions.Keys,
       pendingCtrl := Flush(c.pendingCtrl, client), pendingRSTs := Flush(c.pendingRSTs, client))
  }

  /** What a non-empty drain does to the tables. */
  function Replied(c: Tables<Handle>, id: SessionId, now: int): Tables<Handle> {
    c.(firstReply := c.firstReply - {id}, lastActivity := c.lastActivity[id := now])
  }

  /** The drained frames are in the response; the exit keeps no snapshot. */
  function DrainedFor(x: Exit, id: SessionId, chunk: int, cap: nat, now: int): Exit
    requires Can(x, DrainOne(id, chunk, cap, now))
  {
    var h := x.tables.sessions[id];
    var o := x.objs[h];
    var frames := DrainFrames(o.snd.tx, chunk, cap);
    x.(objs := x.objs[h := o.(snd := Committed(Senders.Drained(o.snd, chunk, cap)))],
       tables := if |frames| == 0 then x.tables else Replied(x.tables, id, now),
       lock := Some(x.lock.value.(turn := Drained(id))),
       sent := x.sent + Items(x.lock.value.client, h, frames))
  }

  function Step(x: Exit, e: Event): Exit
    requires Can(x, e)
  {
    match e
    case Arrive(t, client, f, probe, version) =>
      x.(arrived := x.arrived + {(client, f)},
         tasks := x.tasks[t := Routing(client, f, Lookup(x.tables, client, f, probe, version))])
    case DialSuppressed(t) => x.(tasks := x.tasks[t := x.tasks[t].(stage := Refusing([], false))])
    case DialFailed(t) => x.(tasks := x.tasks - {t})
    case Open(t, h, now) =>
      var r := x.tasks[t];
      x.(objs := x.objs[h := Obj(r.f.sessionId, r.client, NewSender(r.f.sessionId, r.f.target, false), [])],
         tables := Registered(x.tables, r.f.sessionId, h, r.client, now),
         tasks := x.tasks[t := r.(stage := Delivering(h))])
    case Refuse(t) => x.(tables := Refusal(x.tables, x.tasks[t]), tasks := x.tasks - {t})
    case Deliver(t) =>
      var r := x.tasks[t];
      var o := x.objs[r.stage.h];
      x.(objs := x.objs[r.stage.h := o.(got := o.got + [(r.client, r.f)])],
         tasks := x.tasks[t := r.(stage := Touching)])
    case Touch(t, now) =>
      x.(tables := Touched(x.tables, x.tasks[t].f.sessionId, now), tasks := x.tasks - {t})
    case Upstream(h, op) =>
      var o := x.objs[h];
      x.(objs := x.objs[h := o.(snd := Written(o.snd, op))],
         callbacks := if Refused(o.snd.tx, op) then x.callbacks else x.callbacks + multiset{o.id})
    case Callback(id) =>
      x.(tables := x.tables.(txReady := x.tables.txReady + {id}), callbacks := x.callbacks - multiset{id})
    case Remove(id) => x.(tables := Removed(x.tables, {id}))
    case BeginDrain(client) =>
      x.(tables := Flushed(x.tables, client), lock := Some(Hold(client, Between)),
         sent := x.sent + Controls(client, Control(x.tables, client)))
    case DrainOne(id, chunk, cap, now) => DrainedFor(x, id, chunk, cap, now)
    case CheckPending =>
      var id := x.lock.value.turn.id;
      var pending := x.objs[x.tables.sessions[id]].snd.tx.Pending();
      x.(lock := Some(x.lock.value.(turn := if pending then Between else Clearing(id))))
    case ClearReady =>
      x.(tables := x.tables.(txReady := x.tables.txReady - {x.lock.value.turn.id}),
         lock := Some(x.lock.value.(turn := Between)))
    case EndDrain => x.(lock := None)
  }

  // ---- Tables that agree -------------------------------------------------------------------

  /** The registered object is its id's own, and belongs to the client the tables name. */
  ghost predicate Bound(x: Exit) {
    forall id :: id in x.tables.sessions ==>
      && x.tables.sessions[id] in x.objs
      && x.objs[x.tables.sessions[id]].id == id
      && id in x.tables.owners && x.objs[x.tables.sessions[id]].owner == x.tables.owners[id]
  }

  lemma StepAgree(x: Exit, e: Event)
    requires TablesAgree(x.tables) && Can(x, e)
    ensures TablesAgree(Step(x, e).tables)
  {
    hide TablesAgree, DrainFrames, DrainState, Senders.Drained, Written, Lookup, Items, Controls, Control, Blocked;
    hide Flushed, Replied, Refusal, Touched, Registered, Removed;
    match e
    case Open(t, h, now) => RegisteredAgree(x.tables, x.tasks[t].f.sessionId, h, x.tasks[t].client, now);
    case Remove(id) => RemovedAgree(x.tables, id);
    case BeginDrain(client) => FlushedAgree(x.tables, client);
    case DrainOne(id, _, _, now) => RepliedAgree(x.tables, id, now);
    case Refuse(t) => RefusalAgree(x.tables, x.tasks[t]);
    case Touch(t, now) => TouchedAgree(x.tables, x.tasks[t].f.sessionId, now);
    case Callback(id) => ReadyAgree(x.tables, x.tables.txReady + {id});
    case ClearReady => ReadyAgree(x.tables, x.tables.txReady - {x.lock.value.turn.id});
    case _ =>
  }

  lemma RegisteredAgree(c: Tables<Handle>, id: SessionId, h: Handle, owner: ClientId, now: int)
    requires TablesAgree(c)
    ensures TablesAgree(Registered(c, id, h, owner, now))
  {
  }

  lemma RemovedAgree(c: Tables<Handle>, id: SessionId)
    requires TablesAgree(c)
    ensures TablesAgree(Removed(c, {id}))
  {
  }

  lemma FlushedAgree(c: Tables<Handle>, client: ClientId)
    requires TablesAgree(c)
    ensures TablesAgree(Flushed(c, client))
  {
  }

  lemma RepliedAgree(c: Tables<Handle>, id: SessionId, now: int)
    requires TablesAgree(c) && id in c.sessions
    ensures TablesAgree(Replied(c, id, now))
  {
  }

  lemma RefusalAgree(c: Tables<Handle>, r: Routing)
    requires TablesAgree(c) && r.stage.Refusing?
    ensures TablesAgree(Refusal(c, r))
  {
  }

  lemma TouchedAgree(c: Tables<Handle>, id: SessionId, now: int)
    requires TablesAgree(c)
    ensures TablesAgree(Touched(c, id, now))
  {
  }

  lemma ReadyAgree(c: Tables<Handle>, ready: set<SessionId>)
    requires TablesAgree(c)
    ensures TablesAgree(c.(txReady := ready))
  {
  }

  /** Nothing that has arrived, and no object's identity, is ever taken back. */
  ghost predicate Grows(x: Exit, y: Exit) {
    && x.arrived <= y.arrived
    && forall h :: h in x.objs ==> h in y.objs && y.objs[h].id == x.objs[h].id && y.objs[h].owner == x.objs[h].owner
  }

  lemma StepGrows(x: Exit, e: Event)
    requires Can(x, e)
    ensures Grows(x, Step(x, e))
  {
    hide DrainFrames, DrainState, Senders.Drained, Written, Lookup, Items, Controls, Control, Flush, Queued, Blocked;
  }

  ghost predicate SameSessions(c: Tables<Handle>, d: Tables<Handle>) {
    d.sessions == c.sessions && d.owners == c.owners
  }

  /** Only `Open` and `Remove` change whose sessions there are. */
  lemma StepTable(x: Exit, e: Event)
    requires Can(x, e) && !e.Open? && !e.Remove?
    ensures SameSessions(x.tables, Step(x, e).tables)
  {
    hide SameSessions, DrainFrames, DrainState, Senders.Drained, Written, Lookup, Items, Controls, Control, Blocked;
    hide Flushed, Replied, Refusal, Touched;
    Kept(x.tables);
    match e
    case BeginDrain(client) => FlushKeeps(x.tables, client);
    case DrainOne(id, _, _, now) => ReplyKeeps(x.tables, id, now);
    case Refuse(t) => RefusalKeeps(x.tables, x.tasks[t]);
    case Touch(t, now) => TouchKeeps(x.tables, x.tasks[t].f.sessionId, now);
    case Callback(id) => ReadyKeeps(x.tables, x.tables.txReady + {id});
    case ClearReady => ReadyKeeps(x.tables, x.tables.txReady - {x.lock.value.turn.id});
    case _ =>
  }

  lemma Kept(c: Tables<Handle>)
    ensures SameSessions(c, c)
  {
  }

  lemma FlushKeeps(c: Tables<Handle>, client: ClientId)
    ensures SameSessions(c, Flushed(c, client))
  {
  }

  lemma ReplyKeeps(c: Tables<Handle>, id: SessionId, now: int)
    ensures SameSessions(c, Replied(c, id, now))
  {
  }

  lemma RefusalKeeps(c: Tables<Handle>, r: Routing)
    requires r.stage.Refusing?
    ensures SameSessions(c, Refusal(c, r))
  {
  }

  lemma TouchKeeps(c: Tables<Handle>, id: SessionId, now: int)
    ensures SameSessions(c, Touched(c, id, now))
  {
  }

  lemma ReadyKeeps(c: Tables<Handle>, ready: set<SessionId>)
    ensures SameSessions(c, c.(txReady := ready))
  {
  }

  lemma StepBound(x: Exit, e: Event)
    requires TablesAgree(x.tables) && Bound(x) && Can(x, e)
    ensures Bound(Step(x, e))
  {
    hide Step, TablesAgree;
    StepGrows(x, e);
    if e.Open? {
      OpenBound(x, e.t, e.h, e.now);
    } else if e.Remove? {
      RemoveBound(x, e.id);
    } else {
      StepTable(x, e);
    }
  }

  lemma OpenBound(x: Exit, t: Task, h: Handle, now: int)
    requires Bound(x) && Can(x, Open(t, h, now))
    ensures Bound(Step(x, Open(t, h, now)))
  {
  }

  lemma RemoveBound(x: Exit, id: SessionId)
    requires Bound(x) && Can(x, Remove(id))
    ensures Bound(Step(x, Remove(id)))
  {
  }

  // ---- Client isolation ----------------------------------------------------------------------

  /** The frame being routed came from the client it is routed for, and goes to that client's
      session. */
  ghost predicate TaskOk(x: Exit, r: Routing) {
    && (r.client, r.f) in x.arrived
    && (r.stage.Delivering? ==>
          r.stage.h in x.objs && x.objs[r.stage.h].id == r.f.sessionId && x.objs[r.stage.h].owner == r.client)
  }

  ghost predicate TasksOk(x: Exit) {
    forall t :: t in x.tasks ==> TaskOk(x, x.tasks[t])
  }

  /** Everything an object was given came in its owner's batches and was meant for it. */
  ghost predicate GotOk(x: Exit) {
    forall h :: h in x.objs ==> forall i :: 0 <= i < |x.objs[h].got| ==>
      var g := x.objs[h].got[i];
      g.0 == x.objs[h].owner && g.1.sessionId == x.objs[h].id && g in x.arrived
  }

  /** Some frame of this client's batches named the session. */
  ghost predicate Asked(x: Exit, client: ClientId, id: SessionId) {
    exists f :: (client, f) in x.arrived && f.sessionId == id
  }

  ghost predicate QueueOk(x: Exit, q: map<ClientId, seq<Frame>>) {
    forall client :: client in q ==> forall i :: 0 <= i < |q[client]| ==> Asked(x, client, q[client][i].sessionId)
  }

  /** A frame in a response to `to` is from a session of `to`, or answers a frame of `to`. */
  ghost predicate ItemOk(x: Exit, item: Item) {
    match item
    case FromSession(to, h, f) => h in x.objs && x.objs[h].owner == to && f.sessionId == x.objs[h].id
    case ControlReply(to, f) => Asked(x, to, f.sessionId)
  }

  ghost predicate SentOk(x: Exit) {
    forall i :: 0 <= i < |x.sent| ==> ItemOk(x, x.sent[i])
  }

  lemma AskedGrows(x: Exit, y: Exit, client: ClientId, id: SessionId)
    requires Grows(x, y) && Asked(x, client, id)
    ensures Asked(y, client, id)
  {
    var f :| (client, f) in x.arrived && f.sessionId == id;
    assert (client, f) in y.arrived;
  }

  lemma TaskGrows(x: Exit, y: Exit, r: Routing)
    requires Grows(x, y) && TaskOk(x, r)
    ensures TaskOk(y, r)
  {
  }

  lemma QueueGrows(x: Exit, y: Exit, q: map<ClientId, seq<Frame>>)
    requires Grows(x, y) && QueueOk(x, q)
    ensures QueueOk(y, q)
  {
    forall client, i | client in q && 0 <= i < |q[client]| ensures Asked(y, client, q[client][i].sessionId) {
      AskedGrows(x, y, client, q[client][i].sessionId);
    }
  }

  lemma SentGrows(x: Exit, y: Exit, i: nat)
    requires Grows(x, y) && i < |x.sent| && ItemOk(x, x.sent[i])
    ensures ItemOk(y, x.sent[i])
  {
    if x.sent[i].ControlReply? {
      AskedGrows(x, y, x.sent[i].to, x.sent[i].f.sessionId);
    }
  }

  lemma StepTasks(x: Exit, e: Event)
    requires TasksOk(x) && TablesAgree(x.tables) && Bound(x) && Can(x, e)
    ensures TasksOk(Step(x, e))
  {
    StepGrows(x, e);
    var y := Step(x, e);
    forall t | t in y.tasks ensures TaskOk(y, y.tasks[t]) {
      if t in x.tasks {
        assert TaskOk(x, x.tasks[t]);
        TaskGrows(x, y, x.tasks[t]);
      }
    }
  }

  lemma StepGot(x: Exit, e: Event)
    requires GotOk(x) && TasksOk(x) && Can(x, e)
    ensures GotOk(Step(x, e))
  {
    hide DrainFrames, DrainState, Written, Lookup, Registered, Removed, Touched, Blocked, Items, Controls;
    if e.Deliver? {
      assert TaskOk(x, x.tasks[e.t]);
    }
  }

  lemma QueuedOk(x: Exit, q: map<ClientId, seq<Frame>>, client: ClientId, f: Frame)
    requires QueueOk(x, q) && Asked(x, client, f.sessionId)
    ensures QueueOk(x, Queued(q, client, f))
  {
  }

  lemma StepQueues(x: Exit, e: Event)
    requires QueueOk(x, x.tables.pendingRSTs) && QueueOk(x, x.tables.pendingCtrl) && TasksOk(x) && Can(x, e)
    ensures var y := Step(x, e); QueueOk(y, y.tables.pendingRSTs) && QueueOk(y, y.tables.pendingCtrl)
  {
    hide DrainFrames, DrainState, Senders.Drained, Written, Lookup, Items, Controls, Control, Queued, Blocked, Asked, Grows;
    StepGrows(x, e);
    var y := Step(x, e);
    QueueGrows(x, y, x.tables.pendingRSTs);
    QueueGrows(x, y, x.tables.pendingCtrl);
    if e.Refuse? {
      var r := x.tasks[e.t];
      var f := Frame(r.f.sessionId, 0, FLAG_RST, [], r.stage.payload);
      assert TaskOk(x, r);
      QueuedOk(y, x.tables.pendingRSTs, r.client, f);
      QueuedOk(y, x.tables.pendingCtrl, r.client, f);
    }
  }

  lemma DrainedBelongs(x: Exit, id: SessionId, chunk: int, cap: nat, now: int)
    requires TablesAgree(x.tables) && Bound(x) && ObjsOk(x) && Can(x, DrainOne(id, chunk, cap, now))
    ensures var h := x.tables.sessions[id];
            && x.objs[h].owner == x.lock.value.client && x.objs[h].id == id
            && forall f :: f in DrainFrames(x.objs[h].snd.tx, chunk, cap) ==> f.sessionId == id
  {
    var tx := x.objs[x.tables.sessions[id]].snd.tx;
    EmittedIds(tx, Chunk(tx, chunk), Limit(tx, cap));
  }

  lemma StepSent(x: Exit, e: Event)
    requires SentOk(x) && ObjsOk(x) && TablesAgree(x.tables) && Bound(x) && Can(x, e)
    requires QueueOk(x, x.tables.pendingRSTs) && QueueOk(x, x.tables.pendingCtrl)
    ensures SentOk(Step(x, e))
  {
    hide Step, TablesAgree, Bound, ObjsOk, QueueOk, ItemOk, Grows;
    StepGrows(x, e);
    var y := Step(x, e);
    forall i | 0 <= i < |x.sent| ensures ItemOk(y, x.sent[i]) {
      SentGrows(x, y, i);
    }
    match e
    case BeginDrain(client) => ControlsOk(x, client);
    case DrainOne(id, chunk, cap, now) => ItemsOk(x, id, chunk, cap, now);
    case _ => NothingSent(x, e);
  }

  /** Only a drain puts frames into a response. */
  lemma NothingSent(x: Exit, e: Event)
    requires Can(x, e) && !e.BeginDrain? && !e.DrainOne?
    ensures Step(x, e).sent == x.sent
  {
  }

  lemma ControlsOk(x: Exit, client: ClientId)
    requires Can(x, BeginDrain(client)) && QueueOk(x, x.tables.pendingRSTs) && QueueOk(x, x.tables.pendingCtrl)
    ensures var y := Step(x, BeginDrain(client));
            x.sent <= y.sent && forall i :: |x.sent| <= i < |y.sent| ==> ItemOk(y, y.sent[i])
  {
    hide QueueOk, Asked;
    var y := Step(x, BeginDrain(client));
    StepGrows(x, BeginDrain(client));
    QueueGrows(x, y, x.tables.pendingRSTs);
    QueueGrows(x, y, x.tables.pendingCtrl);
    QueuedAsked(y, x.tables.pendingRSTs, client);
    QueuedAsked(y, x.tables.pendingCtrl, client);
  }

  lemma QueuedAsked(y: Exit, q: map<ClientId, seq<Frame>>, client: ClientId)
    requires QueueOk(y, q)
    ensures forall f :: f in QueuedFor(q, client) ==> Asked(y, client, f.sessionId)
  {
    hide Asked;
  }

  lemma ItemsOk(x: Exit, id: SessionId, chunk: int, cap: nat, now: int)
    requires ObjsOk(x) && TablesAgree(x.tables) && Bound(x) && Can(x, DrainOne(id, chunk, cap, now))
    ensures var y := Step(x, DrainOne(id, chunk, cap, now));
            x.sent <= y.sent && forall i :: |x.sent| <= i < |y.sent| ==> ItemOk(y, y.sent[i])
  {
    hide Emitted, Advanced, TablesAgree, ObjsOk, Bound;
    DrainedBelongs(x, id, chunk, cap, now);
  }

  // ---- Streams -----------------------------------------------------------------------------------

  ghost predicate ObjOk(o: Obj) {
    SenderInv(o.snd) && o.snd.out.None? && !o.snd.needsSyn && o.snd.tx.id == o.id
  }

  ghost predicate ObjsOk(x: Exit) {
    forall h :: h in x.objs ==> ObjOk(x.objs[h])
  }

  /** The frames of one session object among the frames sent. */
  function Of(items: seq<Item>, h: Handle): seq<Frame> {
    if |items| == 0 then []
    else
      var last := items[|items| - 1];
      Of(items[..|items| - 1], h) + if last.FromSession? && last.h == h then [last.f] else []
  }

  /** Every frame a session object ever drained went into exactly one response, in order. */
  ghost predicate AllSent(x: Exit) {
    forall h :: h in x.objs ==> Of(x.sent, h) == x.objs[h].snd.log
  }

  lemma StepObjs(x: Exit, e: Event)
    requires ObjsOk(x) && Can(x, e)
    ensures ObjsOk(Step(x, e))
  {
    hide ObjOk, Senders.Drained, Written, Lookup, Items, Controls, Control, Flush, Queued, Blocked, DrainFrames, DrainState;
    match e
    case Open(t, h, _) => NewObjOk(x.tasks[t].f.sessionId, x.tasks[t].client, x.tasks[t].f.target);
    case Upstream(h, op) => WrittenObjOk(x.objs[h], op);
    case DrainOne(id, chunk, cap, _) => DrainedObjOk(x.objs[x.tables.sessions[id]], chunk, cap);
    case Deliver(t) => GivenObjOk(x.objs[x.tasks[t].stage.h], (x.tasks[t].client, x.tasks[t].f));
    case _ =>
  }

  lemma NewObjOk(id: SessionId, owner: ClientId, target: Bytes)
    ensures ObjOk(Obj(id, owner, NewSender(id, target, false), []))
  {
    NewSenderOk(id, target, false);
  }

  lemma WrittenObjOk(o: Obj, op: WriterOp)
    requires ObjOk(o)
    ensures ObjOk(o.(snd := Written(o.snd, op)))
  {
    WrittenOk(o.snd, op);
  }

  lemma DrainedObjOk(o: Obj, chunk: int, cap: nat)
    requires ObjOk(o)
    ensures ObjOk(o.(snd := Committed(Senders.Drained(o.snd, chunk, cap))))
  {
    hide Emitted, Advanced, StreamOk;
    DrainedOk(o.snd, chunk, cap);
    AdvancedFields(o.snd.tx, Chunk(o.snd.tx, chunk), Limit(o.snd.tx, cap));
  }

  lemma GivenObjOk(o: Obj, g: (ClientId, Frame))
    requires ObjOk(o)
    ensures ObjOk(o.(got := o.got + [g]))
  {
  }

  lemma OfNone(items: seq<Item>, h: Handle)
    requires forall i :: 0 <= i < |items| && items[i].FromSession? ==> items[i].h != h
    ensures Of(items, h) == []
  {
  }

  lemma {:induction false} OfAppend(a: seq<Item>, b: seq<Item>, h: Handle)
    ensures Of(a + b, h) == Of(a, h) + Of(b, h)
    decreases |b|
  {
    if |b| == 0 {
      assert a + b == a;
    } else {
      assert (a + b)[..|a + b| - 1] == a + b[..|b| - 1];
      OfAppend(a, b[..|b| - 1], h);
    }
  }

  lemma {:induction false} OfItems(to: ClientId, h: Handle, fs: seq<Frame>)
    ensures Of(Items(to, h, fs), h) == fs
    decreases |fs|
  {
    if |fs| > 0 {
      assert Items(to, h, fs)[..|fs| - 1] == Items(to, h, fs[..|fs| - 1]);
      OfItems(to, h, fs[..|fs| - 1]);
      assert fs == fs[..|fs| - 1] + [fs[|fs| - 1]];
    }
  }

  lemma StepAllSent(x: Exit, e: Event)
    requires AllSent(x) && SentOk(x) && Can(x, e)
    ensures AllSent(Step(x, e))
  {
    hide Step, Can, SentOk, Of;
    forall h | h in Step(x, e).objs ensures Of(Step(x, e).sent, h) == Step(x, e).objs[h].snd.log {
      match e
      case Open(t, o, now) => OpenSent(x, t, o, now, h);
      case BeginDrain(client) => ControlsSent(x, client, h);
      case DrainOne(id, chunk, cap, now) => ItemsSent(x, id, chunk, cap, now, h);
      case _ => NothingLogged(x, e, h);
    }
  }

  lemma NothingLogged(x: Exit, e: Event, h: Handle)
    requires Can(x, e) && !e.BeginDrain? && !e.DrainOne? && !e.Open? && h in Step(x, e).objs
    ensures Step(x, e).sent == x.sent && h in x.objs && Step(x, e).objs[h].snd.log == x.objs[h].snd.log
  {
  }

  lemma OpenSent(x: Exit, t: Task, o: Handle, now: int, h: Handle)
    requires AllSent(x) && SentOk(x) && Can(x, Open(t, o, now)) && h in Step(x, Open(t, o, now)).objs
    ensures var y := Step(x, Open(t, o, now)); Of(y.sent, h) == y.objs[h].snd.log
  {
    hide Of;
    if h == o {
      assert forall i :: 0 <= i < |x.sent| && x.sent[i].FromSession? ==> ItemOk(x, x.sent[i]) && x.sent[i].h != h;
      OfNone(x.sent, h);
    }
  }

  lemma ControlsSent(x: Exit, client: ClientId, h: Handle)
    requires AllSent(x) && Can(x, BeginDrain(client)) && h in Step(x, BeginDrain(client)).objs
    ensures var y := Step(x, BeginDrain(client)); Of(y.sent, h) == y.objs[h].snd.log
  {
    hide Of, Control;
    OfAppend(x.sent, Controls(client, Control(x.tables, client)), h);
    OfNone(Controls(client, Control(x.tables, client)), h);
  }

  lemma ItemsSent(x: Exit, id: SessionId, chunk: int, cap: nat, now: int, h: Handle)
    requires AllSent(x) && Can(x, DrainOne(id, chunk, cap, now)) && h in Step(x, DrainOne(id, chunk, cap, now)).objs
    ensures var y := Step(x, DrainOne(id, chunk, cap, now)); Of(y.sent, h) == y.objs[h].snd.log
  {
    hide Of, Emitted, Advanced;
    var o := x.tables.sessions[id];
    var frames := DrainFrames(x.objs[o].snd.tx, chunk, cap);
    OfAppend(x.sent, Items(x.lock.value.client, o, frames), h);
    OfItems(x.lock.value.client, o, frames);
    if h != o {
      OfNone(Items(x.lock.value.client, o, frames), h);
    }
  }

  // ---- No session forgotten ----------------------------------------------------------------------

  /** A registered session with frames to send is ready or about to be called back; once a
      drain has found it empty, only the callback counts. */
  ghost predicate RememberedAt(x: Exit, id: SessionId) {
    id in x.tables.sessions && x.tables.sessions[id] in x.objs && x.objs[x.tables.sessions[id]].snd.tx.Pending() ==>
      id in x.callbacks || (id in x.tables.txReady && !Draining(x, Clearing(id)))
  }

  ghost predicate Remembered(x: Exit) {
    forall id :: id in x.tables.sessions ==> RememberedAt(x, id)
  }

  lemma StepRemembered(x: Exit, e: Event)
    requires Remembered(x) && Bound(x) && Can(x, e)
    ensures Remembered(Step(x, e))
  {
    forall id | id in Step(x, e).tables.sessions ensures RememberedAt(Step(x, e), id) {
      if id in x.tables.sessions {
        assert RememberedAt(x, id);
      }
      StepRememberedAt(x, e, id);
    }
  }

  lemma StepRememberedAt(x: Exit, e: Event, id: SessionId)
    requires id in x.tables.sessions ==> RememberedAt(x, id)
    requires Bound(x) && Can(x, e) && id in Step(x, e).tables.sessions
    ensures RememberedAt(Step(x, e), id)
  {
    hide Step, RememberedAt, Can;
    match e
    case DrainOne(d, chunk, cap, now) =>
      StepTable(x, e);
      DrainRememberedAt(x, d, chunk, cap, now, id);
    case Upstream(h, op) =>
      StepTable(x, e);
      UpstreamRememberedAt(x, h, op, id);
    case Open(t, h, now) => OpenRememberedAt(x, t, h, now, id);
    case Remove(_) => QuietRememberedAt(x, e, id);
    case BeginDrain(_) => QuietRememberedAt(x, e, id);
    case Callback(_) => QuietRememberedAt(x, e, id);
    case EndDrain => QuietRememberedAt(x, e, id);
    case CheckPending => ClearRememberedAt(x, e, id);
    case ClearReady => ClearRememberedAt(x, e, id);
    case _ => RoutingRememberedAt(x, e, id);
  }

  /** An upstream's data makes its session ready. */
  lemma UpstreamRememberedAt(x: Exit, h: Handle, op: WriterOp, id: SessionId)
    requires id in x.tables.sessions && RememberedAt(x, id) && Bound(x) && Can(x, Upstream(h, op))
    ensures RememberedAt(Step(x, Upstream(h, op)), id)
  {
    hide Blocked;
  }

  /** A new session has nothing to send. */
  lemma OpenRememberedAt(x: Exit, t: Task, h: Handle, now: int, id: SessionId)
    requires id in x.tables.sessions ==> RememberedAt(x, id)
    requires Bound(x) && Can(x, Open(t, h, now)) && id in Step(x, Open(t, h, now)).tables.sessions
    ensures RememberedAt(Step(x, Open(t, h, now)), id)
  {
  }

  /** Callbacks, clean-up, and the two ends of a drain lose nobody. */
  lemma QuietRememberedAt(x: Exit, e: Event, id: SessionId)
    requires id in x.tables.sessions ==> RememberedAt(x, id)
    requires Bound(x) && Can(x, e) && id in Step(x, e).tables.sessions
    requires e.Remove? || e.BeginDrain? || e.Callback? || e.EndDrain?
    ensures RememberedAt(Step(x, e), id)
  {
    hide Controls, Control, Flush;
  }

  /** A session leaves the ready set only if it was found empty, and then only a callback
      can have given it something since. */
  lemma ClearRememberedAt(x: Exit, e: Event, id: SessionId)
    requires id in x.tables.sessions ==> RememberedAt(x, id)
    requires Bound(x) && Can(x, e) && id in Step(x, e).tables.sessions
    requires e.CheckPending? || e.ClearReady?
    ensures RememberedAt(Step(x, e), id)
  {
  }

  /** Routing touches neither the ready set nor what sessions have to send. */
  lemma RoutingRememberedAt(x: Exit, e: Event, id: SessionId)
    requires id in x.tables.sessions ==> RememberedAt(x, id)
    requires Bound(x) && Can(x, e) && id in Step(x, e).tables.sessions
    requires e.Arrive? || e.DialSuppressed? || e.DialFailed? || e.Refuse? || e.Deliver? || e.Touch?
    ensures RememberedAt(Step(x, e), id)
  {
    hide Lookup, Queued;
  }

  /** A session that still has frames to send after its turn had some before it. */
  lemma DrainRememberedAt(x: Exit, d: SessionId, chunk: int, cap: nat, now: int, id: SessionId)
    requires id in x.tables.sessions && RememberedAt(x, id) && Bound(x) && Can(x, DrainOne(d, chunk, cap, now))
    ensures RememberedAt(Step(x, DrainOne(d, chunk, cap, now)), id)
  {
    hide Emitted, Advanced, Items;
    DrainContract(x.objs[x.tables.sessions[d]].snd.tx, chunk, cap);
  }

  // ---- Runs ---------------------------------------------------------------------------------------

  ghost predicate Isolated(x: Exit) {
    && TasksOk(x) && GotOk(x) && SentOk(x)
    && QueueOk(x, x.tables.pendingRSTs) && QueueOk(x, x.tables.pendingCtrl)
  }

  ghost predicate Inv(x: Exit) {
    && TablesAgree(x.tables) && Bound(x) && Remembered(x)
    && Isolated(x) && ObjsOk(x) && AllSent(x)
  }

  lemma StepInv(x: Exit, e: Event)
    requires Inv(x) && Can(x, e)
    ensures Inv(Step(x, e))
  {
    hide TablesAgree, Bound, Remembered, TasksOk, GotOk, SentOk, QueueOk, ObjsOk, AllSent, Can, Step;
    StepAgree(x, e);
    StepBound(x, e);
    StepRemembered(x, e);
    StepTasks(x, e);
    StepGot(x, e);
    StepQueues(x, e);
    StepSent(x, e);
    StepObjs(x, e);
    StepAllSent(x, e);
  }

  lemma NewExitOk()
    ensures Inv(NEW_EXIT)
  {
  }

  ghost predicate Run(x: Exit, es: seq<Event>)
    decreases |es|
  {
    |es| > 0 ==> Can(x, es[0]) && Run(Step(x, es[0]), es[1..])
  }

  ghost function End(x: Exit, es: seq<Event>): Exit
    requires Run(x, es)
    decreases |es|
  {
    if |es| == 0 then x else End(Step(x, es[0]), es[1..])
  }

  lemma {:induction false} RunInv(x: Exit, es: seq<Event>)
    requires Inv(x) && Run(x, es)
    ensures Inv(End(x, es))
    decreases |es|
  {
    if |es| > 0 {
      StepInv(x, es[0]);
      RunInv(Step(x, es[0]), es[1..]);
    }
  }

  /** Client isolation, in every interleaving: a frame in a response to a client is from a
      session opened for that client, or answers a frame it sent; and whatever a session
      object was given came in the batches of the client it was opened for. */
  lemma ClientsAreIsolated(es: seq<Event>)
    requires Run(NEW_EXIT, es)
    ensures var x := End(NEW_EXIT, es);
            && (forall i :: 0 <= i < |x.sent| ==>
                  match x.sent[i]
                  case FromSession(to, h, f) => h in x.objs && x.objs[h].owner == to && f.sessionId == x.objs[h].id
                  case ControlReply(to, f) => exists g :: (to, g) in x.arrived && g.sessionId == f.sessionId)
            && (forall h :: h in x.objs ==> forall i :: 0 <= i < |x.objs[h].got| ==>
                  && x.objs[h].got[i].0 == x.objs[h].owner && x.objs[h].got[i].1.sessionId == x.objs[h].id
                  && x.objs[h].got[i] in x.arrived)
  {
    NewExitOk();
    RunInv(NEW_EXIT, es);
    var x := End(NEW_EXIT, es);
    assert forall i :: 0 <= i < |x.sent| ==> ItemOk(x, x.sent[i]);
  }

  /** Consistency, in every interleaving: the four session tables have one domain with
      `firstReply` inside it, and no registered session with frames to send is forgotten. */
  lemma TablesAlwaysAgree(es: seq<Event>)
    requires Run(NEW_EXIT, es)
    ensures var x := End(NEW_EXIT, es);
            && x.tables.owners.Keys == x.tables.sessions.Keys && x.tables.upstreams == x.tables.sessions.Keys
            && x.tables.lastActivity.Keys == x.tables.sessions.Keys && x.tables.firstReply <= x.tables.sessions.Keys
            && forall id :: id in x.tables.sessions ==>
                 && x.tables.sessions[id] in x.objs
                 && (x.objs[x.tables.sessions[id]].snd.tx.Pending() ==> id in x.tables.txReady || id in x.callbacks)
  {
    NewExitOk();
    RunInv(NEW_EXIT, es);
  }

  /** Downstream safety, in every interleaving: the frames of one session object over all
      responses, in the order they were drained, are a well-shaped stream numbered from 0
      whose payloads are a prefix of the bytes read from its upstream. */
  lemma ResponsesCarryOneStream(es: seq<Event>, h: Handle)
    requires Run(NEW_EXIT, es) && h in End(NEW_EXIT, es).objs
    ensures var x := End(NEW_EXIT, es); var fs := Of(x.sent, h); var s := x.objs[h].snd;
            && (forall i :: 0 <= i < |fs| ==> fs[i].seqNo == i)
            && (forall i :: 0 <= i < |fs| && fs[i].HasFlag(FLAG_FIN) ==> i == |fs| - 1 && Payloads(fs) == s.accepted)
            && Payloads(fs) <= s.accepted
  {
    NewExitOk();
    RunInv(NEW_EXIT, es);
    var x := End(NEW_EXIT, es);
    assert ObjOk(x.objs[h]);
    WholeStream(x.objs[h].snd);
  }

  lemma WholeStream(s: Sender)
    requires SenderInv(s) && !s.needsSyn
    ensures forall i :: 0 <= i < |s.log| ==> s.log[i].seqNo == i
    ensures forall i :: 0 <= i < |s.log| && s.log[i].HasFlag(FLAG_FIN) ==> i == |s.log| - 1 && Payloads(s.log) == s.accepted
    ensures Payloads(s.log) <= s.accepted
  {
    forall i | 0 <= i < |s.log|
      ensures s.log[i].seqNo == i
      ensures s.log[i].HasFlag(FLAG_FIN) ==> i == |s.log| - 1 && s.tx.finSent
    {
      assert FrameOk(s.log[i], i, s.tx, s.needsSyn, i == |s.log| - 1);
    }
    assert s.tx.finSent ==> Payloads(s.log) + [] == s.accepted;
  }
}

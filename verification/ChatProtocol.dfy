/** The publish/subscribe protocol between logic, Kafka, job and comet, one step per lock
    scope.  Everything the environment decides (who connects when, which call fails, in which
    order a hash set is walked) is a parameter of the event. */
module ChatProtocol {
  import opened Wrappers
  import opened Topics

  type Conn = nat

  /** What logic puts into Kafka: a global announcement of a new room, or a message for a room. */
  datatype Entry = RoomCreated(room: Room, body: string) | RoomMessage(roomId: RoomId, body: string)

  /** One remote call of the job: the Kafka entry and the attempt. */
  datatype Rpc = Rpc(entry: nat, attempt: nat)

  /** Where a running Broadcast or BroadcastRoom is. */
  datatype Place =
    | TopicNext | LockNext | Subscribing(todo: set<User>) | ListNext | SendAllNext
    | SnapshotNext | Sending(todo: set<User>) | Holding(todo: set<User>, user: User, conn: Conn)
    | Returned

  datatype Handler = Handler(entry: Entry, at: Place)

  /** A connection after its registration: before, in and after the subscriptions of its hello. */
  datatype Hello = Joined | Joining(todo: seq<RoomId>) | Welcome

  datatype Session = Session(user: User, hello: Hello)

  datatype Delivery = Delivery(rpc: Rpc, user: User, conn: Conn, body: string)

  datatype Job = Job(pos: nat, attempt: nat, calling: bool)

  datatype State = State(
    rooms: seq<Room>,                // logic's room list
    created: set<Entry>,             // rooms listed, announcement not yet sent to Kafka
    kafka: seq<Entry>,
    job: Job,
    handlers: map<Rpc, Handler>,     // calls that reached comet
    topics: TopicMap,
    roomList: seq<Room>,             // comet's room list
    sessions: map<Conn, Session>,    // every connection that ever registered
    online: map<User, Conn>,         // s_user_ws_conn_map
    lock: Option<Rpc>,               // who holds its mutex across steps
    log: seq<Delivery>,              // frames sent
    startup: set<RoomId>,            // rooms given a topic at start-up
    looped: set<RoomId>,             // rooms whose subscription loop has finished
    snaps: map<Rpc, set<User>>)      // subscribers copied by each BroadcastRoom

  const MAX_RETRIES := 3

  datatype LogicEvent =
    | CreateRoom(room: Room, body: string) | Publish(entry: Entry) | LosePublish(entry: Entry)
    | SendMessage(roomId: RoomId, text: string)

  datatype JobEvent = Call(arrives: bool) | Return | Fail

  datatype RpcEvent =
    | AddTopic | TakeLock | Subscribe(user: User) | ReleaseLock | ListRoom | SendAll(order: seq<User>)
    | TakeSnapshot | LookUp(user: User) | Send | FinishRoom

  datatype ConnEvent = Register(user: User) | Fetch | Join | Greet | Disconnect

  datatype Event =
    | OfLogic(logic: LogicEvent) | OfJob(job: JobEvent) | OfRpc(rpc: Rpc, step: RpcEvent)
    | OfConn(conn: Conn, act: ConnEvent)

  /** Start-up has given a topic to the rooms it found in logic's list; comet's own list is empty,
      and what Kafka still holds announces listed rooms only. */
  ghost predicate Start(s: State) {
    && s.topics.Keys == s.startup && (forall r :: r in s.startup ==> Listed(s.rooms, r))
    && (forall i :: 0 <= i < |s.kafka| && s.kafka[i].RoomCreated? ==> Listed(s.rooms, s.kafka[i].room.id))
    && s.created == {} && s.handlers == map[] && s.roomList == [] && s.sessions == map[] && s.online == map[]
    && s.lock == None && s.log == [] && s.looped == {} && s.snaps == map[] && !s.job.calling && s.job.attempt == 0
    && s.job.pos <= |s.kafka|
  }

  // ---- logic -------------------------------------------------------------

  predicate LogicCan(s: State, e: LogicEvent) {
    match e
    case CreateRoom(_, _) => true
    case Publish(x) => x in s.created
    case LosePublish(x) => x in s.created
    case SendMessage(_, _) => true
  }

  /** A room is listed first and announced later, if Kafka takes it at all. */
  function LogicDo(s: State, e: LogicEvent): State
    requires LogicCan(s, e)
  {
    match e
    case CreateRoom(r, body) => s.(rooms := s.rooms + [r], created := s.created + {RoomCreated(r, body)})
    case Publish(x) => s.(created := s.created - {x}, kafka := s.kafka + [x])
    case LosePublish(x) => s.(created := s.created - {x})
    case SendMessage(room, text) => s.(kafka := s.kafka + [RoomMessage(room, text)])
  }

  // ---- job ---------------------------------------------------------------

  function Current(s: State): Rpc { Rpc(s.job.pos, s.job.attempt) }

  predicate JobCan(s: State, e: JobEvent) {
    match e
    case Call(_) => !s.job.calling && s.job.pos < |s.kafka|
    case Return => s.job.calling && Current(s) in s.handlers && s.handlers[Current(s)].at.Returned?
    case Fail => s.job.calling
  }

  function Entered(e: Entry): Handler { Handler(e, if e.RoomCreated? then TopicNext else SnapshotNext) }

  /** Entries are handled one after the other, each with up to three attempts; a failed call may
      or may not have reached comet, and may still be running there. */
  function JobDo(s: State, e: JobEvent): State
    requires JobCan(s, e)
  {
    match e
    case Call(arrives) =>
      s.(job := s.job.(calling := true),
         handlers := if arrives then s.handlers[Current(s) := Entered(s.kafka[s.job.pos])] else s.handlers)
    case Return => s.(job := Job(s.job.pos + 1, 0, false))
    case Fail =>
      s.(job := if s.job.attempt + 1 < MAX_RETRIES then Job(s.job.pos, s.job.attempt + 1, false)
                else Job(s.job.pos + 1, 0, false))
  }

  // ---- comet's handlers --------------------------------------------------

  predicate RpcCan(s: State, id: Rpc, e: RpcEvent) {
    && id in s.handlers
    && var at := s.handlers[id].at;
       match e
       case AddTopic => at.TopicNext?
       case TakeLock => at.LockNext? && s.lock.None?
       case Subscribe(u) => at.Subscribing? && u in at.todo
       case ReleaseLock => at.Subscribing? && at.todo == {}
       case ListRoom => at.ListNext?
       case SendAll(order) => at.SendAllNext? && s.lock.None? && EachOnce(order, s.online.Keys)
       case TakeSnapshot => at.SnapshotNext?
       case LookUp(u) => at.Sending? && u in at.todo && s.lock.None?
       case Send => at.Holding?
       case FinishRoom => at.Sending? && at.todo == {}
  }

  predicate EachOnce(order: seq<User>, users: set<User>) {
    && (forall u :: u in users ==> u in order) && (forall u :: u in order ==> u in users)
    && (forall i, j :: 0 <= i < j < |order| ==> order[i] != order[j])
  }

  function SentToAll(id: Rpc, order: seq<User>, online: map<User, Conn>, body: string): (ds: seq<Delivery>)
    requires forall u :: u in order ==> u in online
    ensures |ds| == |order|
  {
    seq(|order|, i requires 0 <= i < |order| => Delivery(id, order[i], online[order[i]], body))
  }

  /** The room a handler announces; a message handler has none. */
  function RoomOf(e: Entry): Room { if e.RoomCreated? then e.room else Room("", "", "") }

  /** Where the handler goes. */
  function PlaceAfter(s: State, h: Handler, e: RpcEvent): Place {
    match e
    case AddTopic => LockNext
    case TakeLock => Subscribing(s.online.Keys)
    case Subscribe(u) => if h.at.Subscribing? then Subscribing(h.at.todo - {u}) else h.at
    case ReleaseLock => ListNext
    case ListRoom => SendAllNext
    case SendAll(_) => Returned
    case TakeSnapshot => if Subscribers(s, h).Some? then Sending(Subscribers(s, h).value) else Returned
    case LookUp(u) =>
      if !h.at.Sending? then h.at
      else if u in s.online then Holding(h.at.todo - {u}, u, s.online[u])
      else Sending(h.at.todo - {u})
    case Send => if h.at.Holding? then Sending(h.at.todo) else h.at
    case FinishRoom => Returned
  }

  /** The subscribers PubSubMessage copies; it returns at once without a topic. */
  function Subscribers(s: State, h: Handler): Option<set<User>> {
    if h.entry.RoomMessage? && h.entry.roomId in s.topics then Some(s.topics[h.entry.roomId].users) else None
  }

  /** What happens to the topics, to comet's room list and to the connection map's mutex. */
  function TopicsAfter(s: State, h: Handler, e: RpcEvent): TopicMap {
    match e
    case AddTopic => WithTopic(s.topics, RoomOf(h.entry))
    case Subscribe(u) => WithSubscriber(s.topics, RoomOf(h.entry).id, u)
    case _ => s.topics
  }

  function ListAfter(s: State, h: Handler, e: RpcEvent): seq<Room> {
    if e.ListRoom? then WithRoom(s.roomList, RoomOf(h.entry)) else s.roomList
  }

  function LockAfter(s: State, id: Rpc, e: RpcEvent): Option<Rpc> {
    if e.TakeLock? then Some(id) else if e.ReleaseLock? then None else s.lock
  }

  /** What is sent. */
  function LogAfter(s: State, id: Rpc, e: RpcEvent): seq<Delivery>
    requires RpcCan(s, id, e)
  {
    var h := s.handlers[id];
    match e
    case SendAll(order) => s.log + SentToAll(id, order, s.online, h.entry.body)
    case Send => s.log + [Delivery(id, h.at.user, h.at.conn, h.entry.body)]
    case _ => s.log
  }

  /** The history kept about loops and snapshots. */
  function LoopedAfter(s: State, h: Handler, e: RpcEvent): set<RoomId> {
    if e.ReleaseLock? then s.looped + {RoomOf(h.entry).id} else s.looped
  }

  function SnapsAfter(s: State, id: Rpc, h: Handler, e: RpcEvent): map<Rpc, set<User>> {
    if e.TakeSnapshot? && Subscribers(s, h).Some? then s.snaps[id := Subscribers(s, h).value] else s.snaps
  }

  function RpcDo(s: State, id: Rpc, e: RpcEvent): State
    requires RpcCan(s, id, e)
  {
    var h := s.handlers[id];
    s.(handlers := s.handlers[id := h.(at := PlaceAfter(s, h, e))],
       topics := TopicsAfter(s, h, e), roomList := ListAfter(s, h, e), lock := LockAfter(s, id, e),
       log := LogAfter(s, id, e), looped := LoopedAfter(s, h, e), snaps := SnapsAfter(s, id, h, e))
  }

  // ---- connections -------------------------------------------------------

  predicate ConnCan(s: State, c: Conn, e: ConnEvent) {
    match e
    case Register(_) => c !in s.sessions && s.lock.None?
    case Fetch => c in s.sessions && s.sessions[c].hello.Joined?
    case Join => c in s.sessions && s.sessions[c].hello.Joining? && s.sessions[c].hello.todo != []
    case Greet => c in s.sessions && s.sessions[c].hello.Joining? && s.sessions[c].hello.todo == []
    case Disconnect => c in s.sessions && s.lock.None?
  }

  function Ids(rooms: seq<Room>): (r: seq<RoomId>)
    ensures |r| == |rooms| && forall i :: 0 <= i < |r| ==> r[i] == rooms[i].id
  {
    seq(|rooms|, i requires 0 <= i < |rooms| => rooms[i].id)
  }

  /** Registration comes before the hello, which fetches logic's list and then subscribes room by
      room; a disconnect erases whatever connection the user has. */
  function ConnDo(s: State, c: Conn, e: ConnEvent): State
    requires ConnCan(s, c, e)
  {
    match e
    case Register(u) => s.(sessions := s.sessions[c := Session(u, Joined)], online := s.online[u := c])
    case Fetch => s.(sessions := s.sessions[c := s.sessions[c].(hello := Joining(Ids(s.rooms)))])
    case Join =>
      var todo := s.sessions[c].hello.todo;
      s.(topics := WithSubscriber(s.topics, todo[0], s.sessions[c].user),
         sessions := s.sessions[c := s.sessions[c].(hello := Joining(todo[1..]))])
    case Greet => s.(sessions := s.sessions[c := s.sessions[c].(hello := Welcome)])
    case Disconnect => s.(online := s.online - {s.sessions[c].user})
  }

  // ---- runs --------------------------------------------------------------

  predicate Can(s: State, e: Event) {
    match e
    case OfLogic(l) => LogicCan(s, l)
    case OfJob(j) => JobCan(s, j)
    case OfRpc(id, r) => RpcCan(s, id, r)
    case OfConn(c, a) => ConnCan(s, c, a)
  }

  function Do(s: State, e: Event): State
    requires Can(s, e)
  {
    match e
    case OfLogic(l) => LogicDo(s, l)
    case OfJob(j) => JobDo(s, j)
    case OfRpc(id, r) => RpcDo(s, id, r)
    case OfConn(c, a) => ConnDo(s, c, a)
  }

  /** The state after each of a sequence of events, None when one of them could not happen. */
  function After(s: State, es: seq<Event>): Option<State> {
    if es == [] then Some(s)
    else match After(s, es[..|es| - 1])
      case None => None
      case Some(t) => if Can(t, es[|es| - 1]) then Some(Do(t, es[|es| - 1])) else None
  }
}

/** Invariants of every run. */
module ChatInvariants {
  import opened Wrappers
  import opened Topics
  import opened ChatProtocol

  // ---- how the parts fit together ----------------------------------------

  predicate PlaceFits(e: Entry, at: Place) {
    if at.Returned? then true
    else if e.RoomCreated? then at.TopicNext? || at.LockNext? || at.Subscribing? || at.ListNext? || at.SendAllNext?
    else at.SnapshotNext? || at.Sending? || at.Holding?
  }

  /** A call that was made before or is being made now. */
  predicate Made(id: Rpc, job: Job) {
    id.entry < job.pos || (id.entry == job.pos && (id.attempt < job.attempt || (id.attempt == job.attempt
      && job.calling)))
  }

  ghost predicate HandlersFit(s: State) {
    && (forall id :: id in s.handlers ==>
          && id.entry < |s.kafka| && s.handlers[id].entry == s.kafka[id.entry] && Made(id, s.job)
          && PlaceFits(s.handlers[id].entry, s.handlers[id].at))
    && (forall id :: id in s.handlers && s.handlers[id].at.Subscribing? ==> s.lock == Some(id))
    && (s.lock.Some? ==> s.lock.value in s.handlers && s.handlers[s.lock.value].at.Subscribing?)
  }

  /** The topic of an announced room exists from AddRoomTopic on. */
  ghost predicate TopicsExist(s: State) {
    && (forall id :: id in s.handlers && s.handlers[id].entry.RoomCreated? && !s.handlers[id].at.TopicNext? ==>
          s.handlers[id].entry.room.id in s.topics)
    && (forall r :: r in s.startup || r in s.looped ==> r in s.topics)
  }

  /** Whatever is announced is in logic's list. */
  ghost predicate ListedFirst(s: State) {
    && (forall i :: 0 <= i < |s.kafka| && s.kafka[i].RoomCreated? ==> Listed(s.rooms, s.kafka[i].room.id))
    && (forall x :: x in s.created ==> x.RoomCreated? && Listed(s.rooms, x.room.id))
    && (forall r :: r in s.startup || r in s.looped ==> Listed(s.rooms, r))
  }

  ghost predicate SessionsFit(s: State) {
    forall u :: u in s.online ==> s.online[u] in s.sessions && s.sessions[s.online[u]].user == u
  }

  predicate Awaits(h: Hello, r: RoomId) { h.Joined? || (h.Joining? && r in h.todo) }

  /** A registered user is subscribed to a room, or its hello is still going to subscribe it. */
  ghost predicate Reached(s: State, u: User, r: RoomId)
    requires SessionsFit(s) && u in s.online && r in s.topics
  {
    u in s.topics[r].users || Awaits(s.sessions[s.online[u]].hello, r)
  }

  ghost predicate Covered(s: State)
    requires SessionsFit(s) && TopicsExist(s)
  {
    && (forall u, r :: u in s.online && (r in s.startup || r in s.looped) ==> Reached(s, u, r))
    && LoopFits(s)
  }

  ghost predicate ListsFit(s: State) {
    DistinctIds(s.roomList) && forall i :: 0 <= i < |s.roomList| ==> s.roomList[i].id in s.topics
  }

  ghost predicate Inv(s: State) {
    HandlersFit(s) && TopicsExist(s) && ListedFirst(s) && SessionsFit(s) && Covered(s) && ListsFit(s)
  }

  lemma InvStarts(s: State)
    requires Start(s)
    ensures Inv(s)
  {}

  lemma ListedMore(rooms: seq<Room>, r: Room, id: RoomId)
    ensures Listed(rooms, id) ==> Listed(rooms + [r], id)
    ensures Listed(rooms + [r], r.id)
  {
    assert (rooms + [r])[|rooms|].id == r.id;
    if Listed(rooms, id) {
      var i :| 0 <= i < |rooms| && rooms[i].id == id;
      assert (rooms + [r])[i].id == id;
    }
  }

  lemma LogicKeeps(s: State, e: LogicEvent)
    requires Inv(s) && LogicCan(s, e)
    ensures Inv(LogicDo(s, e))
  {
    LogicKeepsRest(s, e);
    LogicKeepsListed(s, e);
    hide *;
    InvParts(LogicDo(s, e));
  }

  lemma LogicKeepsRest(s: State, e: LogicEvent)
    requires Inv(s) && LogicCan(s, e)
    ensures var t := LogicDo(s, e); HandlersFit(t) && SessionsFit(t) && TopicsExist(t) && ListsFit(t) && Covered(t)
  {
    hide ListedFirst, Listed, Made, PlaceFits, DistinctIds;
    var t := LogicDo(s, e);
    forall u, r | u in t.online && (r in t.startup || r in t.looped) ensures SessionsFit(t) && TopicsExist(t)
      && Reached(t, u, r) {
      assert Reached(s, u, r);
    }
  }

  lemma LogicKeepsListed(s: State, e: LogicEvent)
    requires ListedFirst(s) && LogicCan(s, e)
    ensures ListedFirst(LogicDo(s, e))
  {
    hide Listed;
    if e.CreateRoom? {
      forall id ensures Listed(s.rooms, id) ==> Listed(s.rooms + [e.room], id) { ListedMore(s.rooms, e.room, id); }
      ListedMore(s.rooms, e.room, e.room.id);
    }
  }

  lemma JobKeeps(s: State, e: JobEvent)
    requires Inv(s) && JobCan(s, e)
    ensures Inv(JobDo(s, e))
  {
    var t := JobDo(s, e);
    JobKeepsHandlers(s, e);
    assert TopicsExist(t) by { hide Listed, ListedFirst, ListsFit, Covered, SessionsFit, Made, PlaceFits; }
    assert ListedFirst(t) && ListsFit(t) && SessionsFit(t) by { hide Listed, TopicsExist, HandlersFit, Covered; }
    hide Listed, ListedFirst, ListsFit, Made, PlaceFits;
    JobKeepsCovered(s, e);
  }

  lemma JobKeepsCovered(s: State, e: JobEvent)
    requires Inv(s) && JobCan(s, e)
    requires var t := JobDo(s, e); TopicsExist(t) && SessionsFit(t)
    ensures Covered(JobDo(s, e))
  {
    hide Listed, ListedFirst, ListsFit, Made, PlaceFits, Awaits;
    var t := JobDo(s, e);
    forall u, r | u in t.online && (r in t.startup || r in t.looped) ensures Reached(t, u, r) {
      assert Reached(s, u, r);
    }
  }

  lemma MadeLater(id: Rpc, job: Job, later: Job)
    requires Made(id, job)
    requires later == job.(calling := true) || later.pos == job.pos + 1 || later == Job(job.pos, job.attempt + 1, false)
    ensures Made(id, later)
  {}

  lemma JobKeepsHandlers(s: State, e: JobEvent)
    requires HandlersFit(s) && JobCan(s, e)
    ensures HandlersFit(JobDo(s, e))
  {
    var t := JobDo(s, e);
    forall id | id in s.handlers ensures Made(id, t.job) { MadeLater(id, s.job, t.job); }
    assert Current(s) !in s.handlers || s.job.calling;
    assert e.Call? ==> Made(Current(s), t.job);
    hide Made;
  }

  lemma ConnKeeps(s: State, c: Conn, e: ConnEvent)
    requires Inv(s) && ConnCan(s, c, e)
    ensures Inv(ConnDo(s, c, e))
  {
    ConnKeepsRest(s, c, e);
    ConnKeepsCovered(s, c, e);
    hide *;
    InvParts(ConnDo(s, c, e));
  }

  lemma ConnKeepsRest(s: State, c: Conn, e: ConnEvent)
    requires Inv(s) && ConnCan(s, c, e)
    ensures
      var t := ConnDo(s, c, e);
      HandlersFit(t) && TopicsExist(t) && ListedFirst(t) && SessionsFit(t) && ListsFit(t)
  {
    hide Covered, Listed, Made, PlaceFits, Ids, DistinctIds;
  }

  lemma ConnKeepsCovered(s: State, c: Conn, e: ConnEvent)
    requires Inv(s) && ConnCan(s, c, e)
    requires var t := ConnDo(s, c, e); TopicsExist(t) && SessionsFit(t)
    ensures Covered(ConnDo(s, c, e))
  {
    var t := ConnDo(s, c, e);
    if e.Fetch? {
      forall r | r in s.startup || r in s.looped ensures r in Ids(s.rooms) { ListedInIds(s.rooms, r); }
    }
    hide ListsFit, Listed, ListedFirst, Made, PlaceFits, Ids;
    forall u, r | u in t.online && (r in t.startup || r in t.looped) ensures Reached(t, u, r) {
      if u in s.online { assert Reached(s, u, r); }
    }
  }

  lemma ListedInIds(rooms: seq<Room>, r: RoomId)
    requires Listed(rooms, r)
    ensures r in Ids(rooms)
  {
    var i :| 0 <= i < |rooms| && rooms[i].id == r;
    assert Ids(rooms)[i] == r;
  }

  lemma RpcKeeps(s: State, id: Rpc, e: RpcEvent)
    requires Inv(s) && RpcCan(s, id, e)
    ensures Inv(RpcDo(s, id, e))
  {
    var t := RpcDo(s, id, e);
    RpcKeepsHandlers(s, id, e);
    RpcKeepsTopics(s, id, e);
    RpcKeepsLists(s, id, e);
    RpcKeepsCovered(s, id, e);
    hide *;
    hide HandlersFit, TopicsExist, ListedFirst, SessionsFit, Covered, ListsFit, RpcDo;
    InvParts(t);
  }

  lemma InvParts(s: State)
    requires HandlersFit(s) && TopicsExist(s) && ListedFirst(s) && SessionsFit(s) && Covered(s) && ListsFit(s)
    ensures Inv(s)
  {}

  lemma RpcKeepsHandlers(s: State, id: Rpc, e: RpcEvent)
    requires HandlersFit(s) && RpcCan(s, id, e)
    ensures HandlersFit(RpcDo(s, id, e))
  {
    hide Made, TopicsAfter, ListAfter, LogAfter, SnapsAfter, LoopedAfter, EachOnce, Subscribers;
  }

  /** The topic map only grows. */
  lemma RpcGrows(s: State, id: Rpc, e: RpcEvent)
    requires RpcCan(s, id, e)
    ensures Grew(s.topics, RpcDo(s, id, e).topics)
  {
    hide PlaceAfter, ListAfter, LogAfter, SnapsAfter, LoopedAfter, LockAfter, EachOnce;
  }

  lemma RpcKeepsTopics(s: State, id: Rpc, e: RpcEvent)
    requires HandlersFit(s) && TopicsExist(s) && RpcCan(s, id, e)
    ensures TopicsExist(RpcDo(s, id, e))
  {
    RpcGrows(s, id, e);
    TopicGrows(s.topics, RoomOf(s.handlers[id].entry), "");
    hide Made, WithTopic, WithSubscriber, ListAfter, LogAfter, SnapsAfter, LockAfter, EachOnce, Subscribers;
  }

  lemma RpcKeepsLists(s: State, id: Rpc, e: RpcEvent)
    requires Inv(s) && RpcCan(s, id, e)
    ensures var t := RpcDo(s, id, e); ListedFirst(t) && SessionsFit(t) && ListsFit(t)
  {
    hide Covered, TopicsAfter, WithRoom, LogAfter, SnapsAfter, LockAfter, EachOnce, Listed, PlaceAfter, Made;
    RpcGrows(s, id, e);
    if e.ListRoom? {
      RoomListed(s.roomList, RoomOf(s.handlers[id].entry));
      WithRoomAdds(s.roomList, RoomOf(s.handlers[id].entry));
    }
  }

  lemma WithRoomAdds(list: seq<Room>, r: Room)
    ensures forall i :: 0 <= i < |WithRoom(list, r)| ==>
      (i < |list| && WithRoom(list, r)[i] == list[i]) || (i == |list| && WithRoom(list, r)[i] == r)
  {
    var longer := WithRoom(list, r);
    if Listed(list, r.id) {
      assert longer == list;
    } else {
      assert longer == list + [r];
      forall i | 0 <= i < |longer| ensures (i < |list| && longer[i] == list[i]) || (i == |list| && longer[i] == r) {}
    }
  }

  lemma RpcKeepsCovered(s: State, id: Rpc, e: RpcEvent)
    requires Inv(s) && RpcCan(s, id, e)
    requires var t := RpcDo(s, id, e); HandlersFit(t) && TopicsExist(t) && SessionsFit(t)
    ensures Covered(RpcDo(s, id, e))
  {
    RpcKeepsReached(s, id, e);
    RpcKeepsLoop(s, id, e);
    hide RpcDo, HandlersFit, TopicsExist, SessionsFit, RpcCan, Reached;
  }

  lemma RpcKeepsReached(s: State, id: Rpc, e: RpcEvent)
    requires Inv(s) && RpcCan(s, id, e)
    requires var t := RpcDo(s, id, e); TopicsExist(t) && SessionsFit(t)
    ensures
      var t := RpcDo(s, id, e);
      forall u, r :: u in t.online && (r in t.startup || r in t.looped) ==> Reached(t, u, r)
  {
    hide TopicsAfter, ListAfter, LogAfter, SnapsAfter, PlaceAfter, EachOnce, Listed, ListsFit, ListedFirst, Made;
    hide Awaits;
    RpcGrows(s, id, e);
    var t := RpcDo(s, id, e);
    forall u, r | u in t.online && (r in t.startup || r in t.looped) ensures Reached(t, u, r) {
      if r in s.startup || r in s.looped { assert Reached(s, u, r); }
    }
  }

  /** While the mutex is held, every registered user is either still to be subscribed or is. */
  ghost predicate LoopFits(s: State)
    requires TopicsExist(s)
  {
    s.lock.Some? && s.lock.value in s.handlers && s.handlers[s.lock.value].at.Subscribing? ==>
      var h := s.handlers[s.lock.value];
      h.entry.RoomCreated? ==> forall u :: u in s.online && u !in h.at.todo ==> u in s.topics[h.entry.room.id].users
  }

  lemma RpcKeepsLoop(s: State, id: Rpc, e: RpcEvent)
    requires Inv(s) && RpcCan(s, id, e)
    requires var t := RpcDo(s, id, e); HandlersFit(t) && TopicsExist(t)
    ensures LoopFits(RpcDo(s, id, e))
  {
    hide WithTopic, WithSubscriber, ListAfter, LogAfter, SnapsAfter, EachOnce, Listed, ListsFit, ListedFirst, Made;
    hide Reached, LoopedAfter;
    RpcGrows(s, id, e);
    var t := RpcDo(s, id, e);
    if t.lock.Some? && e.Subscribe? && t.lock.value == id {
      TopicGrows(s.topics, RoomOf(s.handlers[id].entry), e.user);
    }
  }

  lemma InvKept(s: State, e: Event)
    requires Inv(s) && Can(s, e)
    ensures Inv(Do(s, e))
  {
    hide Inv, LogicDo, JobDo, RpcDo, ConnDo, LogicCan, JobCan, RpcCan, ConnCan;
    match e
    case OfLogic(l) => LogicKeeps(s, l);
    case OfJob(j) => JobKeeps(s, j);
    case OfRpc(id, r) => RpcKeeps(s, id, r);
    case OfConn(c, a) => ConnKeeps(s, c, a);
  }

  lemma {:induction false} InvAlways(s: State, es: seq<Event>)
    requires Start(s) && After(s, es).Some?
    ensures Inv(After(s, es).value)
    decreases |es|
  {
    hide Inv, Can, Do, Start;
    if es == [] {
      InvStarts(s);
    } else {
      InvAlways(s, es[..|es| - 1]);
      InvKept(After(s, es[..|es| - 1]).value, es[|es| - 1]);
    }
  }

  /** No missed subscription: in every run, a user whose registered connection has finished its
      hello is subscribed to every start-up room and to every room whose subscription loop has
      finished. */
  lemma NoMissedSubscription(s: State, es: seq<Event>, u: User, r: RoomId)
    requires Start(s) && After(s, es).Some?
    requires
      var t := After(s, es).value;
      u in t.online && t.online[u] in t.sessions && t.sessions[t.online[u]].hello.Welcome? && (r in t.startup
        || r in t.looped)
    ensures var t := After(s, es).value; r in t.topics && u in t.topics[r].users
  {
    hide After, Start, HandlersFit, ListedFirst, ListsFit;
    InvAlways(s, es);
    assert Reached(After(s, es).value, u, r);
  }

  /** In every run, comet's room list names every room once, and each has a topic. */
  lemma RoomListAlways(s: State, es: seq<Event>)
    requires Start(s) && After(s, es).Some?
    ensures
      var t := After(s, es).value;
      DistinctIds(t.roomList) && forall i :: 0 <= i < |t.roomList| ==> t.roomList[i].id in t.topics
  {
    hide After, Start, HandlersFit, ListedFirst, Covered;
    InvAlways(s, es);
  }

  // ---- redelivery --------------------------------------------------------

  /** What a run never takes back: topics with their names and creators, subscriptions, the
      entries of the room list in their order, finished loops. */
  ghost predicate Later(s: State, t: State) {
    Grew(s.topics, t.topics) && s.roomList <= t.roomList && s.looped <= t.looped && s.startup == t.startup
  }

  lemma StepIsLater(s: State, e: Event)
    requires Can(s, e)
    ensures Later(s, Do(s, e))
  {
    hide Later, LogicDo, JobDo, RpcDo, ConnDo, LogicCan, JobCan, RpcCan, ConnCan;
    match e
    case OfLogic(l) => LogicIsLater(s, l);
    case OfJob(j) => JobIsLater(s, j);
    case OfRpc(id, r) => RpcIsLater(s, id, r);
    case OfConn(c, a) => ConnIsLater(s, c, a);
  }

  lemma LogicIsLater(s: State, e: LogicEvent)
    requires LogicCan(s, e)
    ensures Later(s, LogicDo(s, e))
  {}

  lemma JobIsLater(s: State, e: JobEvent)
    requires JobCan(s, e)
    ensures Later(s, JobDo(s, e))
  {}

  lemma RpcIsLater(s: State, id: Rpc, e: RpcEvent)
    requires RpcCan(s, id, e)
    ensures Later(s, RpcDo(s, id, e))
  {
    RpcGrows(s, id, e);
    hide Grew, PlaceAfter, TopicsAfter, LogAfter, SnapsAfter, LockAfter, EachOnce;
  }

  lemma ConnIsLater(s: State, c: Conn, e: ConnEvent)
    requires ConnCan(s, c, e)
    ensures Later(s, ConnDo(s, c, e))
  {
    hide Ids;
  }

  lemma {:induction false} RunIsLater(s: State, es: seq<Event>)
    requires After(s, es).Some?
    ensures Later(s, After(s, es).value)
    decreases |es|
  {
    hide Can, Do;
    if es == [] {
    } else {
      RunIsLater(s, es[..|es| - 1]);
      StepIsLater(After(s, es[..|es| - 1]).value, es[|es| - 1]);
    }
  }

  /** A room that has been delivered before: it has its topic and its place in the list. */
  predicate Known(s: State, r: RoomId) { r in s.topics && Listed(s.roomList, r) }

  /** A call that delivers a message, or announces a known room once more. */
  predicate Repeats(s: State, h: Handler) { h.entry.RoomMessage? || Known(s, h.entry.room.id) }

  /** Topic keys with their names and creators and the room list as before; subscribers only grow. */
  ghost predicate Unharmed(s: State, t: State) {
    t.topics.Keys == s.topics.Keys && t.roomList == s.roomList && Grew(s.topics, t.topics)
  }

  lemma RepeatIsHarmless(s: State, id: Rpc, e: RpcEvent)
    requires RpcCan(s, id, e) && Repeats(s, s.handlers[id]) && PlaceFits(s.handlers[id].entry, s.handlers[id].at)
    ensures Unharmed(s, RpcDo(s, id, e))
  {
    RpcGrows(s, id, e);
    hide PlaceAfter, LogAfter, SnapsAfter, LockAfter, LoopedAfter, EachOnce, Listed, Grew;
  }

  lemma OtherStepHarmless(s: State, e: Event)
    requires Can(s, e) && !e.OfRpc?
    ensures Unharmed(s, Do(s, e))
  {
    StepIsLater(s, e);
    hide Grew, LogicDo, JobDo, ConnDo, RpcDo, LogicCan, JobCan, ConnCan, RpcCan;
    match e
    case OfLogic(l) => LogicKeepsKeys(s, l);
    case OfJob(j) => JobKeepsKeys(s, j);
    case OfConn(c, a) => ConnKeepsKeys(s, c, a);
  }

  lemma LogicKeepsKeys(s: State, e: LogicEvent)
    requires LogicCan(s, e)
    ensures var t := LogicDo(s, e); t.topics.Keys == s.topics.Keys && t.roomList == s.roomList
  {}

  lemma JobKeepsKeys(s: State, e: JobEvent)
    requires JobCan(s, e)
    ensures var t := JobDo(s, e); t.topics.Keys == s.topics.Keys && t.roomList == s.roomList
  {}

  lemma ConnKeepsKeys(s: State, c: Conn, e: ConnEvent)
    requires ConnCan(s, c, e)
    ensures var t := ConnDo(s, c, e); t.topics.Keys == s.topics.Keys && t.roomList == s.roomList
  {
    hide Ids;
  }

  /** No call of this run announces a room for the first time: whenever a handler takes a step, those
      created by retries included, it carries a message or announces a room that `s` knows. */
  ghost predicate OnlyRepeats(s: State, es: seq<Event>) {
    forall k :: 0 <= k < |es| && es[k].OfRpc? ==> StepRepeats(s, After(s, es[..k]), es[k].rpc)
  }

  predicate StepRepeats(s: State, t: Option<State>, id: Rpc) {
    t.Some? && id in t.value.handlers && Repeats(s, t.value.handlers[id])
  }

  /** Redelivery is harmless: whatever else happens (failures, retries, their new handlers, messages,
      connections, new rooms in logic), announcing known rooms again leaves topic keys, names,
      creators and the room list as they were, and subscribers only grow. */
  lemma {:induction false} RedeliveriesAreHarmless(s: State, es: seq<Event>)
    requires Inv(s) && After(s, es).Some? && OnlyRepeats(s, es)
    ensures Unharmed(s, After(s, es).value) && Inv(After(s, es).value)
    decreases |es|
  {
    hide Inv, Can, Do, Unharmed;
    if es == [] {
      UnharmedSelf(s);
    } else {
      var n := |es| - 1;
      var init, e := es[..n], es[n];
      assert OnlyRepeats(s, init) by {
        forall k | 0 <= k < n && init[k].OfRpc? ensures StepRepeats(s, After(s, init[..k]), init[k].rpc) {
          assert init[..k] == es[..k] && init[k] == es[k];
        }
      }
      RedeliveriesAreHarmless(s, init);
      var t := After(s, init).value;
      InvKept(t, e);
      if e.OfRpc? {
        assert StepRepeats(s, After(s, es[..n]), e.rpc);
        StillKnown(s, t, t.handlers[e.rpc]);
        HandlerFits(t, e.rpc);
        RpcStep(t, e.rpc, e.step);
        RepeatIsHarmless(t, e.rpc, e.step);
      } else {
        OtherStepHarmless(t, e);
      }
      UnharmedTwice(s, t, Do(t, e));
    }
  }

  lemma RpcStep(s: State, id: Rpc, e: RpcEvent)
    requires Can(s, OfRpc(id, e))
    ensures RpcCan(s, id, e) && Do(s, OfRpc(id, e)) == RpcDo(s, id, e)
  {
    hide RpcDo;
  }

  lemma HandlerFits(s: State, id: Rpc)
    requires Inv(s) && id in s.handlers
    ensures PlaceFits(s.handlers[id].entry, s.handlers[id].at)
  {
    hide TopicsExist, ListedFirst, SessionsFit, Covered, ListsFit, PlaceFits, Made;
  }

  lemma StillKnown(s: State, t: State, h: Handler)
    requires Unharmed(s, t) && Repeats(s, h)
    ensures Repeats(t, h)
  {
    hide Listed, Grew;
  }

  lemma UnharmedSelf(s: State)
    ensures Unharmed(s, s)
  {
    GrewSelf(s.topics);
  }

  lemma UnharmedTwice(s: State, t: State, u: State)
    requires Unharmed(s, t) && Unharmed(t, u)
    ensures Unharmed(s, u)
  {
    GrewTwice(s.topics, t.topics, u.topics);
  }

  /** A delivery that ran to its end, or at least past the room list, has made its room known, so
      that every further one is a repeat. */
  lemma DeliveredIsKnown(s: State, id: Rpc)
    requires Inv(s) && RpcCan(s, id, ListRoom) && s.handlers[id].entry.RoomCreated?
    ensures Known(RpcDo(s, id, ListRoom), s.handlers[id].entry.room.id)
  {
    hide LogAfter, SnapsAfter, LockAfter, LoopedAfter, EachOnce, PlaceAfter, Covered, ListedFirst, SessionsFit, Made;
    RoomListed(s.roomList, s.handlers[id].entry.room);
    hide Listed;
  }

  lemma GrewSelf(a: TopicMap)
    ensures Grew(a, a)
  {}

  lemma GrewTwice(a: TopicMap, b: TopicMap, c: TopicMap)
    requires Grew(a, b) && Grew(b, c)
    ensures Grew(a, c)
  {}
}

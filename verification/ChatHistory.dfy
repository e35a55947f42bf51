/** What the state of the protocol owes to the events of a run: Kafka to what users sent and logic
    published, the connection map to registrations and disconnects, topics to announcements. */
module ChatHistory {
  import opened Wrappers
  import opened Topics
  import opened ChatProtocol
  import opened ChatInvariants

  lemma AfterMore(s: State, es: seq<Event>)
    requires es != [] && After(s, es).Some?
    ensures
      var init, e := es[..|es| - 1], es[|es| - 1];
      After(s, init).Some? && Can(After(s, init).value, e) && After(s, es) == Some(Do(After(s, init).value, e))
  {
    hide Can, Do;
  }

  /** The job and comet's handlers leave logic, Kafka and the connections alone. */
  ghost predicate SameEnds(s: State, t: State) {
    && t.rooms == s.rooms && t.created == s.created && t.kafka == s.kafka
    && t.sessions == s.sessions && t.online == s.online
  }

  lemma JobKeepsEnds(s: State, e: JobEvent)
    requires JobCan(s, e)
    ensures SameEnds(s, JobDo(s, e))
  {}

  lemma RpcKeepsEnds(s: State, id: Rpc, e: RpcEvent)
    requires RpcCan(s, id, e)
    ensures SameEnds(s, RpcDo(s, id, e))
  {
    hide PlaceAfter, TopicsAfter, ListAfter, LockAfter, LogAfter, LoopedAfter, SnapsAfter, EachOnce;
  }

  lemma ConnKeepsLogic(s: State, c: Conn, e: ConnEvent)
    requires ConnCan(s, c, e)
    ensures var t := ConnDo(s, c, e); t.rooms == s.rooms && t.created == s.created && t.kafka == s.kafka
  {
    hide Ids;
  }

  lemma LogicKeepsConns(s: State, e: LogicEvent)
    requires LogicCan(s, e)
    ensures var t := LogicDo(s, e); t.sessions == s.sessions && t.online == s.online
  {}

  // ---- Kafka -------------------------------------------------------------

  /** What an event puts into Kafka. */
  function PublishedBy(e: Event): seq<Entry> {
    match e
    case OfLogic(SendMessage(room, text)) => [RoomMessage(room, text)]
    case OfLogic(Publish(x)) => [x]
    case _ => []
  }

  function Published(es: seq<Event>): seq<Entry> {
    if es == [] then [] else Published(es[..|es| - 1]) + PublishedBy(es[|es| - 1])
  }

  lemma StepPublishes(s: State, e: Event)
    requires Can(s, e)
    ensures Do(s, e).kafka == s.kafka + PublishedBy(e)
  {
    hide JobDo, RpcDo, ConnDo, JobCan, RpcCan, ConnCan;
    match e
    case OfLogic(l) =>
    case OfJob(j) => JobKeepsEnds(s, j);
    case OfRpc(id, r) => RpcKeepsEnds(s, id, r);
    case OfConn(c, a) => ConnKeepsLogic(s, c, a);
  }

  /** In every run, Kafka receives exactly the messages users sent, each for its room and with its
      text, and the announcements published, in the order of these events. */
  lemma {:induction false} KafkaIsPublished(s: State, es: seq<Event>)
    requires After(s, es).Some?
    ensures After(s, es).value.kafka == s.kafka + Published(es)
    decreases |es|
  {
    hide Can, Do, PublishedBy;
    if es == [] {
    } else {
      AfterMore(s, es);
      KafkaIsPublished(s, es[..|es| - 1]);
      StepPublishes(After(s, es[..|es| - 1]).value, es[|es| - 1]);
    }
  }

  lemma {:induction false} PublishedConcat(a: seq<Event>, b: seq<Event>)
    ensures Published(a + b) == Published(a) + Published(b)
    decreases |b|
  {
    hide PublishedBy;
    if b == [] {
      assert a + b == a;
    } else {
      var n := |b| - 1;
      assert (a + b)[..|a + b| - 1] == a + b[..n] && (a + b)[|a + b| - 1] == b[n];
      PublishedConcat(a, b[..n]);
    }
  }

  /** The texts users sent to some rooms and the announcements, read off the events. */
  function SentTo(es: seq<Event>, rooms: set<RoomId>): seq<string> {
    if es == [] then []
    else
      var before := SentTo(es[..|es| - 1], rooms);
      match es[|es| - 1]
      case OfLogic(SendMessage(room, text)) => if room in rooms then before + [text] else before
      case OfLogic(Publish(RoomCreated(_, text))) => before + [text]
      case OfLogic(Publish(RoomMessage(room, text))) => if room in rooms then before + [text] else before
      case _ => before
  }

  // ---- announcements -----------------------------------------------------

  /** The rooms created, in order. */
  function CreatedRooms(es: seq<Event>): seq<Room> {
    if es == [] then []
    else
      var before := CreatedRooms(es[..|es| - 1]);
      match es[|es| - 1]
      case OfLogic(CreateRoom(r, _)) => before + [r]
      case _ => before
  }

  /** Created and neither published nor lost since. */
  predicate Waiting(es: seq<Event>, x: Entry) {
    if es == [] then false
    else match es[|es| - 1]
      case OfLogic(CreateRoom(r, b)) => x == RoomCreated(r, b) || Waiting(es[..|es| - 1], x)
      case OfLogic(Publish(y)) => x != y && Waiting(es[..|es| - 1], x)
      case OfLogic(LosePublish(y)) => x != y && Waiting(es[..|es| - 1], x)
      case _ => Waiting(es[..|es| - 1], x)
  }

  lemma StepCreates(s: State, e: Event)
    requires Can(s, e)
    ensures Do(s, e).rooms == if e.OfLogic? && e.logic.CreateRoom? then s.rooms + [e.logic.room] else s.rooms
    ensures
      var t := Do(s, e);
      forall x :: x in t.created <==>
        if e.OfLogic? && e.logic.CreateRoom? then x == RoomCreated(e.logic.room, e.logic.body) || x in s.created
        else if e.OfLogic? && (e.logic.Publish? || e.logic.LosePublish?) then x != e.logic.entry && x in s.created
        else x in s.created
  {
    hide JobDo, RpcDo, ConnDo, JobCan, RpcCan, ConnCan;
    match e
    case OfLogic(l) =>
    case OfJob(j) => JobKeepsEnds(s, j);
    case OfRpc(id, r) => RpcKeepsEnds(s, id, r);
    case OfConn(c, a) => ConnKeepsLogic(s, c, a);
  }

  /** In every run, logic's list is the rooms created, and what waits for Kafka was created and
      neither published nor lost since. */
  lemma {:induction false} CreatedExact(s: State, es: seq<Event>)
    requires Start(s) && After(s, es).Some?
    ensures After(s, es).value.rooms == s.rooms + CreatedRooms(es)
    ensures forall x :: x in After(s, es).value.created <==> Waiting(es, x)
    decreases |es|
  {
    hide Can, Do;
    if es == [] {
    } else {
      hide Start;
      AfterMore(s, es);
      CreatedExact(s, es[..|es| - 1]);
      StepCreates(After(s, es[..|es| - 1]).value, es[|es| - 1]);
    }
  }

  lemma {:induction false} WaitingWasCreated(es: seq<Event>, x: Entry) returns (j: nat)
    requires Waiting(es, x)
    ensures j < |es| && x.RoomCreated? && es[j] == OfLogic(CreateRoom(x.room, x.body))
    decreases |es|
  {
    var e := es[|es| - 1];
    if e.OfLogic? && e.logic.CreateRoom? && x == RoomCreated(e.logic.room, e.logic.body) {
      j := |es| - 1;
    } else {
      j := WaitingWasCreated(es[..|es| - 1], x);
    }
  }

  lemma {:induction false} AfterPrefix(s: State, es: seq<Event>, k: nat)
    requires k <= |es| && After(s, es).Some?
    ensures After(s, es[..k]).Some?
    decreases |es| - k
  {
    hide Can, Do;
    if k == |es| {
      assert es[..k] == es;
    } else {
      AfterPrefix(s, es, k + 1);
      assert es[..k + 1][..k] == es[..k];
    }
  }

  /** In every run, what is announced was created before, under that name, by that user and with
      that text: `es[j]` is the creation behind the publication `es[k]`. */
  lemma AnnouncedWasCreated(s: State, es: seq<Event>, k: nat) returns (j: nat)
    requires Start(s) && After(s, es).Some? && k < |es| && es[k].OfLogic? && es[k].logic.Publish?
    ensures
      var x := es[k].logic.entry;
      j < k && x.RoomCreated? && es[j] == OfLogic(CreateRoom(x.room, x.body))
  {
    AfterPrefix(s, es, k + 1);
    assert es[..k + 1][..k] == es[..k];
    AfterMore(s, es[..k + 1]);
    CreatedExact(s, es[..k]);
    hide After, Start, Waiting;
    j := WaitingWasCreated(es[..k], es[k].logic.entry);
  }

  function Times(es: seq<Event>, e: Event): nat {
    if es == [] then 0 else Times(es[..|es| - 1], e) + if es[|es| - 1] == e then 1 else 0
  }

  /** A room is announced at most as often as it was created. */
  lemma {:induction false} AnnouncedAtMostOnce(s: State, es: seq<Event>, r: Room, b: string)
    requires Start(s) && After(s, es).Some?
    ensures
      var x := RoomCreated(r, b);
      Times(es, OfLogic(Publish(x))) + Times(es, OfLogic(LosePublish(x))) + (if Waiting(es, x) then 1 else 0)
        <= Times(es, OfLogic(CreateRoom(r, b)))
    decreases |es|
  {
    hide Can, Do, Start;
    if es == [] {
    } else {
      var init, e := es[..|es| - 1], es[|es| - 1];
      AfterMore(s, es);
      AnnouncedAtMostOnce(s, init, r, b);
      CreatedExact(s, init);
      if e.OfLogic? { CanPublish(After(s, init).value, e); }
    }
  }

  lemma CanPublish(s: State, e: Event)
    requires Can(s, e) && e.OfLogic?
    ensures e.logic.Publish? || e.logic.LosePublish? ==> e.logic.entry in s.created
  {}

  // ---- connections -------------------------------------------------------

  /** Who registered on a connection. */
  function UserOn(es: seq<Event>, c: Conn): Option<User> {
    if es == [] then None
    else match es[|es| - 1]
      case OfConn(d, Register(u)) => if d == c then Some(u) else UserOn(es[..|es| - 1], c)
      case _ => UserOn(es[..|es| - 1], c)
  }

  /** The connection a user last registered on, unless one of the user's connections has closed
      since. */
  function OnlineOn(es: seq<Event>, u: User): Option<Conn> {
    if es == [] then None
    else match es[|es| - 1]
      case OfConn(c, Register(v)) => if v == u then Some(c) else OnlineOn(es[..|es| - 1], u)
      case OfConn(c, Disconnect) => if UserOn(es[..|es| - 1], c) == Some(u) then None else OnlineOn(es[..|es| - 1], u)
      case _ => OnlineOn(es[..|es| - 1], u)
  }

  function SessionUser(s: State, c: Conn): Option<User> { if c in s.sessions then Some(s.sessions[c].user) else None }
  function EntryOf(s: State, u: User): Option<Conn> { if u in s.online then Some(s.online[u]) else None }

  lemma StepConnects(s: State, e: Event, u: User, c: Conn)
    requires Can(s, e)
    ensures SessionUser(Do(s, e), c) ==
      match e
      case OfConn(d, Register(v)) => if d == c then Some(v) else SessionUser(s, c)
      case _ => SessionUser(s, c)
    ensures EntryOf(Do(s, e), u) ==
      match e
      case OfConn(d, Register(v)) => if v == u then Some(d) else EntryOf(s, u)
      case OfConn(d, Disconnect) => if SessionUser(s, d) == Some(u) then None else EntryOf(s, u)
      case _ => EntryOf(s, u)
  {
    hide LogicDo, JobDo, RpcDo, LogicCan, JobCan, RpcCan, Ids;
    match e
    case OfLogic(l) => LogicKeepsConns(s, l);
    case OfJob(j) => JobKeepsEnds(s, j);
    case OfRpc(id, r) => RpcKeepsEnds(s, id, r);
    case OfConn(d, a) =>
  }

  /** In every run, the connection map holds exactly the users who registered and have not
      disconnected since, each with the connection of its last registration. */
  lemma {:induction false} OnlineExact(s: State, es: seq<Event>)
    requires Start(s) && After(s, es).Some?
    ensures
      var t := After(s, es).value;
      && (forall u :: u in t.online <==> OnlineOn(es, u).Some?)
      && (forall u :: u in t.online ==> t.online[u] == OnlineOn(es, u).value)
      && (forall c :: c in t.sessions <==> UserOn(es, c).Some?)
      && (forall c :: c in t.sessions ==> t.sessions[c].user == UserOn(es, c).value)
  {
    var t := After(s, es).value;
    forall u ensures EntryOf(t, u) == OnlineOn(es, u) { OnlineFor(s, es, u, 0); }
    forall c ensures SessionUser(t, c) == UserOn(es, c) { OnlineFor(s, es, "", c); }
    hide After, Start;
    forall u ensures u in t.online <==> OnlineOn(es, u).Some? { assert EntryOf(t, u) == OnlineOn(es, u); }
    forall c ensures c in t.sessions <==> UserOn(es, c).Some? { assert SessionUser(t, c) == UserOn(es, c); }
    forall u | u in t.online ensures t.online[u] == OnlineOn(es, u).value { assert EntryOf(t, u) == OnlineOn(es, u); }
    forall c | c in t.sessions ensures t.sessions[c].user == UserOn(es, c).value {
      assert SessionUser(t, c) == UserOn(es, c);
    }
  }

  lemma {:induction false} OnlineFor(s: State, es: seq<Event>, u: User, c: Conn)
    requires Start(s) && After(s, es).Some?
    ensures SessionUser(After(s, es).value, c) == UserOn(es, c)
    ensures EntryOf(After(s, es).value, u) == OnlineOn(es, u)
    decreases |es|
  {
    hide Can, Do, SessionUser, EntryOf;
    if es == [] {
      NobodyYet(s, u, c);
    } else {
      hide Start;
      var init, e := es[..|es| - 1], es[|es| - 1];
      AfterMore(s, es);
      OnlineFor(s, init, u, c);
      if e.OfConn? { OnlineFor(s, init, u, e.conn); }
      StepConnects(After(s, init).value, e, u, c);
    }
  }

  lemma NobodyYet(s: State, u: User, c: Conn)
    requires Start(s)
    ensures SessionUser(s, c) == None && EntryOf(s, u) == None
  {}

  // ---- topics ------------------------------------------------------------

  /** Logic, the job and a connection leave the room list alone and the loops that are running;
      only a Join changes topics, by one subscriber. */
  ghost predicate SameComet(s: State, t: State) {
    && t.roomList == s.roomList
    && (forall k :: k in t.handlers && t.handlers[k].at.Subscribing? ==>
          k in s.handlers && t.handlers[k] == s.handlers[k])
    && (forall c :: c in s.sessions ==> c in t.sessions && t.sessions[c].user == s.sessions[c].user)
  }

  lemma LogicKeepsComet(s: State, e: LogicEvent)
    requires LogicCan(s, e)
    ensures SameComet(s, LogicDo(s, e)) && LogicDo(s, e).topics == s.topics
  {}

  lemma JobKeepsComet(s: State, e: JobEvent)
    requires JobCan(s, e)
    ensures SameComet(s, JobDo(s, e)) && JobDo(s, e).topics == s.topics
  {}

  lemma ConnKeepsComet(s: State, c: Conn, e: ConnEvent)
    requires ConnCan(s, c, e)
    ensures SameComet(s, ConnDo(s, c, e))
    ensures ConnDo(s, c, e).topics == s.topics || (e.Join? && c in s.sessions && exists r ::
      ConnDo(s, c, e).topics == WithSubscriber(s.topics, r, s.sessions[c].user))
  {
    hide Ids, WithSubscriber;
    if e.Join? {
      var r := s.sessions[c].hello.todo[0];
      assert ConnDo(s, c, e).topics == WithSubscriber(s.topics, r, s.sessions[c].user);
    }
  }

  /** What holds of the topics after any step that is not a handler's. */
  lemma OtherStep(s: State, e: Event)
    requires Can(s, e) && !e.OfRpc?
    ensures SameComet(s, Do(s, e))
    ensures Do(s, e).topics == s.topics || exists r, u ::
      Visitor(s, u) && Do(s, e).topics == WithSubscriber(s.topics, r, u)
  {
    hide LogicDo, JobDo, ConnDo, LogicCan, JobCan, ConnCan, SameComet, WithSubscriber;
    match e
    case OfLogic(l) => LogicKeepsComet(s, l);
    case OfJob(j) => JobKeepsComet(s, j);
    case OfConn(c, a) =>
      ConnKeepsComet(s, c, a);
      if ConnDo(s, c, a).topics != s.topics {
        assert Visitor(s, s.sessions[c].user);
      }
  }

  /** Kafka holds an announcement of the room. */
  ghost predicate Announced(kafka: seq<Entry>, r: Room) {
    exists i :: 0 <= i < |kafka| && kafka[i].RoomCreated? && kafka[i].room == r
  }

  ghost predicate TopicsAnnounced(s: State, t: State) {
    && (forall r :: r in t.topics && r !in s.topics ==>
          Announced(t.kafka, Room(r, t.topics[r].name, t.topics[r].creator)))
    && (forall i :: 0 <= i < |t.roomList| ==> Announced(t.kafka, t.roomList[i]))
  }

  lemma AnnouncedMore(kafka: seq<Entry>, more: seq<Entry>, r: Room)
    requires Announced(kafka, r)
    ensures Announced(kafka + more, r)
  {
    var i :| 0 <= i < |kafka| && kafka[i].RoomCreated? && kafka[i].room == r;
    assert (kafka + more)[i] == kafka[i];
  }

  lemma HandledIsAnnounced(t: State, id: Rpc)
    requires Inv(t) && id in t.handlers && t.handlers[id].entry.RoomCreated?
    ensures Announced(t.kafka, RoomOf(t.handlers[id].entry))
  {
    hide TopicsExist, ListedFirst, SessionsFit, Covered, ListsFit, PlaceFits, Made;
  }

  /** A new topic and a new list entry are those of the room the handler announces. */
  lemma RpcTopics(t: State, id: Rpc, e: RpcEvent)
    requires RpcCan(t, id, e)
    ensures
      var n, room := RpcDo(t, id, e), RoomOf(t.handlers[id].entry);
      && (forall r :: r in n.topics && r !in t.topics ==>
            e.AddTopic? && r == room.id && n.topics[r] == Topic(room.name, room.creator, {}))
      && (forall r :: r in n.topics && r in t.topics ==>
            n.topics[r].name == t.topics[r].name && n.topics[r].creator == t.topics[r].creator)
      && (n.roomList == t.roomList || (e.ListRoom? && n.roomList == t.roomList + [room]))
  {
    hide PlaceAfter, LockAfter, LogAfter, LoopedAfter, SnapsAfter, EachOnce, Listed;
  }

  lemma HandlerKind(t: State, id: Rpc, e: RpcEvent)
    requires Inv(t) && RpcCan(t, id, e) && (e.AddTopic? || e.ListRoom? || e.Subscribe?)
    ensures t.handlers[id].entry.RoomCreated?
  {
    hide TopicsExist, ListedFirst, SessionsFit, Covered, ListsFit, Made, EachOnce;
  }

  lemma RpcKeepsAnnounced(s: State, t: State, id: Rpc, e: RpcEvent)
    requires Inv(t) && TopicsAnnounced(s, t) && RpcCan(t, id, e)
    ensures TopicsAnnounced(s, RpcDo(t, id, e))
  {
    RpcTopics(t, id, e);
    RpcKeepsEnds(t, id, e);
    if e.AddTopic? || e.ListRoom? {
      HandlerKind(t, id, e);
      HandledIsAnnounced(t, id);
    }
    hide Inv, RpcDo, Announced;
    var n := RpcDo(t, id, e);
    forall r | r in n.topics && r !in s.topics
      ensures Announced(n.kafka, Room(r, n.topics[r].name, n.topics[r].creator))
    {
      if r in t.topics { assert Announced(t.kafka, Room(r, t.topics[r].name, t.topics[r].creator)); }
    }
  }

  /** Outside comet's handlers no topic appears and no list entry. */
  lemma OtherTopics(t: State, e: Event)
    requires Can(t, e) && !e.OfRpc?
    ensures
      var n := Do(t, e);
      && n.topics.Keys == t.topics.Keys && n.roomList == t.roomList
      && (forall r :: r in t.topics ==>
            n.topics[r].name == t.topics[r].name && n.topics[r].creator == t.topics[r].creator)
  {
    OtherStep(t, e);
    hide Can, Do, Visitor;
  }

  lemma StepKeepsAnnounced(s: State, t: State, e: Event)
    requires Inv(t) && TopicsAnnounced(s, t) && Can(t, e)
    ensures TopicsAnnounced(s, Do(t, e))
  {
    if e.OfRpc? {
      RpcKeepsAnnounced(s, t, e.rpc, e.step);
    } else {
      OtherTopics(t, e);
      StepPublishes(t, e);
      hide Inv, Can, Do, Announced, PublishedBy;
      var n := Do(t, e);
      forall r | r in n.topics && r !in s.topics
        ensures Announced(n.kafka, Room(r, n.topics[r].name, n.topics[r].creator))
      {
        AnnouncedMore(t.kafka, PublishedBy(e), Room(r, t.topics[r].name, t.topics[r].creator));
      }
      forall i | 0 <= i < |n.roomList| ensures Announced(n.kafka, n.roomList[i]) {
        AnnouncedMore(t.kafka, PublishedBy(e), t.roomList[i]);
      }
    }
  }

  /** In every run, a topic that was not there at start-up and every entry of comet's room list
      have the id, the name and the creator of one room announced in Kafka. */
  lemma {:induction false} TopicsFromAnnouncements(s: State, es: seq<Event>)
    requires Start(s) && After(s, es).Some?
    ensures
      var t := After(s, es).value;
      && (forall r :: r in t.topics && r !in s.topics ==>
            Announced(t.kafka, Room(r, t.topics[r].name, t.topics[r].creator)))
      && (forall i :: 0 <= i < |t.roomList| ==> Announced(t.kafka, t.roomList[i]))
    decreases |es|
  {
    hide Can, Do, Inv;
    if es == [] {
    } else {
      hide Start, Announced;
      var init := es[..|es| - 1];
      AfterMore(s, es);
      TopicsFromAnnouncements(s, init);
      InvAlways(s, init);
      StepKeepsAnnounced(s, After(s, init).value, es[|es| - 1]);
    }
  }

  // ---- subscribers -------------------------------------------------------

  /** Someone who registered at some time. */
  ghost predicate Visitor(t: State, u: User) { exists c :: c in t.sessions && t.sessions[c].user == u }

  ghost predicate SubscribersVisited(s: State, t: State) {
    && (forall r, u :: r in t.topics && u in t.topics[r].users ==>
          Visitor(t, u) || (r in s.topics && u in s.topics[r].users))
    && (forall id, u :: id in t.handlers && t.handlers[id].at.Subscribing? && u in t.handlers[id].at.todo ==>
          Visitor(t, u))
  }

  lemma OnlineVisits(t: State, u: User)
    requires SessionsFit(t) && u in t.online
    ensures Visitor(t, u)
  {
    var c := t.online[u];
    assert c in t.sessions && t.sessions[c].user == u;
  }

  /** A step adds no subscriber but one it names or takes from a running loop or hello. */
  lemma RpcSubscribes(t: State, id: Rpc, e: RpcEvent, r: RoomId, u: User)
    requires RpcCan(t, id, e) && r in RpcDo(t, id, e).topics && u in RpcDo(t, id, e).topics[r].users
    ensures (r in t.topics && u in t.topics[r].users) || (e == Subscribe(u) && r == RoomOf(t.handlers[id].entry).id)
  {
    hide PlaceAfter, ListAfter, LockAfter, LogAfter, LoopedAfter, SnapsAfter, EachOnce;
  }

  lemma RpcLoops(t: State, id: Rpc, e: RpcEvent, k: Rpc, u: User)
    requires RpcCan(t, id, e) && k in RpcDo(t, id, e).handlers
    requires RpcDo(t, id, e).handlers[k].at.Subscribing? && u in RpcDo(t, id, e).handlers[k].at.todo
    ensures k in t.handlers
    ensures (t.handlers[k].at.Subscribing? && u in t.handlers[k].at.todo) || u in t.online
  {
    hide ListAfter, LockAfter, LogAfter, LoopedAfter, SnapsAfter, TopicsAfter, EachOnce;
  }

  lemma RpcKeepsVisited(s: State, t: State, id: Rpc, e: RpcEvent)
    requires Inv(t) && SubscribersVisited(s, t) && RpcCan(t, id, e)
    ensures SubscribersVisited(s, RpcDo(t, id, e))
  {
    assert SessionsFit(t) by { hide HandlersFit, TopicsExist, ListedFirst, Covered, ListsFit; }
    RpcKeepsEnds(t, id, e);
    var n := RpcDo(t, id, e);
    assert e.Subscribe? ==> Visitor(t, e.user) by { hide Inv, SessionsFit, Visitor, EachOnce, RpcDo, SameEnds; }
    hide Inv, RpcCan, RpcDo, Visitor;
    forall r, u | r in n.topics && u in n.topics[r].users
      ensures Visitor(n, u) || (r in s.topics && u in s.topics[r].users)
    {
      RpcSubscribes(t, id, e, r, u);
      if Visitor(t, u) { VisitorStays(t, n, u); }
    }
    forall k, u | k in n.handlers && n.handlers[k].at.Subscribing? && u in n.handlers[k].at.todo ensures Visitor(n, u) {
      RpcLoops(t, id, e, k, u);
      if u in t.online { OnlineVisits(t, u); }
      VisitorStays(t, n, u);
    }
  }

  /** Other steps add a subscriber only for a connection that has registered. */
  lemma OtherSubscribes(t: State, e: Event, r: RoomId, u: User)
    requires Can(t, e) && !e.OfRpc? && r in Do(t, e).topics && u in Do(t, e).topics[r].users
    ensures (r in t.topics && u in t.topics[r].users) || Visitor(t, u)
  {
    OtherStep(t, e);
    hide Can, Do, Visitor, SameComet;
  }

  lemma VisitorStays(t: State, n: State, u: User)
    requires Visitor(t, u)
    requires forall c :: c in t.sessions ==> c in n.sessions && n.sessions[c].user == t.sessions[c].user
    ensures Visitor(n, u)
  {
    var c :| c in t.sessions && t.sessions[c].user == u;
    assert c in n.sessions;
  }

  lemma StepKeepsVisited(s: State, t: State, e: Event)
    requires Inv(t) && SubscribersVisited(s, t) && Can(t, e)
    ensures SubscribersVisited(s, Do(t, e))
  {
    if e.OfRpc? {
      RpcKeepsVisited(s, t, e.rpc, e.step);
    } else {
      OtherKeepsVisited(s, t, e);
    }
  }

  lemma OtherKeepsVisited(s: State, t: State, e: Event)
    requires SubscribersVisited(s, t) && Can(t, e) && !e.OfRpc?
    ensures SubscribersVisited(s, Do(t, e))
  {
    OtherStep(t, e);
    hide Visitor, Can, Do;
    var n := Do(t, e);
    forall r, u | r in n.topics && u in n.topics[r].users
      ensures Visitor(n, u) || (r in s.topics && u in s.topics[r].users)
    {
      OtherSubscribes(t, e, r, u);
      if Visitor(t, u) { VisitorStays(t, n, u); }
    }
    forall k, u | k in n.handlers && n.handlers[k].at.Subscribing? && u in n.handlers[k].at.todo ensures Visitor(n, u) {
      VisitorStays(t, n, u);
    }
  }

  lemma {:induction false} VisitedAlways(s: State, es: seq<Event>)
    requires Start(s) && After(s, es).Some?
    ensures SubscribersVisited(s, After(s, es).value)
    decreases |es|
  {
    hide Can, Do, Inv;
    if es == [] {
    } else {
      hide Start, SubscribersVisited;
      var init := es[..|es| - 1];
      AfterMore(s, es);
      VisitedAlways(s, init);
      InvAlways(s, init);
      StepKeepsVisited(s, After(s, init).value, es[|es| - 1]);
    }
  }

  /** In every run, whoever is subscribed to a room was so at start-up or has registered. */
  lemma SubscribersRegistered(s: State, es: seq<Event>, r: RoomId, u: User)
    requires Start(s) && After(s, es).Some?
    requires var t := After(s, es).value; r in t.topics && u in t.topics[r].users
    ensures (r in s.topics && u in s.topics[r].users) || exists c :: UserOn(es, c) == Some(u)
  {
    VisitedAlways(s, es);
    OnlineExact(s, es);
    hide After, Start;
    var t := After(s, es).value;
    if Visitor(t, u) {
      var c :| c in t.sessions && t.sessions[c].user == u;
      assert UserOn(es, c) == Some(u);
    }
  }
}

/** comet_service.cc and the client in job/main.cc as they run when nothing interferes. */
module Comet {
  import opened Wrappers
  import opened Topics
  import opened ChatProtocol

  /** Everybody in `users` subscribed to one room. */
  function SubscribeAll(topics: TopicMap, room: RoomId, users: set<User>): TopicMap {
    if room in topics then topics[room := topics[room].(users := topics[room].users + users)] else topics
  }

  datatype Sent = Sent(user: User, conn: Conn, body: string)

  /** One frame for each of the users who is online, on that user's connection, and no other. */
  ghost predicate OneEach(ds: seq<Sent>, users: set<User>, online: map<User, Conn>, body: string) {
    && (forall i :: 0 <= i < |ds| ==>
          ds[i].user in users && ds[i].user in online && ds[i].conn == online[ds[i].user] && ds[i].body == body)
    && (forall i, j :: 0 <= i < j < |ds| ==> ds[i].user != ds[j].user)
    && (forall u :: u in users && u in online ==> exists i :: 0 <= i < |ds| && ds[i].user == u)
  }

  class CometService {
    const pubsub: PubSubService
    var online: map<User, Conn>
    var sent: seq<Sent>

    constructor (pubsub: PubSubService)
      ensures this.pubsub == pubsub && online == map[] && sent == []
    {
      this.pubsub := pubsub;
      online, sent := map[], [];
    }

    /** Broadcast of a room creation: topic, subscription of everyone online, room list, frames. */
    method Broadcast(r: Room, body: string)
      requires pubsub.Valid()
      modifies this`sent, pubsub, pubsub.Objects()
      ensures pubsub.Valid()
      ensures pubsub.Value() == SubscribeAll(WithTopic(old(pubsub.Value()), r), r.id, online.Keys)
      ensures pubsub.rooms == WithRoom(old(pubsub.rooms), r)
      ensures |sent| >= |old(sent)| && sent[..|old(sent)|] == old(sent)
      ensures OneEach(sent[|old(sent)|..], online.Keys, online, body)
    {
      hide WithTopic, WithRoom, OneEach, SubscribeAll;
      OpenRoom(r);
      var _ := pubsub.AddRoom(r);
      SendEach(online.Keys, body);
    }

    /** The topic first, then the subscriptions. */
    method OpenRoom(r: Room)
      requires pubsub.Valid()
      modifies pubsub`topics, pubsub.Objects()
      ensures pubsub.Valid()
      ensures pubsub.Value() == SubscribeAll(WithTopic(old(pubsub.Value()), r), r.id, online.Keys)
    {
      hide WithTopic, SubscribeAll;
      var _ := pubsub.AddRoomTopic(r);
      SubscribeEveryone(r.id);
    }

    method SubscribeEveryone(room: RoomId)
      requires pubsub.Valid()
      modifies pubsub.Objects()
      ensures pubsub.Valid() && pubsub.topics == old(pubsub.topics)
      ensures pubsub.Value() == SubscribeAll(old(pubsub.Value()), room, online.Keys)
    {
      var todo := online.Keys;
      ghost var done: set<User> := {};
      SubscribeNobody(pubsub.Value(), room);
      while todo != {}
        invariant pubsub.Valid() && pubsub.topics == old(pubsub.topics) && done + todo == online.Keys
        invariant pubsub.Value() == SubscribeAll(old(pubsub.Value()), room, done)
      {
        hide SubscribeAll, WithSubscriber;
        var u :| u in todo;
        SubscribeOneMore(old(pubsub.Value()), room, done, u);
        var _ := pubsub.AddSubscriber(room, u);
        todo, done := todo - {u}, done + {u};
      }
    }

    /** The sending loop: whoever is not found in the connection map is passed over. */
    method SendEach(users: set<User>, body: string)
      modifies this`sent
      ensures |sent| >= |old(sent)| && sent[..|old(sent)|] == old(sent)
      ensures OneEach(sent[|old(sent)|..], users, online, body)
    {
      hide OneEach;
      var todo := users;
      ghost var done: set<User>, ds: seq<Sent> := {}, [];
      NoneSent(online, body);
      while todo != {}
        invariant done + todo == users && done !! todo && sent == old(sent) + ds && OneEach(ds, done, online, body)
      {
        var u :| u in todo;
        OneMoreSent(ds, done, u, online, body);
        if u in online {
          sent := sent + [Sent(u, online[u], body)];
          ds := ds + [Sent(u, online[u], body)];
        }
        todo, done := todo - {u}, done + {u};
      }
    }

    /** BroadcastRoom: a copy of the subscribers, then the sending loop. */
    method BroadcastRoom(roomId: RoomId, body: string)
      requires pubsub.Valid()
      modifies this`sent
      ensures |sent| >= |old(sent)| && sent[..|old(sent)|] == old(sent)
      ensures
        var users := if roomId in pubsub.Value() then pubsub.Value()[roomId].users else {};
        OneEach(sent[|old(sent)|..], users, online, body)
    {
      hide OneEach;
      var users := pubsub.Snapshot(roomId);
      if users.None? {
        NoneSent(online, body);
        assert sent[|old(sent)|..] == [];
        return;
      }
      SendEach(users.value, body);
    }
  }

  lemma SubscribeNobody(topics: TopicMap, room: RoomId)
    ensures SubscribeAll(topics, room, {}) == topics
  {
    if room in topics { assert topics[room].users + {} == topics[room].users; }
  }

  lemma SubscribeOneMore(topics: TopicMap, room: RoomId, users: set<User>, u: User)
    ensures WithSubscriber(SubscribeAll(topics, room, users), room, u) == SubscribeAll(topics, room, users + {u})
  {
    if room in topics { assert topics[room].users + users + {u} == topics[room].users + (users + {u}); }
  }

  lemma NoneSent(online: map<User, Conn>, body: string)
    ensures OneEach([], {}, online, body)
  {}

  lemma OneMoreSent(ds: seq<Sent>, users: set<User>, u: User, online: map<User, Conn>, body: string)
    requires OneEach(ds, users, online, body) && u !in users
    ensures OneEach(if u in online then ds + [Sent(u, online[u], body)] else ds, users + {u}, online, body)
  {
    if u in online {
      var es := ds + [Sent(u, online[u], body)];
      forall v | v in users + {u} && v in online ensures exists i :: 0 <= i < |es| && es[i].user == v {
        if v == u {
          assert es[|ds|].user == v;
        } else {
          var i :| 0 <= i < |ds| && ds[i].user == v;
          assert es[i].user == v;
        }
      }
    }
  }

  // ---- the job's client --------------------------------------------------

  datatype Status = OK | UNAVAILABLE | CANCELLED | OTHER

  class CometClient {
    var channels: nat

    constructor ()
      ensures channels == 1
    {
      channels := 1;
    }

    /** broadcast and broadcastRoom: up to three attempts, `replies` being what the calls answer; a
        lost connection is made anew. */
    method CallWithRetries(replies: seq<Status>) returns (success: bool, attempts: nat)
      requires |replies| >= MAX_RETRIES
      modifies this
      ensures 1 <= attempts <= MAX_RETRIES
      ensures success <==> exists i :: 0 <= i < MAX_RETRIES && replies[i] == OK
      ensures if success then replies[attempts - 1] == OK && OK !in replies[..attempts - 1] else attempts == MAX_RETRIES
      ensures channels == old(channels) + Lost(replies[..attempts])
    {
      var retry := 0;
      while retry < MAX_RETRIES
        invariant 0 <= retry <= MAX_RETRIES && OK !in replies[..retry]
        invariant channels == old(channels) + Lost(replies[..retry])
      {
        var status := replies[retry];
        assert replies[..retry + 1] == replies[..retry] + [status];
        LostOneMore(replies[..retry], status);
        if status == OK { return true, retry + 1; }
        if status == UNAVAILABLE || status == CANCELLED { channels := channels + 1; }
        retry := retry + 1;
      }
      assert forall i :: 0 <= i < MAX_RETRIES ==> replies[i] == replies[..MAX_RETRIES][i];
      return false, MAX_RETRIES;
    }
  }

  /** How many of the replies say that the connection is gone. */
  function Lost(replies: seq<Status>): nat {
    if replies == [] then 0
    else
      var last := replies[|replies| - 1];
      Lost(replies[..|replies| - 1]) + if last == UNAVAILABLE || last == CANCELLED then 1 else 0
  }

  lemma LostOneMore(replies: seq<Status>, status: Status)
    ensures Lost(replies + [status]) == Lost(replies) + if status == UNAVAILABLE || status == CANCELLED then 1 else 0
  {
    assert (replies + [status])[..|replies|] == replies;
  }

  // ---- the same as protocol steps ----------------------------------------

  function SubscribeEvents(id: Rpc, order: seq<User>): (es: seq<Event>)
    ensures |es| == |order|
  {
    seq(|order|, i requires 0 <= i < |order| => OfRpc(id, Subscribe(order[i])))
  }

  /** The steps of one announcement, everybody in the order `order`. */
  function BroadcastEvents(id: Rpc, order: seq<User>): seq<Event> {
    [OfRpc(id, AddTopic), OfRpc(id, TakeLock)] + SubscribeEvents(id, order) +
    [OfRpc(id, ReleaseLock), OfRpc(id, ListRoom), OfRpc(id, SendAll(order))]
  }

  lemma {:induction false} AfterConcat(s: State, a: seq<Event>, b: seq<Event>)
    requires After(s, a).Some?
    ensures After(s, a + b) == After(After(s, a).value, b)
    decreases |b|
  {
    hide Can, Do;
    if b == [] {
      assert a + b == a;
    } else {
      var run := a + b;
      assert run[..|run| - 1] == a + b[..|b| - 1];
      AfterConcat(s, a, b[..|b| - 1]);
    }
  }

  lemma AfterOne(s: State, e: Event)
    requires Can(s, e)
    ensures After(s, [e]) == Some(Do(s, e))
  {
    hide Can, Do;
    assert [e][..0] == [];
    assert After(s, []) == Some(s);
  }

  /** A handler inside the subscription loop, after the users `order[..k]`. */
  function InLoop(s: State, id: Rpc, order: seq<User>, k: nat): State
    requires id in s.handlers && k <= |order|
  {
    var h := s.handlers[id];
    s.(topics := SubscribeAll(s.topics, RoomOf(h.entry).id, Firsts(order, k)),
       handlers := s.handlers[id := h.(at := Subscribing(s.online.Keys - Firsts(order, k)))])
  }

  function Firsts(order: seq<User>, k: nat): set<User>
    requires k <= |order|
  {
    set i | 0 <= i < k :: order[i]
  }

  lemma FirstsMore(order: seq<User>, k: nat)
    requires k < |order|
    ensures Firsts(order, k + 1) == Firsts(order, k) + {order[k]}
  {}

  lemma {:induction false} LoopRuns(s: State, id: Rpc, order: seq<User>, k: nat)
    requires id in s.handlers && s.handlers[id].at == Subscribing(s.online.Keys)
    requires EachOnce(order, s.online.Keys) && k <= |order|
    ensures After(s, SubscribeEvents(id, order)[..k]) == Some(InLoop(s, id, order, k))
    decreases k
  {
    if k == 0 {
      SubscribeNobody(s.topics, RoomOf(s.handlers[id].entry).id);
      assert Firsts(order, 0) == {} && s.online.Keys - {} == s.online.Keys;
      assert s.handlers[id := s.handlers[id]] == s.handlers;
    } else {
      LoopRuns(s, id, order, k - 1);
      var es := SubscribeEvents(id, order)[..k];
      assert es[..k - 1] == SubscribeEvents(id, order)[..k - 1];
      FirstsMore(order, k - 1);
      assert order[k - 1] in order && order[k - 1] !in Firsts(order, k - 1);
      LoopTurn(s, id, order, k - 1);
      hide Do, Can, InLoop, EachOnce, SubscribeAll, Firsts;
    }
  }

  lemma LoopTurn(s: State, id: Rpc, order: seq<User>, k: nat)
    requires id in s.handlers && s.handlers[id].at == Subscribing(s.online.Keys) && k < |order|
    requires order[k] in s.online && order[k] !in Firsts(order, k)
    ensures
      var t, e := InLoop(s, id, order, k), OfRpc(id, Subscribe(order[k]));
      Can(t, e) && Do(t, e) == InLoop(s, id, order, k + 1)
  {
    FirstsMore(order, k);
    var room := RoomOf(s.handlers[id].entry).id;
    SubscribeOneMore(s.topics, room, Firsts(order, k), order[k]);
    hide SubscribeAll, WithSubscriber, Firsts;
    var t := InLoop(s, id, order, k);
    assert s.online.Keys - Firsts(order, k) - {order[k]} == s.online.Keys - Firsts(order, k + 1);
    assert Do(t, OfRpc(id, Subscribe(order[k]))).handlers == InLoop(s, id, order, k + 1).handlers;
  }

  /** An announcement that runs without interference does to topics, room list and connections
      what the method Broadcast does. */
  lemma UninterruptedBroadcast(s: State, id: Rpc, order: seq<User>)
    requires id in s.handlers && s.handlers[id].entry.RoomCreated? && s.handlers[id].at == TopicNext
    requires s.lock.None? && EachOnce(order, s.online.Keys)
    ensures
      var t, h := After(s, BroadcastEvents(id, order)), s.handlers[id];
      && t.Some? && t.value.handlers[id].at == Returned && t.value.lock == None && t.value.online == s.online
      && t.value.topics == SubscribeAll(WithTopic(s.topics, h.entry.room), h.entry.room.id, s.online.Keys)
      && t.value.roomList == WithRoom(s.roomList, h.entry.room)
      && t.value.log == s.log + SentToAll(id, order, s.online, h.entry.body)
  {
    var h := s.handlers[id];
    var head := [OfRpc(id, AddTopic), OfRpc(id, TakeLock)];
    var loop := SubscribeEvents(id, order);
    var tail := [OfRpc(id, ReleaseLock), OfRpc(id, ListRoom), OfRpc(id, SendAll(order))];
    HeadRuns(s, id);
    var s1 := After(s, head).value;
    LoopRuns(s1, id, order, |order|);
    assert loop[..|loop|] == loop;
    AfterConcat(s, head, loop);
    AllFirsts(order, s.online.Keys);
    var s2 := InLoop(s1, id, order, |order|);
    TailRuns(s2, id, order);
    AfterConcat(s, head + loop, tail);
    hide After, EachOnce, SentToAll, WithTopic, WithRoom, SubscribeAll;
  }

  lemma AllFirsts(order: seq<User>, users: set<User>)
    requires EachOnce(order, users)
    ensures Firsts(order, |order|) == users && users - Firsts(order, |order|) == {}
  {}

  lemma HeadRuns(s: State, id: Rpc)
    requires id in s.handlers && s.handlers[id].entry.RoomCreated? && s.handlers[id].at == TopicNext && s.lock.None?
    ensures
      var h := s.handlers[id];
      After(s, [OfRpc(id, AddTopic), OfRpc(id, TakeLock)]) ==
      Some(s.(topics := WithTopic(s.topics, h.entry.room), lock := Some(id),
              handlers := s.handlers[id := h.(at := Subscribing(s.online.Keys))]))
  {
    var e, f := OfRpc(id, AddTopic), OfRpc(id, TakeLock);
    AfterOne(s, e);
    AfterConcat(s, [e], [f]);
    var t := Do(s, e);
    AfterOne(t, f);
    assert [e] + [f] == [e, f];
    hide After, WithTopic;
    assert Do(t, f).handlers == s.handlers[id := s.handlers[id].(at := Subscribing(s.online.Keys))];
  }

  lemma TailRuns(s: State, id: Rpc, order: seq<User>)
    requires id in s.handlers && s.handlers[id].entry.RoomCreated? && s.handlers[id].at == Subscribing({})
    requires EachOnce(order, s.online.Keys)
    ensures
      var h := s.handlers[id];
      var t := After(s, [OfRpc(id, ReleaseLock), OfRpc(id, ListRoom), OfRpc(id, SendAll(order))]);
      && t.Some? && id in t.value.handlers && t.value.handlers[id].at == Returned && t.value.lock == None
      && t.value.online == s.online && t.value.topics == s.topics
      && t.value.roomList == WithRoom(s.roomList, h.entry.room)
      && t.value.log == s.log + SentToAll(id, order, s.online, h.entry.body)
  {
    var e, f, g := OfRpc(id, ReleaseLock), OfRpc(id, ListRoom), OfRpc(id, SendAll(order));
    AfterOne(s, e);
    var t := Do(s, e);
    AfterOne(t, f);
    var u := Do(t, f);
    AfterConcat(s, [e], [f]);
    AfterOne(u, g);
    AfterConcat(s, [e] + [f], [g]);
    assert [e] + [f] + [g] == [e, f, g];
    hide After, WithRoom, EachOnce, SentToAll;
  }

  // ---- BroadcastRoom as protocol steps -----------------------------------

  /** The deliveries to those of `order` who are online. */
  function SentOnline(id: Rpc, order: seq<User>, online: map<User, Conn>, body: string): seq<Delivery> {
    if order == [] then []
    else
      var init, u := order[..|order| - 1], order[|order| - 1];
      SentOnline(id, init, online, body) + if u in online then [Delivery(id, u, online[u], body)] else []
  }

  /** Looking up and sending, user by user. */
  function RoomEvents(id: Rpc, order: seq<User>, online: map<User, Conn>): seq<Event> {
    if order == [] then []
    else
      var init, u := order[..|order| - 1], order[|order| - 1];
      RoomEvents(id, init, online) + if u in online then [OfRpc(id, LookUp(u)), OfRpc(id, Send)] else [OfRpc(id,
          LookUp(u))]
  }

  /** A handler inside the sending loop, after the users `order[..k]`. */
  function InSending(s: State, id: Rpc, users: set<User>, order: seq<User>, k: nat): State
    requires id in s.handlers && k <= |order|
  {
    var h := s.handlers[id];
    s.(log := s.log + SentOnline(id, order[..k], s.online, h.entry.body),
       handlers := s.handlers[id := h.(at := Sending(users - Firsts(order, k)))])
  }

  lemma {:induction false} SendingRuns(s: State, id: Rpc, users: set<User>, order: seq<User>, k: nat)
    requires id in s.handlers && s.handlers[id].at == Sending(users) && s.lock.None?
    requires EachOnce(order, users) && k <= |order|
    ensures After(s, RoomEvents(id, order[..k], s.online)) == Some(InSending(s, id, users, order, k))
    decreases k
  {
    if k == 0 {
      assert Firsts(order, 0) == {} && users - {} == users;
      assert s.handlers[id := s.handlers[id]] == s.handlers && s.log + [] == s.log;
    } else {
      SendingRuns(s, id, users, order, k - 1);
      var u, t := order[k - 1], InSending(s, id, users, order, k - 1);
      assert order[..k][..k - 1] == order[..k - 1];
      assert u in order && u !in Firsts(order, k - 1);
      SendingTurn(s, id, users, order, k - 1);
      var turn := if u in s.online then [OfRpc(id, LookUp(u)), OfRpc(id, Send)] else [OfRpc(id, LookUp(u))];
      assert RoomEvents(id, order[..k], s.online) == RoomEvents(id, order[..k - 1], s.online) + turn;
      hide After, InSending, EachOnce, RoomEvents, Firsts;
      AfterConcat(s, RoomEvents(id, order[..k - 1], s.online), turn);
    }
  }

  lemma SendingTurn(s: State, id: Rpc, users: set<User>, order: seq<User>, k: nat)
    requires id in s.handlers && s.handlers[id].at == Sending(users) && s.lock.None? && k < |order|
    requires order[k] in users && order[k] !in Firsts(order, k)
    ensures
      var u := order[k];
      After(InSending(s, id, users, order, k),
            if u in s.online then [OfRpc(id, LookUp(u)), OfRpc(id, Send)] else [OfRpc(id, LookUp(u))]) ==
      Some(InSending(s, id, users, order, k + 1))
  {
    var u, t := order[k], InSending(s, id, users, order, k);
    var e := OfRpc(id, LookUp(u));
    LookUpTurn(s, id, users, order, k);
    hide InSending, Firsts, Do, Can;
    AfterOne(t, e);
    if u in s.online {
      var f := OfRpc(id, Send);
      AfterOne(Do(t, e), f);
      AfterConcat(t, [e], [f]);
      assert [e] + [f] == [e, f];
    }
  }

  lemma LookUpTurn(s: State, id: Rpc, users: set<User>, order: seq<User>, k: nat)
    requires id in s.handlers && s.handlers[id].at == Sending(users) && s.lock.None? && k < |order|
    requires order[k] in users && order[k] !in Firsts(order, k)
    ensures
      var t, e, f, u := InSending(s, id, users, order, k), OfRpc(id, LookUp(order[k])), OfRpc(id, Send),
          InSending(s, id, users, order, k + 1);
      && Can(t, e) && (order[k] !in s.online ==> Do(t, e) == u)
      && (order[k] in s.online ==> Can(Do(t, e), f) && Do(Do(t, e), f) == u)
  {
    FirstsMore(order, k);
    var v, h, t := order[k], s.handlers[id], InSending(s, id, users, order, k);
    var next := InSending(s, id, users, order, k + 1);
    assert order[..k + 1][..k] == order[..k];
    assert users - Firsts(order, k) - {v} == users - Firsts(order, k + 1);
    hide Firsts;
    var sent := SentOnline(id, order[..k], s.online, h.entry.body);
    if v in s.online {
      var d := Delivery(id, v, s.online[v], h.entry.body);
      assert s.log + (sent + [d]) == s.log + sent + [d];
    } else {
      assert sent + [] == sent;
    }
    hide SentOnline;
  }

  /** A BroadcastRoom that runs without interference sends what the method sends: one frame to each
      subscriber who is online, and nothing without a topic. */
  lemma UninterruptedRoom(s: State, id: Rpc, order: seq<User>)
    requires id in s.handlers && s.handlers[id].entry.RoomMessage? && s.handlers[id].at == SnapshotNext && s.lock.None?
    requires s.handlers[id].entry.roomId in s.topics && EachOnce(order, s.topics[s.handlers[id].entry.roomId].users)
    ensures
      var h := s.handlers[id];
      var t := After(s, [OfRpc(id, TakeSnapshot)] + RoomEvents(id, order, s.online) + [OfRpc(id, FinishRoom)]);
      && t.Some? && t.value.handlers[id].at == Returned && t.value.topics == s.topics && t.value.online == s.online
      && t.value.log == s.log + SentOnline(id, order, s.online, h.entry.body)
      && OneEach(Frames(SentOnline(id, order, s.online, h.entry.body)), s.topics[h.entry.roomId].users, s.online,
          h.entry.body)
  {
    var h := s.handlers[id];
    var users := s.topics[h.entry.roomId].users;
    var e, f, loop := OfRpc(id, TakeSnapshot), OfRpc(id, FinishRoom), RoomEvents(id, order, s.online);
    AfterOne(s, e);
    var t := Do(s, e);
    SendingRuns(t, id, users, order, |order|);
    assert order[..|order|] == order;
    AfterConcat(s, [e], loop);
    AllFirsts(order, users);
    var u := InSending(t, id, users, order, |order|);
    AfterOne(u, f);
    AfterConcat(s, [e] + loop, [f]);
    FramesOnce(id, order, s.online, h.entry.body);
    OrderUsers(order, users);
    hide After, RoomEvents, SentOnline, OneEach, EachOnce;
  }

  function Frames(ds: seq<Delivery>): (r: seq<Sent>)
    ensures |r| == |ds| && forall i :: 0 <= i < |ds| ==> r[i] == Sent(ds[i].user, ds[i].conn, ds[i].body)
  {
    seq(|ds|, i requires 0 <= i < |ds| => Sent(ds[i].user, ds[i].conn, ds[i].body))
  }

  lemma OrderUsers(order: seq<User>, users: set<User>)
    requires EachOnce(order, users)
    ensures (set u | u in order) == users
  {}

  lemma {:induction false} FramesOnce(id: Rpc, order: seq<User>, online: map<User, Conn>, body: string)
    requires forall i, j :: 0 <= i < j < |order| ==> order[i] != order[j]
    ensures OneEach(Frames(SentOnline(id, order, online, body)), (set u | u in order), online, body)
    decreases |order|
  {
    if order == [] {
      assert Frames([]) == [] && (set u | u in order) == {};
      NoneSent(online, body);
    } else {
      var init, u := order[..|order| - 1], order[|order| - 1];
      assert order == init + [u] && u !in init;
      FramesOnce(id, init, online, body);
      hide OneEach, Frames;
      OneMoreUser(init, u);
      FramesMore(SentOnline(id, init, online, body), id, u, online, body);
      OneMoreSent(Frames(SentOnline(id, init, online, body)), (set v | v in init), u, online, body);
    }
  }

  lemma FramesMore(before: seq<Delivery>, id: Rpc, u: User, online: map<User, Conn>, body: string)
    ensures Frames(before + if u in online then [Delivery(id, u, online[u], body)] else []) ==
      if u in online then Frames(before) + [Sent(u, online[u], body)] else Frames(before)
  {
    if u !in online { assert before + [] == before; }
  }

  lemma OneMoreUser(init: seq<User>, u: User)
    ensures (set v | v in init + [u]) == (set v | v in init) + {u}
  {}

  // ---- the client's loop as job steps ------------------------------------

  /** What an event of the job does to the job. */
  function JobNext(job: Job, e: JobEvent): Job {
    match e
    case Call(_) => job.(calling := true)
    case Return => Job(job.pos + 1, 0, false)
    case Fail => if job.attempt + 1 < MAX_RETRIES then Job(job.pos, job.attempt + 1, false) else Job(job.pos + 1,
        0, false)
  }

  lemma JobNextIs(s: State, e: JobEvent)
    requires JobCan(s, e)
    ensures JobDo(s, e).job == JobNext(s.job, e)
  {}

  function JobRun(job: Job, es: seq<JobEvent>): Job {
    if es == [] then job else JobNext(JobRun(job, es[..|es| - 1]), es[|es| - 1])
  }

  /** The calls of the retry loop and how each of them ends. */
  function RetryEvents(replies: seq<Status>): seq<JobEvent> {
    if replies == [] then []
    else RetryEvents(replies[..|replies| - 1]) + [Call(true), if replies[|replies| - 1] == OK then Return else Fail]
  }

  lemma TwoJobEvents(job: Job, es: seq<JobEvent>, a: JobEvent, b: JobEvent)
    ensures JobRun(job, es + [a, b]) == JobNext(JobNext(JobRun(job, es), a), b)
  {
    var all := es + [a, b];
    assert all[..|all| - 1] == es + [a] && (es + [a])[..|es|] == es;
  }

  lemma {:induction false} FailedCalls(pos: nat, replies: seq<Status>)
    requires |replies| < MAX_RETRIES && OK !in replies
    ensures JobRun(Job(pos, 0, false), RetryEvents(replies)) == Job(pos, |replies|, false)
    decreases |replies|
  {
    if replies == [] {
    } else {
      var init := replies[..|replies| - 1];
      assert replies[|replies| - 1] in replies;
      FailedCalls(pos, init);
      TwoJobEvents(Job(pos, 0, false), RetryEvents(init), Call(true), Fail);
    }
  }

  /** The retry loop of `CallWithRetries` is one entry of the protocol's job: with the attempts it
      made, the job goes from waiting at an entry to waiting at the next, success or not. */
  lemma RetriesTakeOneEntry(pos: nat, replies: seq<Status>, attempts: nat)
    requires 1 <= attempts <= MAX_RETRIES <= |replies| && OK !in replies[..attempts - 1]
    requires replies[attempts - 1] == OK || attempts == MAX_RETRIES
    ensures JobRun(Job(pos, 0, false), RetryEvents(replies[..attempts])) == Job(pos + 1, 0, false)
  {
    var made := replies[..attempts];
    assert made[..attempts - 1] == replies[..attempts - 1] && made[attempts - 1] == replies[attempts - 1];
    FailedCalls(pos, replies[..attempts - 1]);
    TwoJobEvents(Job(pos, 0, false), RetryEvents(replies[..attempts - 1]), Call(true),
                 if made[attempts - 1] == OK then Return else Fail);
  }

  // ---- the hello as protocol steps ---------------------------------------

  function JoinEvents(c: Conn, n: nat): (es: seq<Event>)
    ensures |es| == n
  {
    seq(n, i requires 0 <= i < n => OfConn(c, Join))
  }

  /** A new connection: registration, the fetch of logic's list, `n` subscriptions, the greeting. */
  function HelloEvents(c: Conn, u: User, n: nat): seq<Event> {
    [OfConn(c, Register(u)), OfConn(c, Fetch)] + JoinEvents(c, n) + [OfConn(c, Greet)]
  }

  /** One user subscribed to all of the rooms that have a topic, and to no other. */
  function JoinedTo(topics: TopicMap, ids: set<RoomId>, u: User): TopicMap {
    map r | r in topics :: if r in ids then topics[r].(users := topics[r].users + {u}) else topics[r]
  }

  function InHello(s: State, c: Conn, ids: seq<RoomId>, k: nat): State
    requires c in s.sessions && k <= |ids|
  {
    var user := s.sessions[c].user;
    s.(topics := JoinedTo(s.topics, Firsts(ids, k), user),
       sessions := s.sessions[c := Session(user, Joining(ids[k..]))])
  }

  lemma JoinTurn(s: State, c: Conn, ids: seq<RoomId>, k: nat)
    requires c in s.sessions && k < |ids|
    ensures
      var t := InHello(s, c, ids, k);
      Can(t, OfConn(c, Join)) && Do(t, OfConn(c, Join)) == InHello(s, c, ids, k + 1)
  {
    var t := InHello(s, c, ids, k);
    var n := Do(t, OfConn(c, Join));
    FirstsMore(ids, k);
    JoinOneMore(s.topics, Firsts(ids, k), ids[k], s.sessions[c].user);
    hide JoinedTo, WithSubscriber, Firsts;
    assert ids[k..][0] == ids[k] && ids[k..][1..] == ids[k + 1..];
    assert n.sessions == InHello(s, c, ids, k + 1).sessions;
  }

  lemma JoinOneMore(topics: TopicMap, ids: set<RoomId>, r: RoomId, u: User)
    ensures WithSubscriber(JoinedTo(topics, ids, u), r, u) == JoinedTo(topics, ids + {r}, u)
  {
    var a, b := WithSubscriber(JoinedTo(topics, ids, u), r, u), JoinedTo(topics, ids + {r}, u);
    assert a.Keys == b.Keys;
    forall k | k in a ensures a[k] == b[k] {}
  }

  lemma {:induction false} JoinsRun(s: State, c: Conn, ids: seq<RoomId>, k: nat)
    requires c in s.sessions && s.sessions[c].hello == Joining(ids) && k <= |ids|
    ensures After(s, JoinEvents(c, k)) == Some(InHello(s, c, ids, k))
    decreases k
  {
    hide Do, Can;
    if k == 0 {
      NobodyJoined(s, c, ids);
    } else {
      hide InHello;
      JoinsRun(s, c, ids, k - 1);
      var es := JoinEvents(c, k);
      assert es[..k - 1] == JoinEvents(c, k - 1) && es[k - 1] == OfConn(c, Join);
      JoinTurn(s, c, ids, k - 1);
    }
  }

  lemma NobodyJoined(s: State, c: Conn, ids: seq<RoomId>)
    requires c in s.sessions && s.sessions[c].hello == Joining(ids)
    ensures InHello(s, c, ids, 0) == s
  {
    assert JoinedTo(s.topics, {}, s.sessions[c].user) == s.topics;
    assert ids[0..] == ids;
    assert Firsts(ids, 0) == {};
    assert s.sessions[c := Session(s.sessions[c].user, Joining(ids))] == s.sessions;
  }

  /** A connection whose hello runs without interference ends welcome: the user is online on it and
      subscribed to every room in logic's list that has a topic; nothing else changes. */
  lemma UninterruptedHello(s: State, c: Conn, u: User)
    requires c !in s.sessions && s.lock.None?
    ensures After(s, HelloEvents(c, u, |s.rooms|)) ==
      Some(s.(sessions := s.sessions[c := Session(u, Welcome)], online := s.online[u := c],
              topics := JoinedTo(s.topics, set i | 0 <= i < |s.rooms| :: s.rooms[i].id, u)))
  {
    hide *;
    var ids := Ids(s.rooms);
    var r, f, g := OfConn(c, Register(u)), OfConn(c, Fetch), OfConn(c, Greet);
    HelloBegins(s, c, u);
    var s2 := s.(sessions := s.sessions[c := Session(u, Joining(ids))], online := s.online[u := c]);
    JoinsRun(s2, c, ids, |ids|);
    AfterConcat(s, [r, f], JoinEvents(c, |ids|));
    var s3 := InHello(s2, c, ids, |ids|);
    HelloState(s, c, u);
    HelloEnds(s3, c);
    AfterConcat(s, [r, f] + JoinEvents(c, |ids|), [g]);
    HelloWritten(c, u, |ids|);
  }

  lemma HelloWritten(c: Conn, u: User, n: nat)
    ensures HelloEvents(c, u, n) == [OfConn(c, Register(u)), OfConn(c, Fetch)] + JoinEvents(c, n) + [OfConn(c, Greet)]
  {}

  lemma SetThrice(m: map<Conn, Session>, c: Conn, x: Session, y: Session, z: Session)
    ensures m[c := x][c := y][c := z] == m[c := z]
  {}

  lemma HelloState(s: State, c: Conn, u: User)
    ensures
      var ids := Ids(s.rooms);
      var s2 := s.(sessions := s.sessions[c := Session(u, Joining(ids))], online := s.online[u := c]);
      var s3 := InHello(s2, c, ids, |ids|);
      && c in s3.sessions && s3.sessions[c] == Session(u, Joining([]))
      && s3.(sessions := s3.sessions[c := Session(u, Welcome)]) ==
         s.(sessions := s.sessions[c := Session(u, Welcome)], online := s.online[u := c],
            topics := JoinedTo(s.topics, set i | 0 <= i < |s.rooms| :: s.rooms[i].id, u))
  {
    hide JoinedTo;
    var ids := Ids(s.rooms);
    assert Firsts(ids, |ids|) == (set i | 0 <= i < |s.rooms| :: s.rooms[i].id);
    assert ids[|ids|..] == [];
    SetThrice(s.sessions, c, Session(u, Joining(ids)), Session(u, Joining([])), Session(u, Welcome));
  }

  lemma HelloBegins(s: State, c: Conn, u: User)
    requires c !in s.sessions && s.lock.None?
    ensures After(s, [OfConn(c, Register(u)), OfConn(c, Fetch)]) ==
      Some(s.(sessions := s.sessions[c := Session(u, Joining(Ids(s.rooms)))], online := s.online[u := c]))
  {
    var r, f := OfConn(c, Register(u)), OfConn(c, Fetch);
    AfterOne(s, r);
    var t := Do(s, r);
    AfterOne(t, f);
    AfterConcat(s, [r], [f]);
    assert [r] + [f] == [r, f];
    hide After, Ids;
    assert Do(t, f).sessions == s.sessions[c := Session(u, Joining(Ids(s.rooms)))];
  }

  lemma HelloEnds(s: State, c: Conn)
    requires c in s.sessions && s.sessions[c].hello == Joining([])
    ensures After(s, [OfConn(c, Greet)]) ==
      Some(s.(sessions := s.sessions[c := Session(s.sessions[c].user, Welcome)]))
  {
    AfterOne(s, OfConn(c, Greet));
    hide After;
  }
}

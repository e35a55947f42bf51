/** Topics, subscribers and the room list: pub_sub_service.h and pub_sub_service.cc. */
module Topics {
  import opened Wrappers

  type RoomId = string
  type User = string

  datatype Room = Room(id: RoomId, name: string, creator: User)

  datatype Topic = Topic(name: string, creator: User, users: set<User>)

  type TopicMap = map<RoomId, Topic>

  /** AddRoomTopic: an existing topic is left as it is. */
  function WithTopic(topics: TopicMap, r: Room): TopicMap {
    if r.id in topics then topics else topics[r.id := Topic(r.name, r.creator, {})]
  }

  /** AddSubscriber: nothing happens without a topic. */
  function WithSubscriber(topics: TopicMap, room: RoomId, user: User): TopicMap {
    if room in topics then topics[room := topics[room].(users := topics[room].users + {user})] else topics
  }

  predicate Listed(list: seq<Room>, id: RoomId) { exists i :: 0 <= i < |list| && list[i].id == id }

  /** AddRoom: a room is listed once. */
  function WithRoom(list: seq<Room>, r: Room): seq<Room> { if Listed(list, r.id) then list else list + [r] }

  // ---- the classes -------------------------------------------------------

  class RoomTopic {
    const roomId: RoomId
    const name: string
    const creator: User
    var users: set<User>

    ghost function Value(): Topic
      reads this
    {
      Topic(name, creator, users)
    }

    constructor (roomId: RoomId, name: string, creator: User)
      ensures this.roomId == roomId && Value() == Topic(name, creator, {})
    {
      this.roomId, this.name, this.creator, users := roomId, name, creator, {};
    }

    method AddSubscriber(user: User)
      modifies this
      ensures Value() == old(Value()).(users := old(users) + {user})
    {
      users := users + {user};
    }

    method GetSubscribers() returns (r: set<User>)
      ensures r == Value().users
    {
      r := users;
    }
  }

  class PubSubService {
    var topics: map<RoomId, RoomTopic>
    var rooms: seq<Room>

    ghost function Objects(): set<RoomTopic>
      reads this
    {
      set k | k in topics :: topics[k]
    }

    /** Every topic is its own object. */
    ghost predicate Valid()
      reads this
    {
      forall k, l :: k in topics && l in topics && topics[k] == topics[l] ==> k == l
    }

    ghost function Value(): TopicMap
      reads this, Objects()
    {
      map k | k in topics :: topics[k].Value()
    }

    constructor ()
      ensures Valid() && Value() == map[] && rooms == []
    {
      topics, rooms := map[], [];
    }

    method AddRoomTopic(r: Room) returns (added: bool)
      requires Valid()
      modifies this`topics
      ensures Valid() && Value() == WithTopic(old(Value()), r) && added == (r.id !in old(Value()))
      ensures forall k :: k in old(topics) ==> k in topics && topics[k] == old(topics[k])
      ensures forall k :: k in topics && k !in old(topics) ==> fresh(topics[k])
    {
      if r.id in topics { return false; }
      var t := new RoomTopic(r.id, r.name, r.creator);
      topics := topics[r.id := t];
      added := true;
    }

    method AddSubscriber(room: RoomId, user: User) returns (added: bool)
      requires Valid()
      modifies Objects()
      ensures Valid() && topics == old(topics)
      ensures Value() == WithSubscriber(old(Value()), room, user) && added == (room in old(Value()))
    {
      if room !in topics { return false; }
      assert topics[room] in Objects();
      topics[room].AddSubscriber(user);
      added := true;
    }

    /** The part of PubSubMessage under the lock: a copy of the subscribers at this moment. */
    method Snapshot(room: RoomId) returns (users: Option<set<User>>)
      requires Valid()
      ensures users == if room in Value() then Some(Value()[room].users) else None
    {
      if room !in topics { return None; }
      var s := topics[room].GetSubscribers();
      users := Some(s);
    }

    /** AddRoom: a scan for the id, then a push at the end. */
    method AddRoom(r: Room) returns (code: int)
      modifies this`rooms
      ensures rooms == WithRoom(old(rooms), r) && (code == 0 <==> !Listed(old(rooms), r.id)) && (code == 0
        || code == -1)
    {
      var i := 0;
      while i < |rooms|
        invariant 0 <= i <= |rooms| && rooms == old(rooms)
        invariant forall j :: 0 <= j < i ==> rooms[j].id != r.id
      {
        if rooms[i].id == r.id { return -1; }
        i := i + 1;
      }
      rooms := rooms + [r];
      code := 0;
    }
  }

  // ---- laws --------------------------------------------------------------

  /** The later of two states knows everything the earlier one knew. */
  ghost predicate Grew(a: TopicMap, b: TopicMap) {
    forall k :: k in a ==> k in b && b[k].name == a[k].name && b[k].creator == a[k].creator && a[k].users <= b[k].users
  }

  ghost predicate DistinctIds(list: seq<Room>) {
    forall i, j :: 0 <= i < j < |list| ==> list[i].id != list[j].id
  }

  lemma TopicGrows(topics: TopicMap, r: Room, user: User)
    ensures Grew(topics, WithTopic(topics, r)) && Grew(topics, WithSubscriber(topics, r.id, user))
    ensures r.id in WithTopic(topics, r)
    ensures r.id in topics ==> user in WithSubscriber(topics, r.id, user)[r.id].users
  {}

  lemma RoomListed(list: seq<Room>, r: Room)
    requires DistinctIds(list)
    ensures DistinctIds(WithRoom(list, r)) && Listed(WithRoom(list, r), r.id) && list <= WithRoom(list, r)
  {
    var l := WithRoom(list, r);
    if !Listed(list, r.id) { assert l[|list|].id == r.id; }
  }
}

/** Sorting by a key, stably, as Array.prototype.sort does. */
module StableSort {
  datatype Item<T> = Item(key: int, value: T)

  ghost predicate Sorted<T>(s: seq<Item<T>>) {
    forall i, j :: 0 <= i < j < |s| ==> s[i].key <= s[j].key
  }

  /** Behind everything that is not greater. */
  function Insert<T>(s: seq<Item<T>>, x: Item<T>): seq<Item<T>> {
    if s == [] || s[|s| - 1].key <= x.key then s + [x] else Insert(s[..|s| - 1], x) + [s[|s| - 1]]
  }

  function Sort<T>(s: seq<Item<T>>): seq<Item<T>> {
    if s == [] then [] else Insert(Sort(s[..|s| - 1]), s[|s| - 1])
  }

  /** The items with one key, in order. */
  function WithKey<T>(s: seq<Item<T>>, key: int): seq<Item<T>> {
    if s == [] then []
    else
      var init := WithKey(s[..|s| - 1], key);
      if s[|s| - 1].key == key then init + [s[|s| - 1]] else init
  }

  lemma WithKeyLast<T>(s: seq<Item<T>>, x: Item<T>, key: int)
    ensures WithKey(s + [x], key) == if x.key == key then WithKey(s, key) + [x] else WithKey(s, key)
  {
    assert (s + [x])[..|s|] == s;
  }

  lemma {:induction false} InsertContents<T>(s: seq<Item<T>>, x: Item<T>)
    ensures multiset(Insert(s, x)) == multiset(s) + multiset{x}
    decreases |s|
  {
    if s != [] && s[|s| - 1].key > x.key {
      InsertContents(s[..|s| - 1], x);
      assert s == s[..|s| - 1] + [s[|s| - 1]];
    }
  }

  lemma InsertMembers<T>(s: seq<Item<T>>, x: Item<T>)
    ensures forall y :: y in Insert(s, x) ==> y in s || y == x
  {
    InsertContents(s, x);
    forall y | y in Insert(s, x) ensures y in s || y == x { assert y in multiset(Insert(s, x)); }
  }

  lemma {:induction false} InsertSorted<T>(s: seq<Item<T>>, x: Item<T>)
    requires Sorted(s)
    ensures Sorted(Insert(s, x))
    decreases |s|
  {
    if s != [] && s[|s| - 1].key > x.key {
      var init, last := s[..|s| - 1], s[|s| - 1];
      InsertSorted(init, x);
      InsertMembers(init, x);
      var t := Insert(init, x);
      forall i | 0 <= i < |t| ensures t[i].key <= last.key { assert t[i] in t; }
      hide Insert;
      SortedEnd(t, last);
    }
  }

  lemma SortedEnd<T>(t: seq<Item<T>>, last: Item<T>)
    requires Sorted(t) && forall i :: 0 <= i < |t| ==> t[i].key <= last.key
    ensures Sorted(t + [last])
  {}

  lemma {:induction false} InsertStable<T>(s: seq<Item<T>>, x: Item<T>, key: int)
    requires Sorted(s)
    ensures WithKey(Insert(s, x), key) == if x.key == key then WithKey(s, key) + [x] else WithKey(s, key)
    decreases |s|
  {
    if s == [] || s[|s| - 1].key <= x.key {
      WithKeyLast(s, x, key);
    } else {
      var init, last := s[..|s| - 1], s[|s| - 1];
      InsertStable(init, x, key);
      WithKeyLast(Insert(init, x), last, key);
      assert s == init + [last];
    }
  }

  /** The result is sorted, has the same items, and items with equal keys keep their order. */
  lemma {:induction false} SortIsStable<T>(s: seq<Item<T>>, key: int)
    ensures Sorted(Sort(s)) && multiset(Sort(s)) == multiset(s) && WithKey(Sort(s), key) == WithKey(s, key)
    decreases |s|
  {
    if s == [] {
    } else {
      var init, last := s[..|s| - 1], s[|s| - 1];
      SortIsStable(init, key);
      InsertSorted(Sort(init), last);
      InsertContents(Sort(init), last);
      InsertStable(Sort(init), last, key);
      assert s == init + [last];
    }
  }

  function Untimed<T>(s: seq<Item<T>>): (r: seq<T>)
    ensures |r| == |s| && forall i :: 0 <= i < |s| ==> r[i] == s[i].value
  {
    seq(|s|, i requires 0 <= i < |s| => s[i].value)
  }

  lemma UntimedLast<T>(s: seq<Item<T>>, x: Item<T>)
    ensures Untimed(s + [x]) == Untimed(s) + [x.value]
  {}

  lemma {:induction false} InsertValues<T>(s: seq<Item<T>>, x: Item<T>)
    ensures multiset(Untimed(Insert(s, x))) == multiset(Untimed(s)) + multiset{x.value}
    decreases |s|
  {
    hide Untimed;
    if s == [] || s[|s| - 1].key <= x.key {
      UntimedLast(s, x);
    } else {
      var init, last := s[..|s| - 1], s[|s| - 1];
      InsertValues(init, x);
      UntimedLast(Insert(init, x), last);
      UntimedLast(init, last);
      assert s == init + [last];
    }
  }

  lemma {:induction false} SortValues<T>(s: seq<Item<T>>)
    ensures multiset(Untimed(Sort(s))) == multiset(Untimed(s)) && |Sort(s)| == |s|
    decreases |s|
  {
    if s == [] {
    } else {
      var init, last := s[..|s| - 1], s[|s| - 1];
      SortValues(init);
      InsertValues(Sort(init), last);
      UntimedLast(init, last);
      assert s == init + [last];
      assert |Sort(s)| == |multiset(Untimed(Sort(s)))| == |Sort(init)| + 1;
    }
  }
}

/** The reducer of the chat page. */
module Reducer {
  import opened Wrappers
  import opened StableSort

  datatype User = User(id: string, username: string)

  datatype Message = Message(id: string, user: User, content: string, timestamp: int)

  datatype Room = Room(id: string, name: string, messages: seq<Message>, hasMore: bool, creator: string)

  datatype Announcement = Announcement(id: string, text: string)

  datatype State = State(
    currentUser: Option<User>, loading: bool, rooms: map<string, Room>, current: Option<string>,
    unread: map<string, nat>, announcements: seq<Announcement>, users: map<string, User>)

  const INITIAL := State(None, true, map[], None, map[], [], map[])

  /** `order` is the order in which Object.values lists the rooms; `time` and `announcementId` are
      what the clock and the random generator gave. */
  datatype Action =
    | SetInitialState(rooms: seq<Room>, me: Option<User>, order: seq<string>)
    | AddMessages(roomId: string, messages: seq<Message>)
    | SetCurrentRoom(roomId: string)
    | AddNewRoom(roomId: string, roomName: string, creatorId: string, time: string, announcementId: string)
    | UpdateRoomHistory(roomId: string, messages: seq<Message>, hasMore: bool)
    | RemoveAnnouncement(id: string)

  // ---- sorting -----------------------------------------------------------

  function Timed(ms: seq<Message>): (r: seq<Item<Message>>)
    ensures |r| == |ms| && forall i :: 0 <= i < |ms| ==> r[i] == Item(ms[i].timestamp, ms[i])
  {
    seq(|ms|, i requires 0 <= i < |ms| => Item(ms[i].timestamp, ms[i]))
  }

  /** sort((a, b) => a.timestamp - b.timestamp) */
  function ByTime(ms: seq<Message>): seq<Message> { Untimed(Sort(Timed(ms))) }

  function LastTime(r: Room): int { if r.messages == [] then 0 else r.messages[|r.messages| - 1].timestamp }

  /** sortRoomsByLastMessageInplace: latest first. */
  function ByLastMessage(rooms: seq<Room>): seq<Room> {
    Untimed(Sort(seq(|rooms|, i requires 0 <= i < |rooms| => Item(-LastTime(rooms[i]), rooms[i]))))
  }

  /** The reduce: the later room wins a tie. */
  function FindLatest(rooms: seq<Room>): Option<Room> {
    if rooms == [] then None
    else
      var last := rooms[|rooms| - 1];
      match FindLatest(rooms[..|rooms| - 1])
      case None => Some(last)
      case Some(prev) => if LastTime(prev) > LastTime(last) then Some(prev) else Some(last)
  }

  // ---- actions -----------------------------------------------------------

  function Installed(rooms: seq<Room>): map<string, Room> {
    if rooms == [] then map[]
    else
      var r := rooms[|rooms| - 1];
      Installed(rooms[..|rooms| - 1])[r.id := r.(messages := ByTime(r.messages))]
  }

  /** Users are remembered as first seen. */
  function Seen(users: map<string, User>, ms: seq<Message>): map<string, User> {
    if ms == [] then users
    else
      var before, u := Seen(users, ms[..|ms| - 1]), ms[|ms| - 1].user;
      if u.id in before then before else before[u.id := u]
  }

  function SeenIn(users: map<string, User>, rooms: seq<Room>): map<string, User> {
    if rooms == [] then users
    else Seen(SeenIn(users, rooms[..|rooms| - 1]), ByTime(rooms[|rooms| - 1].messages))
  }

  function OnlyMe(me: Option<User>): map<string, User> { if me.Some? then map[me.value.id := me.value] else map[] }

  /** Object.values in a given order of the keys; unknown keys would be skipped. */
  function Values(rooms: map<string, Room>, order: seq<string>): seq<Room> {
    if order == [] then []
    else
      var init, k := Values(rooms, order[..|order| - 1]), order[|order| - 1];
      if k in rooms then init + [rooms[k]] else init
  }

  /** `findRoomWithLatestMessage(...)?.id || null`: no room and the empty id both give null. */
  function Selected(rooms: map<string, Room>, order: seq<string>): Option<string> {
    match FindLatest(ByLastMessage(Values(rooms, order)))
    case None => None
    case Some(r) => if r.id == "" then None else Some(r.id)
  }

  function InitialState(rooms: seq<Room>, me: Option<User>, order: seq<string>): State {
    State(me, false, Installed(rooms), Selected(Installed(rooms), order), map[], [], SeenIn(OnlyMe(me), rooms))
  }

  /** doSetInitialState: the loops that sort, index by id and collect users. */
  method DoSetInitialState(rooms: seq<Room>, me: Option<User>, order: seq<string>) returns (s: State)
    ensures s == InitialState(rooms, me, order)
  {
    hide ByTime, Selected;
    var roomsById: map<string, Room> := map[];
    var usersById: map<string, User> := OnlyMe(me);
    for i := 0 to |rooms|
      invariant roomsById == Installed(rooms[..i]) && usersById == SeenIn(OnlyMe(me), rooms[..i])
    {
      var ms := ByTime(rooms[i].messages);
      roomsById := roomsById[rooms[i].id := rooms[i].(messages := ms)];
      ghost var before := usersById;
      for j := 0 to |ms|
        invariant usersById == Seen(before, ms[..j])
      {
        if ms[j].user.id !in usersById { usersById := usersById[ms[j].user.id := ms[j].user]; }
        assert ms[..j + 1][..j] == ms[..j];
      }
      assert ms[..|ms|] == ms;
      assert rooms[..i + 1][..i] == rooms[..i];
    }
    assert rooms[..|rooms|] == rooms;
    s := State(me, false, roomsById, Selected(roomsById, order), map[], [], usersById);
  }

  function Unread(s: State, r: string): nat { if r in s.unread then s.unread[r] else 0 }

  function DoAddMessages(s: State, roomId: string, ms: seq<Message>): State {
    if roomId !in s.rooms then s
    else
      var room := s.rooms[roomId];
      s.(rooms := s.rooms[roomId := room.(messages := room.messages + ByTime(ms))],
         unread := if s.current != Some(roomId) then s.unread[roomId := Unread(s, roomId) + |ms|] else s.unread,
         users := Seen(s.users, ms))
  }

  function CreatorName(s: State, id: string): string { if id in s.users then s.users[id].username else id }

  function CreatorId(s: State, id: string): string {
    if id != "" then id else if s.currentUser.Some? then s.currentUser.value.id else ""
  }

  /** "<creator> created <room> at <time>, come and chat with him there!" */
  function NewRoomText(creator: string, time: string, room: string): string {
    creator + "在" + time + "创建了" + room + "，快来该房间和他聊天吧！"
  }

  const MAX_ANNOUNCEMENTS := 5000

  /** Appended; the oldest one goes when there are too many. */
  function Announce(list: seq<Announcement>, x: Announcement): seq<Announcement> {
    var longer := list + [x];
    if |longer| > MAX_ANNOUNCEMENTS then longer[1..] else longer
  }

  function Without(list: seq<Announcement>, id: string): (r: seq<Announcement>)
    ensures |r| <= |list| && forall a :: a in r <==> a in list && a.id != id
  {
    if list == [] then []
    else
      var init, last := Without(list[..|list| - 1], id), list[|list| - 1];
      assert list == list[..|list| - 1] + [last];
      if last.id != id then init + [last] else init
  }

  function Reduce(s: State, a: Action): State {
    match a
    case SetInitialState(rooms, me, order) => InitialState(rooms, me, order)
    case AddMessages(roomId, ms) => DoAddMessages(s, roomId, ms)
    case SetCurrentRoom(roomId) =>
      s.(current := Some(roomId), unread := if roomId != "" then s.unread[roomId := 0] else s.unread)
    case AddNewRoom(roomId, name, creator, time, announcementId) =>
      s.(rooms := s.rooms[roomId := Room(roomId, name, [], false, CreatorId(s, creator))],
         announcements := Announce(s.announcements,
                                   Announcement(announcementId, NewRoomText(CreatorName(s, creator), time, name))))
    case UpdateRoomHistory(roomId, ms, more) =>
      if roomId !in s.rooms then s
      else
        var room := s.rooms[roomId];
        s.(rooms := s.rooms[roomId := room.(messages := ByTime(ms) + room.messages, hasMore := more)])
    case RemoveAnnouncement(id) => s.(announcements := Without(s.announcements, id))
  }

  function Run(actions: seq<Action>): State {
    if actions == [] then INITIAL else Reduce(Run(actions[..|actions| - 1]), actions[|actions| - 1])
  }

  // ---- conservation ------------------------------------------------------

  /** The messages a list of rooms brings for `r`: the last entry with that id counts. */
  function Brought(rooms: seq<Room>, r: string): Option<seq<Message>> {
    if rooms == [] then None
    else if rooms[|rooms| - 1].id == r then Some(ByTime(rooms[|rooms| - 1].messages))
    else Brought(rooms[..|rooms| - 1], r)
  }

  predicate Installs(a: Action, r: string) { a.SetInitialState? || (a.AddNewRoom? && a.roomId == r) }

  function Base(a: Action, r: string): Option<seq<Message>>
    requires Installs(a, r)
  {
    match a
    case SetInitialState(rooms, _, _) => Brought(rooms, r)
    case AddNewRoom(_, _, _, _, _) => Some([])
  }

  /** One past the last action that installed the room (or dropped it with a hello). */
  function SinceInstall(actions: seq<Action>, r: string): (k: Option<nat>)
    ensures k.Some? ==> 1 <= k.value <= |actions| && Installs(actions[k.value - 1], r)
  {
    if actions == [] then None
    else if Installs(actions[|actions| - 1], r) then Some(|actions|)
    else SinceInstall(actions[..|actions| - 1], r)
  }

  /** History batches from action `k` on, the newest batch in front. */
  function Histories(actions: seq<Action>, k: nat, r: string): seq<Message> {
    if |actions| <= k then []
    else
      var init, a := Histories(actions[..|actions| - 1], k, r), actions[|actions| - 1];
      if a.UpdateRoomHistory? && a.roomId == r then ByTime(a.messages) + init else init
  }

  /** Live batches from action `k` on, the newest batch at the end. */
  function Lives(actions: seq<Action>, k: nat, r: string): seq<Message> {
    if |actions| <= k then []
    else
      var init, a := Lives(actions[..|actions| - 1], k, r), actions[|actions| - 1];
      if a.AddMessages? && a.roomId == r then init + ByTime(a.messages) else init
  }

  function Story(actions: seq<Action>, r: string): Option<seq<Message>> {
    match SinceInstall(actions, r)
    case None => None
    case Some(k) =>
      match Base(actions[k - 1], r)
      case None => None
      case Some(b) => Some(Histories(actions, k, r) + b + Lives(actions, k, r))
  }

  function Messages(s: State, r: string): Option<seq<Message>> {
    if r in s.rooms then Some(s.rooms[r].messages) else None
  }

  lemma {:induction false} BroughtInstalled(rooms: seq<Room>, r: string)
    ensures Brought(rooms, r) == if r in Installed(rooms) then Some(Installed(rooms)[r].messages) else None
    decreases |rooms|
  {
    hide ByTime;
    if rooms == [] {
    } else {
      BroughtInstalled(rooms[..|rooms| - 1], r);
    }
  }

  /** What an action that does not install the room adds to it. */
  function Extended(ms: Option<seq<Message>>, a: Action, r: string): Option<seq<Message>> {
    if ms.None? then None
    else if a.AddMessages? && a.roomId == r then Some(ms.value + ByTime(a.messages))
    else if a.UpdateRoomHistory? && a.roomId == r then Some(ByTime(a.messages) + ms.value)
    else ms
  }

  lemma ReduceStep(s: State, a: Action, r: string)
    requires !Installs(a, r)
    ensures Messages(Reduce(s, a), r) == Extended(Messages(s, r), a, r)
  {
    hide ByTime, InitialState, Announce, Without, Seen;
  }

  lemma StoryStep(init: seq<Action>, a: Action, r: string)
    requires !Installs(a, r)
    ensures Story(init + [a], r) == Extended(Story(init, r), a, r)
  {
    hide ByTime, Base;
    var actions := init + [a];
    assert actions[..|init|] == init;
    assert SinceInstall(actions, r) == SinceInstall(init, r);
    match SinceInstall(init, r)
    case None =>
    case Some(k) =>
      assert actions[k - 1] == init[k - 1];
      match Base(init[k - 1], r)
      case None =>
      case Some(b) =>
        var h, l := Histories(init, k, r), Lives(init, k, r);
        if a.AddMessages? && a.roomId == r {
          assert h + b + (l + ByTime(a.messages)) == h + b + l + ByTime(a.messages);
        } else if a.UpdateRoomHistory? && a.roomId == r {
          assert ByTime(a.messages) + h + b + l == ByTime(a.messages) + (h + b + l);
        }
  }

  lemma InstallStep(init: seq<Action>, a: Action, r: string)
    requires Installs(a, r)
    ensures Story(init + [a], r) == Base(a, r) && Messages(Reduce(Run(init), a), r) == Base(a, r)
  {
    hide ByTime, Announce, Without, Seen, SeenIn, Selected;
    var actions := init + [a];
    assert SinceInstall(actions, r) == Some(|actions|);
    if a.SetInitialState? { BroughtInstalled(a.rooms, r); }
    match Base(a, r)
    case None =>
    case Some(b) => assert [] + b + [] == b;
  }

  /** Nothing lost, duplicated or moved: after every run, a room holds the history batches, the
      list it was installed with and the live batches since it was last installed. */
  lemma {:induction false} Conservation(actions: seq<Action>, r: string)
    ensures Messages(Run(actions), r) == Story(actions, r)
    decreases |actions|
  {
    hide Story, Reduce, Messages, Installs, Extended;
    if actions == [] {
      EmptyStory(r);
    } else {
      var init, a := actions[..|actions| - 1], actions[|actions| - 1];
      assert actions == init + [a];
      if Installs(a, r) {
        InstallStep(init, a, r);
      } else {
        Conservation(init, r);
        StoryStep(init, a, r);
        ReduceStep(Run(init), a, r);
      }
    }
  }

  lemma EmptyStory(r: string)
    ensures Story([], r) == None && Messages(INITIAL, r) == None
  {}

  /** Sorting a batch keeps its messages. */
  lemma ByTimeKeeps(ms: seq<Message>)
    ensures multiset(ByTime(ms)) == multiset(ms) && |ByTime(ms)| == |ms| && InOrder(ByTime(ms))
  {
    SortIsStable(Timed(ms), 0);
    SortValues(Timed(ms));
    var s := Sort(Timed(ms));
    assert Untimed(Timed(ms)) == ms;
    forall i | 0 <= i < |s| ensures s[i].key == s[i].value.timestamp {
      assert s[i] in multiset(s);
      assert s[i] in Timed(ms);
    }
  }

  /** The messages of one moment, in order. */
  function AtTime(ms: seq<Message>, time: int): seq<Message> {
    if ms == [] then []
    else
      var init := AtTime(ms[..|ms| - 1], time);
      if ms[|ms| - 1].timestamp == time then init + [ms[|ms| - 1]] else init
  }

  lemma {:induction false} AtTimeIs(items: seq<Item<Message>>, time: int)
    requires forall i :: 0 <= i < |items| ==> items[i].key == items[i].value.timestamp
    ensures AtTime(Untimed(items), time) == Untimed(WithKey(items, time))
    decreases |items|
  {
    if items == [] {
    } else {
      var init, last := items[..|items| - 1], items[|items| - 1];
      AtTimeIs(init, time);
      UntimedLast(init, last);
      assert items == init + [last];
      assert Untimed(items)[..|init|] == Untimed(init);
      WithKeyLast(init, last, time);
      UntimedLast(WithKey(init, time), last);
    }
  }

  /** Messages with one timestamp stay in the order in which they came. */
  lemma ByTimeIsStable(ms: seq<Message>, time: int)
    ensures AtTime(ByTime(ms), time) == AtTime(ms, time)
  {
    SortIsStable(Timed(ms), time);
    var s := Sort(Timed(ms));
    assert Untimed(Timed(ms)) == ms;
    forall i | 0 <= i < |s| ensures s[i].key == s[i].value.timestamp {
      assert s[i] in multiset(s);
      assert s[i] in Timed(ms);
    }
    AtTimeIs(Timed(ms), time);
    AtTimeIs(s, time);
  }

  // ---- order -------------------------------------------------------------

  ghost predicate InOrder(ms: seq<Message>) {
    forall i, j :: 0 <= i < j < |ms| ==> ms[i].timestamp <= ms[j].timestamp
  }

  /** No message of the second list is older than one of the first. */
  ghost predicate NotBefore(ms: seq<Message>, later: seq<Message>) {
    forall x, y :: x in ms && y in later ==> x.timestamp <= y.timestamp
  }

  /** A room stays sorted when a batch is put behind another one exactly when both are sorted and
      the batch is nowhere older. */
  lemma SortedConcat(a: seq<Message>, b: seq<Message>)
    ensures InOrder(a + b) <==> InOrder(a) && InOrder(b) && NotBefore(a, b)
  {
    var s := a + b;
    if InOrder(s) {
      forall i, j | 0 <= i < j < |a| ensures a[i].timestamp <= a[j].timestamp { assert s[i] == a[i] && s[j] == a[j]; }
      forall i, j | 0 <= i < j < |b| ensures b[i].timestamp <= b[j].timestamp {
        assert s[|a| + i] == b[i] && s[|a| + j] == b[j];
      }
      forall x, y | x in a && y in b ensures x.timestamp <= y.timestamp {
        var i :| 0 <= i < |a| && a[i] == x;
        var j :| 0 <= j < |b| && b[j] == y;
        assert s[i] == x && s[|a| + j] == y;
      }
    }
  }

  ghost predicate AllInOrder(s: State) { forall r :: r in s.rooms ==> InOrder(s.rooms[r].messages) }

  /** Live batches are not older than what the room holds, history batches not newer. */
  ghost predicate Timely(s: State, a: Action) {
    match a
    case AddMessages(r, ms) => r in s.rooms ==> NotBefore(s.rooms[r].messages, ms)
    case UpdateRoomHistory(r, ms, _) => r in s.rooms ==> NotBefore(ms, s.rooms[r].messages)
    case _ => true
  }

  lemma SameElements(a: seq<Message>, b: seq<Message>)
    requires multiset(a) == multiset(b)
    ensures forall x :: x in a <==> x in b
  {
    forall x ensures x in a <==> x in b { assert x in multiset(a) <==> x in multiset(b); }
  }

  lemma {:induction false} InstalledInOrder(rooms: seq<Room>)
    ensures forall r :: r in Installed(rooms) ==> InOrder(Installed(rooms)[r].messages)
    decreases |rooms|
  {
    hide ByTime, InOrder;
    if rooms == [] {
    } else {
      InstalledInOrder(rooms[..|rooms| - 1]);
      ByTimeKeeps(rooms[|rooms| - 1].messages);
    }
  }

  /** An action keeps all rooms sorted exactly when its batch is timely. */
  lemma OrderKept(s: State, a: Action)
    requires AllInOrder(s)
    ensures AllInOrder(Reduce(s, a)) <==> Timely(s, a)
  {
    hide ByTime, InOrder, NotBefore, Seen, SeenIn, Selected, Announce, Without;
    match a {
      case SetInitialState(rooms, _, _) => InstalledInOrder(rooms);
      case AddMessages(r, ms) =>
        if r in s.rooms {
          ByTimeKeeps(ms);
          SortedConcat(s.rooms[r].messages, ByTime(ms));
          NotBeforeSame(s.rooms[r].messages, ms);
          assert Reduce(s, a).rooms[r].messages == s.rooms[r].messages + ByTime(ms);
        }
      case UpdateRoomHistory(r, ms, _) =>
        if r in s.rooms {
          ByTimeKeeps(ms);
          SortedConcat(ByTime(ms), s.rooms[r].messages);
          NotBeforeSame(s.rooms[r].messages, ms);
          assert Reduce(s, a).rooms[r].messages == ByTime(ms) + s.rooms[r].messages;
        }
      case AddNewRoom(_, _, _, _, _) => NothingInOrder();
      case SetCurrentRoom(_) =>
      case RemoveAnnouncement(_) =>
    }
  }

  /** A message delivered late: the room holds timestamp 2 and gets timestamp 1. */
  lemma LateExample()
    ensures
      var m := Message("a", User("u", "u"), "", 2);
      var late := AddMessages("r", [m.(id := "b", timestamp := 1)]);
      var s := INITIAL.(rooms := map["r" := Room("r", "r", [m], false, "u")]);
      AllInOrder(s) && !Timely(s, late) && !AllInOrder(Reduce(s, late))
  {
    var m := Message("a", User("u", "u"), "", 2);
    var x := m.(id := "b", timestamp := 1);
    var s := INITIAL.(rooms := map["r" := Room("r", "r", [m], false, "u")]);
    assert m in s.rooms["r"].messages && x in [x];
    assert !Timely(s, AddMessages("r", [x]));
    hide Reduce, Timely;
    OrderKept(s, AddMessages("r", [x]));
  }

  lemma NothingInOrder()
    ensures InOrder([])
  {}

  lemma NotBeforeSame(old_: seq<Message>, ms: seq<Message>)
    ensures NotBefore(old_, ByTime(ms)) <==> NotBefore(old_, ms)
    ensures NotBefore(ByTime(ms), old_) <==> NotBefore(ms, old_)
  {
    hide ByTime;
    ByTimeKeeps(ms);
    SameElements(ByTime(ms), ms);
  }

  /** Over every run of timely actions, every room stays sorted, so that its last message has the
      greatest timestamp. */
  lemma {:induction false} OrderAlways(actions: seq<Action>)
    requires forall j :: 0 <= j < |actions| ==> Timely(Run(actions[..j]), actions[j])
    ensures AllInOrder(Run(actions))
    ensures forall r, m :: r in Run(actions).rooms && m in Run(actions).rooms[r].messages ==>
      m.timestamp <= LastTime(Run(actions).rooms[r])
    decreases |actions|
  {
    hide Reduce, Timely;
    if actions == [] {
    } else {
      var init := actions[..|actions| - 1];
      forall j | 0 <= j < |init| ensures Timely(Run(init[..j]), init[j]) {
        assert init[..j] == actions[..j] && Timely(Run(actions[..j]), actions[j]);
      }
      OrderAlways(init);
      OrderKept(Run(init), actions[|actions| - 1]);
    }
  }

  // ---- the hello ---------------------------------------------------------

  /** A hello names every room once in Object.values. */
  predicate Legal(a: Action) {
    a.SetInitialState? ==>
      && (forall k :: k in a.order ==> k in Installed(a.rooms))
      && (forall k :: k in Installed(a.rooms) ==> k in a.order)
  }

  lemma {:induction false} LatestIsGreatest(rooms: seq<Room>)
    ensures rooms == [] <==> FindLatest(rooms).None?
    ensures FindLatest(rooms).Some? ==>
      FindLatest(rooms).value in rooms && forall x :: x in rooms ==> LastTime(x) <= LastTime(FindLatest(rooms).value)
    decreases |rooms|
  {
    if rooms == [] {
    } else {
      LatestIsGreatest(rooms[..|rooms| - 1]);
      assert rooms == rooms[..|rooms| - 1] + [rooms[|rooms| - 1]];
    }
  }

  lemma ByLastMessageSame(rooms: seq<Room>)
    ensures forall x :: x in ByLastMessage(rooms) <==> x in rooms
  {
    var items := seq(|rooms|, i requires 0 <= i < |rooms| => Item(-LastTime(rooms[i]), rooms[i]));
    SortValues(items);
    assert Untimed(items) == rooms;
    assert multiset(ByLastMessage(rooms)) == multiset(rooms);
    forall x ensures x in ByLastMessage(rooms) <==> x in rooms {
      assert x in multiset(ByLastMessage(rooms)) <==> x in multiset(rooms);
    }
  }

  lemma {:induction false} ValuesAre(rooms: map<string, Room>, order: seq<string>)
    ensures forall x :: x in Values(rooms, order) <==> exists k :: k in order && k in rooms && rooms[k] == x
    decreases |order|
  {
    if order == [] {
    } else {
      var init, last := order[..|order| - 1], order[|order| - 1];
      ValuesAre(rooms, init);
      assert order == init + [last];
      forall x ensures x in Values(rooms, order) <==> exists k :: k in order && k in rooms && rooms[k] == x {
        if x in Values(rooms, init) {
          var k :| k in init && k in rooms && rooms[k] == x;
          assert k in order;
        }
      }
    }
  }

  lemma {:induction false} InstalledIds(rooms: seq<Room>)
    ensures forall k :: k in Installed(rooms) ==> Installed(rooms)[k].id == k
    decreases |rooms|
  {
    hide ByTime;
    if rooms == [] {
    } else {
      InstalledIds(rooms[..|rooms| - 1]);
    }
  }

  /** A hello selects a room with the greatest last timestamp, and none only when there is none;
      since hello sorts, that is a room with the newest message of all. */
  lemma HelloSelectsLatest(s: State, a: Action)
    requires a.SetInitialState? && Legal(a) && "" !in Installed(a.rooms)
    ensures
      var t := Reduce(s, a);
      && (t.current.None? <==> t.rooms == map[])
      && (t.current.Some? ==> t.current.value in t.rooms)
      && (t.current.Some? ==> forall r, m :: r in t.rooms && m in t.rooms[r].messages ==>
            LastTime(t.rooms[r]) <= LastTime(t.rooms[t.current.value])
              && m.timestamp <= LastTime(t.rooms[t.current.value]))
  {
    InstalledIds(a.rooms);
    InstalledInOrder(a.rooms);
    SelectedIsLatest(Installed(a.rooms), a.order);
    hide Installed, Selected, SeenIn;
    var t := Reduce(s, a);
    if t.current.Some? {
      forall r, m | r in t.rooms && m in t.rooms[r].messages ensures m.timestamp <= LastTime(t.rooms[r]) {
        assert InOrder(t.rooms[r].messages);
      }
    }
  }

  lemma SelectedIsLatest(rooms: map<string, Room>, order: seq<string>)
    requires (forall k :: k in order ==> k in rooms) && (forall k :: k in rooms ==> k in order)
    requires "" !in rooms && forall k :: k in rooms ==> rooms[k].id == k
    ensures Selected(rooms, order).None? <==> rooms == map[]
    ensures Selected(rooms, order).Some? ==>
      && Selected(rooms, order).value in rooms
      && forall r :: r in rooms ==> LastTime(rooms[r]) <= LastTime(rooms[Selected(rooms, order).value])
  {
    var values := Values(rooms, order);
    ValuesAre(rooms, order);
    ByLastMessageSame(values);
    LatestIsGreatest(ByLastMessage(values));
    hide Values, ByLastMessage, FindLatest, LastTime;
    assert forall k :: k in rooms ==> rooms[k] in values;
    var found := FindLatest(ByLastMessage(values));
    if found.None? {
      assert forall x :: x !in values;
    } else {
      assert found.value in values;
    }
  }
}

/** The state of the chat page as a function of the actions so far, field by field. */
module ReducerHistory {
  import opened Wrappers
  import opened StableSort
  import opened Reducer

  // ---- who and which room ------------------------------------------------

  /** The user of the last hello. */
  function MeAfter(actions: seq<Action>): Option<User> {
    if actions == [] then None
    else
      var a := actions[|actions| - 1];
      if a.SetInitialState? then a.me else MeAfter(actions[..|actions| - 1])
  }

  /** The last room of a list with an id. */
  function LastNamed(rooms: seq<Room>, r: string): Option<Room> {
    if rooms == [] then None
    else if rooms[|rooms| - 1].id == r then Some(rooms[|rooms| - 1])
    else LastNamed(rooms[..|rooms| - 1], r)
  }

  /** A room is known since the hello that named it or since it was added. */
  predicate KnownAfter(actions: seq<Action>, r: string) {
    actions != [] && NowKnown(actions[|actions| - 1], r, KnownAfter(actions[..|actions| - 1], r))
  }

  predicate NowKnown(a: Action, r: string, before: bool) {
    match a
    case SetInitialState(rooms, _, _) => LastNamed(rooms, r).Some?
    case AddNewRoom(id, _, _, _, _) => id == r || before
    case _ => before
  }

  /** The greatest timestamp, 0 without messages. */
  function MaxTime(ms: seq<Message>): int {
    if ms == [] then 0
    else if |ms| == 1 then ms[0].timestamp
    else
      var m := MaxTime(ms[1..]);
      if ms[0].timestamp > m then ms[0].timestamp else m
  }

  function NewestIn(rooms: seq<Room>, r: string): int {
    match LastNamed(rooms, r)
    case None => 0
    case Some(room) => MaxTime(room.messages)
  }

  /** Of the rooms in `order`, the last of those with the newest message. */
  function LatestOf(rooms: seq<Room>, order: seq<string>): Option<string> {
    if order == [] then None
    else
      var k := order[|order| - 1];
      match LatestOf(rooms, order[..|order| - 1])
      case None => if LastNamed(rooms, k).Some? then Some(k) else None
      case Some(b) =>
        if LastNamed(rooms, k).None? || NewestIn(rooms, b) > NewestIn(rooms, k) then Some(b) else Some(k)
  }

  /** The empty id counts as no room. */
  function NotEmpty(r: Option<string>): Option<string> { if r == Some("") then None else r }

  /** The last selection since the last hello, otherwise the choice of the hello. */
  function CurrentAfter(actions: seq<Action>): Option<string> {
    if actions == [] then None else NowCurrent(actions[|actions| - 1], CurrentAfter(actions[..|actions| - 1]))
  }

  function NowCurrent(a: Action, before: Option<string>): Option<string> {
    match a
    case SetCurrentRoom(r) => Some(r)
    case SetInitialState(rooms, _, order) => NotEmpty(LatestOf(rooms, order))
    case _ => before
  }

  // ---- the choice of a hello ---------------------------------------------

  lemma {:induction false} MaxTimeIs(ms: seq<Message>)
    requires ms != []
    ensures (forall m :: m in ms ==> m.timestamp <= MaxTime(ms)) && exists m :: m in ms && m.timestamp == MaxTime(ms)
    decreases |ms|
  {
    if |ms| == 1 {
      assert ms[0] in ms;
    } else {
      MaxTimeIs(ms[1..]);
      assert ms == [ms[0]] + ms[1..];
      assert ms[0] in ms;
      var m :| m in ms[1..] && m.timestamp == MaxTime(ms[1..]);
      assert m in ms;
    }
  }

  lemma LastIsNewest(ms: seq<Message>)
    requires ms != []
    ensures |ByTime(ms)| == |ms| && ByTime(ms)[|ms| - 1].timestamp == MaxTime(ms)
  {
    hide ByTime, MaxTime;
    ByTimeKeeps(ms);
    SameElements(ByTime(ms), ms);
    MaxTimeIs(ms);
    var s := ByTime(ms);
    var last := s[|s| - 1];
    assert last in s;
    var m :| m in ms && m.timestamp == MaxTime(ms);
    var i :| 0 <= i < |s| && s[i] == m;
  }

  lemma {:induction false} InstalledIs(rooms: seq<Room>, r: string)
    ensures r in Installed(rooms) <==> LastNamed(rooms, r).Some?
    ensures r in Installed(rooms) ==>
      var room := LastNamed(rooms, r).value;
      Installed(rooms)[r] == room.(messages := ByTime(room.messages)) && room.id == r
    decreases |rooms|
  {
    hide ByTime;
    if rooms == [] {
    } else {
      InstalledIs(rooms[..|rooms| - 1], r);
    }
  }

  lemma InstalledTime(rooms: seq<Room>, r: string)
    requires r in Installed(rooms)
    ensures LastNamed(rooms, r).Some? && LastTime(Installed(rooms)[r]) == NewestIn(rooms, r)
  {
    hide ByTime, Installed, LastNamed, MaxTime;
    InstalledIs(rooms, r);
    var ms := LastNamed(rooms, r).value.messages;
    if ms == [] { assert ByTime(ms) == [] by { ByTimeKeeps(ms); } assert MaxTime(ms) == 0 by { NoTime(); } }
    else { LastIsNewest(ms); }
  }

  lemma NoTime()
    ensures MaxTime([]) == 0
  {}

  ghost predicate ByRecency(items: seq<Item<Room>>) {
    forall i :: 0 <= i < |items| ==> items[i].key == -LastTime(items[i].value)
  }

  ghost predicate LastOfLeast(items: seq<Item<Room>>, r: Room) {
    var key := -LastTime(r);
    && (forall i :: 0 <= i < |items| ==> key <= items[i].key)
    && (exists i :: 0 <= i < |items| && items[i].key == key)
    && (var best := WithKey(items, key); best != [] && best[|best| - 1].value == r)
  }

  /** The reduce finds the last of the items with the smallest key. */
  lemma {:induction false} ReduceFinds(items: seq<Item<Room>>)
    requires items != [] && ByRecency(items)
    ensures FindLatest(Untimed(items)).Some? && LastOfLeast(items, FindLatest(Untimed(items)).value)
    decreases |items|
  {
    var init, last := items[..|items| - 1], items[|items| - 1];
    assert items == init + [last];
    UntimedLast(init, last);
    var all := Untimed(items);
    assert all[..|all| - 1] == Untimed(init) && all[|all| - 1] == last.value;
    if init == [] {
      assert FindLatest(Untimed(init)) == None;
      OnlyOne(last);
    } else {
      ReduceFinds(init);
      hide Untimed, LastTime, LastOfLeast;
      LastOfMore(init, last, FindLatest(Untimed(init)).value);
    }
  }

  lemma OnlyOne(last: Item<Room>)
    requires last.key == -LastTime(last.value)
    ensures LastOfLeast([] + [last], last.value)
  {
    WithKeyLast([], last, last.key);
    assert ([] + [last])[0].key == last.key;
  }

  lemma LastOfMore(init: seq<Item<Room>>, last: Item<Room>, prev: Room)
    requires LastOfLeast(init, prev) && last.key == -LastTime(last.value)
    ensures LastOfLeast(init + [last], if LastTime(prev) > LastTime(last.value) then prev else last.value)
  {
    hide LastTime, WithKey;
    var items := init + [last];
    if LastTime(prev) > LastTime(last.value) {
      WithKeyLast(init, last, -LastTime(prev));
      var i :| 0 <= i < |init| && init[i].key == -LastTime(prev);
      assert items[i].key == -LastTime(prev);
    } else {
      WithKeyLast(init, last, last.key);
      assert items[|init|] == last;
    }
  }

  lemma SameLatest(a: seq<Item<Room>>, b: seq<Item<Room>>)
    requires ByRecency(a) && ByRecency(b) && multiset(a) == multiset(b)
    requires forall key :: WithKey(a, key) == WithKey(b, key)
    ensures FindLatest(Untimed(a)) == FindLatest(Untimed(b))
  {
    assert |a| == |multiset(a)| == |multiset(b)| == |b|;
    if a == [] {
      assert b == [];
    } else {
      hide *;
      ReduceFinds(a);
      ReduceFinds(b);
      SameLast(a, b, FindLatest(Untimed(a)).value, FindLatest(Untimed(b)).value);
    }
  }

  lemma SameLast(a: seq<Item<Room>>, b: seq<Item<Room>>, x: Room, y: Room)
    requires multiset(a) == multiset(b) && (forall key :: WithKey(a, key) == WithKey(b, key))
    requires LastOfLeast(a, x) && LastOfLeast(b, y)
    ensures x == y
  {
    hide LastTime, WithKey;
    LeastKey(a, b, -LastTime(x), -LastTime(y));
    LeastKey(b, a, -LastTime(y), -LastTime(x));
  }

  /** Lists with the same items have the same least key. */
  lemma LeastKey(a: seq<Item<Room>>, b: seq<Item<Room>>, x: int, y: int)
    requires multiset(a) == multiset(b) && exists i :: 0 <= i < |a| && a[i].key == x
    requires forall i :: 0 <= i < |b| ==> y <= b[i].key
    ensures y <= x
  {
    var i :| 0 <= i < |a| && a[i].key == x;
    assert a[i] in multiset(a) && a[i] in multiset(b) && a[i] in b;
  }

  /** Sorting the rooms first does not change which one is found: the sort is stable. */
  lemma SortingDoesNotMatter(rooms: seq<Room>)
    ensures FindLatest(ByLastMessage(rooms)) == FindLatest(rooms)
  {
    var items := seq(|rooms|, i requires 0 <= i < |rooms| => Item(-LastTime(rooms[i]), rooms[i]));
    assert Untimed(items) == rooms;
    var s := Sort(items);
    forall key ensures WithKey(s, key) == WithKey(items, key) { SortIsStable(items, key); }
    SortIsStable(items, 0);
    assert ByRecency(s) by {
      forall i | 0 <= i < |s| ensures s[i].key == -LastTime(s[i].value) {
        assert s[i] in multiset(s) && s[i] in items;
      }
    }
    hide Sort, FindLatest, WithKey, LastTime;
    SameLatest(s, items);
  }

  lemma {:induction false} LatestFound(rooms: seq<Room>, order: seq<string>)
    ensures
      var found := FindLatest(Values(Installed(rooms), order));
      match LatestOf(rooms, order)
      case None => found.None?
      case Some(k) => k in Installed(rooms) && found == Some(Installed(rooms)[k])
    decreases |order|
  {
    hide Installed, LastNamed, NewestIn, LastTime;
    if order == [] {
    } else {
      var init, k := order[..|order| - 1], order[|order| - 1];
      LatestFound(rooms, init);
      InstalledIs(rooms, k);
      var vs := Values(Installed(rooms), init);
      if k in Installed(rooms) {
        InstalledTime(rooms, k);
        var longer := vs + [Installed(rooms)[k]];
        assert longer[..|longer| - 1] == vs;
        assert Values(Installed(rooms), order) == longer;
        if LatestOf(rooms, init).Some? { InstalledTime(rooms, LatestOf(rooms, init).value); }
      }
    }
  }

  lemma HelloChoice(rooms: seq<Room>, order: seq<string>)
    ensures Selected(Installed(rooms), order) == NotEmpty(LatestOf(rooms, order))
  {
    hide Installed, Values, FindLatest, ByLastMessage;
    SortingDoesNotMatter(Values(Installed(rooms), order));
    LatestFound(rooms, order);
    if LatestOf(rooms, order).Some? { InstalledIs(rooms, LatestOf(rooms, order).value); }
  }

  /** No room named in `order` has a newer message than the one at `i`, none behind it one as new. */
  ghost predicate LastOfNewest(rooms: seq<Room>, order: seq<string>, i: nat) {
    && i < |order| && LastNamed(rooms, order[i]).Some?
    && (forall j :: 0 <= j < |order| && LastNamed(rooms, order[j]).Some? ==>
          NewestIn(rooms, order[j]) <= NewestIn(rooms, order[i]))
    && (forall j :: i < j < |order| && LastNamed(rooms, order[j]).Some? ==>
          NewestIn(rooms, order[j]) < NewestIn(rooms, order[i]))
  }

  lemma {:induction false} LatestOfIs(rooms: seq<Room>, order: seq<string>)
    ensures LatestOf(rooms, order).None? <==> forall i :: 0 <= i < |order| ==> LastNamed(rooms, order[i]).None?
    ensures LatestOf(rooms, order).Some? ==>
      exists i: nat :: LastOfNewest(rooms, order, i) && order[i] == LatestOf(rooms, order).value
    decreases |order|
  {
    hide LastNamed, NewestIn;
    if order == [] {
    } else {
      var n := |order| - 1;
      var init, k := order[..n], order[n];
      LatestOfIs(rooms, init);
      assert order == init + [k];
      if LatestOf(rooms, init).None? {
        assert forall i :: 0 <= i < n ==> LastNamed(rooms, order[i]) == LastNamed(rooms, init[i]);
        if LastNamed(rooms, k).Some? { assert LastOfNewest(rooms, order, n); }
      } else {
        var i: nat :| LastOfNewest(rooms, init, i) && init[i] == LatestOf(rooms, init).value;
        assert order[i] == init[i];
        hide LastOfNewest;
        OneMoreRoom(rooms, init, k, i);
      }
    }
  }

  lemma OneMoreRoom(rooms: seq<Room>, init: seq<string>, k: string, i: nat)
    requires LastOfNewest(rooms, init, i)
    ensures
      var order := init + [k];
      if LastNamed(rooms, k).None? || NewestIn(rooms, init[i]) > NewestIn(rooms, k) then LastOfNewest(rooms, order, i)
      else LastOfNewest(rooms, order, |init|)
    ensures LastNamed(rooms, init[i]).Some?
  {
    hide LastNamed, NewestIn;
    var order := init + [k];
    assert forall j :: 0 <= j < |init| ==> order[j] == init[j];
  }

  // ---- selection over runs -----------------------------------------------

  lemma SelectionStep(s: State, a: Action, r: string)
    ensures Reduce(s, a).current == NowCurrent(a, s.current)
    ensures Reduce(s, a).currentUser == if a.SetInitialState? then a.me else s.currentUser
    ensures Reduce(s, a).loading == (!a.SetInitialState? && s.loading)
    ensures r in Reduce(s, a).rooms <==> NowKnown(a, r, r in s.rooms)
  {
    if a.SetInitialState? {
      HelloChoice(a.rooms, a.order);
      InstalledIs(a.rooms, r);
    }
    hide ByTime, Seen, SeenIn, Installed, Selected, Announce, Without, LatestOf, LastNamed;
  }

  /** After every run, the current room is the one last selected since the last hello, otherwise the
      hello's choice; the known rooms, the user and the loading state are as the actions say. */
  lemma {:induction false} CurrentExact(actions: seq<Action>)
    ensures Run(actions).current == CurrentAfter(actions)
    ensures forall r :: r in Run(actions).rooms <==> KnownAfter(actions, r)
    ensures Run(actions).currentUser == MeAfter(actions)
    ensures Run(actions).loading <==> forall i :: 0 <= i < |actions| ==> !actions[i].SetInitialState?
    decreases |actions|
  {
    hide Reduce, LatestOf, LastNamed;
    if actions == [] {
    } else {
      var n := |actions| - 1;
      var init, a := actions[..n], actions[n];
      CurrentExact(init);
      SelectionStep(Run(init), a, "");
      forall r ensures r in Run(actions).rooms <==> KnownAfter(actions, r) { SelectionStep(Run(init), a, r); }
      assert Run(actions).loading <==> forall i :: 0 <= i < |actions| ==> !actions[i].SetInitialState? by {
        assert forall i :: 0 <= i < n ==> init[i] == actions[i];
      }
    }
  }

  // ---- counters ----------------------------------------------------------

  /** One past the last action that set the count of `r` to zero: a hello or its selection. */
  function LastReset(actions: seq<Action>, r: string): (k: nat)
    ensures k <= |actions|
  {
    if actions == [] then 0
    else
      var a := actions[|actions| - 1];
      if a.SetInitialState? || (a.SetCurrentRoom? && a.roomId == r) then |actions|
      else LastReset(actions[..|actions| - 1], r)
  }

  /** Messages delivered to the room from action `k` on, while it was known and not current. */
  function Missed(actions: seq<Action>, k: nat, r: string): nat {
    if |actions| <= k then 0
    else
      var init, a := actions[..|actions| - 1], actions[|actions| - 1];
      Missed(init, k, r) +
      if a.AddMessages? && a.roomId == r && KnownAfter(init, r) && CurrentAfter(init) != Some(r) then |a.messages|
      else 0
  }

  /** Over every run, the counter of a room is the number of messages it was sent, while known and
      not current, since it was last selected or since hello; the current room has none. */
  lemma {:induction false} UnreadExact(actions: seq<Action>, r: string)
    requires r != ""
    ensures Unread(Run(actions), r) == Missed(actions, LastReset(actions, r), r)
    ensures CurrentAfter(actions) == Some(r) ==> Unread(Run(actions), r) == 0
    decreases |actions|
  {
    hide Reduce, KnownAfter;
    if actions == [] {
    } else {
      var init := actions[..|actions| - 1];
      UnreadExact(init, r);
      CurrentExact(init);
      CurrentExact(actions);
      UnreadStep(Run(init), actions[|actions| - 1], r);
    }
  }

  lemma UnreadStep(s: State, a: Action, r: string)
    requires r != ""
    ensures Unread(Reduce(s, a), r) ==
      if a.SetInitialState? || (a.SetCurrentRoom? && a.roomId == r) then 0
      else if a.AddMessages? && a.roomId == r && r in s.rooms && s.current != Some(r) then Unread(s, r) + |a.messages|
      else Unread(s, r)
    ensures Reduce(s, a).current == Some(r) ==>
      a.SetInitialState? || (a.SetCurrentRoom? && a.roomId == r) || s.current == Some(r)
  {
    hide ByTime, Seen, SeenIn, Announce, Without, Installed, Selected;
  }

  // ---- rooms -------------------------------------------------------------

  datatype Info = Info(name: string, creator: string, hasMore: bool)

  /** Name, creator and history flag of a room: of the last list entry with its id, or as it was
      added, by the named creator or else by this user; the flag is that of its last history batch. */
  function InfoAfter(actions: seq<Action>, r: string): Option<Info> {
    if actions == [] then None
    else
      var init := actions[..|actions| - 1];
      NowInfo(actions[|actions| - 1], r, InfoAfter(init, r), MeAfter(init))
  }

  function NowInfo(a: Action, r: string, before: Option<Info>, me: Option<User>): Option<Info> {
    match a
    case SetInitialState(rooms, _, _) =>
      (match LastNamed(rooms, r)
       case None => None
       case Some(room) => Some(Info(room.name, room.creator, room.hasMore)))
    case AddNewRoom(k, name, creator, _, _) =>
      if k != r then before
      else Some(Info(name, if creator != "" then creator else if me.Some? then me.value.id else "", false))
    case UpdateRoomHistory(k, _, more) =>
      if k == r && before.Some? then Some(before.value.(hasMore := more)) else before
    case _ => before
  }

  function InfoOf(s: State, r: string): Option<Info> {
    if r in s.rooms then Some(Info(s.rooms[r].name, s.rooms[r].creator, s.rooms[r].hasMore)) else None
  }

  lemma InfoStep(s: State, a: Action, r: string)
    ensures InfoOf(Reduce(s, a), r) == NowInfo(a, r, InfoOf(s, r), s.currentUser)
  {
    if a.SetInitialState? { InstalledIs(a.rooms, r); }
    hide ByTime, Seen, SeenIn, Installed, Selected, Announce, Without, LastNamed;
  }

  /** After every run, every room has the name, the creator and the history flag the actions gave. */
  lemma {:induction false} RoomInfoExact(actions: seq<Action>, r: string)
    ensures InfoOf(Run(actions), r) == InfoAfter(actions, r)
    decreases |actions|
  {
    hide Reduce, LastNamed, InfoOf, KnownAfter, CurrentAfter;
    if actions == [] {
      NoInfo(r);
    } else {
      var init := actions[..|actions| - 1];
      RoomInfoExact(init, r);
      CurrentExact(init);
      InfoStep(Run(init), actions[|actions| - 1], r);
    }
  }

  lemma NoInfo(r: string)
    ensures InfoOf(INITIAL, r) == None
  {}

  // ---- users -------------------------------------------------------------

  /** The author of the first message by the user with an id. */
  function FirstBy(ms: seq<Message>, id: string): Option<User> {
    if ms == [] then None else if ms[0].user.id == id then Some(ms[0].user) else FirstBy(ms[1..], id)
  }

  function FirstIn(rooms: seq<Room>, id: string): Option<User> {
    if rooms == [] then None else Earlier(FirstBy(ByTime(rooms[0].messages), id), FirstIn(rooms[1..], id))
  }

  function Earlier(a: Option<User>, b: Option<User>): Option<User> { if a.Some? then a else b }

  function Me(me: Option<User>, id: string): Option<User> { if me.Some? && me.value.id == id then me else None }

  /** A user as first seen since the last hello: as this user, in the hello's rooms, in a live
      batch to a known room. */
  function UserAfter(actions: seq<Action>, id: string): Option<User> {
    if actions == [] then None
    else
      var init, a := actions[..|actions| - 1], actions[|actions| - 1];
      NowUser(a, id, UserAfter(init, id), a.AddMessages? && KnownAfter(init, a.roomId))
  }

  function NowUser(a: Action, id: string, before: Option<User>, known: bool): Option<User> {
    match a
    case SetInitialState(rooms, me, _) => Earlier(Me(me, id), FirstIn(rooms, id))
    case AddMessages(_, ms) => if known then Earlier(before, FirstBy(ms, id)) else before
    case _ => before
  }

  function UserOf(users: map<string, User>, id: string): Option<User> { if id in users then Some(users[id]) else None }

  lemma {:induction false} FirstByLast(ms: seq<Message>, id: string)
    requires ms != []
    ensures
      var last := ms[|ms| - 1].user;
      FirstBy(ms, id) == Earlier(FirstBy(ms[..|ms| - 1], id), if last.id == id then Some(last) else None)
    decreases |ms|
  {
    if |ms| > 1 {
      assert ms[1..][..|ms| - 2] == ms[..|ms| - 1][1..];
      FirstByLast(ms[1..], id);
    } else {
      assert ms[1..] == [];
    }
  }

  lemma {:induction false} SeenFirst(users: map<string, User>, ms: seq<Message>, id: string)
    ensures UserOf(Seen(users, ms), id) == Earlier(UserOf(users, id), FirstBy(ms, id))
    decreases |ms|
  {
    if ms == [] {
    } else {
      hide FirstBy;
      SeenFirst(users, ms[..|ms| - 1], id);
      FirstByLast(ms, id);
    }
  }

  lemma {:induction false} FirstInLast(rooms: seq<Room>, id: string)
    requires rooms != []
    ensures FirstIn(rooms, id) ==
      Earlier(FirstIn(rooms[..|rooms| - 1], id), FirstBy(ByTime(rooms[|rooms| - 1].messages), id))
    decreases |rooms|
  {
    hide FirstBy, ByTime;
    if |rooms| > 1 {
      assert rooms[1..][..|rooms| - 2] == rooms[..|rooms| - 1][1..];
      FirstInLast(rooms[1..], id);
    } else {
      assert rooms[1..] == [];
    }
  }

  lemma {:induction false} SeenInFirst(users: map<string, User>, rooms: seq<Room>, id: string)
    ensures UserOf(SeenIn(users, rooms), id) == Earlier(UserOf(users, id), FirstIn(rooms, id))
    decreases |rooms|
  {
    hide ByTime, Seen, UserOf, FirstBy;
    if rooms == [] {
    } else {
      SeenInFirst(users, rooms[..|rooms| - 1], id);
      SeenFirst(SeenIn(users, rooms[..|rooms| - 1]), ByTime(rooms[|rooms| - 1].messages), id);
      FirstInLast(rooms, id);
    }
  }

  lemma UserStep(s: State, a: Action, id: string)
    ensures UserOf(Reduce(s, a).users, id) ==
      NowUser(a, id, UserOf(s.users, id), a.AddMessages? && a.roomId in s.rooms)
  {
    hide ByTime, Seen, SeenIn, Installed, Selected, Announce, Without, FirstIn, FirstBy;
    if a.SetInitialState? { SeenInFirst(OnlyMe(a.me), a.rooms, id); }
    if a.AddMessages? { SeenFirst(s.users, a.messages, id); }
  }

  /** After every run, the users are those seen since the last hello, each as first seen. */
  lemma {:induction false} UsersExact(actions: seq<Action>, id: string)
    ensures UserOf(Run(actions).users, id) == UserAfter(actions, id)
    decreases |actions|
  {
    hide Reduce, FirstBy, FirstIn, KnownAfter, CurrentAfter, UserOf;
    if actions == [] {
      NoUser(id);
    } else {
      var init := actions[..|actions| - 1];
      UsersExact(init, id);
      CurrentExact(init);
      UserStep(Run(init), actions[|actions| - 1], id);
    }
  }

  lemma NoUser(id: string)
    ensures UserOf(INITIAL.users, id) == None
  {}

  // ---- announcements -----------------------------------------------------

  /** The newest `n` of a list. */
  function Newest(list: seq<Announcement>, n: nat): seq<Announcement> {
    if |list| <= n then list else list[|list| - n..]
  }

  function Kept(list: seq<Announcement>, id: string): seq<Announcement> {
    if list == [] then [] else (if list[0].id != id then [list[0]] else []) + Kept(list[1..], id)
  }

  function NameOr(u: Option<User>, id: string): string { if u.Some? then u.value.username else id }

  /** The rooms added since the last hello, the newest 5000 that have not been removed; the creator
      is named as seen at that time, otherwise by id. */
  function AnnouncementsAfter(actions: seq<Action>): seq<Announcement> {
    if actions == [] then []
    else
      var init, a := actions[..|actions| - 1], actions[|actions| - 1];
      NowAnnounced(a, AnnouncementsAfter(init), if a.AddNewRoom? then UserAfter(init, a.creatorId) else None)
  }

  function NowAnnounced(a: Action, before: seq<Announcement>, creator: Option<User>): seq<Announcement> {
    match a
    case SetInitialState(_, _, _) => []
    case AddNewRoom(_, name, creatorId, time, id) =>
      var text := NameOr(creator, creatorId) + "在" + time + "创建了" + name + "，快来该房间和他聊天吧！";
      Newest(before + [Announcement(id, text)], 5000)
    case RemoveAnnouncement(id) => Kept(before, id)
    case _ => before
  }

  lemma {:induction false} KeptLast(list: seq<Announcement>, id: string)
    requires list != []
    ensures
      var last := list[|list| - 1];
      Kept(list, id) == Kept(list[..|list| - 1], id) + if last.id != id then [last] else []
    decreases |list|
  {
    if |list| == 1 {
      assert list[1..] == [] && list[..0] == [];
    } else {
      var init, rest := list[..|list| - 1], list[1..];
      KeptLast(rest, id);
      assert rest[..|rest| - 1] == init[1..] && rest[|rest| - 1] == list[|list| - 1] && init[0] == list[0];
      KeptFirst(list, id);
      KeptFirst(init, id);
      hide Kept;
    }
  }

  lemma KeptFirst(list: seq<Announcement>, id: string)
    requires list != []
    ensures Kept(list, id) == (if list[0].id != id then [list[0]] else []) + Kept(list[1..], id)
  {}

  lemma {:induction false} WithoutIsKept(list: seq<Announcement>, id: string)
    ensures Without(list, id) == Kept(list, id)
    decreases |list|
  {
    if list == [] {
    } else {
      hide Kept;
      WithoutIsKept(list[..|list| - 1], id);
      KeptLast(list, id);
    }
  }

  lemma AnnounceStep(s: State, a: Action)
    requires |s.announcements| <= 5000
    ensures Reduce(s, a).announcements ==
      NowAnnounced(a, s.announcements, if a.AddNewRoom? then UserOf(s.users, a.creatorId) else None)
    ensures |Reduce(s, a).announcements| <= 5000
  {
    if a.RemoveAnnouncement? { WithoutIsKept(s.announcements, a.id); }
    hide ByTime, Seen, SeenIn, Installed, Selected, Without, Kept;
  }

  /** After every run, the announcements are exactly these, never more than 5000. */
  lemma {:induction false} AnnouncementsExact(actions: seq<Action>)
    ensures Run(actions).announcements == AnnouncementsAfter(actions)
    ensures |Run(actions).announcements| <= 5000
    decreases |actions|
  {
    hide Reduce, Kept, UserAfter, UserOf, Newest;
    if actions == [] {
    } else {
      var init, a := actions[..|actions| - 1], actions[|actions| - 1];
      AnnouncementsExact(init);
      if a.AddNewRoom? { UsersExact(init, a.creatorId); }
      AnnounceStep(Run(init), a);
    }
  }
}

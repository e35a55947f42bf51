/** Exactly once and in Kafka order, when no call fails. */
module ChatOrder {
  import opened Wrappers
  import opened Topics
  import opened ChatProtocol
  import opened ChatInvariants
  import opened ChatHistory
  import opened ChatDelivery

  predicate Wanted(e: Entry, rooms: set<RoomId>) { e.RoomCreated? || e.roomId in rooms }

  /** The bodies of the entries `from` to `end` that are for everyone or for one of the rooms. */
  function Expected(kafka: seq<Entry>, from: nat, end: nat, rooms: set<RoomId>): seq<string>
    requires end <= |kafka|
    decreases end
  {
    if end <= from then []
    else
      var before := Expected(kafka, from, end - 1, rooms);
      if Wanted(kafka[end - 1], rooms) then before + [kafka[end - 1].body] else before
  }

  predicate Counts(d: Delivery, c: Conn, kafka: seq<Entry>, from: nat, rooms: set<RoomId>) {
    d.conn == c && from <= d.rpc.entry < |kafka| && Wanted(kafka[d.rpc.entry], rooms)
  }

  /** What a connection was sent of them, in the order of sending. */
  function Received(log: seq<Delivery>, c: Conn, kafka: seq<Entry>, from: nat, rooms: set<RoomId>): seq<string> {
    if log == [] then []
    else
      var before := Received(log[..|log| - 1], c, kafka, from, rooms);
      var d := log[|log| - 1];
      if Counts(d, c, kafka, from, rooms) then before + [d.body] else before
  }

  // ---- runs without a failed call ----------------------------------------

  predicate NoFailure(es: seq<Event>) { forall i :: 0 <= i < |es| ==> es[i] != OfJob(Fail) }

  lemma NoFailureBefore(es: seq<Event>, n: nat)
    requires NoFailure(es) && n <= |es|
    ensures NoFailure(es[..n])
  {}

  /** Only the current call can still be running. */
  ghost predicate Smooth(s: State) {
    && s.job.attempt == 0 && NextCall(s.job) <= |s.kafka|
    && forall id :: id in s.handlers ==> id.attempt == 0 && (id.entry < s.job.pos ==> s.handlers[id].at.Returned?)
  }

  lemma SmoothStarts(s: State)
    requires Start(s)
    ensures Smooth(s)
  {}

  lemma SmoothKept(s: State, e: Event)
    requires Inv(s) && Smooth(s) && Can(s, e) && e != OfJob(Fail)
    ensures Smooth(Do(s, e))
  {
    hide Inv, Smooth, LogicDo, JobDo, RpcDo, ConnDo, LogicCan, JobCan, RpcCan, ConnCan;
    match e
    case OfLogic(l) => LogicSmooth(s, l);
    case OfJob(j) => JobSmooth(s, j);
    case OfRpc(id, r) => RpcSmooth(s, id, r);
    case OfConn(c, a) => ConnSmooth(s, c, a);
  }

  lemma LogicSmooth(s: State, e: LogicEvent)
    requires Smooth(s) && LogicCan(s, e)
    ensures Smooth(LogicDo(s, e))
  {}

  lemma ConnSmooth(s: State, c: Conn, e: ConnEvent)
    requires Smooth(s) && ConnCan(s, c, e)
    ensures Smooth(ConnDo(s, c, e))
  {
    hide Ids;
  }

  lemma JobSmooth(s: State, e: JobEvent)
    requires Inv(s) && Smooth(s) && JobCan(s, e) && !e.Fail?
    ensures Smooth(JobDo(s, e))
  {
    hide TopicsExist, ListedFirst, SessionsFit, Covered, ListsFit, PlaceFits;
  }

  lemma RpcSmooth(s: State, id: Rpc, e: RpcEvent)
    requires Smooth(s) && RpcCan(s, id, e)
    ensures Smooth(RpcDo(s, id, e))
  {
    hide TopicsAfter, ListAfter, LogAfter, LockAfter, LoopedAfter, SnapsAfter, EachOnce;
  }

  /** In such a run, only the current call takes steps. */
  lemma OnlyCurrentRuns(s: State, id: Rpc, e: RpcEvent)
    requires Inv(s) && Smooth(s) && RpcCan(s, id, e)
    ensures id == Current(s) && s.job.calling
  {
    hide TopicsExist, ListedFirst, SessionsFit, Covered, ListsFit, PlaceFits, EachOnce;
  }

  // ---- the invariant for one user ----------------------------------------

  /** One user on one connection, subscribed to some rooms; entries from `from` on count. */
  datatype Watch = Watch(user: User, conn: Conn, rooms: set<RoomId>, from: nat)

  /** The next entry whose call has not begun. */
  function NextCall(job: Job): nat { if job.calling then job.pos + 1 else job.pos }

  /** Registered on the connection and subscribed to the rooms. */
  ghost predicate Here(s: State, w: Watch) {
    && w.user in s.online && s.online[w.user] == w.conn
    && forall r :: r in w.rooms ==> r in s.topics && w.user in s.topics[r].users
  }

  ghost predicate Present(s: State, w: Watch) { Here(s, w) && w.from <= NextCall(s.job) }

  /** The current entry, when it counts and the user has been sent to. */
  function InProgress(s: State, w: Watch): seq<string> {
    if s.job.calling && w.from <= s.job.pos < |s.kafka| && Current(s) in s.handlers
       && Wanted(s.kafka[s.job.pos], w.rooms) && Done(s.handlers[Current(s)].at, w.user)
    then [s.kafka[s.job.pos].body] else []
  }

  /** A looked-up connection of the watched user is the watched one. */
  ghost predicate HoldsRight(s: State, w: Watch) {
    s.job.calling && w.from <= s.job.pos && Current(s) in s.handlers && s.handlers[Current(s)].at.Holding? ==>
      (s.handlers[Current(s)].at.user == w.user ==> s.handlers[Current(s)].at.conn == w.conn)
  }

  ghost predicate InStep(s: State, w: Watch) {
    && s.job.pos <= |s.kafka| && HoldsRight(s, w)
    && Received(s.log, w.conn, s.kafka, w.from, w.rooms) ==
       Expected(s.kafka, w.from, s.job.pos, w.rooms) + InProgress(s, w)
  }

  // ---- entries and deliveries --------------------------------------------

  lemma {:induction false} ExpectedStable(kafka: seq<Entry>, x: Entry, from: nat, end: nat, rooms: set<RoomId>)
    requires end <= |kafka|
    ensures Expected(kafka + [x], from, end, rooms) == Expected(kafka, from, end, rooms)
    decreases end
  {
    if from < end { ExpectedStable(kafka, x, from, end - 1, rooms); }
  }

  lemma {:induction false} ReceivedStable(log: seq<Delivery>, c: Conn, kafka: seq<Entry>, x: Entry, from: nat,
                                          rooms: set<RoomId>)
    requires forall i :: 0 <= i < |log| ==> log[i].rpc.entry < |kafka|
    ensures Received(log, c, kafka + [x], from, rooms) == Received(log, c, kafka, from, rooms)
    decreases |log|
  {
    if log == [] {
    } else {
      ReceivedStable(log[..|log| - 1], c, kafka, x, from, rooms);
    }
  }

  lemma ReceivedOne(log: seq<Delivery>, d: Delivery, c: Conn, kafka: seq<Entry>, from: nat, rooms: set<RoomId>)
    ensures Received(log + [d], c, kafka, from, rooms) ==
      if Counts(d, c, kafka, from, rooms) then Received(log, c, kafka, from, rooms) + [d.body]
      else Received(log, c, kafka, from, rooms)
  {
    hide Counts;
    assert (log + [d])[..|log|] == log;
  }

  /** Of a broadcast to everyone, the connection gets its one frame. */
  lemma {:induction false} ReceivedAll(log: seq<Delivery>, ds: seq<Delivery>, k: int, c: Conn, kafka: seq<Entry>,
                                       from: nat, rooms: set<RoomId>)
    requires -1 <= k < |ds|
    requires forall i :: 0 <= i < |ds| && i != k ==> !Counts(ds[i], c, kafka, from, rooms)
    requires k >= 0 ==> Counts(ds[k], c, kafka, from, rooms)
    ensures Received(log + ds, c, kafka, from, rooms) ==
      if k >= 0 then Received(log, c, kafka, from, rooms) + [ds[k].body] else Received(log, c, kafka, from, rooms)
    decreases |ds|
  {
    hide Counts, Received;
    if ds == [] {
      assert log + ds == log;
    } else {
      var n := |ds| - 1;
      ReceivedAll(log, ds[..n], if k == n then -1 else k, c, kafka, from, rooms);
      assert log + ds == (log + ds[..n]) + [ds[n]];
      ReceivedOne(log + ds[..n], ds[n], c, kafka, from, rooms);
    }
  }

  // ---- the steps ---------------------------------------------------------

  lemma LogicKeepsStep(s: State, e: LogicEvent, w: Watch)
    requires Inv(s) && Isolated(s) && InStep(s, w) && LogicCan(s, e)
    ensures InStep(LogicDo(s, e), w)
  {
    LoggedEntries(s);
    var t := LogicDo(s, e);
    LogicFrame(s, e);
    hide Inv, Isolated, LogicDo, LogicCan, Expected, Received, Wanted, Done;
    if t.kafka != s.kafka {
      var x := t.kafka[|s.kafka|];
      ExpectedStable(s.kafka, x, w.from, s.job.pos, w.rooms);
      ReceivedStable(s.log, w.conn, s.kafka, x, w.from, w.rooms);
    }
  }

  lemma LoggedEntries(s: State)
    requires Inv(s) && Isolated(s)
    ensures forall i :: 0 <= i < |s.log| ==> s.log[i].rpc.entry < |s.kafka|
    ensures s.job.calling && Current(s) in s.handlers ==> s.job.pos < |s.kafka|
  {
    hide TopicsExist, ListedFirst, SessionsFit, Covered, ListsFit, Made, PlaceFits, OncePerCall, SnapFits;
    hide SnapSubscribed;
    forall i | 0 <= i < |s.log| ensures s.log[i].rpc.entry < |s.kafka| { assert Rightful(s, s.log[i]); }
  }

  lemma LogicFrame(s: State, e: LogicEvent)
    requires LogicCan(s, e)
    ensures
      var t := LogicDo(s, e);
      && t.job == s.job && t.handlers == s.handlers && t.log == s.log
      && (t.kafka == s.kafka || (|t.kafka| == |s.kafka| + 1 && t.kafka == s.kafka + [t.kafka[|s.kafka|]]))
  {}

  lemma JobKeepsStep(s: State, e: JobEvent, w: Watch)
    requires Inv(s) && Smooth(s) && InStep(s, w) && JobCan(s, e) && !e.Fail? && w.from <= NextCall(s.job)
    ensures InStep(JobDo(s, e), w)
  {
    hide TopicsExist, ListedFirst, SessionsFit, Covered, ListsFit, PlaceFits, Received, Wanted;
    var t := JobDo(s, e);
    if e.Return? {
      assert Done(s.handlers[Current(s)].at, w.user);
    } else {
      assert Current(t) in t.handlers && e.arrives ==> !Done(t.handlers[Current(t)].at, w.user);
      assert Current(s) !in s.handlers;
    }
  }

  lemma ConnKeepsStep(s: State, c: Conn, e: ConnEvent, w: Watch)
    requires InStep(s, w) && ConnCan(s, c, e)
    ensures InStep(ConnDo(s, c, e), w)
  {
    hide Received, Expected, Ids, Wanted, Done;
  }

  lemma RpcKeepsStep(s: State, id: Rpc, e: RpcEvent, w: Watch)
    requires Inv(s) && Isolated(s) && Smooth(s) && InStep(s, w) && Present(s, w) && RpcCan(s, id, e)
    ensures InStep(RpcDo(s, id, e), w)
  {
    OnlyCurrentRuns(s, id, e);
    RpcHoldsRight(s, id, e, w);
    if e.SendAll? {
      SendAllStep(s, id, e.order, w);
    } else if e.Send? {
      SendStep(s, id, w);
    } else {
      QuietStep(s, id, e, w);
    }
  }

  lemma RpcHoldsRight(s: State, id: Rpc, e: RpcEvent, w: Watch)
    requires RpcCan(s, id, e) && id == Current(s) && HoldsRight(s, w) && Present(s, w)
    ensures HoldsRight(RpcDo(s, id, e), w)
  {
    hide TopicsAfter, ListAfter, LogAfter, LockAfter, LoopedAfter, SnapsAfter, EachOnce;
  }

  /** A step that sends nothing does not change whether the user has been sent to. */
  lemma QuietStep(s: State, id: Rpc, e: RpcEvent, w: Watch)
    requires Inv(s) && Smooth(s) && InStep(s, w) && Present(s, w) && RpcCan(s, id, e)
    requires id == Current(s) && s.job.calling && !e.SendAll? && !e.Send?
    requires HoldsRight(RpcDo(s, id, e), w)
    ensures InStep(RpcDo(s, id, e), w)
  {
    var t := RpcDo(s, id, e);
    if Wanted(s.kafka[s.job.pos], w.rooms) {
      QuietDone(s, id, e, w);
    }
    hide Inv, Smooth, TopicsAfter, ListAfter, LockAfter, LoopedAfter, SnapsAfter, PlaceAfter, EachOnce, Expected;
    hide Received, HoldsRight, Wanted;
  }

  lemma QuietDone(s: State, id: Rpc, e: RpcEvent, w: Watch)
    requires Inv(s) && Here(s, w) && RpcCan(s, id, e) && !e.SendAll? && !e.Send?
    requires id.entry < |s.kafka| && Wanted(s.kafka[id.entry], w.rooms)
    ensures Done(PlaceAfter(s, s.handlers[id], e), w.user) == Done(s.handlers[id].at, w.user)
  {
    hide TopicsExist, ListedFirst, SessionsFit, Covered, ListsFit, Made, EachOnce;
    assert s.handlers[id].entry == s.kafka[id.entry] && PlaceFits(s.handlers[id].entry, s.handlers[id].at);
  }

  lemma SendStep(s: State, id: Rpc, w: Watch)
    requires Inv(s) && Isolated(s) && Smooth(s) && InStep(s, w) && Present(s, w) && RpcCan(s, id, Send)
    requires id == Current(s) && s.job.calling && HoldsRight(RpcDo(s, id, Send), w)
    ensures InStep(RpcDo(s, id, Send), w)
  {
    SentReceived(s, id, w);
    SentProgress(s, id, w);
    SameLine(s, id, Send);
    hide Inv, Isolated, Smooth, RpcDo, RpcCan, InProgress, Expected, Received, Wanted, HoldsRight;
  }

  lemma SameLine(s: State, id: Rpc, e: RpcEvent)
    requires RpcCan(s, id, e)
    ensures var t := RpcDo(s, id, e); t.kafka == s.kafka && t.job == s.job
  {
    hide PlaceAfter, TopicsAfter, ListAfter, LogAfter, LockAfter, LoopedAfter, SnapsAfter, EachOnce;
  }

  lemma SentProgress(s: State, id: Rpc, w: Watch)
    requires Inv(s) && Isolated(s) && RpcCan(s, id, Send) && id == Current(s) && s.job.calling
    ensures
      var h := s.handlers[id];
      InProgress(RpcDo(s, id, Send), w) ==
      if w.from <= id.entry < |s.kafka| && Wanted(s.kafka[id.entry], w.rooms) && h.at.user == w.user then [h.entry.body]
      else InProgress(s, w)
    ensures s.handlers[id].at.user == w.user ==> InProgress(s, w) == []
  {
    hide Inv, Isolated, TopicsAfter, ListAfter, LogAfter, LockAfter, LoopedAfter, SnapsAfter, Wanted;
    IsolatedSnap(s, id);
    HandlerEntry(s, id);
  }

  lemma IsolatedSnap(s: State, id: Rpc)
    requires Isolated(s) && id in s.handlers
    ensures SnapFits(s, id)
  {
    hide SnapFits, SnapSubscribed, Rightful, OncePerCall;
  }

  lemma HandlerEntry(s: State, id: Rpc)
    requires Inv(s) && id in s.handlers
    ensures id.entry < |s.kafka| && s.handlers[id].entry == s.kafka[id.entry]
  {
    hide TopicsExist, ListedFirst, SessionsFit, Covered, ListsFit, PlaceFits, Made;
  }

  /** The one frame of a Send counts when it is for the watched user. */
  lemma SentReceived(s: State, id: Rpc, w: Watch)
    requires Inv(s) && Isolated(s) && Present(s, w) && RpcCan(s, id, Send)
    requires id == Current(s) && s.job.calling && HoldsRight(s, w)
    ensures
      var h, old_ := s.handlers[id], Received(s.log, w.conn, s.kafka, w.from, w.rooms);
      Received(RpcDo(s, id, Send).log, w.conn, s.kafka, w.from, w.rooms) ==
      if w.from <= id.entry < |s.kafka| && Wanted(s.kafka[id.entry], w.rooms)
        && h.at.user == w.user then old_ + [h.entry.body]
      else old_
  {
    var h := s.handlers[id];
    assert SnapFits(s, id);
    assert s.sessions[w.conn].user == w.user by { hide HandlersFit, TopicsExist, ListedFirst, Covered, ListsFit; }
    hide Inv, Isolated, TopicsAfter, ListAfter, LockAfter, LoopedAfter, SnapsAfter, PlaceAfter, Received, Wanted;
    ReceivedOne(s.log, Delivery(id, h.at.user, h.at.conn, h.entry.body), w.conn, s.kafka, w.from, w.rooms);
  }

  lemma SendAllStep(s: State, id: Rpc, order: seq<User>, w: Watch)
    requires Inv(s) && Smooth(s) && InStep(s, w) && Present(s, w) && RpcCan(s, id, SendAll(order))
    requires id == Current(s) && s.job.calling && HoldsRight(RpcDo(s, id, SendAll(order)), w)
    ensures InStep(RpcDo(s, id, SendAll(order)), w)
  {
    AllReceived(s, id, order, w);
    AllProgress(s, id, order, w);
    SameLine(s, id, SendAll(order));
    hide Inv, Smooth, RpcDo, RpcCan, InProgress, Expected, Received, Wanted, HoldsRight;
  }

  lemma AllProgress(s: State, id: Rpc, order: seq<User>, w: Watch)
    requires Inv(s) && RpcCan(s, id, SendAll(order)) && id == Current(s) && s.job.calling
    ensures InProgress(s, w) == []
    ensures InProgress(RpcDo(s, id, SendAll(order)),
        w) == if w.from <= id.entry then [s.handlers[id].entry.body] else []
  {
    var h := s.handlers[id];
    assert h.entry == s.kafka[id.entry] && id.entry < |s.kafka| && PlaceFits(h.entry, h.at);
    hide Inv, TopicsAfter, ListAfter, LogAfter, LockAfter, LoopedAfter, SnapsAfter, EachOnce;
  }

  lemma AllReceived(s: State, id: Rpc, order: seq<User>, w: Watch)
    requires Inv(s) && Present(s, w) && RpcCan(s, id, SendAll(order))
    ensures
      var h, old_ := s.handlers[id], Received(s.log, w.conn, s.kafka, w.from, w.rooms);
      && h.entry.RoomCreated?
      && Received(RpcDo(s, id, SendAll(order)).log, w.conn, s.kafka, w.from, w.rooms) ==
         if w.from <= id.entry then old_ + [h.entry.body] else old_
  {
    var h := s.handlers[id];
    assert h.entry == s.kafka[id.entry] && PlaceFits(h.entry, h.at);
    assert SessionsFit(s) && id.entry < |s.kafka|;
    hide Inv, HandlersFit, TopicsAfter, ListAfter, LockAfter, LoopedAfter, SnapsAfter, PlaceAfter, Received;
    var ds := SentToAll(id, order, s.online, h.entry.body);
    assert w.user in order;
    var k :| 0 <= k < |order| && order[k] == w.user;
    forall i | 0 <= i < |ds| && i != k ensures ds[i].conn != w.conn {
      assert order[i] in s.online && s.sessions[s.online[order[i]]].user == order[i] && order[i] != w.user;
    }
    ReceivedAll(s.log, ds, if w.from <= id.entry then k else -1, w.conn, s.kafka, w.from, w.rooms);
  }

  // ---- whole runs --------------------------------------------------------

  lemma StepKeepsOrder(s: State, e: Event, w: Watch)
    requires Inv(s) && Isolated(s) && Smooth(s) && InStep(s, w) && Present(s, w) && Can(s, e) && e != OfJob(Fail)
    ensures InStep(Do(s, e), w)
  {
    hide Inv, Isolated, Smooth, InStep, LogicDo, JobDo, RpcDo, ConnDo, LogicCan, JobCan, RpcCan, ConnCan;
    match e
    case OfLogic(l) => LogicKeepsStep(s, l, w);
    case OfJob(j) => JobKeepsStep(s, j, w);
    case OfRpc(id, r) => RpcKeepsStep(s, id, r, w);
    case OfConn(c, a) => ConnKeepsStep(s, c, a, w);
  }

  /** Once subscribed, a user stays subscribed; the job only goes forward. */
  lemma StaysPresent(s: State, e: Event, w: Watch)
    requires Present(s, w) && Can(s, e) && e != OfJob(Fail)
    requires w.user in Do(s, e).online && Do(s, e).online[w.user] == w.conn
    ensures Present(Do(s, e), w)
  {
    StepIsLater(s, e);
    JobGoesOn(s, e);
    hide Can, Do;
  }

  lemma JobGoesOn(s: State, e: Event)
    requires Can(s, e) && e != OfJob(Fail)
    ensures NextCall(s.job) <= NextCall(Do(s, e).job)
  {
    hide LogicDo, RpcDo, ConnDo, LogicCan, RpcCan, ConnCan;
    match e
    case OfLogic(l) => LogicGoesOn(s, l);
    case OfJob(j) =>
    case OfRpc(id, r) => SameLine(s, id, r);
    case OfConn(c, a) => ConnGoesOn(s, c, a);
  }

  lemma LogicGoesOn(s: State, e: LogicEvent)
    requires LogicCan(s, e)
    ensures LogicDo(s, e).job == s.job
  {}

  lemma ConnGoesOn(s: State, c: Conn, e: ConnEvent)
    requires ConnCan(s, c, e)
    ensures ConnDo(s, c, e).job == s.job
  {
    hide Ids;
  }

  lemma {:induction false} SmoothAlways(s: State, es: seq<Event>)
    requires Start(s) && After(s, es).Some? && NoFailure(es)
    ensures Smooth(After(s, es).value)
    decreases |es|
  {
    hide Inv, Smooth, Can, Do, Start;
    if es == [] {
      SmoothStarts(s);
    } else {
      var init := es[..|es| - 1];
      NoFailureBefore(es, |es| - 1);
      SmoothAlways(s, init);
      InvAlways(s, init);
      SmoothKept(After(s, init).value, es[|es| - 1]);
    }
  }

  /** Nothing at or after the next call has been received before it begins. */
  lemma {:induction false} NothingYet(log: seq<Delivery>, c: Conn, kafka: seq<Entry>, from: nat, rooms: set<RoomId>)
    requires forall i :: 0 <= i < |log| ==> log[i].rpc.entry < from
    ensures Received(log, c, kafka, from, rooms) == []
    decreases |log|
  {
    if log == [] {
    } else {
      NothingYet(log[..|log| - 1], c, kafka, from, rooms);
    }
  }

  lemma OrderStarts(s: State, w: Watch)
    requires Inv(s) && Isolated(s) && Smooth(s) && w.from == NextCall(s.job)
    ensures InStep(s, w)
  {
    forall i | 0 <= i < |s.log| ensures s.log[i].rpc.entry < w.from {
      assert Rightful(s, s.log[i]);
      assert Made(s.log[i].rpc, s.job);
    }
    hide Inv, Isolated, Received;
    NothingYet(s.log, w.conn, s.kafka, w.from, w.rooms);
  }

  /** The user's entry in the connection map is `w.conn` from the end of `before` on. */
  ghost predicate RegisteredThroughout(s: State, before: seq<Event>, es: seq<Event>, w: Watch) {
    forall k :: 0 <= k <= |es| ==> RegisteredAt(After(s, before + es[..k]), w)
  }

  predicate RegisteredAt(s: Option<State>, w: Watch) {
    s.Some? && w.user in s.value.online && s.value.online[w.user] == w.conn
  }

  lemma {:induction false} OrderAlways(s: State, before: seq<Event>, es: seq<Event>, w: Watch)
    requires Start(s) && NoFailure(before + es) && RegisteredThroughout(s, before, es, w)
    requires After(s, before).Some? && Present(After(s, before).value, w)
    requires w.from == NextCall(After(s, before).value.job)
    ensures After(s, before + es).Some? && Present(After(s, before + es).value, w)
      && InStep(After(s, before + es).value, w)
    decreases |es|
  {
    hide Inv, Isolated, Smooth, InStep, Present, Can, Do, Start;
    NoFailureBefore(before + es, |before|);
    assert (before + es)[..|before|] == before;
    if es == [] {
      assert before + es == before;
      InvAlways(s, before);
      IsolatedAlways(s, before);
      SmoothAlways(s, before);
      OrderStarts(After(s, before).value, w);
    } else {
      var n := |es| - 1;
      var run := before + es[..n];
      assert RegisteredThroughout(s, before, es[..n], w) by {
        forall k | 0 <= k <= n ensures RegisteredAt(After(s, before + es[..n][..k]), w) {
          assert es[..n][..k] == es[..k];
        }
      }
      var full := before + es;
      assert full[..|full| - 1] == run && full[|full| - 1] == es[n];
      NoFailureBefore(full, |full| - 1);
      OrderAlways(s, before, es[..n], w);
      assert es[..|es|] == es;
      assert RegisteredAt(After(s, before + es[..|es|]), w);
      var t := After(s, run).value;
      InvAlways(s, run);
      IsolatedAlways(s, run);
      SmoothAlways(s, run);
      StepKeepsOrder(t, es[n], w);
      StaysPresent(t, es[n], w);
    }
  }

  lemma ExpectedMore(kafka: seq<Entry>, x: Entry, from: nat, rooms: set<RoomId>)
    requires from <= |kafka|
    ensures Expected(kafka + [x], from, |kafka| + 1, rooms) ==
      Expected(kafka, from, |kafka|, rooms) + if Wanted(x, rooms) then [x.body] else []
  {
    hide Wanted;
    ExpectedStable(kafka, x, from, |kafka|, rooms);
  }

  /** What Kafka received since some time is what was sent since then. */
  lemma {:induction false} ExpectedIsSent(kafka: seq<Entry>, es: seq<Event>, rooms: set<RoomId>)
    ensures
      var all := kafka + Published(es);
      Expected(all, |kafka|, |all|, rooms) == SentTo(es, rooms)
    decreases |es|
  {
    if es == [] {
    } else {
      var init, e := es[..|es| - 1], es[|es| - 1];
      var all := kafka + Published(init);
      ExpectedIsSent(kafka, init, rooms);
      hide Expected, Published, SentTo;
      PublishedSent(es, rooms);
      var new_ := PublishedBy(e);
      if new_ == [] {
        assert kafka + Published(es) == all;
      } else {
        assert kafka + Published(es) == all + [new_[0]];
        ExpectedMore(all, new_[0], |kafka|, rooms);
      }
    }
  }

  lemma PublishedSent(es: seq<Event>, rooms: set<RoomId>)
    requires es != []
    ensures
      var init, new_ := es[..|es| - 1], PublishedBy(es[|es| - 1]);
      && Published(es) == Published(init) + new_ && |new_| <= 1
      && SentTo(es, rooms) == SentTo(init, rooms) + if new_ != [] && Wanted(new_[0], rooms) then [new_[0].body] else []
  {}

  /** Kafka at the two ends of the second part of a run. */
  lemma KafkaBetween(s: State, before: seq<Event>, es: seq<Event>, rooms: set<RoomId>)
    requires After(s, before).Some? && After(s, before + es).Some?
    ensures
      var k, all := After(s, before).value.kafka, After(s, before + es).value.kafka;
      && all == s.kafka + Published(before + es) == k + Published(es)
      && Expected(all, |k|, |all|, rooms) == SentTo(es, rooms)
  {
    hide After, Expected, Published, SentTo;
    KafkaIsPublished(s, before);
    KafkaIsPublished(s, before + es);
    PublishedConcat(before, es);
    ExpectedIsSent(After(s, before).value.kafka, es, rooms);
  }

  /** With no failed call, a user who stays registered on one connection and is subscribed to some
      rooms receives, on that connection, the announcements and the messages of those rooms
      exactly once each and in Kafka order: whenever the job is between two entries, what was
      received is what Kafka held from the first call after `before` on.  Kafka holds what was sent
      and published; with the job caught up at both ends, what was received is the texts sent to the
      rooms and announced in between. */
  lemma ExactlyOnceInOrder(s: State, before: seq<Event>, es: seq<Event>, w: Watch)
    requires Start(s) && NoFailure(before + es) && RegisteredThroughout(s, before, es, w)
    requires After(s, before).Some? && Present(After(s, before).value, w)
    requires w.from == NextCall(After(s, before).value.job)
    ensures
      var t := After(s, before + es);
      t.Some? && t.value.kafka == s.kafka + Published(before + es) && (!t.value.job.calling ==>
        && t.value.job.pos <= |t.value.kafka|
        && Received(t.value.log, w.conn, t.value.kafka, w.from, w.rooms) ==
           Expected(t.value.kafka, w.from, t.value.job.pos, w.rooms)
        && (w.from == |After(s, before).value.kafka| && t.value.job.pos == |t.value.kafka| ==>
              Received(t.value.log, w.conn, t.value.kafka, w.from, w.rooms) == SentTo(es, w.rooms)))
  {
    hide After, Received, Expected, Start, Present, Published, SentTo;
    OrderAlways(s, before, es, w);
    KafkaBetween(s, before, es, w.rooms);
  }

  /** From the end of its hello on, a user who stays registered misses nothing: with no failed call
      it receives every announcement and every message of every start-up room and of every room
      whose subscription loop had finished, exactly once each and in Kafka order. */
  lemma WelcomeReceivesAll(s: State, before: seq<Event>, es: seq<Event>, u: User, c: Conn)
    requires Start(s) && NoFailure(before + es) && After(s, before).Some?
    requires
      var t := After(s, before).value;
      u in t.online && t.online[u] == c && c in t.sessions && t.sessions[c].hello.Welcome?
    requires RegisteredThroughout(s, before, es, WatchAll(After(s, before).value, u, c))
    ensures
      var w := WatchAll(After(s, before).value, u, c);
      var t := After(s, before + es);
      t.Some? && t.value.kafka == s.kafka + Published(before + es) && (!t.value.job.calling ==>
        && t.value.job.pos <= |t.value.kafka|
        && Received(t.value.log, c, t.value.kafka, w.from, w.rooms) ==
           Expected(t.value.kafka, w.from, t.value.job.pos, w.rooms)
        && (w.from == |After(s, before).value.kafka| && t.value.job.pos == |t.value.kafka| ==>
              Received(t.value.log, c, t.value.kafka, w.from, w.rooms) == SentTo(es, w.rooms)))
  {
    var t := After(s, before).value;
    var w := WatchAll(t, u, c);
    forall r | r in w.rooms ensures r in t.topics && u in t.topics[r].users {
      NoMissedSubscription(s, before, u, r);
    }
    hide After, Start, Received, Expected, RegisteredThroughout, Published, SentTo;
    ExactlyOnceInOrder(s, before, es, w);
  }

  /** A user on a connection, with all rooms there are for it, from the next call on. */
  function WatchAll(t: State, u: User, c: Conn): Watch { Watch(u, c, t.startup + t.looped, NextCall(t.job)) }
}

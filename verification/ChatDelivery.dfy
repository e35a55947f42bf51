/** Who receives what, and in which order, over whole runs. */
module ChatDelivery {
  import opened Wrappers
  import opened Topics
  import opened ChatProtocol
  import opened ChatInvariants

  // ---- room isolation ----------------------------------------------------

  /** The user has been dealt with by the handler: sent to, or found to be offline. */
  predicate Done(at: Place, u: User) {
    match at
    case Returned => true
    case Sending(todo) => u !in todo
    case Holding(todo, user, _) => u !in todo && u != user
    case _ => false
  }

  /** A running BroadcastRoom works through the subscribers it copied. */
  predicate AtFits(at: Place, snap: Option<set<User>>, sessions: map<Conn, Session>) {
    match at
    case Sending(todo) => snap.Some? && todo <= snap.value
    case Holding(todo, user, conn) =>
      && snap.Some? && todo <= snap.value && user in snap.value && user !in todo
      && conn in sessions && sessions[conn].user == user
    case _ => true
  }

  function SnapOf(s: State, id: Rpc): Option<set<User>> { if id in s.snaps then Some(s.snaps[id]) else None }

  ghost predicate SnapFits(s: State, id: Rpc)
    requires id in s.handlers
  {
    AtFits(s.handlers[id].at, SnapOf(s, id), s.sessions)
  }

  /** What was copied were subscribers of the room, and still are. */
  ghost predicate SnapSubscribed(s: State, id: Rpc)
    requires id in s.snaps
  {
    && id in s.handlers && s.handlers[id].entry.RoomMessage? && s.handlers[id].entry.roomId in s.topics
    && s.snaps[id] <= s.topics[s.handlers[id].entry.roomId].users
    && !s.handlers[id].at.SnapshotNext?
  }

  ghost predicate Rightful(s: State, d: Delivery) {
    && d.rpc in s.handlers && d.body == s.handlers[d.rpc].entry.body
    && d.conn in s.sessions && s.sessions[d.conn].user == d.user
    && Done(s.handlers[d.rpc].at, d.user)
    && (s.handlers[d.rpc].entry.RoomMessage? ==> d.rpc in s.snaps && d.user in s.snaps[d.rpc])
  }

  ghost predicate OncePerCall(log: seq<Delivery>) {
    forall i, j :: 0 <= i < j < |log| ==> !(log[i].rpc == log[j].rpc && log[i].user == log[j].user)
  }

  ghost predicate Isolated(s: State) {
    && (forall id :: id in s.handlers ==> SnapFits(s, id))
    && (forall id :: id in s.snaps ==> SnapSubscribed(s, id))
    && (forall i :: 0 <= i < |s.log| ==> Rightful(s, s.log[i]))
    && OncePerCall(s.log)
  }

  lemma IsolatedStarts(s: State)
    requires Start(s)
    ensures Isolated(s)
  {}

  /** Steps that leave handlers, sessions' users, snapshots and the log alone. */
  ghost predicate Undisturbed(s: State, t: State) {
    && t.handlers == s.handlers && t.snaps == s.snaps && t.log == s.log && Grew(s.topics, t.topics)
    && forall c :: c in s.sessions ==> c in t.sessions && t.sessions[c].user == s.sessions[c].user
  }

  lemma UndisturbedKeeps(s: State, t: State)
    requires Isolated(s) && Undisturbed(s, t)
    ensures Isolated(t)
  {
    forall id | id in t.handlers ensures SnapFits(t, id) { assert SnapFits(s, id); }
    forall id | id in t.snaps ensures SnapSubscribed(t, id) { assert SnapSubscribed(s, id); }
    forall i | 0 <= i < |t.log| ensures Rightful(t, t.log[i]) { assert Rightful(s, s.log[i]); }
  }

  lemma LogicUndisturbing(s: State, e: LogicEvent)
    requires LogicCan(s, e)
    ensures Undisturbed(s, LogicDo(s, e))
  {}

  lemma ConnUndisturbing(s: State, c: Conn, e: ConnEvent)
    requires ConnCan(s, c, e)
    ensures Undisturbed(s, ConnDo(s, c, e))
  {
    hide Ids;
  }

  lemma CallIsNew(s: State)
    requires Inv(s) && !s.job.calling
    ensures Current(s) !in s.handlers
  {
    hide TopicsExist, ListedFirst, SessionsFit, Covered, ListsFit, PlaceFits;
  }

  lemma CallKeepsIsolated(s: State, e: JobEvent)
    requires Inv(s) && Isolated(s) && JobCan(s, e)
    ensures Isolated(JobDo(s, e))
  {
    var t := JobDo(s, e);
    JobFrame(s, e);
    hide Inv, JobDo, JobCan, OncePerCall, Done;
    forall id | id in t.handlers ensures SnapFits(t, id) {
      if id in s.handlers { assert SnapFits(s, id); }
    }
    forall id | id in t.snaps ensures SnapSubscribed(t, id) { assert SnapSubscribed(s, id); }
    forall i | 0 <= i < |t.log| ensures Rightful(t, t.log[i]) { assert Rightful(s, s.log[i]); }
  }

  /** The job only adds a handler that is at its beginning. */
  lemma JobFrame(s: State, e: JobEvent)
    requires Inv(s) && JobCan(s, e)
    ensures
      var t := JobDo(s, e);
      && t.snaps == s.snaps && t.log == s.log && t.sessions == s.sessions && t.topics == s.topics
      && (forall id :: id in s.handlers ==> id in t.handlers && t.handlers[id] == s.handlers[id])
      && (forall id :: id in t.handlers && id !in s.handlers ==>
            t.handlers[id].at.TopicNext? || t.handlers[id].at.SnapshotNext?)
  {
    if e.Call? { CallIsNew(s); }
    hide Inv;
  }

  lemma RpcKeepsIsolated(s: State, id: Rpc, e: RpcEvent)
    requires Inv(s) && Isolated(s) && RpcCan(s, id, e)
    ensures Isolated(RpcDo(s, id, e))
  {
    RpcKeepsSnaps(s, id, e);
    RpcKeepsRightful(s, id, e);
    RpcKeepsOnce(s, id, e);
    hide Inv, RpcDo, RpcCan, SnapFits, SnapSubscribed, Rightful, OncePerCall;
  }

  lemma RpcKeepsSnaps(s: State, id: Rpc, e: RpcEvent)
    requires Inv(s) && Isolated(s) && RpcCan(s, id, e)
    ensures
      var t := RpcDo(s, id, e);
      && (forall k :: k in t.handlers ==> SnapFits(t, k))
      && (forall k :: k in t.snaps ==> SnapSubscribed(t, k))
  {
    var t := RpcDo(s, id, e);
    forall k | k in t.handlers ensures SnapFits(t, k) {
      if k == id { OwnSnapFits(s, id, e); } else { OtherSnapFits(s, id, e, k); }
    }
    forall k | k in t.snaps ensures SnapSubscribed(t, k) { StillSubscribed(s, id, e, k); }
    hide RpcDo, Isolated, Inv, RpcCan, SnapFits, SnapSubscribed;
  }

  lemma OwnSnapFits(s: State, id: Rpc, e: RpcEvent)
    requires Inv(s) && Isolated(s) && RpcCan(s, id, e)
    ensures SnapFits(RpcDo(s, id, e), id)
  {
    assert SnapFits(s, id);
    SnapAfter(s, id, e);
    assert SessionsFit(s) by { hide HandlersFit, TopicsExist, ListedFirst, Covered, ListsFit; }
    PlaceStaysFit(s, id, e);
    hide Isolated, Inv, SessionsFit, PlaceAfter, SnapsAfter, TopicsAfter, ListAfter, LogAfter, LoopedAfter;
    hide LockAfter, EachOnce, AtFits, RpcCan;
  }

  lemma SnapAfter(s: State, id: Rpc, e: RpcEvent)
    requires RpcCan(s, id, e)
    ensures SnapOf(RpcDo(s, id, e), id) ==
      if e.TakeSnapshot? && Subscribers(s, s.handlers[id]).Some? then Subscribers(s, s.handlers[id]) else SnapOf(s, id)
  {
    hide PlaceAfter, TopicsAfter, ListAfter, LogAfter, LoopedAfter, LockAfter, EachOnce, Subscribers;
  }

  lemma PlaceStaysFit(s: State, id: Rpc, e: RpcEvent)
    requires SessionsFit(s) && RpcCan(s, id, e) && AtFits(s.handlers[id].at, SnapOf(s, id), s.sessions)
    ensures AtFits(PlaceAfter(s, s.handlers[id], e),
                   if e.TakeSnapshot? && Subscribers(s, s.handlers[id]).Some? then Subscribers(s,
                       s.handlers[id]) else SnapOf(s, id),
                   s.sessions)
  {
    hide EachOnce, Subscribers, SnapOf;
  }

  lemma OtherSnapFits(s: State, id: Rpc, e: RpcEvent, k: Rpc)
    requires Isolated(s) && RpcCan(s, id, e) && k != id && k in s.handlers
    ensures SnapFits(RpcDo(s, id, e), k)
  {
    assert SnapFits(s, k);
    hide TopicsAfter, ListAfter, LogAfter, LoopedAfter, LockAfter, PlaceAfter, EachOnce, Isolated;
  }

  lemma StillSubscribed(s: State, id: Rpc, e: RpcEvent, k: Rpc)
    requires Inv(s) && Isolated(s) && RpcCan(s, id, e) && k in RpcDo(s, id, e).snaps
    ensures SnapSubscribed(RpcDo(s, id, e), k)
  {
    hide Inv, SnapFits, Rightful, OncePerCall;
    RpcGrows(s, id, e);
    LeavesSnapshot(s, id, e);
    if k in s.snaps { assert SnapSubscribed(s, k); }
    hide PlaceAfter, TopicsAfter, ListAfter, LogAfter, LoopedAfter, LockAfter, EachOnce, Isolated;
  }

  lemma LeavesSnapshot(s: State, id: Rpc, e: RpcEvent)
    requires RpcCan(s, id, e)
    ensures !PlaceAfter(s, s.handlers[id], e).SnapshotNext?
  {
    hide Subscribers, EachOnce;
  }

  /** Once done with a user, a handler stays so. */
  lemma DoneStays(s: State, id: Rpc, e: RpcEvent, u: User)
    requires RpcCan(s, id, e) && Done(s.handlers[id].at, u)
    ensures Done(PlaceAfter(s, s.handlers[id], e), u)
  {}

  lemma RpcKeepsRightful(s: State, id: Rpc, e: RpcEvent)
    requires Inv(s) && Isolated(s) && RpcCan(s, id, e)
    ensures var t := RpcDo(s, id, e); forall i :: 0 <= i < |t.log| ==> Rightful(t, t.log[i])
  {
    var t := RpcDo(s, id, e);
    forall i | 0 <= i < |s.log| ensures Rightful(t, s.log[i]) { OldRightful(s, id, e, s.log[i]); }
    if e.Send? {
      assert SnapFits(s, id);
      SendRightful(s, id);
    } else if e.SendAll? {
      forall i | 0 <= i < |e.order| ensures Rightful(t, SentToAll(id, e.order, s.online,
          s.handlers[id].entry.body)[i]) {
        SendAllRightful(s, id, e.order, i);
      }
    }
    hide Inv, Isolated, RpcCan, Rightful, PlaceAfter, TopicsAfter, ListAfter, LockAfter, LoopedAfter, SnapsAfter, Grew;
  }

  lemma OldRightful(s: State, id: Rpc, e: RpcEvent, d: Delivery)
    requires Isolated(s) && RpcCan(s, id, e) && Rightful(s, d)
    ensures Rightful(RpcDo(s, id, e), d)
  {
    if d.rpc == id { DoneStays(s, id, e, d.user); }
    if d.rpc in s.snaps { assert SnapSubscribed(s, d.rpc); }
    hide PlaceAfter, TopicsAfter, ListAfter, LogAfter, LockAfter, LoopedAfter, EachOnce, Done, OncePerCall, SnapFits;
  }

  lemma SendRightful(s: State, id: Rpc)
    requires RpcCan(s, id, Send) && SnapFits(s, id)
    ensures
      var at := s.handlers[id].at;
      Rightful(RpcDo(s, id, Send), Delivery(id, at.user, at.conn, s.handlers[id].entry.body))
  {
    hide TopicsAfter, ListAfter, LogAfter, LockAfter, LoopedAfter;
  }

  lemma SendAllRightful(s: State, id: Rpc, order: seq<User>, i: nat)
    requires Inv(s) && RpcCan(s, id, SendAll(order)) && i < |order|
    ensures Rightful(RpcDo(s, id, SendAll(order)), SentToAll(id, order, s.online, s.handlers[id].entry.body)[i])
  {
    hide TopicsAfter, ListAfter, LogAfter, LockAfter, LoopedAfter, TopicsExist, ListedFirst, Covered, ListsFit, Made;
    var u := order[i];
    assert u in s.online;
  }

  /** A user the handler still has to deal with has not been sent to by it. */
  lemma RpcKeepsOnce(s: State, id: Rpc, e: RpcEvent)
    requires Inv(s) && Isolated(s) && RpcCan(s, id, e)
    ensures OncePerCall(RpcDo(s, id, e).log)
  {
    forall i | 0 <= i < |s.log| ensures Rightful(s, s.log[i]) {}
    hide Inv, Isolated, PlaceAfter, TopicsAfter, ListAfter, LockAfter, LoopedAfter, SnapsAfter, SnapFits;
    hide SnapSubscribed;
  }

  lemma IsolatedKept(s: State, e: Event)
    requires Inv(s) && Isolated(s) && Can(s, e)
    ensures Isolated(Do(s, e))
  {
    hide Inv, Isolated, Undisturbed, LogicDo, JobDo, RpcDo, ConnDo, LogicCan, JobCan, RpcCan, ConnCan;
    match e
    case OfLogic(l) => LogicUndisturbing(s, l); UndisturbedKeeps(s, LogicDo(s, l));
    case OfJob(j) => CallKeepsIsolated(s, j);
    case OfRpc(id, r) => RpcKeepsIsolated(s, id, r);
    case OfConn(c, a) => ConnUndisturbing(s, c, a); UndisturbedKeeps(s, ConnDo(s, c, a));
  }

  lemma {:induction false} IsolatedAlways(s: State, es: seq<Event>)
    requires Start(s) && After(s, es).Some?
    ensures Isolated(After(s, es).value)
    decreases |es|
  {
    hide Inv, Isolated, Can, Do, Start;
    if es == [] {
      IsolatedStarts(s);
    } else {
      var init := es[..|es| - 1];
      IsolatedAlways(s, init);
      InvAlways(s, init);
      IsolatedKept(After(s, init).value, es[|es| - 1]);
    }
  }

  /** Room isolation: in every run, a frame sent by a call for room r carries that message, goes
      to a connection of a user who was among the subscribers of r the call had copied (and is
      still subscribed to r), and no call sends to a user twice. */
  lemma RoomIsolation(s: State, es: seq<Event>, i: nat, j: nat)
    requires Start(s) && After(s, es).Some?
    requires i < |After(s, es).value.log| && j < |After(s, es).value.log|
    ensures
      var t := After(s, es).value;
      var d := t.log[i];
      && d.rpc.entry < |t.kafka| && d.body == t.kafka[d.rpc.entry].body
      && d.conn in t.sessions && t.sessions[d.conn].user == d.user
      && (t.kafka[d.rpc.entry].RoomMessage? ==>
            var r := t.kafka[d.rpc.entry].roomId;
            d.rpc in t.snaps && d.user in t.snaps[d.rpc] && r in t.topics && d.user in t.topics[r].users)
      && (i != j ==> !(d.rpc == t.log[j].rpc && d.user == t.log[j].user))
  {
    hide After, Start, TopicsExist, ListedFirst, Covered, ListsFit, SessionsFit;
    InvAlways(s, es);
    IsolatedAlways(s, es);
    var t := After(s, es).value;
    assert Rightful(t, t.log[i]);
    if t.log[i].rpc in t.snaps { assert SnapSubscribed(t, t.log[i].rpc); }
  }

  // ---- bounded duplication -----------------------------------------------

  ghost predicate FewAttempts(s: State) {
    s.job.attempt < MAX_RETRIES && forall id :: id in s.handlers ==> id.attempt < MAX_RETRIES
  }

  lemma FewAttemptsKept(s: State, e: Event)
    requires FewAttempts(s) && Can(s, e)
    ensures FewAttempts(Do(s, e))
  {
    match e
    case OfLogic(l) => LogicUndisturbing(s, l);
    case OfJob(j) =>
    case OfRpc(id, r) =>
      hide PlaceAfter, TopicsAfter, ListAfter, LogAfter, LockAfter, LoopedAfter, SnapsAfter, EachOnce;
    case OfConn(c, a) => ConnUndisturbing(s, c, a);
  }

  lemma {:induction false} FewAttemptsAlways(s: State, es: seq<Event>)
    requires Start(s) && After(s, es).Some?
    ensures FewAttempts(After(s, es).value)
    decreases |es|
  {
    if es == [] {
    } else {
      hide Can, Do, Start;
      FewAttemptsAlways(s, es[..|es| - 1]);
      FewAttemptsKept(After(s, es[..|es| - 1]).value, es[|es| - 1]);
    }
  }

  /** Failures may duplicate, but never beyond the retries: two frames for one user and one entry
      come from different attempts, of which there are three. */
  lemma AtMostThreeTimes(s: State, es: seq<Event>, i: nat, j: nat)
    requires Start(s) && After(s, es).Some? && i < j < |After(s, es).value.log|
    requires
      var log := After(s, es).value.log;
      log[i].user == log[j].user && log[i].rpc.entry == log[j].rpc.entry
    ensures
      var log := After(s, es).value.log;
      log[i].rpc.attempt != log[j].rpc.attempt && log[i].rpc.attempt < 3 && log[j].rpc.attempt < 3
  {
    hide After, Start, SnapFits, SnapSubscribed;
    FewAttemptsAlways(s, es);
    IsolatedAlways(s, es);
    var t := After(s, es).value;
    assert Rightful(t, t.log[i]) && Rightful(t, t.log[j]);
  }
}

/** At least once, when calls fail but every entry's last attempt returns. */
module ChatRetries {
  import opened Wrappers
  import opened Topics
  import opened ChatProtocol
  import opened ChatInvariants
  import opened ChatHistory
  import opened ChatDelivery
  import opened ChatOrder

  /** The job gives up on no entry: a call that fails is not the third. */
  ghost predicate NeverGivesUp(s: State, es: seq<Event>) {
    forall k :: 0 <= k < |es| && es[k] == OfJob(Fail) ==> MayRetry(After(s, es[..k]))
  }

  predicate MayRetry(s: Option<State>) { s.Some? && s.value.job.attempt + 1 < MAX_RETRIES }

  /** The first entry no call has been made for. */
  function FirstUntried(job: Job): nat { if job.calling || job.attempt > 0 then job.pos + 1 else job.pos }

  /** The connection was sent a frame for the entry. */
  ghost predicate Got(log: seq<Delivery>, c: Conn, entry: nat) {
    exists j :: 0 <= j < |log| && log[j].conn == c && log[j].rpc.entry == entry
  }

  predicate Concerns(s: State, w: Watch, i: nat) { w.from <= i < |s.kafka| && Wanted(s.kafka[i], w.rooms) }

  /** Handlers that are done with the user have sent to it, and hold its connection if any. */
  ghost predicate HandlersServe(s: State, w: Watch) {
    forall id :: id in s.handlers && Concerns(s, w, id.entry) ==> Serves(s, w, id)
  }

  ghost predicate Serves(s: State, w: Watch, id: Rpc)
    requires id in s.handlers
  {
    && (Done(s.handlers[id].at, w.user) ==> Got(s.log, w.conn, id.entry))
    && (s.handlers[id].at.Holding? && s.handlers[id].at.user == w.user ==> s.handlers[id].at.conn == w.conn)
  }

  /** Every entry the job has left behind was received. */
  ghost predicate AllServed(s: State, w: Watch) {
    HandlersServe(s, w) && forall i: nat :: Concerns(s, w, i) && i < s.job.pos ==> Got(s.log, w.conn, i)
  }

  lemma GotMore(log: seq<Delivery>, more: seq<Delivery>, c: Conn, entry: nat)
    requires Got(log, c, entry)
    ensures Got(log + more, c, entry)
  {
    var j :| 0 <= j < |log| && log[j].conn == c && log[j].rpc.entry == entry;
    assert (log + more)[j] == log[j];
  }

  // ---- steps that leave handlers and log alone ----------------------------

  ghost predicate SameCalls(s: State, t: State) {
    t.handlers == s.handlers && t.log == s.log && t.job == s.job && |s.kafka| <= |t.kafka|
      && t.kafka[..|s.kafka|] == s.kafka
  }

  lemma SameCallsServe(s: State, t: State, w: Watch)
    requires Inv(s) && AllServed(s, w) && SameCalls(s, t) && s.job.pos <= |s.kafka|
    ensures AllServed(t, w)
  {
    hide Got, Wanted, Done, TopicsExist, ListedFirst, SessionsFit, Covered, ListsFit, Made, PlaceFits;
    forall id | id in t.handlers && Concerns(t, w, id.entry) ensures Serves(t, w, id) {
      assert id.entry < |s.kafka| && t.kafka[id.entry] == t.kafka[..|s.kafka|][id.entry] == s.kafka[id.entry];
      assert Serves(s, w, id);
    }
    forall i: nat | Concerns(t, w, i) && i < t.job.pos ensures Got(t.log, w.conn, i) {
      assert t.kafka[i] == t.kafka[..|s.kafka|][i] == s.kafka[i];
      assert Concerns(s, w, i);
    }
  }

  lemma LogicSame(s: State, e: LogicEvent)
    requires LogicCan(s, e)
    ensures SameCalls(s, LogicDo(s, e))
  {}

  lemma ConnSame(s: State, c: Conn, e: ConnEvent)
    requires ConnCan(s, c, e)
    ensures SameCalls(s, ConnDo(s, c, e))
  {
    hide Ids;
  }

  lemma JobServes(s: State, e: JobEvent, w: Watch)
    requires Inv(s) && AllServed(s, w) && JobCan(s, e) && (e.Fail? ==> s.job.attempt + 1 < MAX_RETRIES)
    ensures AllServed(JobDo(s, e), w)
  {
    hide Got, Wanted, TopicsExist, ListedFirst, SessionsFit, Covered, ListsFit, PlaceFits;
    var t := JobDo(s, e);
    forall id | id in t.handlers && Concerns(t, w, id.entry) ensures Serves(t, w, id) {
      if id in s.handlers && !(e.Call? && id == Current(s)) { assert Serves(s, w, id); }
    }
    forall i: nat | Concerns(t, w, i) && i < t.job.pos ensures Got(t.log, w.conn, i) {
      if i < s.job.pos {
        assert Concerns(s, w, i);
      } else {
        assert e.Return? && i == s.job.pos;
        assert Serves(s, w, Current(s));
      }
    }
  }

  // ---- steps of handlers -------------------------------------------------

  lemma RpcServes(s: State, id: Rpc, e: RpcEvent, w: Watch)
    requires Inv(s) && Isolated(s) && AllServed(s, w) && Here(s, w) && RpcCan(s, id, e)
    ensures AllServed(RpcDo(s, id, e), w)
  {
    LogGrows(s, id, e);
    SameLine(s, id, e);
    OthersStay(s, id, e);
    if Concerns(s, w, id.entry) { OwnServes(s, id, e, w); }
    hide Inv, Isolated, Here, Got, Wanted, Done, RpcDo, RpcCan;
    var t := RpcDo(s, id, e);
    forall k | k in t.handlers && Concerns(t, w, k.entry) ensures Serves(t, w, k) {
      if k != id {
        assert Serves(s, w, k);
        if Done(s.handlers[k].at, w.user) { GotMore(s.log, t.log[|s.log|..], w.conn, k.entry); }
      }
    }
    forall i: nat | Concerns(t, w, i) && i < t.job.pos ensures Got(t.log, w.conn, i) {
      assert Concerns(s, w, i);
      GotMore(s.log, t.log[|s.log|..], w.conn, i);
    }
  }

  lemma OthersStay(s: State, id: Rpc, e: RpcEvent)
    requires RpcCan(s, id, e)
    ensures
      var t := RpcDo(s, id, e);
      t.handlers.Keys == s.handlers.Keys && forall k :: k in s.handlers && k != id ==> t.handlers[k] == s.handlers[k]
  {
    hide PlaceAfter, TopicsAfter, ListAfter, LogAfter, LockAfter, LoopedAfter, SnapsAfter, EachOnce;
  }

  lemma LogGrows(s: State, id: Rpc, e: RpcEvent)
    requires RpcCan(s, id, e)
    ensures var t := RpcDo(s, id, e); |s.log| <= |t.log| && t.log == s.log + t.log[|s.log|..]
  {
    hide PlaceAfter, TopicsAfter, ListAfter, LockAfter, LoopedAfter, SnapsAfter, EachOnce;
  }

  lemma OwnServes(s: State, id: Rpc, e: RpcEvent, w: Watch)
    requires Inv(s) && Isolated(s) && AllServed(s, w) && Here(s, w) && RpcCan(s, id, e) && Concerns(s, w, id.entry)
    ensures Serves(RpcDo(s, id, e), w, id)
  {
    assert Serves(s, w, id);
    OwnHolds(s, id, e, w);
    if e.Send? {
      SendGot(s, id, w);
    } else if e.SendAll? {
      SendAllGot(s, id, e.order, w);
    } else {
      QuietGot(s, id, e, w);
    }
    hide RpcDo, Got, Done, Inv, Isolated;
  }

  lemma OwnHolds(s: State, id: Rpc, e: RpcEvent, w: Watch)
    requires RpcCan(s, id, e) && Here(s, w)
    requires s.handlers[id].at.Holding? && s.handlers[id].at.user == w.user ==> s.handlers[id].at.conn == w.conn
    ensures
      var at := RpcDo(s, id, e).handlers[id].at;
      at.Holding? && at.user == w.user ==> at.conn == w.conn
  {
    hide TopicsAfter, ListAfter, LogAfter, LockAfter, LoopedAfter, SnapsAfter, EachOnce;
  }

  lemma QuietGot(s: State, id: Rpc, e: RpcEvent, w: Watch)
    requires Inv(s) && Here(s, w) && RpcCan(s, id, e) && Concerns(s, w, id.entry) && !e.Send? && !e.SendAll?
    requires Done(s.handlers[id].at, w.user) ==> Got(s.log, w.conn, id.entry)
    ensures var t := RpcDo(s, id, e); Done(t.handlers[id].at, w.user) ==> Got(t.log, w.conn, id.entry)
  {
    QuietDone(s, id, e, w);
    hide Inv, PlaceAfter, TopicsAfter, ListAfter, LockAfter, LoopedAfter, SnapsAfter, EachOnce, Got, Done;
  }

  lemma SendGot(s: State, id: Rpc, w: Watch)
    requires Isolated(s) && RpcCan(s, id, Send)
    requires Done(s.handlers[id].at, w.user) ==> Got(s.log, w.conn, id.entry)
    requires s.handlers[id].at.user == w.user ==> s.handlers[id].at.conn == w.conn
    ensures var t := RpcDo(s, id, Send); Done(t.handlers[id].at, w.user) ==> Got(t.log, w.conn, id.entry)
  {
    hide Isolated, TopicsAfter, ListAfter, LockAfter, LoopedAfter, SnapsAfter;
    var h, t := s.handlers[id], RpcDo(s, id, Send);
    var d := Delivery(id, h.at.user, h.at.conn, h.entry.body);
    assert t.log == s.log + [d] && t.log[|s.log|] == d;
    if Done(h.at, w.user) { GotMore(s.log, [d], w.conn, id.entry); }
  }

  lemma SendAllGot(s: State, id: Rpc, order: seq<User>, w: Watch)
    requires Here(s, w) && RpcCan(s, id, SendAll(order))
    ensures Got(RpcDo(s, id, SendAll(order)).log, w.conn, id.entry)
  {
    hide TopicsAfter, ListAfter, LockAfter, LoopedAfter, SnapsAfter, PlaceAfter;
    var t := RpcDo(s, id, SendAll(order));
    var ds := SentToAll(id, order, s.online, s.handlers[id].entry.body);
    assert w.user in order;
    var k :| 0 <= k < |order| && order[k] == w.user;
    assert t.log == s.log + ds && t.log[|s.log| + k] == ds[k];
  }

  // ---- whole runs --------------------------------------------------------

  lemma StepServes(s: State, e: Event, w: Watch)
    requires Inv(s) && Isolated(s) && AllServed(s, w) && Here(s, w) && Can(s, e) && s.job.pos <= |s.kafka|
    requires e == OfJob(Fail) ==> s.job.attempt + 1 < MAX_RETRIES
    ensures AllServed(Do(s, e), w)
  {
    hide Inv, Isolated, AllServed, Here, SameCalls, LogicDo, JobDo, RpcDo, ConnDo, LogicCan, JobCan, RpcCan, ConnCan;
    match e
    case OfLogic(l) => LogicSame(s, l); SameCallsServe(s, LogicDo(s, l), w);
    case OfJob(j) => JobServes(s, j, w);
    case OfRpc(id, r) => RpcServes(s, id, r, w);
    case OfConn(c, a) => ConnSame(s, c, a); SameCallsServe(s, ConnDo(s, c, a), w);
  }

  lemma StaysHere(s: State, e: Event, w: Watch)
    requires Here(s, w) && Can(s, e) && w.user in Do(s, e).online && Do(s, e).online[w.user] == w.conn
    ensures Here(Do(s, e), w)
  {
    StepIsLater(s, e);
    hide Can, Do;
  }

  /** The job is never beyond what Kafka holds, nor busy there. */
  ghost predicate JobFits(s: State) {
    s.job.pos <= |s.kafka| && (s.job.calling || s.job.attempt > 0 ==> s.job.pos < |s.kafka|)
  }

  lemma JobFitsKept(s: State, e: Event)
    requires JobFits(s) && Can(s, e)
    ensures JobFits(Do(s, e))
  {
    hide LogicDo, RpcDo, ConnDo, LogicCan, RpcCan, ConnCan;
    match e
    case OfLogic(l) => LogicSame(s, l);
    case OfJob(j) =>
    case OfRpc(id, r) => SameLine(s, id, r);
    case OfConn(c, a) => ConnSame(s, c, a);
  }

  lemma {:induction false} JobFitsAlways(s: State, es: seq<Event>)
    requires Start(s) && After(s, es).Some?
    ensures JobFits(After(s, es).value)
    decreases |es|
  {
    hide Can, Do;
    if es == [] {
    } else {
      JobFitsAlways(s, es[..|es| - 1]);
      hide JobFits, Start;
      JobFitsKept(After(s, es[..|es| - 1]).value, es[|es| - 1]);
    }
  }

  lemma NobodyServedYet(s: State, w: Watch)
    requires Inv(s) && JobFits(s) && w.from == FirstUntried(s.job)
    ensures AllServed(s, w)
  {
    hide TopicsExist, ListedFirst, SessionsFit, Covered, ListsFit, PlaceFits, Got, Serves;
    assert forall id :: id in s.handlers ==> Made(id, s.job);
  }

  lemma {:induction false} ServedAlways(s: State, before: seq<Event>, es: seq<Event>, w: Watch)
    requires Start(s) && NeverGivesUp(s, before + es) && RegisteredThroughout(s, before, es, w)
    requires After(s, before).Some? && Here(After(s, before).value, w)
    requires w.from == FirstUntried(After(s, before).value.job)
    ensures After(s, before + es).Some? && Here(After(s, before + es).value, w)
      && AllServed(After(s, before + es).value, w)
    decreases |es|
  {
    hide Inv, Isolated, AllServed, Here, Can, Do, Start, JobFits;
    if es == [] {
      assert before + es == before;
      InvAlways(s, before);
      JobFitsAlways(s, before);
      NobodyServedYet(After(s, before).value, w);
    } else {
      var n := |es| - 1;
      var full, run := before + es, before + es[..n];
      assert full[..|full| - 1] == run && full[|full| - 1] == es[n];
      assert NeverGivesUp(s, run) by {
        forall k | 0 <= k < |run| && run[k] == OfJob(Fail) ensures MayRetry(After(s, run[..k])) {
          assert run[..k] == full[..k] && run[k] == full[k];
        }
      }
      assert RegisteredThroughout(s, before, es[..n], w) by {
        forall k | 0 <= k <= n ensures RegisteredAt(After(s, before + es[..n][..k]), w) {
          assert es[..n][..k] == es[..k];
        }
      }
      ServedAlways(s, before, es[..n], w);
      assert es[..|es|] == es && RegisteredAt(After(s, before + es[..|es|]), w);
      var t := After(s, run).value;
      assert es[n] == OfJob(Fail) ==> MayRetry(After(s, full[..|full| - 1]));
      InvAlways(s, run);
      IsolatedAlways(s, run);
      JobFitsAlways(s, run);
      PosFits(t);
      StepServes(t, es[n], w);
      StaysHere(t, es[n], w);
    }
  }

  lemma PosFits(s: State)
    requires JobFits(s)
    ensures s.job.pos <= |s.kafka|
  {}

  /** Calls may fail and be repeated; as long as the job gives up on no entry, a user who stays
      registered on one connection receives, there, every announcement and every message of its
      rooms at least once (and, by `AtMostThreeTimes`, at most three times). */
  lemma AtLeastOnce(s: State, before: seq<Event>, es: seq<Event>, w: Watch, i: nat)
    requires Start(s) && NeverGivesUp(s, before + es) && RegisteredThroughout(s, before, es, w)
    requires After(s, before).Some? && Here(After(s, before).value, w)
    requires w.from == FirstUntried(After(s, before).value.job)
    requires After(s, before + es).Some?
    requires
      var t := After(s, before + es).value;
      w.from <= i < t.job.pos && i < |t.kafka| && Wanted(t.kafka[i], w.rooms)
    ensures
      var t := After(s, before + es).value;
      exists j :: 0 <= j < |t.log| && t.log[j].conn == w.conn && t.log[j].rpc.entry == i
        && t.log[j].body == t.kafka[i].body
  {
    hide After, Start, NeverGivesUp, RegisteredThroughout, Here, HandlersServe, Wanted;
    ServedAlways(s, before, es, w);
    var t := After(s, before + es).value;
    assert Concerns(t, w, i);
    var j :| 0 <= j < |t.log| && t.log[j].conn == w.conn && t.log[j].rpc.entry == i;
    RoomIsolation(s, before + es, j, j);
  }

  /** The place in Kafka of what event `k` publishes. */
  lemma PlaceInKafka(s: State, es: seq<Event>, k: nat)
    requires After(s, es).Some? && k < |es| && PublishedBy(es[k]) != []
    ensures
      var t, i := After(s, es).value, |s.kafka| + |Published(es[..k])|;
      i < |t.kafka| && t.kafka[i] == PublishedBy(es[k])[0]
  {
    hide After, PublishedBy, Published;
    KafkaIsPublished(s, es);
    assert es == es[..k + 1] + es[k + 1..];
    PublishedConcat(es[..k + 1], es[k + 1..]);
    PublishedNext(es, k);
  }

  lemma PublishedNext(es: seq<Event>, k: nat)
    requires k < |es|
    ensures Published(es[..k + 1]) == Published(es[..k]) + PublishedBy(es[k])
  {
    hide PublishedBy;
    assert es[..k + 1][..k] == es[..k];
  }

  /** From the sender to every subscriber: a message sent while the user is registered and
      subscribed arrives there with its text, once the job has worked through Kafka without giving
      up on an entry. */
  lemma SentArrives(s: State, before: seq<Event>, es: seq<Event>, w: Watch, k: nat)
    requires Start(s) && NeverGivesUp(s, before + es) && RegisteredThroughout(s, before, es, w)
    requires After(s, before).Some? && Here(After(s, before).value, w)
    requires w.from == FirstUntried(After(s, before).value.job)
    requires After(s, before + es).Some? && After(s, before + es).value.job.pos == |After(s, before + es).value.kafka|
    requires k < |es| && es[k].OfLogic? && es[k].logic.SendMessage? && es[k].logic.roomId in w.rooms
    ensures
      var t := After(s, before + es).value;
      exists j :: 0 <= j < |t.log| && t.log[j].conn == w.conn && t.log[j].body == es[k].logic.text
  {
    hide After, Start, NeverGivesUp, RegisteredThroughout, Here, Published;
    var full, n := before + es, |before| + k;
    var i := |s.kafka| + |Published(full[..n])|;
    PlaceInKafka(s, full, n);
    assert full[n] == es[k];
    JobFitsAlways(s, before);
    KafkaIsPublished(s, before);
    assert full[..n] == before + es[..k];
    PublishedConcat(before, es[..k]);
    AtLeastOnce(s, before, es, w, i);
    var t := After(s, full).value;
    var j :| 0 <= j < |t.log| && t.log[j].conn == w.conn && t.log[j].rpc.entry == i && t.log[j].body == t.kafka[i].body;
  }
}

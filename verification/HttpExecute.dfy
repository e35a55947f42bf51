/** http_parser_execute as it is written: one loop over a buffer, marks into that
    buffer, callbacks over whole stretches of it, and body jumps of many bytes.
    Its contract is the byte-at-a-time reference of `HttpRun`. */
module HttpExecute {
  import opened Wrappers
  import opened HttpTypes
  import opened UrlChars
  import opened HttpSwitch
  import opened HttpRun
  import opened HttpInvariant

  /** header_field_mark, header_value_mark, url_mark and body_mark, as offsets. */
  datatype Marks = Marks(field: Option<nat>, value: Option<nat>, url: Option<nat>, body: Option<nat>)

  const NO_MARKS := Marks(None, None, None, None)

  function MarkOf(m: Marks, k: DataKind): Option<nat> {
    match k
    case OnUrl => m.url
    case OnHeaderField => m.field
    case OnHeaderValue => m.value
    case OnBody => m.body
  }

  function Put(m: Marks, k: DataKind, at: Option<nat>): Marks {
    match k
    case OnUrl => m.(url := at)
    case OnHeaderField => m.(field := at)
    case OnHeaderValue => m.(value := at)
    case OnBody => m.(body := at)
  }

  /** CALLBACK_DATA_ up to `end`: the callbacks it runs (none when the mark is unset). */
  function DataCalls(m: Marks, k: DataKind, data: string, end: nat): seq<Event>
    requires end <= |data|
  {
    match MarkOf(m, k)
    case Some(at) => if at <= end then [Data(k, data[at..end])] else []
    case None => []
  }

  /** Run the macros of one turn that takes bytes `i` to `j`: callbacks made and new marks. */
  function Perform(m: Marks, acts: seq<Act>, data: string, i: nat, j: nat): (r: (seq<Event>, Marks))
    requires i <= j < |data|
    decreases acts
  {
    if acts == [] then ([], m)
    else
      var (es, m') := PerformOne(m, acts[0], data, i, j);
      var (rest, m'') := Perform(m', acts[1..], data, i, j);
      (es + rest, m'')
  }

  function PerformOne(m: Marks, a: Act, data: string, i: nat, j: nat): (r: (seq<Event>, Marks))
    requires i <= j < |data|
  {
    match a
    case Mark(k) => ([], if MarkOf(m, k).None? then Put(m, k, Some(i)) else m)
    case Callback(k) => (DataCalls(m, k, data, i), Put(m, k, None))
    case CallbackThrough(k) => (DataCalls(m, k, data, j + 1), Put(m, k, None))
    case Notify(e) => ([e], m)
  }

  /** The callbacks for leftover marks when the bytes have run out. */
  function Leftover(m: Marks, data: string, end: nat): seq<Event>
    requires end <= |data|
  {
    DataCalls(m, OnHeaderField, data, end) + DataCalls(m, OnHeaderValue, data, end) +
    DataCalls(m, OnUrl, data, end) + DataCalls(m, OnBody, data, end)
  }

  /** The log an observer would have if the buffer ended at `end`. */
  function View(log: Log, m: Marks, data: string, end: nat): Log
    requires end <= |data|
  {
    AddAll(log, Leftover(m, data, end))
  }

  predicate Before(m: Option<nat>, end: nat) { m.Some? ==> m.value <= end }

  /** Exactly the mark of the collecting state is live; the body mark only around body data. */
  ghost predicate MarksFit(m: Marks, s: State, end: nat) {
    && (m.url.Some? <==> LiveKind(s) == Some(OnUrl))
    && (m.field.Some? <==> LiveKind(s) == Some(OnHeaderField))
    && (m.value.Some? <==> LiveKind(s) == Some(OnHeaderValue))
    && (m.body.Some? ==> InBody(s) || s == Chunk(DataAlmostDone))
    && Before(m.url, end) && Before(m.field, end) && Before(m.value, end) && Before(m.body, end)
  }

  function LiveMarks(m: Marks): nat {
    (if m.field.Some? then 1 else 0) + (if m.value.Some? then 1 else 0) +
    (if m.url.Some? then 1 else 0) + (if m.body.Some? then 1 else 0)
  }

  lemma AtMostOneMark(m: Marks, s: State, end: nat)
    requires MarksFit(m, s, end)
    ensures LiveMarks(m) <= 1
  {}

  /** With the marks in order, the view is the log plus the one pending string. */
  lemma ViewPending(log: Log, m: Marks, s: State, k: DataKind, data: string, end: nat)
    requires end <= |data| && MarksFit(m, s, end)
    requires MarkOf(m, k).Some?
    ensures View(log, m, data, end) == Add(log, Data(k, data[MarkOf(m, k).value..end]))
  {
    assert Leftover(m, data, end) == [Data(k, data[MarkOf(m, k).value..end])];
    AddAllOne(log, Data(k, data[MarkOf(m, k).value..end]));
  }

  lemma ViewNothing(log: Log, m: Marks, data: string, end: nat)
    requires end <= |data| && LiveMarks(m) == 0
    ensures View(log, m, data, end) == log
  {
    assert Leftover(m, data, end) == [];
  }

  lemma PerformNone(m: Marks, data: string, i: nat, j: nat)
    requires i <= j < |data|
    ensures Perform(m, [], data, i, j) == ([], m)
  {}

  lemma PerformSingle(m: Marks, a: Act, data: string, i: nat, j: nat)
    requires i <= j < |data|
    ensures Perform(m, [a], data, i, j) == PerformOne(m, a, data, i, j)
  {
    assert [a][1..] == [];
    var (es, m') := PerformOne(m, a, data, i, j);
    assert es + [] == es;
  }

  lemma PerformPair(m: Marks, a: Act, b: Act, data: string, i: nat, j: nat)
    requires i <= j < |data|
    ensures
      var (es, m') := PerformOne(m, a, data, i, j);
      var (fs, m'') := PerformOne(m', b, data, i, j);
      Perform(m, [a, b], data, i, j) == (es + fs, m'')
  {
    assert [a, b][1..] == [b];
    PerformSingle(PerformOne(m, a, data, i, j).1, b, data, i, j);
  }

  lemma NotesSingle(a: Act)
    ensures Notes([a]) == if a.Notify? then [a.event] else []
  {
    assert [a][1..] == [];
  }

  // ---- one turn, with marks ----------------------------------------------

  /** A turn outside the body keeps the view in step with the reference: what the
      macros deliver plus what they leave pending is what the bytes owned. */
  lemma TurnViews(log: Log, m: Marks, before: State, t: Turn, data: string, i: nat)
    requires i < |data| && !InBody(before) && t.ctl != Error
    requires ActsFit(before, data[i], t) && MarksFit(m, before, i)
    ensures
      var (es, m') := Perform(m, t.acts, data, i, i);
      if t.ctl == Reexecute then
        && MarksFit(m', t.p.state, i)
        && View(AddAll(log, es), m', data, i) == AddAll(View(log, m, data, i), Notes(t.acts))
      else
        && MarksFit(m', t.p.state, i + 1)
        && View(AddAll(log, es), m', data, i + 1)
           == AddAll(View(log, m, data, i), Owner(before, data[i], t.p.state) + Notes(t.acts))
  {
    hide View, AddAll, Notes, Perform, Owner;
    var after := t.p.state;
    match (LiveKind(before), LiveKind(after)) {
      case (Some(k), Some(k')) => StayViews(log, m, before, after, k, data, i);
      case (Some(k), None) => LeaveViews(log, m, before, after, k, t, data, i);
      case (None, Some(k)) => EnterViews(log, m, before, after, k, data, i);
      case (None, None) => QuietViews(log, m, before, t, data, i);
    }
  }

  lemma StayViews(log: Log, m: Marks, before: State, after: State, k: DataKind, data: string, i: nat)
    requires i < |data| && !InBody(before) && MarksFit(m, before, i)
    requires LiveKind(before) == LiveKind(after) == Some(k)
    ensures Perform(m, [], data, i, i) == ([], m) && MarksFit(m, after, i + 1)
    ensures View(AddAll(log, []), m, data, i + 1)
         == AddAll(View(log, m, data, i), Owner(before, data[i], after) + Notes([]))
  {
    hide View, AddAll, Add, Notes;
    var at := MarkOf(m, k).value;
    ViewPending(log, m, before, k, data, i);
    ViewPending(log, m, after, k, data, i + 1);
    assert data[at..i + 1] == data[at..i] + [data[i]];
    AddTwice(log, k, data[at..i], [data[i]]);
    NotesNone();
    PerformNone(m, data, i, i);
    AddAllNone(log);
    assert Owner(before, data[i], after) + Notes([]) == [Data(k, [data[i]])];
    AddAllOne(View(log, m, data, i), Data(k, [data[i]]));
  }

  lemma LeaveViews(log: Log, m: Marks, before: State, after: State, k: DataKind, t: Turn, data: string, i: nat)
    requires i < |data| && !InBody(before) && MarksFit(m, before, i)
    requires LiveKind(before) == Some(k) && LiveKind(after) == None
    requires t.acts == [Callback(k)]
    ensures
      var (es, m') := Perform(m, t.acts, data, i, i);
      && MarksFit(m', after, i)
      && View(AddAll(log, es), m', data, i) == AddAll(View(log, m, data, i), Notes(t.acts))
      && View(AddAll(log, es), m', data, i + 1)
         == AddAll(View(log, m, data, i), Owner(before, data[i], after) + Notes(t.acts))
  {
    hide View, AddAll, Add, Notes, Perform;
    PerformSingle(m, Callback(k), data, i, i);
    NotesSingle(Callback(k));
    var (es, m') := Perform(m, t.acts, data, i, i);
    assert es == [Data(k, data[MarkOf(m, k).value..i])];
    AddAllOne(log, es[0]);
    ViewPending(log, m, before, k, data, i);
    assert LiveMarks(m') == 0;
    ViewNothing(AddAll(log, es), m', data, i);
    ViewNothing(AddAll(log, es), m', data, i + 1);
    assert Owner(before, data[i], after) + Notes(t.acts) == [];
    AddAllNone(View(log, m, data, i));
  }

  lemma EnterViews(log: Log, m: Marks, before: State, after: State, k: DataKind, data: string, i: nat)
    requires i < |data| && !InBody(before) && MarksFit(m, before, i) && before != Chunk(DataAlmostDone)
    requires !(before == HeaderValueStart && (data[i] == CR || data[i] == LF))
    requires LiveKind(before) == None && LiveKind(after) == Some(k)
    ensures
      var (es, m') := Perform(m, [Mark(k)], data, i, i);
      && MarksFit(m', after, i + 1)
      && View(AddAll(log, es), m', data, i + 1)
         == AddAll(View(log, m, data, i), Owner(before, data[i], after) + Notes([Mark(k)]))
  {
    hide View, AddAll, Add, Notes, Perform;
    PerformSingle(m, Mark(k), data, i, i);
    NotesSingle(Mark(k));
    var m' := Put(m, k, Some(i));
    ViewNothing(log, m, data, i);
    ViewPending(log, m', after, k, data, i + 1);
    assert data[i..i + 1] == [data[i]];
    assert Owner(before, data[i], after) + Notes([Mark(k)]) == [Data(k, [data[i]])];
    AddAllOne(log, Data(k, [data[i]]));
    AddAllNone(log);
  }

  lemma QuietViews(log: Log, m: Marks, before: State, t: Turn, data: string, i: nat)
    requires i < |data| && !InBody(before) && MarksFit(m, before, i) && t.ctl != Error
    requires ActsFit(before, data[i], t)
    requires LiveKind(before) == None && LiveKind(t.p.state) == None
    ensures
      var (es, m') := Perform(m, t.acts, data, i, i);
      && MarksFit(m', t.p.state, i) && LiveMarks(m') == 0
      && (t.ctl == Reexecute ==>
          View(AddAll(log, es), m', data, i) == AddAll(View(log, m, data, i), Notes(t.acts)))
      && View(AddAll(log, es), m', data, i + 1)
         == AddAll(View(log, m, data, i), Owner(before, data[i], t.p.state) + Notes(t.acts))
  {
    hide View, AddAll, Perform, Notes;
    if before == Chunk(DataAlmostDone) {
      ChunkEndViews(log, m, t.p.state, data, i);
    } else {
      assert LiveMarks(m) == 0;
      ViewNothing(log, m, data, i);
      var (es, m') := Perform(m, t.acts, data, i, i);
      QuietActs(m, before, t, data, i);
      ViewNothing(AddAll(log, es), m', data, i);
      ViewNothing(AddAll(log, es), m', data, i + 1);
    }
  }

  lemma ChunkEndViews(log: Log, m: Marks, after: State, data: string, i: nat)
    requires i < |data| && MarksFit(m, Chunk(DataAlmostDone), i) && LiveKind(after) == None
    ensures
      var (es, m') := Perform(m, [Callback(OnBody)], data, i, i);
      && m' == NO_MARKS
      && View(AddAll(log, es), m', data, i + 1)
         == AddAll(View(log, m, data, i),
                   Owner(Chunk(DataAlmostDone), data[i], after) + Notes([Callback(OnBody)]))
  {
    hide View, AddAll, Perform, Notes;
    PerformSingle(m, Callback(OnBody), data, i, i);
    NotesSingle(Callback(OnBody));
    var (es, m') := Perform(m, [Callback(OnBody)], data, i, i);
    if m.body.Some? {
      ViewPending(log, m, Chunk(DataAlmostDone), OnBody, data, i);
      AddAllOne(log, es[0]);
    } else {
      ViewNothing(log, m, data, i);
      AddAllNone(log);
    }
    ViewNothing(AddAll(log, es), m', data, i + 1);
    assert Owner(Chunk(DataAlmostDone), data[i], after) + Notes([Callback(OnBody)]) == [];
    AddAllNone(View(log, m, data, i));
  }

  /** With no mark live, the callbacks of a turn are what its byte owns and its notifications. */
  lemma QuietActs(m: Marks, before: State, t: Turn, data: string, i: nat)
    requires i < |data| && LiveMarks(m) == 0 && !InBody(before) && t.ctl != Error
    requires ActsFit(before, data[i], t) && before != Chunk(DataAlmostDone)
    requires LiveKind(before) == None && LiveKind(t.p.state) == None
    ensures
      var (es, m') := Perform(m, t.acts, data, i, i);
      && m' == m && es == Owner(before, data[i], t.p.state) + Notes(t.acts)
      && (t.ctl == Reexecute ==> es == Notes(t.acts))
  {
    hide Perform, Notes;
    var ch := data[i];
    if before == HeaderValueStart && (ch == CR || ch == LF) {
      PerformPair(m, Mark(OnHeaderValue), Callback(OnHeaderValue), data, i, i);
      NotesConcat([Mark(OnHeaderValue)], [Callback(OnHeaderValue)]);
      NotesSingle(Mark(OnHeaderValue));
      NotesSingle(Callback(OnHeaderValue));
      assert t.acts == [Mark(OnHeaderValue)] + [Callback(OnHeaderValue)];
      assert data[i..i] == [];
      var m1 := m.(value := Some(i));
      assert PerformOne(m, Mark(OnHeaderValue), data, i, i) == ([], m1);
      assert PerformOne(m1, Callback(OnHeaderValue), data, i, i) == ([Data(OnHeaderValue, [])], m);
      assert t.acts == [Mark(OnHeaderValue), Callback(OnHeaderValue)];
      assert [] + [Data(OnHeaderValue, [])] == [Data(OnHeaderValue, [])];
      assert Notes(t.acts) == [];
      assert Owner(before, ch, t.p.state) == [Data(OnHeaderValue, [])];
    } else if t.acts == [] {
      PerformNone(m, data, i, i);
      NotesNone();
    } else {
      assert t.acts == [t.acts[0]];
      PerformSingle(m, t.acts[0], data, i, i);
      NotesSingle(t.acts[0]);
    }
  }

  lemma NotesNone()
    ensures Notes([]) == []
  {}

  // ---- re-executed bytes -------------------------------------------------

  /** Re-executing a byte in the next state finishes what the reference does with it. */
  lemma Reexecuted(p: Parser, log: Log, data: string, i: nat, noBody: bool)
    requires i < |data| && !InBody(p.state)
    requires Switch(p, data[i], 1, noBody).ctl == Reexecute
    ensures
      var t := Switch(p, data[i], 1, noBody);
      RunMid(p, log, data, i, noBody) == RunMid(t.p, AddAll(log, Notes(t.acts)), data, i, noBody)
  {
    hide Switch, Turns, LiveKind, Owner, Notes, Continue, AddAll;
    var ch := data[i];
    var t := Switch(p, ch, 1, noBody);
    var u := Turns(t.p, ch, 1, noBody);
    TurnsAgain(p, ch, 1, noBody);
    NotesConcat(t.acts, u.acts);
    ReexecuteOwner(p, ch, noBody);
    var mine := MidStep(p, ch, noBody);
    var rest := MidStep(t.p, ch, noBody);
    if u.ctl == Error {
      AddAllNone(log);
    } else {
      assert mine.events == Notes(t.acts) + rest.events;
      AddAllConcat(log, Notes(t.acts), rest.events);
    }
    SameContinue(mine, rest, log, AddAll(log, Notes(t.acts)), data, i, noBody);
  }

  lemma {:induction false} NotesConcat(a: seq<Act>, b: seq<Act>)
    ensures Notes(a + b) == Notes(a) + Notes(b)
  {
    if a == [] {
      assert a + b == b;
    } else {
      assert (a + b)[1..] == a[1..] + b;
      NotesConcat(a[1..], b);
    }
  }

  lemma ReexecuteOwner(p: Parser, ch: char, noBody: bool)
    requires !InBody(p.state) && Switch(p, ch, 1, noBody).ctl == Reexecute
    ensures
      var t := Switch(p, ch, 1, noBody);
      var u := Turns(t.p, ch, 1, noBody);
      && Owner(p.state, ch, u.p.state) == Owner(t.p.state, ch, u.p.state)
      && (Notes(t.acts) != [] ==> u.ctl != Error && Owner(p.state, ch, u.p.state) == [])
  {
    hide SwitchField, SwitchValue, SwitchStart;
    var t := Switch(p, ch, 1, noBody);
    if p.state == HeadersAlmostDone {
      assert t == SwitchEnd(p, ch, noBody) && ch == LF && t.p.state == HeadersDone;
      assert Switch(t.p, ch, 1, noBody) == SwitchEnd(t.p, ch, noBody);
    } else {
      ReexecuteFrom(p, ch, noBody);
      if t.acts != [] { NotesSingle(t.acts[0]); assert t.acts == [t.acts[0]]; }
    }
  }

  /** The states a byte can be re-executed in. */
  lemma ReexecuteFrom(p: Parser, ch: char, noBody: bool)
    requires !InBody(p.state) && Switch(p, ch, 1, noBody).ctl == Reexecute
    ensures p.state != HeaderValueStart
    ensures !InBody(Switch(p, ch, 1, noBody).p.state)
    ensures Switch(p, ch, 1, noBody).p.state != HeaderValueStart
  {
    if InStart(p.state) { assert Switch(p, ch, 1, noBody) == SwitchStart(p, ch); }
    else if InField(p.state) { assert Switch(p, ch, 1, noBody) == SwitchField(p, ch); }
    else if InValue(p.state) { assert Switch(p, ch, 1, noBody) == SwitchValue(p, ch); }
    else if InEnd(p.state) { assert Switch(p, ch, 1, noBody) == SwitchEnd(p, ch, noBody); }
  }

  // ---- body jumps --------------------------------------------------------

  ghost predicate BodyReady(p: Parser, n: nat) {
    && InBody(p.state) && n >= 1
    && (!p.state.BodyIdentityEof? ==> n <= p.contentLength < NO_LENGTH)
    && (p.state.ChunkData? ==> p.flags.chunked)
  }

  /** The parser after `n` bytes of body. */
  function AfterBody(p: Parser, n: nat): Parser
    requires InBody(p.state) && (!p.state.BodyIdentityEof? ==> n <= p.contentLength)
  {
    if p.state.BodyIdentityEof? then p
    else
      var q := p.(contentLength := p.contentLength - n);
      if q.contentLength > 0 then q
      else if p.state.BodyIdentity? then q.(state := MessageDone)
      else q.(state := Chunk(DataAlmostDone))
  }

  /** One jump over `n` body bytes is `n` steps of the reference and one merged body event. */
  lemma {:induction false} BodyJump(p: Parser, log: Log, data: string, i: nat, n: nat, noBody: bool)
    requires BodyReady(p, n) && i + n <= |data|
    ensures
      var q := AfterBody(p, n);
      var log' := Add(log, Data(OnBody, data[i..i + n]));
      RunMid(p, log, data, i, noBody) ==
        if q.state == MessageDone then RunMid(q, log', data, i + n - 1, noBody)
        else RunFrom(q, log', data, i + n, noBody)
    decreases n
  {
    hide RunMid, RunFrom, Add;
    var ch := data[i];
    assert data[i..i + 1] == [ch];
    BodyByte(p, log, data, i, noBody);
    if n > 1 {
      var q := AfterBody(p, 1);
      var log1 := Add(log, Data(OnBody, [ch]));
      assert q.state == p.state && BodyReady(q, n - 1);
      UncountedRun(q, log1, data, i + 1, noBody);
      BodyJump(q, log1, data, i + 1, n - 1, noBody);
      AddTwice(log, OnBody, [ch], data[i + 1..i + n]);
      assert data[i..i + n] == [ch] + data[i + 1..i + n];
    }
  }

  lemma BodyByte(p: Parser, log: Log, data: string, i: nat, noBody: bool)
    requires BodyReady(p, 1) && i < |data|
    ensures
      var q := AfterBody(p, 1);
      var log' := Add(log, Data(OnBody, [data[i]]));
      RunMid(p, log, data, i, noBody) ==
        if q.state == MessageDone then RunMid(q, log', data, i, noBody)
        else RunFrom(q, log', data, i + 1, noBody)
  {
    hide Switch, Turns, SwitchBody, AddAll, Add, Notes, RunFrom;
    var ch := data[i];
    BodySwitch(p, ch, noBody);
    var t := Switch(p, ch, 1, noBody);
    var own := [Data(OnBody, [ch])];
    AddAllOne(log, own[0]);
    BodyNotes(t.acts);
    if t.ctl == Reexecute {
      TurnsAgain(p, ch, 1, noBody);
      var u := Turns(t.p, ch, 1, noBody);
      NotesConcat(t.acts, u.acts);
      DoneStep(t.p, ch, noBody);
      var mine := MidStep(p, ch, noBody);
      var rest := MidStep(t.p, ch, noBody);
      assert mine.events == own + rest.events;
      AddAllConcat(log, own, rest.events);
      SameContinue(mine, rest, log, AddAll(log, own), data, i, noBody);
    } else {
      TurnsOnce(p, ch, 1, noBody);
      assert MidStep(p, ch, noBody).events == own;
    }
  }

  /** The switch on one body byte. */
  lemma BodySwitch(p: Parser, ch: char, noBody: bool)
    requires BodyReady(p, 1)
    ensures
      var t := Switch(p, ch, 1, noBody);
      && t.p == AfterBody(p, 1) && t.skip == 0
      && t.ctl == (if t.p.state == MessageDone then Reexecute else Advance)
      && (t.acts == [Mark(OnBody)] || t.acts == [Mark(OnBody), CallbackThrough(OnBody)])
  {
    hide SwitchStart, SwitchField, SwitchValue, SwitchEnd, SwitchChunk;
  }

  lemma DoneStep(p: Parser, ch: char, noBody: bool)
    requires p.state == MessageDone
    ensures
      var u := Turns(p, ch, 1, noBody);
      && u == Complete(p)
      && MidStep(p, ch, noBody) == Step(u.p, Notes(u.acts), Advance)
  {
    hide SwitchStart, SwitchField, SwitchValue, SwitchEnd, SwitchChunk, Notes;
    assert Switch(p, ch, 1, noBody) == Complete(p);
    TurnsOnce(p, ch, 1, noBody);
    assert LiveKind(Complete(p).p.state) == None;
  }

  lemma BodyNotes(acts: seq<Act>)
    requires acts == [Mark(OnBody)] || acts == [Mark(OnBody), CallbackThrough(OnBody)]
    ensures Notes(acts) == []
  {
    if |acts| == 1 { NotesSingle(acts[0]); assert acts == [acts[0]]; }
    else { assert acts[1..] == [CallbackThrough(OnBody)]; NotesSingle(acts[1]); }
  }

  /** A body turn of the implementation, marks included, is the jump of the reference. */
  lemma BodyTurn(p: Parser, log: Log, m: Marks, data: string, i: nat, noBody: bool)
    requires i < |data| && InBody(p.state) && MarksFit(m, p.state, i)
    requires SwitchBody(p, |data| - i).ctl != Error && p.contentLength <= NO_LENGTH
    ensures
      var t := SwitchBody(p, |data| - i);
      var j := i + t.skip;
      var (es, m') := Perform(m, t.acts, data, i, j);
      var view := RunMid(p, View(log, m, data, i), data, i, noBody);
      t.ctl != Exit &&
      if t.ctl == Reexecute then
        && MarksFit(m', t.p.state, j)
        && view == RunMid(t.p, View(AddAll(log, es), m', data, j), data, j, noBody)
      else
        && MarksFit(m', t.p.state, j + 1)
        && view == RunFrom(t.p, View(AddAll(log, es), m', data, j + 1), data, j + 1, noBody)
  {
    hide RunMid, RunFrom, View, Perform, Add, AddAll, SwitchBody;
    var t := SwitchBody(p, |data| - i);
    BodyTurnShape(p, |data| - i);
    BodyJump(p, View(log, m, data, i), data, i, t.skip + 1, noBody);
    BodyMarks(log, m, p.state, t, data, i, i + t.skip);
  }

  lemma BodyTurnShape(p: Parser, avail: nat)
    requires InBody(p.state) && avail >= 1 && SwitchBody(p, avail).ctl != Error
    requires p.contentLength <= NO_LENGTH
    ensures
      var t := SwitchBody(p, avail);
      && BodyReady(p, t.skip + 1) && t.p == AfterBody(p, t.skip + 1)
      && t.ctl == (if t.p.state == MessageDone then Reexecute else Advance)
      && t.acts == (if t.ctl == Reexecute then [Mark(OnBody), CallbackThrough(OnBody)] else [Mark(OnBody)])
  {}

  lemma BodyMarks(log: Log, m: Marks, s: State, t: Turn, data: string, i: nat, j: nat)
    requires i <= j < |data| && InBody(s) && MarksFit(m, s, i)
    requires InBody(t.p.state) || t.p.state == Chunk(DataAlmostDone) || t.p.state == MessageDone
    requires t.acts == if t.p.state == MessageDone then [Mark(OnBody), CallbackThrough(OnBody)] else [Mark(OnBody)]
    ensures
      var (es, m') := Perform(m, t.acts, data, i, j);
      var log' := Add(View(log, m, data, i), Data(OnBody, data[i..j + 1]));
      if t.p.state == MessageDone then
        MarksFit(m', t.p.state, j) && View(AddAll(log, es), m', data, j) == log'
      else
        MarksFit(m', t.p.state, j + 1) && View(AddAll(log, es), m', data, j + 1) == log'
  {
    hide View, Perform, Add, AddAll;
    var at := if m.body.Some? then m.body.value else i;
    PendingBody(log, m, s, data, i, j);
    if t.p.state == MessageDone {
      PerformPair(m, Mark(OnBody), CallbackThrough(OnBody), data, i, j);
      var (es, m') := Perform(m, t.acts, data, i, j);
      assert es == [Data(OnBody, data[at..j + 1])];
      AddAllOne(log, es[0]);
      ViewNothing(AddAll(log, es), m', data, j);
    } else {
      PerformSingle(m, Mark(OnBody), data, i, j);
      AddAllNone(log);
      ViewPending(log, Perform(m, t.acts, data, i, j).1, t.p.state, OnBody, data, j + 1);
    }
  }

  lemma PendingBody(log: Log, m: Marks, s: State, data: string, i: nat, j: nat)
    requires i <= j < |data| && InBody(s) && MarksFit(m, s, i)
    ensures
      var at := if m.body.Some? then m.body.value else i;
      Add(View(log, m, data, i), Data(OnBody, data[i..j + 1])) == Add(log, Data(OnBody, data[at..j + 1]))
  {
    hide View, Add, AddAll;
    if m.body.Some? {
      var at := m.body.value;
      ViewPending(log, m, s, OnBody, data, i);
      AddTwice(log, OnBody, data[at..i], data[i..j + 1]);
      assert data[at..j + 1] == data[at..i] + data[i..j + 1];
    } else {
      ViewNothing(log, m, data, i);
    }
  }

  // ---- any turn ----------------------------------------------------------

  /** What one turn of the implementation leaves to do, for every state.
      A stale `ch` is harmless: only the message-done state is re-executed with one. */
  ghost predicate Refines(p: Parser, log: Log, m: Marks, data: string, i: nat, t: Turn, noBody: bool)
    requires i + t.skip < |data|
  {
    var j := i + t.skip;
    var (es, m') := Perform(m, t.acts, data, i, j);
    var view := View(log, m, data, i);
    var run := RunMid(p, view, data, i, noBody);
    match t.ctl
    case Error => run == Run(t.p, view, i, false)
    case Reexecute =>
      && MarksFit(m', t.p.state, j)
      && run == RunMid(t.p, View(AddAll(log, es), m', data, j), data, j, noBody)
      && (t.p.state == MessageDone || j == i)
    case Exit => run == Run(t.p, AddAll(log, es), j + 1, true)
    case Advance =>
      && MarksFit(m', t.p.state, j + 1)
      && run == RunFrom(t.p, View(AddAll(log, es), m', data, j + 1), data, j + 1, noBody)
  }

  lemma TurnRefines(p: Parser, log: Log, m: Marks, data: string, i: nat, ch: char, noBody: bool)
    requires i < |data| && MarksFit(m, p.state, i) && p.contentLength <= NO_LENGTH
    requires ch == data[i] || p.state == MessageDone
    ensures Refines(p, log, m, data, i, Switch(p, ch, |data| - i, noBody), noBody)
  {
    hide Switch, SwitchBody, RunMid, RunFrom, View, Perform, AddAll;
    var t := Switch(p, ch, |data| - i, noBody);
    if t.ctl == Error {
      ErrorRefines(p, View(log, m, data, i), data, i, ch, noBody);
    } else if InBody(p.state) {
      SwitchInBody(p, ch, |data| - i, noBody);
      BodyTurnShape(p, |data| - i);
      BodyTurn(p, log, m, data, i, noBody);
    } else {
      SwitchSame(p, ch, data[i], |data| - i, noBody);
      TurnViews(log, m, p.state, t, data, i);
      if t.ctl == Reexecute {
        Reexecuted(p, View(log, m, data, i), data, i, noBody);
      } else {
        FinishedRefines(p, log, m, data, i, noBody);
      }
    }
  }

  lemma SwitchInBody(p: Parser, ch: char, avail: nat, noBody: bool)
    requires avail >= 1 && InBody(p.state)
    ensures Switch(p, ch, avail, noBody) == SwitchBody(p, avail)
  {
    hide SwitchBody;
  }

  /** Outside the body a turn does not depend on how much of the buffer is left. */
  lemma SwitchSame(p: Parser, ch: char, ch': char, avail: nat, noBody: bool)
    requires avail >= 1 && !InBody(p.state)
    requires ch == ch' || p.state == MessageDone
    ensures Switch(p, ch, avail, noBody) == Switch(p, ch', 1, noBody)
  {
    hide SwitchStart, SwitchResponseLine, SwitchMethod, SwitchUrl, SwitchRequestVersion;
    hide SwitchField, SwitchValue, SwitchEnd, SwitchChunk, ActsFit, Rank;
  }

  lemma ErrorRefines(p: Parser, view: Log, data: string, i: nat, ch: char, noBody: bool)
    requires i < |data| && p.contentLength <= NO_LENGTH && (ch == data[i] || p.state == MessageDone)
    requires Switch(p, ch, |data| - i, noBody).ctl == Error
    ensures RunMid(p, view, data, i, noBody) == Run(Switch(p, ch, |data| - i, noBody).p, view, i, false)
  {
    hide Switch, SwitchBody, Turns;
    if InBody(p.state) {
      SwitchInBody(p, ch, |data| - i, noBody);
      SwitchInBody(p, data[i], 1, noBody);
      BodyError(p, |data| - i);
    } else {
      SwitchSame(p, ch, data[i], |data| - i, noBody);
    }
    TurnsOnce(p, data[i], 1, noBody);
  }

  lemma BodyError(p: Parser, avail: nat)
    requires InBody(p.state) && avail >= 1 && SwitchBody(p, avail).ctl == Error
    ensures SwitchBody(p, 1) == SwitchBody(p, avail)
  {}

  lemma FinishedRefines(p: Parser, log: Log, m: Marks, data: string, i: nat, noBody: bool)
    requires i < |data| && !InBody(p.state) && MarksFit(m, p.state, i)
    requires Switch(p, data[i], 1, noBody).ctl == Advance || Switch(p, data[i], 1, noBody).ctl == Exit
    ensures
      var t := Switch(p, data[i], 1, noBody);
      var (es, m') := Perform(m, t.acts, data, i, i);
      var run := RunMid(p, View(log, m, data, i), data, i, noBody);
      if t.ctl == Exit then run == Run(t.p, AddAll(log, es), i + 1, true)
      else run == RunFrom(t.p, View(AddAll(log, es), m', data, i + 1), data, i + 1, noBody)
  {
    hide Switch, RunFrom, View, Perform, AddAll, Notes, Owner, Turns;
    var t := Switch(p, data[i], 1, noBody);
    TurnsOnce(p, data[i], 1, noBody);
    TurnViews(log, m, p.state, t, data, i);
    if t.ctl == Exit {
      var (es, m') := Perform(m, t.acts, data, i, i);
      ExitMarks(p, data[i], noBody);
      assert LiveMarks(m') == 0;
      ViewNothing(AddAll(log, es), m', data, i + 1);
    }
  }

  lemma ExitMarks(p: Parser, ch: char, noBody: bool)
    requires !InBody(p.state) && Switch(p, ch, 1, noBody).ctl == Exit
    ensures LiveKind(Switch(p, ch, 1, noBody).p.state) == None
    ensures !InBody(Switch(p, ch, 1, noBody).p.state)
    ensures Switch(p, ch, 1, noBody).p.state != Chunk(DataAlmostDone)
  {
    hide ActsFit, SwitchEnd, Rank;
    if p.state == HeadersDone {
      ExitEnd(p, ch, noBody);
    } else {
      NoExit(p, ch, noBody);
    }
  }

  lemma ExitEnd(p: Parser, ch: char, noBody: bool)
    requires p.state == HeadersDone && SwitchEnd(p, ch, noBody).ctl == Exit
    ensures var s := SwitchEnd(p, ch, noBody).p.state; s == Dead || s == StartReq || s == StartRes
  {}

  lemma NoExit(p: Parser, ch: char, noBody: bool)
    requires !InBody(p.state) && p.state != HeadersDone
    ensures Switch(p, ch, 1, noBody).ctl != Exit
  {
    hide SwitchStart, SwitchResponseLine, SwitchMethod, SwitchUrl, SwitchRequestVersion;
    hide SwitchField, SwitchValue, SwitchEnd, SwitchChunk, ActsFit, Rank;
  }

  // ---- the parser object -------------------------------------------------

  /** The callbacks of a run, merged as an observer merges them. */
  function Merged(calls: seq<Event>): Log { AddAll([], calls) }

  lemma MergedConcat(calls: seq<Event>, more: seq<Event>)
    ensures Merged(calls + more) == AddAll(Merged(calls), more)
  {
    AddAllConcat([], calls, more);
  }

  /** In the middle of a string, the last callback delivered part of that string. */
  ghost predicate Collecting(p: Parser, log: Log) {
    LiveKind(p.state).Some? ==> LastIs(log, LiveKind(p.state).value)
  }

  function InitialMarks(s: State): Marks {
    match LiveKind(s)
    case Some(k) => Put(NO_MARKS, k, Some(0))
    case None => NO_MARKS
  }

  lemma InitialView(p: Parser, log: Log, data: string)
    requires Collecting(p, log)
    ensures MarksFit(InitialMarks(p.state), p.state, 0)
    ensures View(log, InitialMarks(p.state), data, 0) == log
  {
    var m := InitialMarks(p.state);
    if LiveKind(p.state).Some? {
      var k := LiveKind(p.state).value;
      ViewPending(log, m, p.state, k, data, 0);
      assert data[0..0] == [];
      AddNothing(log, k);
    } else {
      ViewNothing(log, m, data, 0);
    }
  }

  lemma FinalCollecting(p: Parser, log: Log, m: Marks, data: string)
    requires MarksFit(m, p.state, |data|)
    ensures Collecting(p, View(log, m, data, |data|))
  {
    if LiveKind(p.state).Some? {
      ViewPending(log, m, p.state, LiveKind(p.state).value, data, |data|);
    }
  }

  /** After an error, what was delivered may lack the string that was being collected. */
  ghost predicate LostTail(got: Log, want: Log) {
    got == want || exists k, x :: want == Add(got, Data(k, x))
  }

  lemma ViewLostTail(log: Log, m: Marks, s: State, data: string, i: nat)
    requires i <= |data| && MarksFit(m, s, i)
    ensures LostTail(log, View(log, m, data, i))
  {
    if m.url.Some? { ViewPending(log, m, s, OnUrl, data, i); }
    else if m.field.Some? { ViewPending(log, m, s, OnHeaderField, data, i); }
    else if m.value.Some? { ViewPending(log, m, s, OnHeaderValue, data, i); }
    else if m.body.Some? { ViewPending(log, m, s, OnBody, data, i); }
    else { ViewNothing(log, m, data, i); }
  }
}

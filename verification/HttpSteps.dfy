/** Single steps of the reference parser in the states a message's framing runs
    through, and the composition of runs.  Helpers of `HttpMessages`. */
module HttpSteps {
  import opened Wrappers
  import opened HttpTypes
  import opened HttpSwitch
  import opened HttpRun
  import opened HttpInvariant
  import opened HttpExecute
  import opened HttpSegments

  /** The run of the parser over `s` from its first byte. */
  function R(p: Parser, log: Log, s: string): Run { RunFrom(p, log, s, 0, false) }

  /** A run that consumed all of `s` and can go on. */
  ghost predicate Goes(p: Parser, log: Log, s: string, q: Parser, log': Log) {
    R(p, log, s) == Run(q, log', |s|, false) && q.errno == OK
  }

  lemma Compose(p: Parser, log: Log, a: string, q: Parser, log1: Log, b: string)
    requires Good(p, 0) && Goes(p, log, a, q, log1)
    ensures Good(q, 0)
    ensures R(p, log, a + b) == (var r := R(q, log1, b); r.(count := |a| + r.count))
  {
    hide RunFrom, Good;
    RunConcat(p, log, a, b, 0, false);
    RunKeepsGood(p, log, a, 0, false);
  }

  lemma Then(p: Parser, log: Log, a: string, q: Parser, log1: Log, b: string, r: Parser, log2: Log)
    requires Good(p, 0) && Goes(p, log, a, q, log1) && Goes(q, log1, b, r, log2)
    ensures Goes(p, log, a + b, r, log2)
  {
    hide RunFrom, Good;
    Compose(p, log, a, q, log1, b);
  }

  /** A step that advances, as a run over one byte. */
  lemma OneByte(p: Parser, log: Log, ch: char, q: Parser, events: seq<Event>)
    requires StepByte(p, ch, false) == Step(q, events, Advance) && q.errno == OK
    ensures Goes(p, log, [ch], q, AddAll(log, events))
  {
    hide StepByte, AddAll;
    var s := Step(q, events, Advance);
    assert [ch][0] == ch;
    assert R(p, log, [ch]) == Continue(s, log, [ch], 0, false);
    assert Continue(s, log, [ch], 0, false) == RunFrom(q, AddAll(log, events), [ch], 1, false);
  }

  lemma StepOnce(p: Parser, ch: char, t: Turn)
    requires !Overflows(p) && t == Switch(Count(p), ch, 1, false) && t.ctl == Advance
    ensures StepByte(p, ch, false) == Step(t.p, Owner(p.state, ch, t.p.state) + Notes(t.acts), Advance)
  {
    hide Switch, Turns, Owner, Notes;
    TurnsOnce(Count(p), ch, 1, false);
  }

  lemma StepIs(p: Parser, ch: char, t: Turn)
    requires !Overflows(p) && t == Turns(Count(p), ch, 1, false) && t.ctl != Error
    ensures StepByte(p, ch, false) == Step(t.p, Owner(p.state, ch, t.p.state) + Notes(t.acts), t.ctl)
  {
    hide Turns, Owner, Notes;
  }

  lemma Quiet(p: Parser, ch: char, t: Turn)
    requires !Overflows(p) && t == Switch(Count(p), ch, 1, false) && t.ctl == Advance
    requires !InBody(p.state) && LiveKind(t.p.state).None? && p.state != HeaderValueStart
    requires |t.acts| <= 1 && (|t.acts| == 1 ==> !t.acts[0].Notify?)
    ensures StepByte(p, ch, false) == Step(t.p, [], Advance)
  {
    hide Switch, Notes, StepByte;
    StepOnce(p, ch, t);
    if t.acts == [] { NotesNone(); } else { NotesSingle(t.acts[0]); assert t.acts == [t.acts[0]]; }
    assert Owner(p.state, ch, t.p.state) == [];
  }

  // ---- header names ------------------------------------------------------

  lemma FieldStartStep(p: Parser, ch: char)
    requires p.state == HeaderFieldStart && IsToken(ch) && p.nread < MAX_HEADER_SIZE
    ensures StepByte(p, ch, false) ==
      Step(p.(nread := p.nread + 1, index := 0, state := HeaderField,
              headerState := FirstHeaderState(Lower(ch))),
           [Data(OnHeaderField, [ch])], Advance)
  {
    hide StepByte, Notes, ActsFit, Rank;
    var t := Switch(Count(p), ch, 1, false);
    assert t == SwitchField(Count(p), ch);
    StepOnce(p, ch, t);
    NotesSingle(Mark(OnHeaderField));
  }

  lemma FieldStep(p: Parser, ch: char)
    requires p.state == HeaderField && IsToken(ch) && p.nread < MAX_HEADER_SIZE
    requires FieldChar(p.headerState, p.index, Lower(ch)).Some?
    ensures
      var hi := FieldChar(p.headerState, p.index, Lower(ch)).value;
      StepByte(p, ch, false) ==
        Step(p.(nread := p.nread + 1, headerState := hi.0, index := hi.1), [Data(OnHeaderField, [ch])], Advance)
  {
    hide StepByte, Notes, ActsFit, Rank, FieldChar;
    var t := Switch(Count(p), ch, 1, false);
    assert t == SwitchField(Count(p), ch);
    StepOnce(p, ch, t);
    NotesNone();
  }

  lemma ColonStep(p: Parser)
    requires p.state == HeaderField && p.nread < MAX_HEADER_SIZE
    ensures StepByte(p, ':', false) == Step(p.(nread := p.nread + 1, state := HeaderValueStart), [], Advance)
  {
    hide StepByte, ActsFit, Rank, FieldChar;
    var t := Switch(Count(p), ':', 1, false);
    assert t == SwitchField(Count(p), ':');
    Quiet(p, ':', t);
  }

  // ---- header values -----------------------------------------------------

  predicate Blank(ch: char) { ch == ' ' || ch == '\t' }

  lemma BlankStep(p: Parser, ch: char)
    requires p.state == HeaderValueStart && p.nread < MAX_HEADER_SIZE && Blank(ch)
    ensures StepByte(p, ch, false) == Step(p.(nread := p.nread + 1), [], Advance)
  {
    hide StepByte, Notes, ActsFit, Rank, FirstValueChar;
    var t := Switch(Count(p), ch, 1, false);
    assert t == SwitchValue(Count(p), ch);
    StepOnce(p, ch, t);
    NotesNone();
  }

  predicate Visible(ch: char) { ch != ' ' && ch != '\t' && ch != CR && ch != LF }

  lemma FirstValueStep(p: Parser, ch: char)
    requires p.state == HeaderValueStart && p.nread < MAX_HEADER_SIZE && Visible(ch)
    ensures
      var q := p.(nread := p.nread + 1, state := HeaderValue, index := 0);
      var t := FirstValueChar(q, ch);
      && (t.ctl == Advance ==> StepByte(p, ch, false) == Step(t.p, [Data(OnHeaderValue, [ch])], Advance))
      && (t.ctl == Error ==> StepByte(p, ch, false) == Step(t.p, [], Error))
      && t.ctl != Reexecute && t.ctl != Exit
  {
    hide StepByte, Notes, ActsFit, Rank;
    var t := Switch(Count(p), ch, 1, false);
    assert t == SwitchValue(Count(p), ch);
    if t.ctl == Advance {
      StepOnce(p, ch, t);
      NotesSingle(Mark(OnHeaderValue));
    } else {
      StepFails(p, ch, t);
    }
  }

  lemma StepFails(p: Parser, ch: char, t: Turn)
    requires !Overflows(p) && t == Switch(Count(p), ch, 1, false) && t.ctl == Error
    ensures StepByte(p, ch, false) == Step(t.p, [], Error)
  {
    hide Switch, Turns, Owner, Notes;
    TurnsOnce(Count(p), ch, 1, false);
  }

  lemma ValueStep(p: Parser, ch: char)
    requires p.state == HeaderValue && p.nread < MAX_HEADER_SIZE && ch != CR && ch != LF
    requires ValueState(p.headerState)
    ensures
      var t := ValueChar(p.(nread := p.nread + 1), ch);
      && (t.ctl == Advance ==> StepByte(p, ch, false) == Step(t.p, [Data(OnHeaderValue, [ch])], Advance))
      && (t.ctl == Error ==> StepByte(p, ch, false) == Step(t.p, [], Error))
      && t.ctl != Reexecute && t.ctl != Exit
  {
    hide StepByte, Notes, ActsFit, Rank, MatchWord, Accumulate;
    var t := Switch(Count(p), ch, 1, false);
    assert t == SwitchValue(Count(p), ch);
    if t.ctl == Advance {
      StepOnce(p, ch, t);
      NotesNone();
    } else {
      StepFails(p, ch, t);
    }
  }

  lemma ValueEndStep(p: Parser)
    requires p.state == HeaderValue && p.nread < MAX_HEADER_SIZE
    ensures StepByte(p, CR, false) == Step(p.(nread := p.nread + 1, state := HeaderAlmostDone), [], Advance)
  {
    hide StepByte, ActsFit, Rank, ValueChar, FirstValueChar;
    var t := Switch(Count(p), CR, 1, false);
    assert t == SwitchValue(Count(p), CR);
    Quiet(p, CR, t);
  }

  /** The flags a finished header line adds. */
  function LineFlags(p: Parser): Flags {
    match p.headerState
    case KeepAlive => p.flags.(keepAlive := true)
    case Close => p.flags.(close := true)
    case Chunked => p.flags.(chunked := true)
    case _ => p.flags
  }

  lemma LineEndStep(p: Parser)
    requires p.state == HeaderAlmostDone && p.nread < MAX_HEADER_SIZE
    ensures StepByte(p, LF, false) ==
      Step(p.(nread := p.nread + 1, state := HeaderValueLws, flags := LineFlags(p)), [], Advance)
  {
    hide StepByte, ActsFit, Rank, ValueChar, FirstValueChar;
    var t := Switch(Count(p), LF, 1, false);
    assert t == SwitchValue(Count(p), LF);
    Quiet(p, LF, t);
  }

  /** LF alone after a value: the byte is read again as the end of the line. */
  lemma ValueLfStep(p: Parser)
    requires p.state == HeaderValue && p.nread < MAX_HEADER_SIZE
    ensures StepByte(p, LF, false) ==
      Step(p.(nread := p.nread + 1, state := HeaderValueLws, flags := LineFlags(p)), [], Advance)
  {
    hide StepByte, Switch, Turns, Notes, Owner, LineFlags;
    var q := Count(p);
    var t := Goto(q.(state := HeaderAlmostDone), [Callback(OnHeaderValue)]);
    SameLineFlags(p);
    var u := Next(q.(state := HeaderValueLws, flags := LineFlags(q)), []);
    ValueLfTurns(q);
    ValueLfOwner();
    TwoTurns(p, LF, t, u);
    NotesSingle(Callback(OnHeaderValue));
    NotesNone();
  }

  lemma SameLineFlags(p: Parser)
    ensures LineFlags(p.(nread := p.nread + 1)) == LineFlags(p)
  {}

  lemma ValueLfOwner()
    ensures Owner(HeaderValue, LF, HeaderValueLws) == []
  {}

  lemma ValueLfTurns(p: Parser)
    requires p.state == HeaderValue
    ensures Switch(p, LF, 1, false) == Goto(p.(state := HeaderAlmostDone), [Callback(OnHeaderValue)])
    ensures Switch(p.(state := HeaderAlmostDone), LF, 1, false) ==
      Next(p.(state := HeaderValueLws, flags := LineFlags(p)), [])
  {
    hide ActsFit, Rank, ValueChar, FirstValueChar;
    assert Switch(p, LF, 1, false) == SwitchValue(p, LF);
    assert Switch(p.(state := HeaderAlmostDone), LF, 1, false) == SwitchValue(p.(state := HeaderAlmostDone), LF);
  }

  /** The end of a line whose value is empty: an empty value is delivered. */
  lemma NoValueStep(p: Parser, ch: char)
    requires p.state == HeaderValueStart && p.nread < MAX_HEADER_SIZE && (ch == CR || ch == LF)
    ensures
      var q := p.(nread := p.nread + 1, index := 0);
      StepByte(p, ch, false) ==
        Step(if ch == CR then q.(headerState := General, state := HeaderAlmostDone) else q.(state := HeaderFieldStart),
             [Data(OnHeaderValue, [])], Advance)
  {
    hide StepByte, Notes, ActsFit, Rank, FirstValueChar;
    var t := Switch(Count(p), ch, 1, false);
    assert t == SwitchValue(Count(p), ch);
    StepOnce(p, ch, t);
    assert t.acts == [Mark(OnHeaderValue)] + [Callback(OnHeaderValue)];
    NotesConcat([Mark(OnHeaderValue)], [Callback(OnHeaderValue)]);
    NotesSingle(Mark(OnHeaderValue));
    NotesSingle(Callback(OnHeaderValue));
  }

  /** Behind a line that is not continued, every byte is read as at the start of a line. */
  lemma LwsStep(p: Parser, ch: char)
    requires p.state == HeaderValueLws && !Blank(ch) && p.nread < MAX_HEADER_SIZE
    ensures StepByte(p, ch, false) == StepByte(p.(state := HeaderFieldStart), ch, false)
  {
    hide Turns, Notes, Owner;
    LwsOwner(ch);
    LwsTurns(Count(p), ch);
  }

  lemma LwsOwner(ch: char)
    ensures forall s :: Owner(HeaderValueLws, ch, s) == Owner(HeaderFieldStart, ch, s)
  {}

  lemma LwsTurns(p: Parser, ch: char)
    requires p.state == HeaderValueLws && !Blank(ch)
    ensures Turns(p, ch, 1, false) == Turns(p.(state := HeaderFieldStart), ch, 1, false)
  {
    hide Switch, Turns, Rank;
    LwsTurn(p, ch);
    TurnsAgain(p, ch, 1, false);
    var u := Turns(p.(state := HeaderFieldStart), ch, 1, false);
    assert [] + u.acts == u.acts;
  }

  lemma LwsTurn(p: Parser, ch: char)
    requires p.state == HeaderValueLws && !Blank(ch)
    ensures Switch(p, ch, 1, false) == Goto(p.(state := HeaderFieldStart), [])
  {
    hide ActsFit, Rank, ValueChar, FirstValueChar;
    assert Switch(p, ch, 1, false) == SwitchValue(p, ch);
  }

  lemma LwsRun(p: Parser, log: Log, s: string)
    requires p.state == HeaderValueLws && s != [] && !Blank(s[0]) && p.nread < MAX_HEADER_SIZE
    ensures R(p, log, s) == R(p.(state := HeaderFieldStart), log, s)
  {
    LwsStep(p, s[0]);
    hide StepByte, Continue;
  }

  lemma TwoTurns(p: Parser, ch: char, t: Turn, u: Turn)
    requires !Overflows(p) && t == Switch(Count(p), ch, 1, false) && t.ctl == Reexecute && t.skip == 0
    requires u == Switch(t.p, ch, 1, false) && u.ctl == Advance
    ensures StepByte(p, ch, false) == Step(u.p, Owner(p.state, ch, u.p.state) + (Notes(t.acts) + Notes(u.acts)),
        Advance)
  {
    hide Switch, Turns, Owner, Notes;
    TurnsAgain(Count(p), ch, 1, false);
    TurnsOnce(t.p, ch, 1, false);
    NotesConcat(t.acts, u.acts);
  }

  // ---- end of headers ----------------------------------------------------

  /** LF of the empty line, after CR or alone: the head is complete and the framing decided, in
      one byte. */
  lemma EmptyLineStep(p: Parser)
    requires p.state == HeadersAlmostDone || p.state == HeaderFieldStart
    requires p.nread < MAX_HEADER_SIZE && !p.flags.trailing
    ensures
      var u := SwitchEnd(AtFraming(p.(nread := p.nread + 1)), LF, false);
      && (u.ctl == Advance || u.ctl == Exit)
      && StepByte(p, LF, false) == Step(u.p, [HeadersComplete] + Notes(u.acts), u.ctl)
  {
    hide StepByte, Switch, SwitchEnd, Turns, Notes, Owner, AtFraming, Count, Overflows;
    EmptyLineCounts(p);
    EmptyTurns(p.(nread := p.nread + 1));
    var u := SwitchEnd(AtFraming(p.(nread := p.nread + 1)), LF, false);
    NotesConcat([Notify(HeadersComplete)], u.acts);
    NotesSingle(Notify(HeadersComplete));
    FramingTurn(AtFraming(p.(nread := p.nread + 1)));
    StepIs(p, LF, Turn(u.p, [Notify(HeadersComplete)] + u.acts, u.ctl, 0));
  }

  /** The parser when on_headers_complete has answered. */
  function AtFraming(p: Parser): (q: Parser)
    ensures q.state == HeadersDone
  {
    p.(state := HeadersDone, upgrade := p.flags.upgrade || p.verb == CONNECT)
  }

  lemma EmptyLineCounts(p: Parser)
    requires (p.state == HeadersAlmostDone || p.state == HeaderFieldStart) && p.nread < MAX_HEADER_SIZE
    ensures !Overflows(p) && Count(p) == p.(nread := p.nread + 1)
  {}

  lemma EmptyTurns(p: Parser)
    requires (p.state == HeadersAlmostDone || p.state == HeaderFieldStart) && !p.flags.trailing
    ensures
      var u := SwitchEnd(AtFraming(p), LF, false);
      Turns(p, LF, 1, false) == Turn(u.p, [Notify(HeadersComplete)] + u.acts, u.ctl, 0)
  {
    hide Switch, Turns, SwitchEnd, Rank, ActsFit;
    var q := p.(state := HeadersAlmostDone);
    HeadTurns(q);
    if p.state == HeaderFieldStart {
      FieldStartTurn(p);
      TurnsAgain(p, LF, 1, false);
      var u := SwitchEnd(AtFraming(p), LF, false);
      assert [] + ([Notify(HeadersComplete)] + u.acts) == [Notify(HeadersComplete)] + u.acts;
    }
  }

  lemma FieldStartTurn(p: Parser)
    requires p.state == HeaderFieldStart
    ensures Switch(p, LF, 1, false) == Goto(p.(state := HeadersAlmostDone), [])
  {
    hide ActsFit, Rank, FieldChar;
    assert Switch(p, LF, 1, false) == SwitchField(p, LF);
  }

  lemma HeadTurns(p: Parser)
    requires p.state == HeadersAlmostDone && !p.flags.trailing
    ensures
      var u := SwitchEnd(AtFraming(p), LF, false);
      Turns(p, LF, 1, false) == Turn(u.p, [Notify(HeadersComplete)] + u.acts, u.ctl, 0)
  {
    hide Switch, Turns, SwitchEnd, Rank, ActsFit;
    HeadTurn(p);
    var q := AtFraming(p);
    FramingTurn(q);
    TurnsAgain(p, LF, 1, false);
    TurnsOnce(q, LF, 1, false);
  }

  lemma HeadTurn(p: Parser)
    requires p.state == HeadersAlmostDone && !p.flags.trailing
    ensures Switch(p, LF, 1, false) ==
      Goto(AtFraming(p), [Notify(HeadersComplete)])
  {
    hide ActsFit, Rank;
    assert Switch(p, LF, 1, false) == SwitchEnd(p, LF, false);
  }

  lemma FramingTurn(p: Parser)
    requires p.state == HeadersDone
    ensures
      var u := SwitchEnd(p, LF, false);
      && Switch(p, LF, 1, false) == u && (u.ctl == Advance || u.ctl == Exit) && u.skip == 0
      && Owner(HeadersAlmostDone, LF, u.p.state) == [] && Owner(HeaderFieldStart, LF, u.p.state) == []
  {
    hide ActsFit, Rank, NeedsEof;
  }

  /** The empty line behind a trailer. */
  lemma TrailerEndStep(p: Parser)
    requires p.state == HeadersAlmostDone || p.state == HeaderFieldStart
    requires p.nread < MAX_HEADER_SIZE && p.flags.trailing
    ensures
      var q := p.(nread := p.nread + 1);
      StepByte(p, LF, false) == Step(q.(state := NewMessage(q)), [MessageComplete], Advance)
  {
    hide StepByte, Switch, Turns, Notes, Owner, NewMessage, Count, Overflows;
    var q := p.(nread := p.nread + 1);
    EmptyLineCounts(p);
    TrailerTurns(q);
    NewMessagePlain(q);
    NotesSingle(Notify(MessageComplete));
    StepIs(p, LF, Next(q.(state := NewMessage(q)), [Notify(MessageComplete)]));
    NoOwner(p.state, NewMessage(q));
  }

  lemma NoOwner(before: State, after: State)
    requires before == HeadersAlmostDone || before == HeaderFieldStart
    requires LiveKind(after).None?
    ensures Owner(before, LF, after) == []
  {}

  lemma TrailerTurns(p: Parser)
    requires (p.state == HeadersAlmostDone || p.state == HeaderFieldStart) && p.flags.trailing
    ensures Turns(p, LF, 1, false) == Next(p.(state := NewMessage(p)), [Notify(MessageComplete)])
  {
    hide Switch, Turns, NewMessage, Rank;
    var q := p.(state := HeadersAlmostDone);
    TrailerTurn(q);
    if p.state == HeaderFieldStart { FieldStartTurn(p); }
    TurnsOnce(q, LF, 1, false);
    if p.state == HeaderFieldStart {
      TurnsAgain(p, LF, 1, false);
      assert [] + [Notify(MessageComplete)] == [Notify(MessageComplete)];
    }
  }

  lemma NewMessagePlain(p: Parser)
    ensures LiveKind(NewMessage(p)).None?
  {}

  lemma TrailerTurn(p: Parser)
    requires p.state == HeadersAlmostDone && p.flags.trailing
    ensures Switch(p, LF, 1, false) == Next(p.(state := NewMessage(p)), [Notify(MessageComplete)])
    ensures forall s :: NewMessage(p.(state := s)) == NewMessage(p)
  {
    hide ActsFit, Rank;
    assert Switch(p, LF, 1, false) == SwitchEnd(p, LF, false);
  }

  /** CR at the start of a line begins the empty line. */
  lemma BlankCrStep(p: Parser)
    requires p.state == HeaderFieldStart && p.nread < MAX_HEADER_SIZE
    ensures StepByte(p, CR, false) == Step(p.(nread := p.nread + 1, state := HeadersAlmostDone), [], Advance)
  {
    hide StepByte, ActsFit, Rank, FieldChar;
    var t := Switch(Count(p), CR, 1, false);
    assert t == SwitchField(Count(p), CR);
    Quiet(p, CR, t);
  }

  // ---- bodies and chunks -------------------------------------------------

  /** A body of exactly the announced length, and the end of its message. */
  lemma WholeBody(p: Parser, log: Log, body: string)
    requires p.state == BodyIdentity && p.contentLength == |body| && 0 < |body| < NO_LENGTH
    ensures
      var q := p.(contentLength := 0, state := MessageDone);
      R(p, log, body) == Run(q.(state := NewMessage(q)), Add(Add(log, Data(OnBody, body)), MessageComplete),
          |body|, false)
  {
    hide RunMid, Switch, Turns, Add, MidStep, Notes;
    UncountedRun(p, log, body, 0, false);
    BodyJump(p, log, body, 0, |body|, false);
    assert body[0..|body|] == body;
    var q := p.(contentLength := 0, state := MessageDone);
    BodyDone(q, Add(log, Data(OnBody, body)), body);
  }

  lemma BodyDone(q: Parser, log: Log, body: string)
    requires q.state == MessageDone && |body| > 0
    ensures RunMid(q, log, body, |body| - 1, false)
         == Run(q.(state := NewMessage(q)), Add(log, MessageComplete), |body|, false)
  {
    hide Switch, Turns, Add, Notes, MidStep, AddAll;
    DoneStep(q, body[|body| - 1], false);
    NotesSingle(Notify(MessageComplete));
    AddAllOne(log, MessageComplete);
    var s := MidStep(q, body[|body| - 1], false);
    assert s == Step(q.(state := NewMessage(q)), [MessageComplete], Advance);
    assert Continue(s, log, body, |body| - 1, false)
        == RunFrom(s.p, AddAll(log, [MessageComplete]), body, |body|, false);
  }

  /** A proper part of a body leaves the rest of the length to be read. */
  lemma PartBody(p: Parser, log: Log, part: string)
    requires p.state == BodyIdentity && 0 < |part| < p.contentLength < NO_LENGTH
    ensures R(p, log, part)
         == Run(p.(contentLength := p.contentLength - |part|), Add(log, Data(OnBody, part)), |part|, false)
  {
    hide RunMid, Add, StepByte;
    UncountedRun(p, log, part, 0, false);
    BodyJump(p, log, part, 0, |part|, false);
    assert part[0..|part|] == part;
  }

  lemma ChunkBytes(p: Parser, log: Log, data: string)
    requires p.state == ChunkData && p.flags.chunked && p.contentLength == |data| && 0 < |data| < NO_LENGTH
    ensures R(p, log, data)
         == Run(p.(contentLength := 0, state := Chunk(DataAlmostDone)), Add(log, Data(OnBody, data)), |data|, false)
  {
    hide RunMid, Add, StepByte;
    UncountedRun(p, log, data, 0, false);
    BodyJump(p, log, data, 0, |data|, false);
    assert data[0..|data|] == data;
  }

  lemma ChunkStep(p: Parser, ch: char)
    requires p.state.Chunk? && !Overflows(p)
    requires var t := SwitchChunk(Count(p), ch); t.ctl == Advance && LiveKind(t.p.state).None?
    ensures StepByte(p, ch, false) == Step(SwitchChunk(Count(p), ch).p, [], Advance)
  {
    hide StepByte, Rank, Accumulate, ActsFit, Unhex;
    var t := Switch(Count(p), ch, 1, false);
    assert t == SwitchChunk(Count(p), ch);
    ChunkActs(Count(p), ch);
    Quiet(p, ch, t);
  }

  /** The framing of chunks runs at most the callback that ends the data of one. */
  lemma ChunkActs(p: Parser, ch: char)
    requires p.state.Chunk? && SwitchChunk(p, ch).ctl == Advance
    ensures var t := SwitchChunk(p, ch); |t.acts| <= 1 && (|t.acts| == 1 ==> !t.acts[0].Notify?)
  {
    hide Accumulate, ActsFit, Rank, Unhex;
  }

  lemma ChunkFails(p: Parser, ch: char)
    requires p.state.Chunk? && !Overflows(p) && SwitchChunk(Count(p), ch).ctl == Error
    ensures StepByte(p, ch, false) == Step(SwitchChunk(Count(p), ch).p, [], Error)
  {
    hide StepByte, Rank, Accumulate, SwitchChunk;
    var t := Switch(Count(p), ch, 1, false);
    assert t == SwitchChunk(Count(p), ch);
    StepFails(p, ch, t);
  }
}

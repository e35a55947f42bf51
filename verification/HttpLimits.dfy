/** The limit on the size of a head: no text without an empty line gets past it. */
module HttpLimits {
  import opened Wrappers
  import opened HttpTypes
  import opened HttpSwitch
  import opened HttpRun
  import opened HttpInvariant
  import opened HttpSegments
  import opened HttpSteps
  import opened HttpTokens

  /** The states in which a line of a head begins. */
  predicate LineStart(s: State) { s.HeaderFieldStart? || s.HeaderValueLws? }

  /** Inside a head, from the first byte of a start line to its empty line. */
  predicate InHead(s: State) {
    || s.StartReqOrRes? || s.ResOrRespH? || s.StartRes? || s.StartReq?
    || s.StatusLine? || s.ReqMethod? || s.Url? || s.Version?
    || InField(s) || InValue(s) || s.HeadersAlmostDone?
  }

  /** The LF that would end the head in this state. */
  predicate EndsHead(s: State, ch: char) { ch == LF && (LineStart(s) || s.HeadersAlmostDone?) }

  /** A turn that fails or stays in the head without touching the count; a line begins only behind
      an LF, and only the CR of an empty line leads to its end. */
  ghost predicate Stays(p: Parser, ch: char, t: Turn) {
    t.ctl != Error ==>
      && t.ctl != Exit && t.p.nread == p.nread && InHead(t.p.state)
      && (LineStart(t.p.state) ==> ch == LF || (LineStart(p.state) && t.ctl == Reexecute))
      && (t.p.state.HeadersAlmostDone? ==> LineStart(p.state) && ch == CR && t.ctl == Advance)
      && (t.ctl == Reexecute ==> !EndsHead(t.p.state, ch))
  }

  lemma StartStays(p: Parser, ch: char)
    requires InStart(p.state) && !p.state.Dead?
    ensures Stays(p, ch, SwitchStart(p, ch))
  {
    hide ActsFit, Rank, FirstMethod;
  }

  lemma StatusStays(p: Parser, ch: char)
    requires p.state.StatusLine?
    ensures Stays(p, ch, SwitchResponseLine(p, ch))
  {
    hide ActsFit, Rank;
  }

  lemma MethodStays(p: Parser, ch: char)
    requires p.state.ReqMethod?
    ensures Stays(p, ch, SwitchMethod(p, ch))
  {
    hide ActsFit, Rank, SiblingMethod, MethodName;
  }

  lemma UrlStays(p: Parser, ch: char)
    requires p.state.Url?
    ensures Stays(p, ch, SwitchUrl(p, ch))
  {
    hide ActsFit, Rank, UrlChars.ParseUrlChar;
  }

  lemma VersionStays(p: Parser, ch: char)
    requires p.state.Version?
    ensures Stays(p, ch, SwitchRequestVersion(p, ch))
  {
    hide ActsFit, Rank;
  }

  lemma FieldStays(p: Parser, ch: char)
    requires InField(p.state) && !EndsHead(p.state, ch)
    ensures Stays(p, ch, SwitchField(p, ch))
  {
    hide ActsFit, Rank, FieldChar, IsToken;
  }

  lemma ValueStays(p: Parser, ch: char)
    requires InValue(p.state) && !EndsHead(p.state, ch)
    ensures Stays(p, ch, SwitchValue(p, ch))
  {
    hide ActsFit, Rank, MatchWord, Accumulate;
  }

  lemma EndStays(p: Parser, ch: char)
    requires p.state.HeadersAlmostDone? && !EndsHead(p.state, ch)
    ensures SwitchEnd(p, ch, false).ctl == Error
  {
    hide ActsFit, Rank;
  }

  lemma SwitchStays(p: Parser, ch: char)
    requires InHead(p.state) && !EndsHead(p.state, ch)
    ensures Stays(p, ch, Switch(p, ch, 1, false))
  {
    hide SwitchStart, SwitchResponseLine, SwitchMethod, SwitchUrl, SwitchRequestVersion;
    hide SwitchField, SwitchValue, SwitchEnd, SwitchChunk, SwitchBody, Stays;
    if InStart(p.state) { StartStays(p, ch); }
    else if p.state.StatusLine? { StatusStays(p, ch); }
    else if p.state.ReqMethod? { MethodStays(p, ch); }
    else if p.state.Url? { UrlStays(p, ch); }
    else if p.state.Version? { VersionStays(p, ch); }
    else if InField(p.state) { FieldStays(p, ch); }
    else if InValue(p.state) { ValueStays(p, ch); }
    else { EndStays(p, ch); ErrorStays(p, ch, SwitchEnd(p, ch, false)); }
  }

  lemma ErrorStays(p: Parser, ch: char, t: Turn)
    requires t.ctl == Error
    ensures Stays(p, ch, t)
  {}

  /** A byte of a head that is not the end of an empty line: an error, or one more byte counted. */
  ghost predicate Counted(p: Parser, ch: char, q: Parser) {
    && q.nread == p.nread && InHead(q.state)
    && (LineStart(q.state) ==> ch == LF) && (q.state.HeadersAlmostDone? ==> LineStart(p.state) && ch == CR)
  }

  lemma {:induction false} TurnsStay(p: Parser, ch: char)
    requires InHead(p.state) && !EndsHead(p.state, ch)
    ensures var t := Turns(p, ch, 1, false); t.ctl != Error ==> t.ctl == Advance && Counted(p, ch, t.p)
    decreases Rank(p.state)
  {
    hide Switch, Turns, Rank;
    SwitchStays(p, ch);
    var t := Switch(p, ch, 1, false);
    if t.ctl == Reexecute {
      RankFalls(p, ch);
      TurnsAgain(p, ch, 1, false);
      NoSkip(p, ch);
      TurnsStay(t.p, ch);
    } else {
      TurnsOnce(p, ch, 1, false);
    }
  }

  lemma RankFalls(p: Parser, ch: char)
    requires Switch(p, ch, 1, false).ctl == Reexecute
    ensures Rank(Switch(p, ch, 1, false).p.state) < Rank(p.state)
  {}

  lemma NoSkip(p: Parser, ch: char)
    requires InHead(p.state)
    ensures Switch(p, ch, 1, false).skip == 0
  {}

  lemma StepCounts(p: Parser, ch: char)
    requires Good(p, 0) && InHead(p.state) && !EndsHead(p.state, ch)
    ensures
      var s := StepByte(p, ch, false);
      if p.nread == MAX_HEADER_SIZE then s == Step(p.(nread := p.nread + 1, errno := HeaderOverflow), [], Error)
      else s.ctl != Error ==>
        && s.ctl == Advance && s.p.nread == p.nread + 1 && InHead(s.p.state)
        && (LineStart(s.p.state) ==> ch == LF)
        && (s.p.state.HeadersAlmostDone? ==> LineStart(p.state) && ch == CR)
  {
    hide Turns, Notes, Owner;
    HeadCounts(p);
    TurnsStay(Count(p), ch);
  }

  lemma HeadCounts(p: Parser)
    requires Good(p, 0) && InHead(p.state)
    ensures ParsingHeader(p.state) && p.nread <= MAX_HEADER_SIZE
  {}

  // ---- texts without an empty line ---------------------------------------

  /** Byte `i` ends an empty line: an LF behind an LF, or behind a CR that is behind an LF; the text
      itself begins a line. */
  predicate EmptyLineAt(s: string, i: nat)
    requires i < |s|
  {
    s[i] == LF && (i == 0 || s[i - 1] == LF || (s[i - 1] == CR && (i == 1 || s[i - 2] == LF)))
  }

  predicate NoEmptyLine(s: string) { forall i :: 0 <= i < |s| ==> !EmptyLineAt(s, i) }

  /** Where the parser can be after the first `i` bytes of such a text. */
  ghost predicate InText(q: Parser, s: string, i: nat)
    requires i <= |s|
  {
    && Good(q, 0) && InHead(q.state)
    && (LineStart(q.state) ==> i == 0 || s[i - 1] == LF)
    && (q.state.HeadersAlmostDone? ==> i >= 1 && s[i - 1] == CR && (i == 1 || s[i - 2] == LF))
  }

  /** Within the limit nothing is reset, beyond it the parser stops. */
  lemma {:induction false} TextRun(q: Parser, log: Log, s: string, i: nat)
    requires i <= |s| && NoEmptyLine(s) && InText(q, s, i)
    ensures
      var r := RunFrom(q, log, s, i, false);
      if q.nread + |s| - i > MAX_HEADER_SIZE then r.p.errno != OK
      else r.p.errno == OK ==> r.p.nread == q.nread + |s| - i && !r.halted
    decreases |s| - i
  {
    hide StepByte, AddAll, Good, InHead;
    TextFacts(q, s, i);
    if i < |s| {
      assert !EmptyLineAt(s, i);
      StepCounts(q, s[i]);
      StepKeepsGood(q, s[i], false);
      var t := StepByte(q, s[i], false);
      if t.ctl == Advance {
        TextRun(t.p, AddAll(log, t.events), s, i + 1);
      }
    }
  }

  lemma TextFacts(q: Parser, s: string, i: nat)
    requires i <= |s| && NoEmptyLine(s) && InText(q, s, i)
    ensures Good(q, 0) && InHead(q.state) && q.errno == OK && q.nread <= MAX_HEADER_SIZE
    ensures i < |s| ==> !EndsHead(q.state, s[i])
  {
    if i < |s| { assert !EmptyLineAt(s, i); }
  }

  /** The limit is 80 KiB: whatever is sent, a text of more than 81920 bytes without an empty line,
      from the start of a message or of a line on, is rejected. */
  lemma LongHeadRejected(p: Parser, log: Log, s: string)
    requires Good(p, 0) && InHead(p.state) && !p.state.HeadersAlmostDone? && NoEmptyLine(s)
    requires p.nread + |s| > 81920
    ensures R(p, log, s).p.errno != OK
  {
    hide RunFrom, Good, InHead;
    TextRun(p, log, s, 0);
  }

  /** The byte behind the 81920th is refused as an overflow. */
  lemma OverflowStops(p: Parser, log: Log, c: char, rest: string)
    requires Good(p, 0) && ParsingHeader(p.state) && p.nread == 81920
    ensures Rejected(p, log, [c] + rest, 0, log, HeaderOverflow)
  {
    var q := p.(nread := p.nread + 1, errno := HeaderOverflow);
    assert StepByte(p, c, false) == Step(q, [], Error) by { hide MidStep; }
    hide *;
    Stops(p, log, c, rest);
    RejectedHere(p, log, [c] + rest, q);
  }

  /** Once the connection is to be closed, line ends are skipped and anything else is refused. */
  lemma DeadRejects(p: Parser, log: Log, c: char, rest: string)
    requires Good(p, 0) && p.state == Dead && p.nread < 81920 && c != CR && c != LF
    ensures Rejected(p, log, [c] + rest, 0, log, ClosedConnection)
  {
    hide *;
    DeadStep(p, c);
    Stops(p, log, c, rest);
    RejectedHere(p, log, [c] + rest, p.(nread := p.nread + 1, errno := ClosedConnection));
  }

  lemma DeadStep(p: Parser, c: char)
    requires p.state == Dead && p.nread < 81920 && c != CR && c != LF
    ensures StepByte(p, c, false) == Step(p.(nread := p.nread + 1, errno := ClosedConnection), [], Error)
  {
    hide StepByte, ActsFit, Rank, FirstMethod;
    var t := Switch(Count(p), c, 1, false);
    assert t == SwitchStart(Count(p), c);
    StepFails(p, c, t);
  }

  lemma DeadSkips(p: Parser, log: Log, c: char)
    requires Good(p, 0) && p.state == Dead && p.nread < 81920 && (c == CR || c == LF)
    ensures Goes(p, log, [c], p.(nread := p.nread + 1), log)
  {
    GoodIsOk(p);
    hide Goes, StepByte, AddAll, ActsFit, Rank, FirstMethod;
    var t := Switch(Count(p), c, 1, false);
    assert t == SwitchStart(Count(p), c);
    Quiet(p, c, t);
    OneByte(p, log, c, p.(nread := p.nread + 1), []);
    AddAllNone(log);
  }
}

/** Responses: the status line, and where the body ends when neither a length nor chunks say so. */
module HttpResponses {
  import opened Wrappers
  import opened HttpTypes
  import opened HttpSwitch
  import opened HttpRun
  import opened HttpInvariant
  import opened HttpExecute
  import opened HttpSegments
  import opened HttpSteps
  import opened HttpNames
  import opened HttpNumerals
  import opened HttpValues
  import opened HttpLines
  import opened HttpMessages
  import opened HttpRequestLine

  // ---- single bytes ------------------------------------------------------

  lemma StatusByte(p: Parser, log: Log, c: char, q: Parser)
    requires p.state.StatusLine? && p.nread < MAX_HEADER_SIZE && p.errno == OK
    requires SwitchResponseLine(p.(nread := p.nread + 1), c) == Next(q, []) && q.errno == OK
    ensures Goes(p, log, [c], q, log)
  {
    hide StepByte, ActsFit, Rank, AddAll, Goes, SwitchResponseLine;
    var t := Switch(Count(p), c, 1, false);
    assert t == SwitchResponseLine(Count(p), c);
    StatusQuiet(p, c);
    Quiet(p, c, t);
    OneByte(p, log, c, q, []);
    AddAllNone(log);
  }

  lemma StatusQuiet(p: Parser, c: char)
    requires p.state.StatusLine? && SwitchResponseLine(p.(nread := p.nread + 1), c).ctl == Advance
    ensures LiveKind(SwitchResponseLine(p.(nread := p.nread + 1), c).p.state).None?
  {
    hide ActsFit, Rank;
  }

  // ---- numbers -----------------------------------------------------------

  /** The three numbers of a status line. */
  datatype Number = MajorNumber | MinorNumber | CodeNumber

  function FirstDigitAt(n: Number): StatusPos {
    match n
    case MajorNumber => ResFirstMajor
    case MinorNumber => ResFirstMinor
    case CodeNumber => ResFirstStatusCode
  }

  function AfterNumber(p: Parser, ds: string, n: Number): Parser {
    match n
    case MajorNumber => p.(state := StatusLine(ResMajor), httpMajor := Value(ds, 10), nread := p.nread + |ds|)
    case MinorNumber => p.(state := StatusLine(ResMinor), httpMinor := Value(ds, 10), nread := p.nread + |ds|)
    case CodeNumber => p.(state := StatusLine(ResStatusCode), statusCode := Value(ds, 10), nread := p.nread + |ds|)
  }

  lemma FirstNumberDigit(p: Parser, c: char, n: Number)
    requires p.state == StatusLine(FirstDigitAt(n)) && IsNum(c)
    ensures SwitchResponseLine(p.(nread := p.nread + 1), c) == Next(AfterNumber(p, [c], n), [])
  {
    hide ActsFit, Rank;
    assert [c][..0] == [] && Value([], 10) == 0;
    assert Value([c], 10) == Digit(c);
  }

  lemma MoreNumberDigit(p: Parser, init: string, c: char, n: Number)
    requires IsNum(c) && Value(init + [c], 10) <= 999
    ensures
      var q := AfterNumber(p, init, n);
      SwitchResponseLine(q.(nread := q.nread + 1), c) == Next(AfterNumber(p, init + [c], n), [])
  {
    hide ActsFit, Rank, Value;
    ValueMore(init, c);
  }

  lemma {:induction false} NumberRun(p: Parser, log: Log, ds: string, n: Number)
    requires Good(p, 0) && p.state == StatusLine(FirstDigitAt(n))
    requires Decimal(ds) && Value(ds, 10) <= 999 && p.nread + |ds| <= MAX_HEADER_SIZE
    ensures Goes(p, log, ds, AfterNumber(p, ds, n), log)
    decreases |ds|
  {
    hide Goes, Good, ActsFit, Rank, SwitchResponseLine, Value;
    GoodIsOk(p);
    var c := Last(ds);
    assert c in ds;
    if |ds| == 1 {
      assert ds == [c];
      FirstNumberDigit(p, c, n);
      StatusByte(p, log, c, AfterNumber(p, ds, n));
    } else {
      var init := AllButLast(ds);
      assert ds == init + [c];
      assert Decimal(init) by { forall d | d in init ensures IsNum(d) { assert d in ds; } }
      LastDigit(ds, 10);
      NumberRun(p, log, init, n);
      var q := AfterNumber(p, init, n);
      MoreNumberDigit(p, init, c, n);
      StatusByte(q, log, c, AfterNumber(p, ds, n));
      Then(p, log, init, q, log, [c], AfterNumber(p, ds, n), log);
    }
  }

  // ---- the status line ---------------------------------------------------

  /** A status line as written: version, blanks, a code, and a reason or none. */
  datatype StatusText = StatusText(
    major: string, minor: string, gap: string, code: string, reason: Option<string>, crlf: bool)

  predicate IsReason(s: string) { forall c :: c in s ==> c != CR && c != LF }

  predicate StatusOk(s: StatusText) {
    && Decimal(s.major) && Value(s.major, 10) <= 999 && Decimal(s.minor) && Value(s.minor, 10) <= 999
    && Blanks(s.gap) && Decimal(s.code) && Value(s.code, 10) <= 999 && (s.reason.Some? ==> IsReason(s.reason.value))
  }

  function WriteReason(r: Option<string>): string { if r.Some? then " " + r.value else [] }

  function WriteNumbers(s: StatusText): string { s.major + "." + s.minor + " " + s.gap + s.code }

  function WriteStatus(s: StatusText): string {
    "HT" + "TP/" + WriteNumbers(s) + WriteReason(s.reason) + Eol(s.crlf)
  }

  lemma {:induction false} StatusGap(p: Parser, log: Log, s: string)
    requires Good(p, 0) && p.state == StatusLine(ResFirstStatusCode) && Blanks(s) && p.nread + |s| <= MAX_HEADER_SIZE
    ensures Goes(p, log, s, p.(nread := p.nread + |s|), log)
    decreases |s|
  {
    hide Goes, Good, ActsFit, Rank;
    GoodIsOk(p);
    if s == [] {
      NoBytes(p, log);
    } else {
      var init, c := AllButLast(s), Last(s);
      assert s == init + [c] && c in s;
      assert Blanks(init) by { forall d | d in init ensures d == ' ' { assert d in s; } }
      StatusGap(p, log, init);
      var q := p.(nread := p.nread + |init|);
      StatusByte(q, log, ' ', p.(nread := p.nread + |s|));
      Then(p, log, init, q, log, [c], p.(nread := p.nread + |s|), log);
    }
  }

  lemma {:induction false} ReasonRun(p: Parser, log: Log, s: string)
    requires Good(p, 0) && p.state == StatusLine(ResStatus) && IsReason(s) && p.nread + |s| <= MAX_HEADER_SIZE
    ensures Goes(p, log, s, p.(nread := p.nread + |s|), log)
    decreases |s|
  {
    hide Goes, Good, ActsFit, Rank;
    GoodIsOk(p);
    if s == [] {
      NoBytes(p, log);
    } else {
      var init, c := AllButLast(s), Last(s);
      assert s == init + [c] && c in s;
      assert IsReason(init) by { forall d | d in init ensures d != CR && d != LF { assert d in s; } }
      ReasonRun(p, log, init);
      var q := p.(nread := p.nread + |init|);
      StatusByte(q, log, c, p.(nread := p.nread + |s|));
      Then(p, log, init, q, log, [c], p.(nread := p.nread + |s|), log);
    }
  }

  /** Waiting for a response, or for either kind of message. */
  ghost predicate Awaiting(p: Parser) {
    && Good(p, 0) && !p.upgrade
    && ((p.state == StartRes && p.kind == Response) || p.state == StartReqOrRes)
  }

  function Begun(p: Parser): Parser { p.(flags := NO_FLAGS, contentLength := NO_LENGTH, kind := Response) }

  function AfterFirst(p: Parser): Parser {
    p.(flags := NO_FLAGS, contentLength := NO_LENGTH, nread := p.nread + 1,
       state := if p.state == StartRes then StatusLine(ResH) else ResOrRespH)
  }

  lemma FirstLetter(p: Parser)
    requires Awaiting(p) && p.nread < MAX_HEADER_SIZE
    ensures StepByte(p, 'H', false) == Step(AfterFirst(p), [MessageBegin], Advance)
  {
    hide StepByte, ActsFit, Rank, Notes, FirstMethod, Good;
    var t := Switch(Count(p), 'H', 1, false);
    assert t == SwitchStart(Count(p), 'H');
    StepOnce(p, 'H', t);
    NotesSingle(Notify(MessageBegin));
  }

  lemma EitherLetter(p: Parser)
    requires p.state == ResOrRespH && p.nread < MAX_HEADER_SIZE
    ensures StepByte(p, 'T', false) ==
      Step(p.(kind := Response, state := StatusLine(ResHT), nread := p.nread + 1), [], Advance)
  {
    hide StepByte, ActsFit, Rank, FirstMethod;
    var t := Switch(Count(p), 'T', 1, false);
    assert t == SwitchStart(Count(p), 'T');
    Quiet(p, 'T', t);
  }

  lemma SecondLetter(p: Parser, log: Log)
    requires p.errno == OK && p.state == StatusLine(ResH) && p.nread < MAX_HEADER_SIZE
    ensures Goes(p, log, "T", p.(state := StatusLine(ResHT), nread := p.nread + 1), log)
  {
    hide Goes, ActsFit, Rank;
    StatusByte(p, log, 'T', p.(state := StatusLine(ResHT), nread := p.nread + 1));
  }

  /** The first two letters tell a response from a request. */
  lemma LettersBegin(p: Parser, log: Log)
    requires Awaiting(p) && p.nread + 2 <= MAX_HEADER_SIZE
    ensures Goes(p, log, "HT", Begun(p).(state := StatusLine(ResHT), nread := p.nread + 2), Add(log, MessageBegin))
  {
    hide Goes, StepByte, Add, AddAll, R, Good;
    var log1 := Add(log, MessageBegin);
    var q := AfterFirst(p);
    AwaitingOk(p);
    FirstLetter(p);
    OneByte(p, log, 'H', q, [MessageBegin]);
    AddAllOne(log, MessageBegin);
    var r := Begun(p).(state := StatusLine(ResHT), nread := p.nread + 2);
    if p.state == StartRes {
      SecondLetter(q, log1);
    } else {
      EitherGoes(q, log1);
    }
    Then(p, log, "H", q, log1, "T", r, log1);
    assert "H" + "T" == "HT";
  }

  lemma AwaitingOk(p: Parser)
    requires Awaiting(p)
    ensures Good(p, 0) && p.errno == OK
  {}

  lemma EitherGoes(p: Parser, log: Log)
    requires p.state == ResOrRespH && p.nread < MAX_HEADER_SIZE && p.errno == OK
    ensures Goes(p, log, "T", p.(kind := Response, state := StatusLine(ResHT), nread := p.nread + 1), log)
  {
    hide Goes, StepByte, AddAll;
    EitherLetter(p);
    OneByte(p, log, 'T', p.(kind := Response, state := StatusLine(ResHT), nread := p.nread + 1), []);
    AddAllNone(log);
  }

  lemma LettersEnd(p: Parser, log: Log)
    requires Good(p, 0) && p.state == StatusLine(ResHT) && p.nread + 3 <= MAX_HEADER_SIZE
    ensures Goes(p, log, "TP/", p.(state := StatusLine(ResFirstMajor), nread := p.nread + 3), log)
  {
    hide Goes, Good, ActsFit, Rank;
    GoodIsOk(p);
    var q1 := p.(state := StatusLine(ResHTT), nread := p.nread + 1);
    var q2 := p.(state := StatusLine(ResHTTP), nread := p.nread + 2);
    var q3 := p.(state := StatusLine(ResFirstMajor), nread := p.nread + 3);
    StatusByte(p, log, 'T', q1);
    StatusByte(q1, log, 'P', q2);
    StatusByte(q2, log, '/', q3);
    Then(p, log, "T", q1, log, "P", q2, log);
    Then(p, log, "T" + "P", q2, log, "/", q3, log);
    assert "T" + "P" + "/" == "TP/";
  }

  /** Behind the code. */
  function Numbered(p: Parser, s: StatusText): Parser {
    p.(state := StatusLine(ResStatusCode), httpMajor := Value(s.major, 10), httpMinor := Value(s.minor, 10),
       statusCode := Value(s.code, 10), nread := p.nread + |WriteNumbers(s)|)
  }

  lemma NumbersRun(p: Parser, log: Log, s: StatusText)
    requires Good(p, 0) && p.state == StatusLine(ResFirstMajor) && StatusOk(s)
      && p.nread + |WriteNumbers(s)| <= MAX_HEADER_SIZE
    ensures Goes(p, log, WriteNumbers(s), Numbered(p, s), log)
  {
    hide Goes, Good, Value, Decimal, Blanks, R, SwitchResponseLine, IsReason;
    GoodIsOk(p);
    NumberRun(p, log, s.major, MajorNumber);
    var q1 := AfterNumber(p, s.major, MajorNumber);
    Compose(p, log, s.major, q1, log, []);
    var q2 := q1.(state := StatusLine(ResFirstMinor), nread := q1.nread + 1);
    DotBehind(q1, log);
    Then(p, log, s.major, q1, log, ".", q2, log);
    Compose(p, log, s.major + ".", q2, log, []);
    NumberRun(q2, log, s.minor, MinorNumber);
    var q3 := AfterNumber(q2, s.minor, MinorNumber);
    Then(p, log, s.major + ".", q2, log, s.minor, q3, log);
    Compose(p, log, s.major + "." + s.minor, q3, log, []);
    BlankBehind(q3, log);
    var q4 := q3.(state := StatusLine(ResFirstStatusCode), nread := q3.nread + 1);
    Then(p, log, s.major + "." + s.minor, q3, log, " ", q4, log);
    CodeRun(p, log, s.major + "." + s.minor + " ", q4, s);
  }

  lemma CodeRun(p: Parser, log: Log, front: string, q4: Parser, s: StatusText)
    requires Good(p, 0) && Goes(p, log, front, q4, log) && q4.state == StatusLine(ResFirstStatusCode) && StatusOk(s)
    requires q4.nread + |s.gap| + |s.code| <= MAX_HEADER_SIZE
    ensures Goes(p, log, front + s.gap + s.code, q4.(state := StatusLine(ResStatusCode),
        statusCode := Value(s.code, 10), nread := q4.nread + |s.gap| + |s.code|), log)
  {
    hide Goes, Good, Value, Decimal, Blanks, R, SwitchResponseLine, IsReason;
    Compose(p, log, front, q4, log, []);
    StatusGap(q4, log, s.gap);
    var q5 := q4.(nread := q4.nread + |s.gap|);
    Then(p, log, front, q4, log, s.gap, q5, log);
    Compose(p, log, front + s.gap, q5, log, []);
    NumberRun(q5, log, s.code, CodeNumber);
    Then(p, log, front + s.gap, q5, log, s.code, AfterNumber(q5, s.code, CodeNumber), log);
  }

  lemma DotBehind(p: Parser, log: Log)
    requires p.errno == OK && p.state == StatusLine(ResMajor) && p.nread < MAX_HEADER_SIZE
    ensures Goes(p, log, ".", p.(state := StatusLine(ResFirstMinor), nread := p.nread + 1), log)
  {
    hide Goes, ActsFit, Rank;
    StatusByte(p, log, '.', p.(state := StatusLine(ResFirstMinor), nread := p.nread + 1));
  }

  lemma BlankBehind(p: Parser, log: Log)
    requires p.errno == OK && p.state == StatusLine(ResMinor) && p.nread < MAX_HEADER_SIZE
    ensures Goes(p, log, " ", p.(state := StatusLine(ResFirstStatusCode), nread := p.nread + 1), log)
  {
    hide Goes, ActsFit, Rank;
    StatusByte(p, log, ' ', p.(state := StatusLine(ResFirstStatusCode), nread := p.nread + 1));
  }

  lemma BlankBehindCode(p: Parser, log: Log)
    requires p.errno == OK && p.state == StatusLine(ResStatusCode) && p.nread < MAX_HEADER_SIZE
    ensures Goes(p, log, " ", p.(state := StatusLine(ResStatus), nread := p.nread + 1), log)
  {
    hide Goes, ActsFit, Rank;
    StatusByte(p, log, ' ', p.(state := StatusLine(ResStatus), nread := p.nread + 1));
  }

  /** The reason is passed over. */
  lemma ReasonPart(p: Parser, log: Log, r: Option<string>)
    requires Good(p, 0) && p.state == StatusLine(ResStatusCode) && (r.Some? ==> IsReason(r.value))
    requires p.nread + |WriteReason(r)| <= MAX_HEADER_SIZE
    ensures Goes(p, log, WriteReason(r), p.(state := StatusLine(if r.Some? then ResStatus else ResStatusCode),
        nread := p.nread + |WriteReason(r)|), log)
  {
    hide Goes, Good, R, IsReason;
    GoodIsOk(p);
    match r {
      case None => NoBytes(p, log);
      case Some(t) =>
        var q := p.(state := StatusLine(ResStatus), nread := p.nread + 1);
        BlankBehindCode(p, log);
        Compose(p, log, " ", q, log, []);
        ReasonRun(q, log, t);
        Then(p, log, " ", q, log, t, q.(nread := q.nread + |t|), log);
    }
  }

  /** The end of the line; only CR LF is reported as the completed status. */
  lemma StatusEnds(p: Parser, log: Log, crlf: bool)
    requires Good(p, 0) && (p.state == StatusLine(ResStatus) || p.state == StatusLine(ResStatusCode))
    requires p.nread + |Eol(crlf)| <= MAX_HEADER_SIZE
    ensures Goes(p, log, Eol(crlf), p.(state := HeaderFieldStart, nread := p.nread + |Eol(crlf)|),
        if crlf then Add(log, StatusComplete) else log)
  {
    hide Goes, Good, ActsFit, Rank, Add, AddAll, StepByte;
    GoodIsOk(p);
    if crlf {
      var q := p.(state := StatusLine(ResLineAlmostDone), nread := p.nread + 1);
      StatusByte(p, log, CR, q);
      StatusLf(q);
      OneByte(q, log, LF, p.(state := HeaderFieldStart, nread := p.nread + 2), [StatusComplete]);
      AddAllOne(log, StatusComplete);
      Then(p, log, [CR], q, log, [LF], p.(state := HeaderFieldStart, nread := p.nread + 2), Add(log, StatusComplete));
      assert [CR] + [LF] == Eol(true);
    } else {
      StatusByte(p, log, LF, p.(state := HeaderFieldStart, nread := p.nread + 1));
      assert [LF] == Eol(false);
    }
  }

  lemma StatusLf(p: Parser)
    requires p.state == StatusLine(ResLineAlmostDone) && p.nread < MAX_HEADER_SIZE
    ensures StepByte(p, LF, false) ==
      Step(p.(state := HeaderFieldStart, nread := p.nread + 1), [StatusComplete], Advance)
  {
    hide StepByte, ActsFit, Rank, Notes;
    var t := Switch(Count(p), LF, 1, false);
    assert t == SwitchResponseLine(Count(p), LF);
    StepOnce(p, LF, t);
    NotesSingle(Notify(StatusComplete));
  }

  /** The parser behind a status line. */
  function Answered(p: Parser, s: StatusText): Parser {
    Begun(p).(state := HeaderFieldStart, httpMajor := Value(s.major, 10), httpMinor := Value(s.minor, 10),
              statusCode := Value(s.code, 10), nread := p.nread + |WriteStatus(s)|)
  }

  function StatusLog(log: Log, s: StatusText): Log {
    if s.crlf then Add(Add(log, MessageBegin), StatusComplete) else Add(log, MessageBegin)
  }

  /** Every status line, read by a parser of responses or of either kind of message: version and
      code are the numbers written, and the parser is at the first header line. */
  lemma StatusLineRun(p: Parser, log: Log, s: StatusText)
    requires Awaiting(p) && StatusOk(s) && p.nread + |WriteStatus(s)| <= MAX_HEADER_SIZE
    ensures Goes(p, log, WriteStatus(s), Answered(p, s), StatusLog(log, s))
    ensures Good(Answered(p, s), 0)
  {
    LettersBegin(p, log);
    hide Goes, Value, Decimal, Blanks, R, IsReason, WriteNumbers, Add, WriteReason, Eol;
    assert Good(p, 0);
    hide Good;
    var log1 := Add(log, MessageBegin);
    var q1 := Begun(p).(state := StatusLine(ResHT), nread := p.nread + 2);
    Compose(p, log, "HT", q1, log1, []);
    LettersEnd(q1, log1);
    var q2 := q1.(state := StatusLine(ResFirstMajor), nread := q1.nread + 3);
    Then(p, log, "HT", q1, log1, "TP/", q2, log1);
    Compose(p, log, "HT" + "TP/", q2, log1, []);
    NumbersRun(q2, log1, s);
    var q3 := Numbered(q2, s);
    Then(p, log, "HT" + "TP/", q2, log1, WriteNumbers(s), q3, log1);
    Compose(p, log, "HT" + "TP/" + WriteNumbers(s), q3, log1, []);
    LineRest(p, log, "HT" + "TP/" + WriteNumbers(s), q3, log1, s);
    Compose(p, log, WriteStatus(s), Answered(p, s), StatusLog(log, s), []);
  }

  lemma LineRest(p: Parser, log: Log, front: string, q3: Parser, log1: Log, s: StatusText)
    requires Good(p, 0) && Goes(p, log, front, q3, log1) && q3.state == StatusLine(ResStatusCode)
    requires s.reason.Some? ==> IsReason(s.reason.value)
    requires q3.nread + |WriteReason(s.reason)| + |Eol(s.crlf)| <= MAX_HEADER_SIZE
    ensures Goes(p, log, front + WriteReason(s.reason) + Eol(s.crlf),
        q3.(state := HeaderFieldStart, nread := q3.nread + |WriteReason(s.reason)| + |Eol(s.crlf)|),
        if s.crlf then Add(log1, StatusComplete) else log1)
  {
    hide Goes, Good, R, IsReason, Add, WriteReason, Eol;
    Compose(p, log, front, q3, log1, []);
    ReasonPart(q3, log1, s.reason);
    var q4 := q3.(state := StatusLine(if s.reason.Some? then ResStatus else ResStatusCode),
                  nread := q3.nread + |WriteReason(s.reason)|);
    Then(p, log, front, q3, log1, WriteReason(s.reason), q4, log1);
    Compose(p, log, front + WriteReason(s.reason), q4, log1, []);
    StatusEnds(q4, log1, s.crlf);
    Then(p, log, front + WriteReason(s.reason), q4, log1, Eol(s.crlf),
         q3.(state := HeaderFieldStart, nread := q3.nread + |WriteReason(s.reason)| + |Eol(s.crlf)|),
         if s.crlf then Add(log1, StatusComplete) else log1);
  }

  // ---- bodies ------------------------------------------------------------

  /** The codes of responses that never have a body. */
  predicate BodilessCode(code: nat) { 100 <= code <= 199 || code == 204 || code == 304 }

  /** A response without a length and without chunks, whose code excludes a body, completes with
      its head. */
  lemma BodilessResponse(p: Parser, log: Log, ls: seq<HeaderLine>, crlf: bool, f: Framing)
    requires Heading(p, ls, crlf) && AppliedAll(FramingOf(p), ls) == Some(f) && Sized(p, f)
    requires p.kind == Response && f.length == NO_LENGTH && BodilessCode(p.statusCode)
    ensures
      var r := R(p, log, Head(ls, crlf));
      && r.count == |Head(ls, crlf)| && !r.halted && r.p.errno == OK && r.p.nread == 0 && !r.p.upgrade
      && SameHead(p, r.p) && r.p.flags == f.flags && r.p.state == NewMessage(r.p)
      && r.log == Add(HeadLog(log, ls), MessageComplete)
  {
    HeadRun(p, log, ls, crlf);
    HeadingGood(p, ls, crlf);
    var q := Framed(R(p, log, Head(ls, crlf)).p, f);
    BodilessCodeTurn(q);
    hide Good, Add, AddAll, R, Notes, AfterHead, HeadLog, Head, AppliedAll, NewMessage, Heading, SameHead;
    CompletedRun(HeadLog(log, ls));
    SameState(p, q);
  }

  lemma BodilessCodeTurn(q: Parser)
    requires q.state == HeadersDone && !q.upgrade && !q.flags.skipBody && !q.flags.chunked
    requires q.contentLength == NO_LENGTH && BodilessCode(q.statusCode)
    ensures AfterHead(q) == Complete(q) && NewMessage(q.(state := NewMessage(q))) == NewMessage(q)
  {}

  lemma EofTurn(q: Parser)
    requires q.state == HeadersDone && !q.upgrade && !q.flags.skipBody && !q.flags.chunked
    requires q.kind == Response && q.contentLength == NO_LENGTH && !BodilessCode(q.statusCode) && q.statusCode <= 999
    ensures AfterHead(q) == Next(q.(state := BodyIdentityEof), [])
  {
    assert 100 <= q.statusCode <= 199 <==> q.statusCode / 100 == 1;
  }

  lemma EofByte(p: Parser, c: char)
    requires p.state == BodyIdentityEof
    ensures StepByte(p, c, false) == Step(p, [Data(OnBody, [c])], Advance)
  {
    hide StepByte, ActsFit, Rank, Notes;
    var t := Switch(Count(p), c, 1, false);
    assert t == SwitchBody(p, 1);
    StepOnce(p, c, t);
    NotesSingle(Mark(OnBody));
  }

  lemma {:induction false} EofBody(p: Parser, log: Log, body: string)
    requires Good(p, 0) && p.state == BodyIdentityEof
    ensures Goes(p, log, body, p, AddBody(log, body))
    decreases |body|
  {
    hide Goes, Good, StepByte, Add, AddAll;
    GoodIsOk(p);
    if body == [] {
      NoBytes(p, log);
    } else {
      var init, c := AllButLast(body), Last(body);
      assert body == init + [c];
      EofBody(p, log, init);
      var log1 := AddBody(log, init);
      EofByte(p, c);
      OneByte(p, log1, c, p, [Data(OnBody, [c])]);
      AddAllOne(log1, Data(OnBody, [c]));
      if init == [] {
        assert body == [c];
      } else {
        AddTwice(log, OnBody, init, [c]);
      }
      Then(p, log, init, p, log1, [c], p, AddBody(log, body));
    }
  }

  /** A response that announces neither a length nor chunks, and may have a body, reads everything
      up to the end of the input as its body; the end completes it. */
  lemma ResponseUntilEof(p: Parser, log: Log, ls: seq<HeaderLine>, crlf: bool, f: Framing, body: string)
    requires Heading(p, ls, crlf) && AppliedAll(FramingOf(p), ls) == Some(f) && Sized(p, f)
    requires p.kind == Response && f.length == NO_LENGTH && !BodilessCode(p.statusCode)
    ensures
      var r := R(p, log, Head(ls, crlf) + body);
      && r.count == |Head(ls, crlf)| + |body| && !r.halted && r.p.errno == OK && SameHead(p, r.p)
      && r.log == AddBody(HeadLog(log, ls), body)
      && Exec(r.p, r.log, [], false) == Run(r.p, Add(r.log, MessageComplete), 0, false)
  {
    hide *;
    HeadingGood(p, ls, crlf);
    var q := EofHead(p, log, ls, crlf, f);
    Compose(p, log, Head(ls, crlf), q, HeadLog(log, ls), body);
    EofBody(q, HeadLog(log, ls), body);
    GoesOn(q, HeadLog(log, ls), body, q, AddBody(HeadLog(log, ls), body));
    EofCompletes(q, AddBody(HeadLog(log, ls), body));
  }

  lemma GoesOn(p: Parser, log: Log, s: string, q: Parser, log': Log)
    requires Goes(p, log, s, q, log')
    ensures R(p, log, s) == Run(q, log', |s|, false) && q.errno == OK
  {
    hide R;
  }

  lemma EofCompletes(q: Parser, log: Log)
    requires q.state == BodyIdentityEof && q.errno == OK
    ensures Exec(q, log, [], false) == Run(q, Add(log, MessageComplete), 0, false)
  {
    hide Add;
  }

  lemma EofHead(p: Parser, log: Log, ls: seq<HeaderLine>, crlf: bool, f: Framing) returns (q: Parser)
    requires Heading(p, ls, crlf) && AppliedAll(FramingOf(p), ls) == Some(f) && Sized(p, f)
    requires p.kind == Response && f.length == NO_LENGTH && !BodilessCode(p.statusCode)
    ensures Goes(p, log, Head(ls, crlf), q, HeadLog(log, ls)) && q.state == BodyIdentityEof && SameHead(p, q)
  {
    var head := Head(ls, crlf);
    HeadRun(p, log, ls, crlf);
    HeadingGood(p, ls, crlf);
    CodeBounded(p);
    var h := Framed(R(p, log, head).p, f);
    EofTurn(h);
    q := h.(state := BodyIdentityEof);
    hide Good, Add, AddAll, R, Notes, AfterHead, HeadLog, Head, AppliedAll, Heading, SameHead;
    QuietRun(HeadLog(log, ls));
    FullRun(p, log, head, q, HeadLog(log, ls));
    SameButState(p, R(p, log, head).p, q);
  }

  lemma CodeBounded(p: Parser)
    requires Good(p, 0)
    ensures p.statusCode <= 999
  {}

  lemma SameButState(p: Parser, r: Parser, q: Parser)
    requires SameHead(p, r) && SameHead(r, q)
    ensures SameHead(p, q)
  {}

  /** A whole response without framing of its own, from a new connection: status line, head, and
      everything behind it up to the end of the input. */
  lemma UnframedResponse(kind: Kind, s: StatusText, ls: seq<HeaderLine>, crlf: bool, body: string)
    requires kind != Request && StatusOk(s) && !BodilessCode(Value(s.code, 10))
    requires forall l :: l in ls ==> LineOk(l) && !IsLength(l) && !IsCoding(l) && !IsUpgrade(l)
    requires |WriteStatus(s)| + |Head(ls, crlf)| <= 81920
    ensures
      var text := WriteStatus(s) + (Head(ls, crlf) + body);
      var r := R(Init(kind), [], text);
      && r.count == |text| && r.p.errno == OK && !r.halted && r.p.statusCode == Value(s.code, 10)
      && r.log == AddBody(HeadLog(StatusLog([], s), ls), body)
      && Exec(r.p, r.log, [], false) == Run(r.p, Add(r.log, MessageComplete), 0, false)
  {
    var p := Init(kind);
    InitGood(kind);
    StatusLineRun(p, [], s);
    var q := Answered(p, s);
    AnsweredHeading(p, s, ls, crlf);
    LinesAnnounce(FramingOf(q), ls);
    var f := AppliedAll(FramingOf(q), ls).value;
    hide *;
    Compose(p, [], WriteStatus(s), q, StatusLog([], s), Head(ls, crlf) + body);
    ResponseUntilEof(q, StatusLog([], s), ls, crlf, f, body);
    SameCode(q, R(q, StatusLog([], s), Head(ls, crlf) + body).p);
  }

  lemma SameCode(p: Parser, q: Parser)
    requires SameHead(p, q)
    ensures q.statusCode == p.statusCode
  {}

  lemma AnsweredHeading(p: Parser, s: StatusText, ls: seq<HeaderLine>, crlf: bool)
    requires Good(Answered(p, s), 0) && p.nread + |WriteStatus(s)| + |Head(ls, crlf)| <= MAX_HEADER_SIZE
    requires forall l :: l in ls ==> LineOk(l)
    ensures Heading(Answered(p, s), ls, crlf) && FramingOf(Answered(p, s)) == Framing(NO_FLAGS, NO_LENGTH)
  {
    hide Good, Head, LineOk, WriteStatus, Value;
  }

  // ---- answers without a body --------------------------------------------

  /** When on_headers_complete answers that there is no body, as for the response to HEAD, the
      message completes with the LF of its empty line, whatever its lines announced. */
  lemma NoBodyAnswered(p: Parser)
    requires p.state == HeadersAlmostDone && p.nread < MAX_HEADER_SIZE
    requires !p.flags.trailing && !p.flags.upgrade && p.verb != CONNECT
    ensures
      var q := p.(nread := 0, upgrade := false, flags := p.flags.(skipBody := true), state := HeadersDone);
      StepByte(p, LF, true) == Step(q.(state := NewMessage(q)), [HeadersComplete, MessageComplete], Advance)
  {
    hide ActsFit, Rank, NewMessage, NeedsEof, StepByte, Turns, Notes;
    var c := Count(p);
    var t := Switch(c, LF, 1, true);
    assert t == SwitchEnd(c, LF, true);
    var q := p.(nread := 0, upgrade := false, flags := p.flags.(skipBody := true), state := HeadersDone);
    var u := Switch(t.p, LF, 1, true);
    assert u == SwitchEnd(t.p, LF, true) == Next(q.(state := NewMessage(q)), [Notify(MessageComplete)]);
    hide SwitchEnd, Switch;
    TurnsAgain(c, LF, 1, true);
    TurnsOnce(t.p, LF, 1, true);
    NotesConcat(t.acts, u.acts);
    NotesSingle(Notify(HeadersComplete));
    NotesSingle(Notify(MessageComplete));
    assert [HeadersComplete] + [MessageComplete] == [HeadersComplete, MessageComplete];
    CountedStep(p, LF, Turns(c, LF, 1, true));
    NotLive(q);
  }

  lemma CountedStep(p: Parser, ch: char, t: Turn)
    requires !Overflows(p) && t == Turns(Count(p), ch, 1, true) && t.ctl != Error
    ensures StepByte(p, ch, true) == Step(t.p, Owner(p.state, ch, t.p.state) + Notes(t.acts), t.ctl)
  {
    hide Turns, Owner, Notes;
  }

  lemma NotLive(q: Parser)
    ensures Owner(HeadersAlmostDone, LF, NewMessage(q)) == []
  {}
}

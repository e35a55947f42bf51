/** Which byte is refused where, and with which error: a table by state, and that the parser agrees
    with it on every good parser and every byte. */
module HttpRefusals {
  import opened Wrappers
  import opened HttpTypes
  import opened UrlChars
  import opened HttpSwitch
  import opened HttpRun
  import opened HttpInvariant
  import opened HttpSegments
  import opened HttpSteps
  import opened HttpRequestLine

  /** Accepted, or refused with an error. */
  function Unless(accepted: bool, e: Errno): Option<Errno> { if accepted then None else Some(e) }

  predicate IsDigit(c: char) { '0' <= c <= '9' }
  predicate LineEnd(c: char) { c == CR || c == LF }

  /** One more digit of a number of at most 999. */
  predicate Room(n: nat, c: char) { IsDigit(c) && n * 10 + (c as int - 48) <= 999 }

  /** The first letter of some method. */
  predicate BeginsMethod(c: char) { c in "CDGHLMNO" || c in "PRSTU" }

  function StartRefuses(s: State, c: char): Option<Errno>
    requires InStart(s)
  {
    match s
    case Dead => Unless(LineEnd(c), ClosedConnection)
    case StartReqOrRes => Unless(LineEnd(c) || BeginsMethod(c), InvalidMethod)
    case ResOrRespH => Unless(c == 'T' || c == 'E', InvalidConstant)
    case StartRes => Unless(LineEnd(c) || c == 'H', InvalidConstant)
    case StartReq => Unless(LineEnd(c) || BeginsMethod(c), InvalidMethod)
  }

  function StatusRefuses(p: Parser, at: StatusPos, c: char): Option<Errno> {
    match at
    case ResH => Unless(c == 'T', Strict)
    case ResHT => Unless(c == 'T', Strict)
    case ResHTT => Unless(c == 'P', Strict)
    case ResHTTP => Unless(c == '/', Strict)
    case ResFirstMajor => Unless(IsDigit(c), InvalidVersion)
    case ResMajor => Unless(c == '.' || Room(p.httpMajor, c), InvalidVersion)
    case ResFirstMinor => Unless(IsDigit(c), InvalidVersion)
    case ResMinor => Unless(c == ' ' || Room(p.httpMinor, c), InvalidVersion)
    case ResFirstStatusCode => Unless(c == ' ' || IsDigit(c), InvalidStatus)
    case ResStatusCode => Unless(c == ' ' || LineEnd(c) || Room(p.statusCode, c), InvalidStatus)
    case ResStatus => None
    case ResLineAlmostDone => Unless(c == LF, Strict)
  }

  function VersionRefuses(p: Parser, at: VersionPos, c: char): Option<Errno> {
    match at
    case HttpStart => Unless(c == 'H' || c == ' ', InvalidConstant)
    case HttpH => Unless(c == 'T', Strict)
    case HttpHT => Unless(c == 'T', Strict)
    case HttpHTT => Unless(c == 'P', Strict)
    case HttpHTTP => Unless(c == '/', Strict)
    case FirstMajor => Unless(IsDigit(c) && c != '0', InvalidVersion)
    case Major => Unless(c == '.' || Room(p.httpMajor, c), InvalidVersion)
    case FirstMinor => Unless(IsDigit(c), InvalidVersion)
    case Minor => Unless(LineEnd(c) || Room(p.httpMinor, c), InvalidVersion)
    case LineAlmostDone => Unless(c == LF, LfExpected)
  }

  function MethodRefuses(p: Parser, c: char): Option<Errno> {
    var name := MethodName(p.verb);
    Unless(c as int != 0 &&
           ((c == ' ' && p.index == |name|) || (p.index < |name| && c == name[p.index])
            || SiblingMethod(p.verb, p.index, c).Some?), InvalidMethod)
  }

  function UrlRefuses(p: Parser, u: UrlPos, c: char): Option<Errno> {
    if u.SpacesBeforeUrl? then Unless(c == ' ' || ParseUrlChar(UrlEntry(p.verb), c).Some?, InvalidUrl)
    else if c == ' ' || LineEnd(c) then Unless(UrlEnds(u), InvalidUrl)
    else Unless(ParseUrlChar(u, c).Some?, InvalidUrl)
  }

  /** Header lines; a blank continues the line before. */
  function LineRefuses(p: Parser, c: char): Option<Errno>
    requires InField(p.state) || InValue(p.state)
  {
    match p.state
    case HeaderFieldStart => Unless(LineEnd(c) || IsToken(c), InvalidHeaderToken)
    case HeaderField => Unless(LineEnd(c) || c == ':' || IsToken(c), InvalidHeaderToken)
    case HeaderValueLws => Unless(Blank(c) || LineEnd(c) || IsToken(c), InvalidHeaderToken)
    case HeaderAlmostDone => Unless(c == LF, Strict)
    case HeaderValueStart =>
      Unless(Blank(c) || LineEnd(c) || p.headerState != ContentLength || IsDigit(c), InvalidContentLength)
    case HeaderValue =>
      Unless(LineEnd(c) || p.headerState != ContentLength || c == ' '
             || (IsDigit(c) && Accumulate(p.contentLength, 10, c as int - 48).Some?), InvalidContentLength)
  }

  function ChunkRefuses(p: Parser, at: ChunkPos, c: char): Option<Errno> {
    match at
    case SizeStart => Unless(Unhex(c) >= 0, InvalidChunkSize)
    case Size =>
      if Unhex(c) >= 0 then Unless(Accumulate(p.contentLength, 16, Unhex(c)).Some?, InvalidContentLength)
      else Unless(c == CR || c == ';' || c == ' ', InvalidChunkSize)
    case Parameters => None
    case SizeAlmostDone => Unless(c == LF, Strict)
    case DataAlmostDone => Unless(c == CR, Strict)
    case DataDone => Unless(c == LF, Strict)
  }

  /** Bodies refuse nothing. */
  function Refusal(p: Parser, c: char): Option<Errno> {
    if InStart(p.state) then StartRefuses(p.state, c)
    else if p.state.StatusLine? then StatusRefuses(p, p.state.status, c)
    else if p.state.ReqMethod? then MethodRefuses(p, c)
    else if p.state.Url? then UrlRefuses(p, p.state.url, c)
    else if p.state.Version? then VersionRefuses(p, p.state.version, c)
    else if InField(p.state) || InValue(p.state) then LineRefuses(p, c)
    else if InEnd(p.state) then Unless(c == LF, Strict)
    else if p.state.Chunk? then ChunkRefuses(p, p.state.chunk, c)
    else None
  }

  // ---- the switch agrees -------------------------------------------------

  ghost predicate Agrees(t: Turn, r: Option<Errno>) {
    match r
    case None => t.ctl != Error
    case Some(e) => t.ctl == Error && t.p.errno == e
  }

  lemma MethodLetters(c: char)
    ensures BeginsMethod(c) <==> FirstMethod(c).Some?
    ensures BeginsMethod(c) ==> IsAlpha(c)
  {
    assert c in "CDGHLMNO" <==>
      c == 'C' || c == 'D' || c == 'G' || c == 'H' || c == 'L' || c == 'M' || c == 'N' || c == 'O';
    assert c in "PRSTU" <==> c == 'P' || c == 'R' || c == 'S' || c == 'T' || c == 'U';
  }

  lemma StartAgrees(p: Parser, c: char)
    requires Good(p, 1) && InStart(p.state)
    ensures
      var t := SwitchStart(p, c);
      if t.ctl == Reexecute then Agrees(SwitchStart(t.p, c), StartRefuses(p.state, c)) && t.p.state == StartReq
      else Agrees(t, StartRefuses(p.state, c))
  {
    MethodLetters(c);
    assert FirstMethod('H').Some?;
    hide ActsFit, Rank, FirstMethod, BeginsMethod;
  }

  lemma StatusAgrees(p: Parser, c: char)
    requires Good(p, 1) && p.state.StatusLine?
    ensures Agrees(SwitchResponseLine(p, c), StatusRefuses(p, p.state.status, c))
    ensures SwitchResponseLine(p, c).ctl != Reexecute
  {
    hide ActsFit, Rank;
  }

  lemma MethodAgrees(p: Parser, c: char)
    requires Good(p, 1) && p.state.ReqMethod?
    ensures Agrees(SwitchMethod(p, c), MethodRefuses(p, c)) && SwitchMethod(p, c).ctl != Reexecute
  {
    hide ActsFit, Rank, MethodName, SiblingMethod;
  }

  lemma UrlAgrees(p: Parser, c: char)
    requires Good(p, 1) && p.state.Url?
    ensures Agrees(SwitchUrl(p, c), UrlRefuses(p, p.state.url, c)) && SwitchUrl(p, c).ctl != Reexecute
  {
    hide ActsFit, Rank, ParseUrlChar;
  }

  lemma VersionAgrees(p: Parser, c: char)
    requires Good(p, 1) && p.state.Version?
    ensures Agrees(SwitchRequestVersion(p, c), VersionRefuses(p, p.state.version, c))
    ensures SwitchRequestVersion(p, c).ctl != Reexecute
  {
    hide ActsFit, Rank;
  }

  lemma FieldAgrees(p: Parser, c: char)
    requires Good(p, 1) && InField(p.state)
    ensures
      var t := SwitchField(p, c);
      if t.ctl == Reexecute then t.p.state == HeadersAlmostDone && c == LF && LineRefuses(p, c).None?
      else Agrees(t, LineRefuses(p, c))
  {
    if p.state.HeaderField? { FieldCharStaysNamed(p.headerState, p.index, Lower(c)); }
    hide ActsFit, Rank, FieldChar, IsToken;
  }

  lemma ValueAgrees(p: Parser, c: char)
    requires Good(p, 1) && InValue(p.state)
    ensures
      var t := SwitchValue(p, c);
      if t.ctl == Reexecute then
        || (p.state == HeaderValueLws && t.p == p.(state := HeaderFieldStart) && !Blank(c))
        || (p.state == HeaderValue && t.p.state == HeaderAlmostDone && c == LF)
      else Agrees(t, LineRefuses(p, c))
  {
    if p.state.HeaderValue? && !LineEnd(c) { InValueAgrees(p, c); }
    else if p.state.HeaderValueStart? { FirstValueAgrees(p, c); }
    hide ActsFit, Rank, Accumulate, MatchWord, IsToken;
  }

  lemma FirstValueAgrees(p: Parser, c: char)
    requires p.state.HeaderValueStart? && Good(p, 1)
    ensures Agrees(SwitchValue(p, c), LineRefuses(p, c))
  {
    hide ActsFit, Rank, Accumulate, MatchWord, IsToken, ValueChar;
  }

  lemma InValueAgrees(p: Parser, c: char)
    requires p.state.HeaderValue? && Good(p, 1) && !LineEnd(c)
    ensures Agrees(SwitchValue(p, c), LineRefuses(p, c))
  {
    hide ActsFit, Rank, Accumulate, MatchWord, IsToken, FirstValueChar;
  }

  lemma EndAgrees(p: Parser, c: char)
    requires Good(p, 1) && InEnd(p.state)
    ensures
      var t := SwitchEnd(p, c, false);
      && Agrees(t, Unless(c == LF, Strict))
      && (t.ctl == Reexecute ==> t.p.state == HeadersDone && c == LF)
  {
    hide ActsFit, Rank, NeedsEof, NewMessage;
  }

  lemma ChunkAgrees(p: Parser, c: char)
    requires Good(p, 1) && p.state.Chunk?
    ensures Agrees(SwitchChunk(p, c), ChunkRefuses(p, p.state.chunk, c)) && SwitchChunk(p, c).ctl != Reexecute
  {
    assert Unhex(CR) == -1;
    hide ActsFit, Rank, Accumulate, Unhex;
  }

  lemma BodyAgrees(p: Parser)
    requires Good(p, 1) && InBody(p.state)
    ensures
      var t := SwitchBody(p, 1);
      t.ctl != Error && (t.ctl == Reexecute ==> t.p.state == MessageDone)
  {
    hide Rank;
  }

  // ---- the parser agrees -------------------------------------------------

  lemma TurnsAgree(p: Parser, c: char)
    requires Good(p, 1)
    ensures Agrees(Turns(p, c, 1, false), Refusal(p, c))
  {
    hide Switch, Turns, Good, Rank, Agrees, StartRefuses, StatusRefuses, MethodRefuses, UrlRefuses, VersionRefuses;
    hide LineRefuses, ChunkRefuses, SwitchStart, SwitchResponseLine, SwitchMethod, SwitchUrl, SwitchRequestVersion;
    hide SwitchField, SwitchValue, SwitchEnd, SwitchChunk, SwitchBody;
    SwitchIs(p, c);
    if InStart(p.state) {
      StartAgrees(p, c);
      StartTurns(p, c);
    } else if p.state.StatusLine? {
      StatusAgrees(p, c);
      TurnsOnce(p, c, 1, false);
    } else if p.state.ReqMethod? {
      MethodAgrees(p, c);
      TurnsOnce(p, c, 1, false);
    } else if p.state.Url? {
      UrlAgrees(p, c);
      TurnsOnce(p, c, 1, false);
    } else if p.state.Version? {
      VersionAgrees(p, c);
      TurnsOnce(p, c, 1, false);
    } else if InField(p.state) {
      FieldTurnsAgree(p, c);
    } else if InValue(p.state) {
      ValueTurnsAgree(p, c);
    } else if InEnd(p.state) {
      EndTurnsAgree(p, c);
    } else if p.state.Chunk? {
      ChunkAgrees(p, c);
      TurnsOnce(p, c, 1, false);
    } else {
      BodyTurnsAgree(p, c);
    }
  }

  lemma SwitchIs(p: Parser, c: char)
    ensures Switch(p, c, 1, false) ==
      if InStart(p.state) then SwitchStart(p, c)
      else if p.state.StatusLine? then SwitchResponseLine(p, c)
      else if p.state.ReqMethod? then SwitchMethod(p, c)
      else if p.state.Url? then SwitchUrl(p, c)
      else if p.state.Version? then SwitchRequestVersion(p, c)
      else if InField(p.state) then SwitchField(p, c)
      else if InValue(p.state) then SwitchValue(p, c)
      else if InEnd(p.state) then SwitchEnd(p, c, false)
      else if p.state.Chunk? then SwitchChunk(p, c)
      else if InBody(p.state) then SwitchBody(p, 1)
      else Complete(p)
  {
    hide SwitchStart, SwitchResponseLine, SwitchMethod, SwitchUrl, SwitchRequestVersion, ActsFit;
    hide SwitchField, SwitchValue, SwitchEnd, SwitchChunk, SwitchBody, Rank;
  }

  /** Whatever a turn leads to, a turn that follows it decides. */
  lemma Agreement(t: Turn, u: Turn, r: Option<Errno>)
    requires Agrees(u, r)
    ensures Agrees(Turn(u.p, t.acts + u.acts, u.ctl, t.skip + u.skip), r)
  {}

  lemma StartTurns(p: Parser, c: char)
    requires Good(p, 1) && InStart(p.state)
    ensures Agrees(Turns(p, c, 1, false), StartRefuses(p.state, c))
  {
    hide Switch, Turns, Good, Rank, Agrees, StartRefuses, SwitchStart;
    StartAgrees(p, c);
    SwitchIs(p, c);
    var t := Switch(p, c, 1, false);
    if t.ctl == Reexecute {
      SwitchIs(t.p, c);
      TurnsAgain(p, c, 1, false);
      StartOnce(t.p, c);
      TurnsOnce(t.p, c, 1, false);
      Agreement(t, Switch(t.p, c, 1, false), StartRefuses(p.state, c));
    } else {
      TurnsOnce(p, c, 1, false);
    }
  }

  lemma StartOnce(p: Parser, c: char)
    requires p.state == StartReq
    ensures SwitchStart(p, c).ctl != Reexecute
  {
    hide ActsFit, Rank, FirstMethod;
  }

  lemma EndTurnsAgree(p: Parser, c: char)
    requires Good(p, 1) && InEnd(p.state)
    ensures Agrees(Turns(p, c, 1, false), Unless(c == LF, Strict))
  {
    hide Switch, Turns, Rank, Agrees, SwitchEnd;
    EndAgrees(p, c);
    SwitchIs(p, c);
    SwitchKeepsGood(p, c, 1, false);
    hide Good;
    var t := Switch(p, c, 1, false);
    if t.ctl == Reexecute {
      SwitchIs(t.p, c);
      EndAgrees(t.p, c);
      TurnsAgain(p, c, 1, false);
      EndOnce(t.p, c);
      TurnsOnce(t.p, c, 1, false);
      Agreement(t, Switch(t.p, c, 1, false), Unless(c == LF, Strict));
    } else {
      TurnsOnce(p, c, 1, false);
    }
  }

  lemma EndOnce(p: Parser, c: char)
    requires p.state == HeadersDone
    ensures SwitchEnd(p, c, false).ctl != Reexecute
  {
    hide ActsFit, Rank, NeedsEof, NewMessage;
  }

  lemma FieldTurnsAgree(p: Parser, c: char)
    requires Good(p, 1) && InField(p.state)
    ensures Agrees(Turns(p, c, 1, false), LineRefuses(p, c))
  {
    hide Switch, Turns, Rank, Agrees, SwitchField, LineRefuses;
    FieldAgrees(p, c);
    SwitchIs(p, c);
    SwitchKeepsGood(p, c, 1, false);
    hide Good;
    var t := Switch(p, c, 1, false);
    if t.ctl == Reexecute {
      EndTurnsAgree(t.p, c);
      TurnsAgain(p, c, 1, false);
      Agreement(t, Turns(t.p, c, 1, false), None);
    } else {
      TurnsOnce(p, c, 1, false);
    }
  }

  lemma ValueTurnsAgree(p: Parser, c: char)
    requires Good(p, 1) && InValue(p.state)
    ensures Agrees(Turns(p, c, 1, false), LineRefuses(p, c))
  {
    hide Switch, Turns, Rank, Agrees, SwitchValue;
    ValueAgrees(p, c);
    SwitchIs(p, c);
    SwitchKeepsGood(p, c, 1, false);
    hide Good;
    var t := Switch(p, c, 1, false);
    if t.ctl == Reexecute {
      if p.state == HeaderValueLws { FieldTurnsAgree(t.p, c); } else { AlmostDoneAgrees(t.p); }
      TurnsAgain(p, c, 1, false);
      Agreement(t, Turns(t.p, c, 1, false), LineRefuses(p, c));
    } else {
      TurnsOnce(p, c, 1, false);
    }
  }

  lemma AlmostDoneAgrees(p: Parser)
    requires p.state == HeaderAlmostDone
    ensures Agrees(Turns(p, LF, 1, false), None)
  {
    hide Turns, Rank, ActsFit, ValueChar, FirstValueChar;
    SwitchIs(p, LF);
    TurnsOnce(p, LF, 1, false);
  }

  lemma BodyTurnsAgree(p: Parser, c: char)
    requires Good(p, 1) && (InBody(p.state) || p.state == MessageDone)
    ensures Agrees(Turns(p, c, 1, false), None)
  {
    hide Switch, Turns, Rank, SwitchBody, NewMessage, Good, Agrees;
    SwitchIs(p, c);
    var t := Switch(p, c, 1, false);
    if InBody(p.state) {
      BodyAgrees(p);
      if t.ctl == Reexecute {
        DoneAgrees(t.p, c);
        TurnsAgain(p, c, 1, false);
        NoneSkipped(p);
        Agreement(t, Turns(t.p, c, 1, false), None);
      } else {
        TurnsOnce(p, c, 1, false);
        NoError(t);
      }
    } else {
      DoneAgrees(p, c);
    }
  }

  lemma NoneSkipped(p: Parser)
    requires InBody(p.state)
    ensures SwitchBody(p, 1).skip == 0
  {
    hide Rank;
  }

  lemma NoError(t: Turn)
    requires t.ctl != Error
    ensures Agrees(t, None)
  {}

  lemma DoneAgrees(p: Parser, c: char)
    requires p.state == MessageDone
    ensures Agrees(Turns(p, c, 1, false), None)
  {
    hide Switch, Turns, Rank, NewMessage;
    SwitchIs(p, c);
    TurnsOnce(p, c, 1, false);
  }

  /** On every good parser within its limit and every byte: the byte is refused, and with this error,
      exactly when the table says so. */
  lemma RefusedExactly(p: Parser, c: char)
    requires Good(p, 0) && !Overflows(p)
    ensures
      var s := StepByte(p, c, false);
      match Refusal(p, c)
      case None => s.ctl != Error
      case Some(e) => s.ctl == Error && s.p.errno == e
  {
    GoodCounted(p);
    TurnsAgree(Count(p), c);
    SameRefusal(p, c);
    hide Turns, Refusal, Good, Notes, Owner;
  }

  lemma GoodCounted(p: Parser)
    requires Good(p, 0) && !Overflows(p)
    ensures Good(Count(p), 1)
  {}

  lemma SameRefusal(p: Parser, c: char)
    ensures Refusal(Count(p), c) == Refusal(p, c)
  {
    hide SiblingMethod, MethodName, ParseUrlChar, IsToken, Accumulate, Unhex, BeginsMethod;
  }
}

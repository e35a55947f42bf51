/** A parser of either kind of message reads a request as a parser of requests does. */
module HttpEither {
  import opened Wrappers
  import opened HttpTypes
  import opened HttpSwitch
  import opened HttpRun
  import opened HttpInvariant
  import opened HttpExecute
  import opened HttpSegments
  import opened HttpSteps
  import opened HttpMessages
  import opened HttpRequestLine
  import opened HttpRequests

  function AsRequest(p: Parser): Parser { p.(kind := Request, state := StartReq) }

  lemma AnyLetterStep(p: Parser, c: char)
    requires p.state == StartReqOrRes && p.nread < MAX_HEADER_SIZE && c != 'H' && c != CR && c != LF
    ensures StepByte(p, c, false) == StepByte(AsRequest(p), c, false)
  {
    hide Notes, Turns, Owner;
    SameTurns(p.(nread := p.nread + 1), c);
    SameOwner(c, Turns(p.(nread := p.nread + 1), c, 1, false).p.state);
  }

  lemma SameTurns(p: Parser, c: char)
    requires p.state == StartReqOrRes && c != 'H' && c != CR && c != LF
    ensures Turns(p, c, 1, false) == Turns(AsRequest(p), c, 1, false)
  {
    hide Switch, Turns;
    var t := p.(kind := Request, state := StartReq, flags := NO_FLAGS, contentLength := NO_LENGTH);
    LetterTurns(p, c);
    TurnsAgain(p, c, 1, false);
    TurnsOnce(t, c, 1, false);
    TurnsOnce(AsRequest(p), c, 1, false);
    var u := Turns(t, c, 1, false);
    assert [] + u.acts == u.acts;
  }

  lemma SameOwner(c: char, s: State)
    ensures Owner(StartReqOrRes, c, s) == Owner(StartReq, c, s)
  {}

  lemma LetterTurns(p: Parser, c: char)
    requires p.state == StartReqOrRes && c != 'H' && c != CR && c != LF
    ensures
      var t := p.(kind := Request, state := StartReq, flags := NO_FLAGS, contentLength := NO_LENGTH);
      && Switch(p, c, 1, false) == Goto(t, [])
      && Switch(AsRequest(p), c, 1, false) == Switch(t, c, 1, false)
      && Switch(t, c, 1, false).ctl != Reexecute
  {
    hide ActsFit, Rank, FirstMethod;
    var t := p.(kind := Request, state := StartReq, flags := NO_FLAGS, contentLength := NO_LENGTH);
    assert Switch(p, c, 1, false) == SwitchStart(p, c);
    assert Switch(t, c, 1, false) == SwitchStart(t, c);
    assert Switch(AsRequest(p), c, 1, false) == SwitchStart(AsRequest(p), c);
  }

  /** Behind the two letters of HEAD. */
  function InHeadName(p: Parser): Parser {
    p.(flags := NO_FLAGS, contentLength := NO_LENGTH, nread := p.nread + 2, kind := Request, verb := HEAD,
       index := 2, state := ReqMethod)
  }

  /** `H` alone leaves it open; `E` behind it makes it a request. */
  lemma EitherHe(p: Parser, log: Log)
    requires Good(p, 0) && p.state == StartReqOrRes && p.nread + 2 <= MAX_HEADER_SIZE
    ensures Goes(p, log, "HE", InHeadName(p), Add(log, MessageBegin))
  {
    GoodIsOk(p);
    hide Goes, StepByte, Add, AddAll, R, Good;
    EitherH(p);
    var log1 := Add(log, MessageBegin);
    AddAllOne(log, MessageBegin);
    AddAllNone(log1);
    var q := p.(flags := NO_FLAGS, contentLength := NO_LENGTH, nread := p.nread + 1, state := ResOrRespH);
    OneByte(p, log, 'H', q, [MessageBegin]);
    OneByte(q, log1, 'E', InHeadName(p), []);
    Then(p, log, "H", q, log1, "E", InHeadName(p), log1);
    assert "H" + "E" == "HE";
  }

  lemma RequestBeginsHe(p: Parser, log: Log)
    requires Good(p, 0) && p.state == StartReq && p.kind == Request && p.nread + 2 <= MAX_HEADER_SIZE
    ensures Goes(p, log, "HE", InHeadName(p), Add(log, MessageBegin))
  {
    GoodIsOk(p);
    hide Goes, StepByte, Add, AddAll, R, Good;
    RequestHe(p);
    var log1 := Add(log, MessageBegin);
    AddAllOne(log, MessageBegin);
    AddAllNone(log1);
    var q := p.(flags := NO_FLAGS, contentLength := NO_LENGTH, nread := p.nread + 1, verb := HEAD, index := 1,
                state := ReqMethod);
    OneByte(p, log, 'H', q, [MessageBegin]);
    OneByte(q, log1, 'E', InHeadName(p), []);
    Then(p, log, "H", q, log1, "E", InHeadName(p), log1);
    assert "H" + "E" == "HE";
  }

  lemma EitherH(p: Parser)
    requires p.state == StartReqOrRes && p.nread + 2 <= MAX_HEADER_SIZE
    ensures
      var q := p.(flags := NO_FLAGS, contentLength := NO_LENGTH, nread := p.nread + 1, state := ResOrRespH);
      && StepByte(p, 'H', false) == Step(q, [MessageBegin], Advance)
      && StepByte(q, 'E', false) ==
         Step(q.(nread := q.nread + 1, kind := Request, verb := HEAD, index := 2, state := ReqMethod), [], Advance)
  {
    hide StepByte, ActsFit, Rank, Notes, FirstMethod;
    var t := Switch(Count(p), 'H', 1, false);
    assert t == SwitchStart(Count(p), 'H');
    StepOnce(p, 'H', t);
    NotesSingle(Notify(MessageBegin));
    hide Switch, SwitchStart;
    EBehindH(p.(flags := NO_FLAGS, contentLength := NO_LENGTH, nread := p.nread + 1, state := ResOrRespH));
  }

  lemma EBehindH(q: Parser)
    requires q.state == ResOrRespH && q.nread < MAX_HEADER_SIZE
    ensures StepByte(q, 'E', false) ==
      Step(q.(nread := q.nread + 1, kind := Request, verb := HEAD, index := 2, state := ReqMethod), [], Advance)
  {
    hide StepByte, ActsFit, Rank, FirstMethod;
    var u := Switch(Count(q), 'E', 1, false);
    assert u == SwitchStart(Count(q), 'E');
    Quiet(q, 'E', u);
  }

  lemma RequestHe(p: Parser)
    requires p.state == StartReq && p.nread + 2 <= MAX_HEADER_SIZE
    ensures
      var q := p.(flags := NO_FLAGS, contentLength := NO_LENGTH, nread := p.nread + 1, verb := HEAD, index := 1,
                  state := ReqMethod);
      && StepByte(p, 'H', false) == Step(q, [MessageBegin], Advance)
      && StepByte(q, 'E', false) == Step(q.(nread := q.nread + 1, index := 2), [], Advance)
  {
    hide StepByte, ActsFit, Rank, Notes;
    var t := Switch(Count(p), 'H', 1, false);
    assert t == SwitchStart(Count(p), 'H');
    StepOnce(p, 'H', t);
    NotesSingle(Notify(MessageBegin));
    var q := t.p;
    var u := Switch(Count(q), 'E', 1, false);
    assert u == SwitchMethod(Count(q), 'E');
    Quiet(q, 'E', u);
  }

  /** Whatever does not begin with a line end or as a response does: `H` with another letter behind
      it than `E` is left open. */
  lemma EitherReadsRequest(p: Parser, log: Log, s: string)
    requires Good(p, 0) && p.state == StartReqOrRes && p.nread + 2 <= MAX_HEADER_SIZE
    requires s != [] && s[0] != CR && s[0] != LF && (s[0] == 'H' ==> |s| >= 2 && s[1] == 'E')
    ensures R(p, log, s) == R(AsRequest(p), log, s)
  {
    hide *;
    if s[0] == 'H' {
      assert s == "HE" + s[2..];
      EitherReadsHead(p, log, s[2..]);
    } else {
      AnyLetterStep(p, s[0]);
      SameFirstStep(p, AsRequest(p), log, s);
    }
  }

  lemma EitherReadsHead(p: Parser, log: Log, rest: string)
    requires Good(p, 0) && p.state == StartReqOrRes && p.nread + 2 <= MAX_HEADER_SIZE
    ensures R(p, log, "HE" + rest) == R(AsRequest(p), log, "HE" + rest)
  {
    hide *;
    AsRequestGood(p);
    SameHeadName(p);
    EitherHe(p, log);
    RequestBeginsHe(AsRequest(p), log);
    Compose(p, log, "HE", InHeadName(p), Add(log, MessageBegin), rest);
    Compose(AsRequest(p), log, "HE", InHeadName(p), Add(log, MessageBegin), rest);
  }

  lemma AsRequestGood(p: Parser)
    requires Good(p, 0) && p.state == StartReqOrRes
    ensures Good(AsRequest(p), 0) && AsRequest(p) == p.(kind := Request, state := StartReq)
  {}

  lemma SameHeadName(p: Parser)
    ensures InHeadName(AsRequest(p)) == InHeadName(p)
  {}

  lemma SameFirstStep(p: Parser, q: Parser, log: Log, s: string)
    requires s != [] && StepByte(p, s[0], false) == StepByte(q, s[0], false)
    ensures R(p, log, s) == R(q, log, s)
  {
    hide StepByte, Continue;
  }

  /** So the round trip of requests holds for such a parser too. */
  lemma EitherRoundTrip(p: Parser, log: Log, r: HttpRequest)
    requires Good(p, 0) && p.state == StartReqOrRes && !p.upgrade
    requires RequestOk(r) && r.head.start.front == [] && p.nread + |WriteHead(r.head)| <= MAX_HEADER_SIZE
    ensures
      var e := R(p, log, WriteRequest(r));
      && e.count == |WriteRequest(r)| && !e.halted && e.p.errno == OK && e.p.kind == Request
      && e.log == WholeLog(log, r) && e.p.state == if StaysOpen(r) then StartReq else Dead
  {
    var a := AsRequest(p);
    AsRequestFresh(p);
    RequestBegins(r);
    hide *;
    RequestRoundTrip(a, log, r);
    EitherReadsRequest(p, log, WriteRequest(r));
    KindOf(a, r, R(a, log, WriteRequest(r)).p);
  }

  lemma KindOf(a: Parser, r: HttpRequest, e: Parser)
    requires SameHead(AtLines(a, r.head.start), e)
    ensures e.kind == a.kind
  {
    hide MethodName, HttpNumerals.Value;
  }

  lemma AsRequestFresh(p: Parser)
    requires Good(p, 0) && p.state == StartReqOrRes && !p.upgrade
    ensures Fresh(AsRequest(p)) && AsRequest(p).kind == Request
  {}

  lemma NameBegins(m: Method)
    ensures |MethodName(m)| >= 2 && MethodName(m)[0] != CR && MethodName(m)[0] != LF
    ensures MethodName(m)[0] == 'H' ==> MethodName(m)[1] == 'E'
  {}

  lemma RequestBegins(r: HttpRequest)
    requires r.head.start.front == []
    ensures
      var s := WriteRequest(r);
      && |s| >= 2 && s[0] != CR && s[0] != LF && (s[0] == 'H' ==> s[1] == 'E') && |WriteHead(r.head)| >= 2
  {
    var name := MethodName(r.head.start.verb);
    NameBegins(r.head.start.verb);
    hide MethodName, WriteRest, WriteBody, Head;
    var s := WriteRequest(r);
    assert s[0] == name[0] && s[1] == name[1];
  }
}

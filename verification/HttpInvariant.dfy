/** The parser invariant behind the internal assertions of http_parser_execute. */
module HttpInvariant {
  import opened Wrappers
  import opened HttpTypes
  import opened UrlChars
  import opened HttpSwitch
  import opened HttpRun

  /** Header states a header name can be read in. */
  predicate NameState(h: HeaderState) {
    match h
    case General | C | Co | Con => true
    case MatchingConnection | MatchingProxyConnection | MatchingContentLength => true
    case MatchingTransferEncoding | MatchingUpgrade => true
    case Connection | ContentLength | TransferEncoding | Upgrade => true
    case _ => false
  }

  /** Header states a header value can be read in. */
  predicate ValueState(h: HeaderState) {
    match h
    case General | ContentLength => true
    case MatchingChunked | MatchingKeepAlive | MatchingClose => true
    case Chunked | KeepAlive | Close => true
    case _ => false
  }

  /** Ranges of the numeric fields: no field ever wraps in its C type. */
  predicate InRange(p: Parser) {
    && p.contentLength <= NO_LENGTH && p.nread <= MAX_HEADER_SIZE && p.index < 256
    && p.httpMajor <= 999 && p.httpMinor <= 999 && p.statusCode <= 999
  }

  /** Relates state, header state, flags, nread, index and content length.
      `counted` is 0 between bytes and 1 while a header byte is being processed. */
  predicate Good(p: Parser, counted: nat) {
    && p.errno == OK
    && InRange(p)
    && (p.state == ReqMethod ==> p.index <= |MethodName(p.verb)|)
    && (p.state == HeaderField ==> NameState(p.headerState))
    && (p.state == HeaderValue ==> ValueState(p.headerState))
    && (p.state.Chunk? || p.state == ChunkData ==> p.flags.chunked)
    && (p.state == Chunk(SizeStart) ==> p.nread == counted)
    && (p.state == Chunk(Size) || p.state == Chunk(Parameters) || p.state == Chunk(SizeAlmostDone)
        ==> p.contentLength < NO_LENGTH)
    && (p.state == Chunk(DataAlmostDone) ==> p.contentLength == 0)
    && (p.state == BodyIdentity || p.state == ChunkData ==> 0 < p.contentLength < NO_LENGTH)
  }

  lemma InitGood(kind: Kind)
    ensures Good(Init(kind), 0)
  {}

  lemma SwitchKeepsGood(p: Parser, ch: char, avail: nat, noBody: bool)
    requires avail >= 1 && Good(p, 1)
    ensures
      var t := Switch(p, ch, avail, noBody);
      if t.ctl == Error then t.p.errno != OK && t.p.errno != Assertion
      else Good(t.p, 0) && (t.ctl == Reexecute ==> Good(t.p, 1))
  {
    hide SwitchStart, SwitchResponseLine, SwitchMethod, SwitchUrl, SwitchRequestVersion;
    hide SwitchField, SwitchValue, SwitchEnd, SwitchChunk, SwitchBody, Good;
    if InStart(p.state) { StartKeepsGood(p, ch); }
    else if p.state.StatusLine? { StatusLineKeepsGood(p, ch); }
    else if p.state.ReqMethod? { MethodKeepsGood(p, ch); }
    else if p.state.Url? { UrlKeepsGood(p, ch); }
    else if p.state.Version? { VersionKeepsGood(p, ch); }
    else if InField(p.state) { FieldKeepsGood(p, ch); }
    else if InValue(p.state) { ValueKeepsGood(p, ch); }
    else if InEnd(p.state) { EndKeepsGood(p, ch, noBody); }
    else if p.state.Chunk? { ChunkKeepsGood(p, ch); }
    else if InBody(p.state) { BodyKeepsGood(p, avail); }
    else { DoneKeepsGood(p); }
  }

  ghost predicate Keeps(t: Turn) {
    if t.ctl == Error then t.p.errno != OK && t.p.errno != Assertion
    else Good(t.p, 0) && (t.ctl == Reexecute ==> Good(t.p, 1))
  }

  /** States about which the invariant says nothing in particular. */
  predicate Plain(s: State) {
    !(s.ReqMethod? || s.HeaderField? || s.HeaderValue? || s.Chunk? || s.ChunkData? || s.BodyIdentity?)
  }

  lemma PlainGood(p: Parser)
    requires p.errno == OK && InRange(p) && Plain(p.state)
    ensures Good(p, 0) && Good(p, 1)
  {}

  lemma GoodFacts(p: Parser)
    requires Good(p, 1)
    ensures p.errno == OK && InRange(p)
  {}

  /** A switch to a sibling method stays inside the new method's name. */
  lemma SiblingFits(m: Method, index: nat, ch: char)
    requires SiblingMethod(m, index, ch).Some?
    ensures index + 1 <= |MethodName(SiblingMethod(m, index, ch).value)|
  {}

  lemma NameFits(m: Method)
    ensures |MethodName(m)| <= 11
  {}

  lemma StartKeepsGood(p: Parser, ch: char)
    requires Good(p, 1) && InStart(p.state)
    ensures Keeps(SwitchStart(p, ch))
  {
    hide ActsFit, Rank;
  }

  lemma ExpectKeeps(p: Parser, ch: char, want: char, to: State)
    requires p.errno == OK && InRange(p) && Plain(to)
    ensures Keeps(Expect(p, ch, want, to)) && Expect(p, ch, want, to).ctl != Reexecute
  {
    hide Good;
    PlainGood(p.(state := to));
  }

  lemma VersionDigitKeeps(p: Parser, ch: char, minor: State)
    requires p.errno == OK && InRange(p) && Plain(p.state) && Plain(minor)
    ensures Keeps(MajorDigit(p, ch, minor)) && Keeps(MinorDigit(p, ch))
  {
    hide Good;
    if MajorDigit(p, ch, minor).ctl != Error { PlainGood(MajorDigit(p, ch, minor).p); }
    if MinorDigit(p, ch).ctl != Error { PlainGood(MinorDigit(p, ch).p); }
  }

  lemma StatusLineKeepsGood(p: Parser, ch: char)
    requires Good(p, 1) && p.state.StatusLine?
    ensures Keeps(SwitchResponseLine(p, ch))
  {
    hide ActsFit, Rank, Good, Expect, MajorDigit, MinorDigit;
    GoodFacts(p);
    match p.state.status {
      case ResH => ExpectKeeps(p, ch, 'T', StatusLine(ResHT));
      case ResHT => ExpectKeeps(p, ch, 'T', StatusLine(ResHTT));
      case ResHTT => ExpectKeeps(p, ch, 'P', StatusLine(ResHTTP));
      case ResHTTP => ExpectKeeps(p, ch, '/', StatusLine(ResFirstMajor));
      case ResMajor => VersionDigitKeeps(p, ch, StatusLine(ResFirstMinor));
      case ResMinor =>
        VersionDigitKeeps(p, ch, StatusLine(ResFirstMinor));
        PlainGood(p.(state := StatusLine(ResFirstStatusCode)));
      case _ => StatusPlain(p, ch);
    }
  }

  /** The positions of the response line that are neither letters nor version digits. */
  lemma StatusPlain(p: Parser, ch: char)
    requires p.errno == OK && InRange(p) && p.state.StatusLine?
    requires !p.state.status.ResH? && !p.state.status.ResHT? && !p.state.status.ResHTT?
    requires !p.state.status.ResHTTP? && !p.state.status.ResMajor? && !p.state.status.ResMinor?
    ensures Keeps(SwitchResponseLine(p, ch))
  {
    hide ActsFit, Rank, Good, Expect, MajorDigit, MinorDigit;
    var t := SwitchResponseLine(p, ch);
    if t.ctl != Error {
      PlainGood(t.p);
    }
  }

  lemma MethodKeepsGood(p: Parser, ch: char)
    requires Good(p, 1) && p.state == ReqMethod
    ensures Keeps(SwitchMethod(p, ch))
  {
    hide ActsFit, Rank, SiblingMethod, MethodName;
    NameFits(p.verb);
    if SiblingMethod(p.verb, p.index, ch).Some? {
      NameFits(SiblingMethod(p.verb, p.index, ch).value);
      SiblingFits(p.verb, p.index, ch);
    }
  }

  lemma UrlKeepsGood(p: Parser, ch: char)
    requires Good(p, 1) && p.state.Url?
    ensures Keeps(SwitchUrl(p, ch))
  {
    hide ActsFit, Rank;
  }

  lemma DoneKeepsGood(p: Parser)
    requires Good(p, 1)
    ensures Keeps(Complete(p))
  {}

  lemma VersionKeepsGood(p: Parser, ch: char)
    requires Good(p, 1) && p.state.Version?
    ensures Keeps(SwitchRequestVersion(p, ch))
  {
    hide ActsFit, Rank, Good, Expect, MajorDigit, MinorDigit;
    GoodFacts(p);
    match p.state.version {
      case HttpH => ExpectKeeps(p, ch, 'T', Version(HttpHT));
      case HttpHT => ExpectKeeps(p, ch, 'T', Version(HttpHTT));
      case HttpHTT => ExpectKeeps(p, ch, 'P', Version(HttpHTTP));
      case HttpHTTP => ExpectKeeps(p, ch, '/', Version(FirstMajor));
      case Major => VersionDigitKeeps(p, ch, Version(FirstMinor));
      case Minor => MinorKeeps(p, ch);
      case _ => VersionPlain(p, ch);
    }
  }

  lemma MinorKeeps(p: Parser, ch: char)
    requires p.errno == OK && InRange(p) && p.state == Version(Minor)
    ensures Keeps(SwitchRequestVersion(p, ch))
  {
    hide ActsFit, Rank, Good, MinorDigit;
    VersionDigitKeeps(p, ch, Version(FirstMinor));
    PlainGood(p.(state := Version(LineAlmostDone)));
    PlainGood(p.(state := HeaderFieldStart));
  }

  lemma VersionPlain(p: Parser, ch: char)
    requires p.errno == OK && InRange(p) && p.state.Version?
    requires p.state.version.HttpStart? || p.state.version.FirstMajor? ||
             p.state.version.FirstMinor? || p.state.version.LineAlmostDone?
    ensures Keeps(SwitchRequestVersion(p, ch))
  {
    hide ActsFit, Rank, Good, Expect, MajorDigit, MinorDigit;
    var t := SwitchRequestVersion(p, ch);
    if t.ctl != Error {
      PlainGood(t.p);
    }
  }

  lemma FieldCharStaysNamed(h: HeaderState, index: nat, c: char)
    requires NameState(h) && index < 256
    ensures FieldChar(h, index, c).Some?
    ensures NameState(FieldChar(h, index, c).value.0) && FieldChar(h, index, c).value.1 < 256
  {
    hide MatchWord, Bump;
  }

  lemma FieldKeepsGood(p: Parser, ch: char)
    requires Good(p, 1) && InField(p.state)
    ensures Keeps(SwitchField(p, ch))
  {
    hide ActsFit, Rank, FieldChar;
    if p.state == HeaderField && IsToken(ch) {
      FieldCharStaysNamed(p.headerState, p.index, Lower(ch));
    }
  }

  lemma ValueCharStaysGood(p: Parser)
    requires p.state == HeaderValue
    ensures Good(p, 0) <==> p.errno == OK && InRange(p) && ValueState(p.headerState)
    ensures Good(p, 1) <==> Good(p, 0)
  {}

  lemma ValueCharKeepsGood(p: Parser, ch: char)
    requires Good(p, 1) && p.state == HeaderValue
    ensures Keeps(ValueChar(p, ch)) && ValueChar(p, ch).ctl != Reexecute
  {
    hide MatchWord, Bump, Good;
    GoodFacts(p);
    ValueCharStaysGood(p);
    var t := ValueChar(p, ch);
    if t.ctl != Error {
      ValueCharStaysGood(t.p);
    }
  }

  lemma FirstValueCharKeepsGood(q: Parser, ch: char)
    requires Good(q.(headerState := General), 1) && q.state == HeaderValue
    ensures Keeps(FirstValueChar(q, ch)) && FirstValueChar(q, ch).ctl != Reexecute
  {
    hide MethodName, NameState, Lower;
  }

  lemma ValueKeepsGood(p: Parser, ch: char)
    requires Good(p, 1) && InValue(p.state)
    ensures Keeps(SwitchValue(p, ch))
  {
    hide ActsFit, Rank, ValueChar, FirstValueChar, MethodName, NameState;
    if p.state == HeaderValue {
      ValueCharKeepsGood(p, ch);
    } else if p.state == HeaderValueStart {
      FirstValueCharKeepsGood(p.(state := HeaderValue, index := 0), ch);
    }
  }

  lemma EndKeepsGood(p: Parser, ch: char, noBody: bool)
    requires Good(p, 1) && InEnd(p.state)
    ensures Keeps(SwitchEnd(p, ch, noBody))
  {
    hide ActsFit, Rank;
  }

  lemma ChunkKeepsGood(p: Parser, ch: char)
    requires Good(p, 1) && p.state.Chunk?
    ensures Keeps(SwitchChunk(p, ch))
  {
    if p.state.chunk == SizeStart || p.state.chunk == Size {
      SizeKeepsGood(p, ch);
    } else {
      hide ActsFit, Rank, Accumulate, Unhex, MethodName, NameState, ValueState;
    }
  }

  lemma SizeKeepsGood(p: Parser, ch: char)
    requires Good(p, 1) && (p.state == Chunk(SizeStart) || p.state == Chunk(Size))
    ensures Keeps(SwitchChunk(p, ch))
  {
    UnhexRange(ch);
    AccumulateRange(p.contentLength, Unhex(ch));
    hide ActsFit, Rank, Accumulate, Unhex, MethodName, NameState, ValueState;
  }

  lemma UnhexRange(ch: char)
    ensures -1 <= Unhex(ch) <= 15
  {}

  lemma AccumulateRange(v: nat, d: int)
    ensures d >= 0 && Accumulate(v, 16, d).Some? ==> Accumulate(v, 16, d).value < NO_LENGTH
  {}

  lemma BodyKeepsGood(p: Parser, avail: nat)
    requires Good(p, 1) && InBody(p.state) && avail >= 1
    ensures Keeps(SwitchBody(p, avail))
  {
    hide ActsFit, Rank;
  }

  lemma {:induction false} TurnsKeepGood(p: Parser, ch: char, avail: nat, noBody: bool)
    requires avail >= 1 && Good(p, 1)
    ensures
      var t := Turns(p, ch, avail, noBody);
      if t.ctl == Error then t.p.errno != OK && t.p.errno != Assertion else Good(t.p, 0)
    decreases Rank(p.state)
  {
    hide Switch, Good;
    var t := Switch(p, ch, avail, noBody);
    SwitchKeepsGood(p, ch, avail, noBody);
    if t.ctl == Reexecute {
      TurnsKeepGood(t.p, ch, avail - t.skip, noBody);
    }
  }

  lemma StepKeepsGood(p: Parser, ch: char, noBody: bool)
    requires Good(p, 0)
    ensures
      var s := StepByte(p, ch, noBody);
      if s.ctl == Error then s.p.errno != OK && s.p.errno != Assertion else Good(s.p, 0)
  {
    if !Overflows(p) {
      assert Good(Count(p), 1);
      TurnsKeepGood(Count(p), ch, 1, noBody);
    }
  }

  /** Over any input, no internal assertion fails and the invariant survives unless
      the parser stopped with one of its own errors. */
  lemma {:induction false} RunKeepsGood(p: Parser, log: Log, data: string, i: nat, noBody: bool)
    requires i <= |data| && Good(p, 0)
    ensures
      var r := RunFrom(p, log, data, i, noBody);
      if r.p.errno == OK then Good(r.p, 0) else r.p.errno != Assertion
    decreases |data| - i
  {
    if i < |data| {
      var s := StepByte(p, data[i], noBody);
      StepKeepsGood(p, data[i], noBody);
      if s.ctl == Advance {
        RunKeepsGood(s.p, AddAll(log, s.events), data, i + 1, noBody);
      }
    }
  }

  lemma ExecKeepsGood(p: Parser, log: Log, data: string, noBody: bool)
    requires Good(p, 0)
    ensures
      var r := Exec(p, log, data, noBody);
      if r.p.errno == OK then Good(r.p, 0) else r.p.errno != Assertion
  {
    if data != [] {
      RunKeepsGood(p, log, data, 0, noBody);
    }
  }
}

/** parse_url_char: the URL transition function shared by the message parser and
    the URL splitter. */
module UrlChars {
  import opened Wrappers
  import opened HttpTypes

  /** None is s_dead. */
  function ParseUrlChar(s: UrlPos, ch: char): (r: Option<UrlPos>)
    ensures r != Some(SpacesBeforeUrl)
  {
    if ch == ' ' || ch == CR || ch == LF || ch == '\t' || ch as int == 12 then None
    else match s
      case SpacesBeforeUrl =>
        if ch == '/' || ch == '*' then Some(Path)
        else if IsAlpha(ch) then Some(Schema)
        else None
      case Schema =>
        if IsAlpha(ch) then Some(Schema) else if ch == ':' then Some(SchemaSlash) else None
      case SchemaSlash =>
        if ch == '/' then Some(SchemaSlashSlash) else None
      case SchemaSlashSlash =>
        if ch == '/' then Some(ServerStart) else None
      case ServerWithAt =>
        if ch == '@' then None else ParseServerChar(ch)
      case ServerStart | Server => ParseServerChar(ch)
      case Path =>
        if IsUrlChar(ch) then Some(Path)
        else if ch == '?' then Some(QueryStart)
        else if ch == '#' then Some(FragmentStart)
        else None
      case QueryStart | Query =>
        if IsUrlChar(ch) || ch == '?' then Some(Query)
        else if ch == '#' then Some(FragmentStart)
        else None
      case FragmentStart =>
        if IsUrlChar(ch) || ch == '?' then Some(Fragment)
        else if ch == '#' then Some(FragmentStart)
        else None
      case Fragment =>
        if IsUrlChar(ch) || ch == '?' || ch == '#' then Some(Fragment) else None
  }

  function ParseServerChar(ch: char): (r: Option<UrlPos>)
    ensures r != Some(SpacesBeforeUrl)
  {
    if ch == '/' then Some(Path)
    else if ch == '?' then Some(QueryStart)
    else if ch == '@' then Some(ServerWithAt)
    else if IsUserinfoChar(ch) || ch == '[' || ch == ']' then Some(Server)
    else None
  }

  /** Where a URL that starts in `from` ends, None when it is malformed. */
  function UrlFold(from: UrlPos, url: string): Option<UrlPos> {
    if url == [] then Some(from)
    else match UrlFold(from, url[..|url| - 1])
      case None => None
      case Some(u) => ParseUrlChar(u, url[|url| - 1])
  }
}

/** One execution of the big switch of http_parser_execute, as a function.

    `Switch(p, ch, avail, noBody)` is what the C code does between the label
    `reexecute_byte` and the next `break`, `goto` or `return`: the new parser
    fields, the mark and callback macros it ran, and how control leaves.
    `avail` is the number of bytes from the current one to the end of the buffer
    and `noBody` says that on_headers_complete answers 1. */
module HttpSwitch {
  import opened Wrappers
  import opened HttpTypes
  import opened UrlChars

  datatype Act =
    | Mark(kind: DataKind)          // MARK
    | Callback(kind: DataKind)      // CALLBACK_DATA, up to but excluding the current byte
    | CallbackThrough(kind: DataKind) // the body callback that includes the current byte
    | Notify(event: Event)          // CALLBACK_NOTIFY

  datatype Control = Advance | Reexecute | Exit | Error

  /** `skip` is how far the body cases move the cursor before the loop's own increment. */
  datatype Turn = Turn(p: Parser, acts: seq<Act>, ctl: Control, skip: nat)

  function Next(p: Parser, acts: seq<Act>): Turn { Turn(p, acts, Advance, 0) }
  function Goto(p: Parser, acts: seq<Act>): Turn { Turn(p, acts, Reexecute, 0) }
  function Fail(p: Parser, e: Errno): Turn { Turn(p.(errno := e), [], Error, 0) }

  /** http_message_needs_eof */
  predicate NeedsEof(p: Parser) {
    && p.kind != Request
    && !(p.statusCode / 100 == 1 || p.statusCode == 204 || p.statusCode == 304 || p.flags.skipBody)
    && !(p.flags.chunked || p.contentLength != NO_LENGTH)
  }

  /** http_should_keep_alive */
  predicate ShouldKeepAlive(p: Parser) {
    && (if p.httpMajor > 0 && p.httpMinor > 0 then !p.flags.close else p.flags.keepAlive)
    && !NeedsEof(p)
  }

  /** NEW_MESSAGE */
  function NewMessage(p: Parser): State {
    if !ShouldKeepAlive(p) then Dead else if p.kind == Request then StartReq else StartRes
  }

  function Complete(p: Parser): Turn {
    Next(p.(state := NewMessage(p)), [Notify(MessageComplete)])
  }

  /** Position of a state in the acyclic graph of `goto reexecute_byte` jumps. */
  function Rank(s: State): nat {
    match s
    case HeaderValueLws => 3
    case HeaderFieldStart => 2
    case HeadersAlmostDone => 1
    case HeaderValue => 1
    case StartReqOrRes => 1
    case BodyIdentity => 1
    case _ => 0
  }

  predicate ParsingHeader(s: State) {
    !(s == ChunkData || s == Chunk(DataAlmostDone) || s == Chunk(DataDone) ||
      s == BodyIdentity || s == BodyIdentityEof || s == MessageDone)
  }

  predicate InStart(s: State) {
    s.Dead? || s.StartReqOrRes? || s.ResOrRespH? || s.StartRes? || s.StartReq?
  }
  predicate InField(s: State) { s.HeaderFieldStart? || s.HeaderField? }
  predicate InValue(s: State) {
    s.HeaderValueStart? || s.HeaderValue? || s.HeaderAlmostDone? || s.HeaderValueLws?
  }
  predicate InEnd(s: State) { s.HeadersAlmostDone? || s.HeadersDone? }
  predicate InBody(s: State) { s.BodyIdentity? || s.BodyIdentityEof? || s.ChunkData? }

  /** The callback whose string is being collected in a state. */
  function LiveKind(s: State): Option<DataKind> {
    if s.Url? && !s.url.SpacesBeforeUrl? then Some(OnUrl)
    else if s == HeaderField then Some(OnHeaderField)
    else if s == HeaderValue then Some(OnHeaderValue)
    else None
  }

  /** The discipline the macros follow: a mark is set on entering a collecting
      state and its callback runs on leaving it. */
  ghost predicate ActsFit(before: State, ch: char, t: Turn) {
    t.ctl != Error && !InBody(before) ==>
    match (LiveKind(before), LiveKind(t.p.state))
    case (Some(k), Some(k')) => k == k' && t.acts == [] && t.ctl == Advance
    case (Some(k), None) => t.acts == [Callback(k)] && t.ctl != Exit
    case (None, Some(k)) =>
      t.acts == [Mark(k)] && t.ctl == Advance && before != Chunk(DataAlmostDone) &&
      !(before == HeaderValueStart && (ch == CR || ch == LF))
    case (None, None) =>
      if before == Chunk(DataAlmostDone) then t.acts == [Callback(OnBody)] && t.ctl == Advance
      else if before == HeaderValueStart && (ch == CR || ch == LF) then
        t.acts == [Mark(OnHeaderValue), Callback(OnHeaderValue)] && t.ctl == Advance
      else t.acts == [] || (|t.acts| == 1 && t.acts[0].Notify? && !t.acts[0].event.Data?
                            && (t.ctl == Reexecute ==> before == HeadersAlmostDone && t.p.state == HeadersDone))
  }

  // ---- start lines -------------------------------------------------------

  function SwitchStart(p: Parser, ch: char): (t: Turn)
    requires InStart(p.state)
    ensures t.ctl == Reexecute ==> Rank(t.p.state) < Rank(p.state)
    ensures t.skip == 0 && t.ctl != Exit && t.p.upgrade == p.upgrade
    ensures ActsFit(p.state, ch, t)
  {
    match p.state
    case Dead =>
      if ch == CR || ch == LF then Next(p, []) else Fail(p, ClosedConnection)
    case StartReqOrRes =>
      if ch == CR || ch == LF then Next(p, [])
      else
        var q := p.(flags := NO_FLAGS, contentLength := NO_LENGTH);
        if ch == 'H' then Next(q.(state := ResOrRespH), [Notify(MessageBegin)])
        else Goto(q.(kind := Request, state := StartReq), [])
    case ResOrRespH =>
      if ch == 'T' then Next(p.(kind := Response, state := StatusLine(ResHT)), [])
      else if ch != 'E' then Fail(p, InvalidConstant)
      else Next(p.(kind := Request, verb := HEAD, index := 2, state := ReqMethod), [])
    case StartRes =>
      var q := p.(flags := NO_FLAGS, contentLength := NO_LENGTH);
      if ch == 'H' then Next(q.(state := StatusLine(ResH)), [Notify(MessageBegin)])
      else if ch == CR || ch == LF then Next(q, [Notify(MessageBegin)])
      else Fail(q, InvalidConstant)
    case StartReq =>
      if ch == CR || ch == LF then Next(p, [])
      else
        var q := p.(flags := NO_FLAGS, contentLength := NO_LENGTH);
        if !IsAlpha(ch) then Fail(q, InvalidMethod)
        else
          var r := q.(verb := DELETE, index := 1);
          match FirstMethod(ch)
          case None => Fail(r, InvalidMethod)
          case Some(m) => Next(r.(verb := m, state := ReqMethod), [Notify(MessageBegin)])
  }

  function FirstMethod(ch: char): Option<Method> {
    if ch == 'C' then Some(CONNECT)
    else if ch == 'D' then Some(DELETE)
    else if ch == 'G' then Some(GET)
    else if ch == 'H' then Some(HEAD)
    else if ch == 'L' then Some(LOCK)
    else if ch == 'M' then Some(MKCOL)
    else if ch == 'N' then Some(NOTIFY)
    else if ch == 'O' then Some(OPTIONS)
    else if ch == 'P' then Some(POST)
    else if ch == 'R' then Some(REPORT)
    else if ch == 'S' then Some(SUBSCRIBE)
    else if ch == 'T' then Some(TRACE)
    else if ch == 'U' then Some(UNLOCK)
    else None
  }

  // ---- response line -----------------------------------------------------

  /** STRICT_CHECK(ch != want), then move to `to`. */
  function Expect(p: Parser, ch: char, want: char, to: State): Turn {
    if ch != want then Fail(p, Strict) else Next(p.(state := to), [])
  }

  function SwitchResponseLine(p: Parser, ch: char): (t: Turn)
    requires p.state.StatusLine?
    ensures t.ctl == Reexecute ==> Rank(t.p.state) < Rank(p.state)
    ensures t.skip == 0 && t.ctl != Exit && t.p.upgrade == p.upgrade
    ensures ActsFit(p.state, ch, t)
  {
    match p.state.status
    case ResH => Expect(p, ch, 'T', StatusLine(ResHT))
    case ResHT => Expect(p, ch, 'T', StatusLine(ResHTT))
    case ResHTT => Expect(p, ch, 'P', StatusLine(ResHTTP))
    case ResHTTP => Expect(p, ch, '/', StatusLine(ResFirstMajor))
    case ResFirstMajor =>
      if !IsNum(ch) then Fail(p, InvalidVersion)
      else Next(p.(httpMajor := Digit(ch), state := StatusLine(ResMajor)), [])
    case ResMajor => MajorDigit(p, ch, StatusLine(ResFirstMinor))
    case ResFirstMinor =>
      if !IsNum(ch) then Fail(p, InvalidVersion)
      else Next(p.(httpMinor := Digit(ch), state := StatusLine(ResMinor)), [])
    case ResMinor =>
      if ch == ' ' then Next(p.(state := StatusLine(ResFirstStatusCode)), [])
      else MinorDigit(p, ch)
    case ResFirstStatusCode =>
      if IsNum(ch) then Next(p.(statusCode := Digit(ch), state := StatusLine(ResStatusCode)), [])
      else if ch == ' ' then Next(p, [])
      else Fail(p, InvalidStatus)
    case ResStatusCode =>
      if !IsNum(ch) then
        if ch == ' ' then Next(p.(state := StatusLine(ResStatus)), [])
        else if ch == CR then Next(p.(state := StatusLine(ResLineAlmostDone)), [])
        else if ch == LF then Next(p.(state := HeaderFieldStart), [])
        else Fail(p, InvalidStatus)
      else
        var q := p.(statusCode := p.statusCode * 10 + Digit(ch));
        if q.statusCode > 999 then Fail(q, InvalidStatus) else Next(q, [])
    case ResStatus =>
      if ch == CR then Next(p.(state := StatusLine(ResLineAlmostDone)), [])
      else if ch == LF then Next(p.(state := HeaderFieldStart), [])
      else Next(p, [])
    case ResLineAlmostDone =>
      if ch != LF then Fail(p, Strict)
      else Next(p.(state := HeaderFieldStart), [Notify(StatusComplete)])
  }

  function MajorDigit(p: Parser, ch: char, minor: State): Turn {
    if ch == '.' then Next(p.(state := minor), [])
    else if !IsNum(ch) then Fail(p, InvalidVersion)
    else
      var q := p.(httpMajor := p.httpMajor * 10 + Digit(ch));
      if q.httpMajor > 999 then Fail(q, InvalidVersion) else Next(q, [])
  }

  function MinorDigit(p: Parser, ch: char): Turn {
    if !IsNum(ch) then Fail(p, InvalidVersion)
    else
      var q := p.(httpMinor := p.httpMinor * 10 + Digit(ch));
      if q.httpMinor > 999 then Fail(q, InvalidVersion) else Next(q, [])
  }

  // ---- request line ------------------------------------------------------

  /** The method state: the branch that switches to a sibling method with a common prefix. */
  function SwitchMethod(p: Parser, ch: char): (t: Turn)
    requires p.state == ReqMethod
    ensures t.ctl == Reexecute ==> Rank(t.p.state) < Rank(p.state)
    ensures t.skip == 0 && t.ctl != Exit && t.p.upgrade == p.upgrade
    ensures ActsFit(p.state, ch, t)
  {
    if ch as int == 0 then Fail(p, InvalidMethod)
    else
      var matcher := MethodName(p.verb);
      if p.index > |matcher| then Fail(p, Assertion)
      else if ch == ' ' && p.index == |matcher| then
        Next(p.(state := Url(SpacesBeforeUrl), index := p.index + 1), [])
      else if p.index < |matcher| && ch == matcher[p.index] then Next(p.(index := p.index + 1), [])
      else match SiblingMethod(p.verb, p.index, ch)
        case None => Fail(p, InvalidMethod)
        case Some(m) => Next(p.(verb := m, index := p.index + 1), [])
  }

  function SiblingMethod(m: Method, index: nat, ch: char): Option<Method> {
    if m == CONNECT then
      if index == 1 && ch == 'H' then Some(CHECKOUT)
      else if index == 2 && ch == 'P' then Some(COPY)
      else None
    else if m == MKCOL then
      if index == 1 && ch == 'O' then Some(MOVE)
      else if index == 1 && ch == 'E' then Some(MERGE)
      else if index == 1 && ch == '-' then Some(MSEARCH)
      else if index == 2 && ch == 'A' then Some(MKACTIVITY)
      else None
    else if m == SUBSCRIBE then
      if index == 1 && ch == 'E' then Some(SEARCH) else None
    else if index == 1 && m == POST then
      if ch == 'R' then Some(PROPFIND)
      else if ch == 'U' then Some(PUT)
      else if ch == 'A' then Some(PATCH)
      else None
    else if index == 2 then
      if m == PUT && ch == 'R' then Some(PURGE)
      else if m == UNLOCK && ch == 'S' then Some(UNSUBSCRIBE)
      else None
    else if index == 4 && m == PROPFIND && ch == 'P' then Some(PROPPATCH)
    else None
  }

  /** Run parse_url_char from `from` and fail on a dead end. */
  function UrlTurn(p: Parser, from: UrlPos, ch: char, acts: seq<Act>): (t: Turn)
    ensures t.ctl == Error || (t.ctl == Advance && t.acts == acts && LiveKind(t.p.state) == Some(OnUrl))
    ensures t.skip == 0
  {
    match ParseUrlChar(from, ch)
    case None => Fail(p.(state := Dead), InvalidUrl)
    case Some(u) => Next(p.(state := Url(u)), acts)
  }

  function SwitchUrl(p: Parser, ch: char): (t: Turn)
    requires p.state.Url?
    ensures t.ctl == Reexecute ==> Rank(t.p.state) < Rank(p.state)
    ensures t.skip == 0 && t.ctl != Exit && t.p.upgrade == p.upgrade
    ensures ActsFit(p.state, ch, t)
  {
    var u := p.state.url;
    if u.SpacesBeforeUrl? then
      if ch == ' ' then Next(p, [])
      else UrlTurn(p, if p.verb.CONNECT? then ServerStart else u, ch, [Mark(OnUrl)])
    else if ch == ' ' || ch == CR || ch == LF then
      if u.Schema? || u.SchemaSlash? || u.SchemaSlashSlash? || u.ServerStart? then Fail(p, InvalidUrl)
      else if ch == ' ' then Next(p.(state := Version(HttpStart)), [Callback(OnUrl)])
      else
        Next(p.(httpMajor := 0, httpMinor := 9,
                state := if ch == CR then Version(LineAlmostDone) else HeaderFieldStart),
             [Callback(OnUrl)])
    else UrlTurn(p, u, ch, [])
  }

  function SwitchRequestVersion(p: Parser, ch: char): (t: Turn)
    requires p.state.Version?
    ensures t.ctl == Reexecute ==> Rank(t.p.state) < Rank(p.state)
    ensures t.skip == 0 && t.ctl != Exit && t.p.upgrade == p.upgrade
    ensures ActsFit(p.state, ch, t)
  {
    match p.state.version
    case HttpStart =>
      if ch == 'H' then Next(p.(state := Version(HttpH)), [])
      else if ch == ' ' then Next(p, [])
      else Fail(p, InvalidConstant)
    case HttpH => Expect(p, ch, 'T', Version(HttpHT))
    case HttpHT => Expect(p, ch, 'T', Version(HttpHTT))
    case HttpHTT => Expect(p, ch, 'P', Version(HttpHTTP))
    case HttpHTTP => Expect(p, ch, '/', Version(FirstMajor))
    case FirstMajor =>
      if !('1' <= ch <= '9') then Fail(p, InvalidVersion)
      else Next(p.(httpMajor := Digit(ch), state := Version(Major)), [])
    case Major => MajorDigit(p, ch, Version(FirstMinor))
    case FirstMinor =>
      if !IsNum(ch) then Fail(p, InvalidVersion)
      else Next(p.(httpMinor := Digit(ch), state := Version(Minor)), [])
    case Minor =>
      if ch == CR then Next(p.(state := Version(LineAlmostDone)), [])
      else if ch == LF then Next(p.(state := HeaderFieldStart), [])
      else MinorDigit(p, ch)
    case LineAlmostDone =>
      if ch != LF then Fail(p, LfExpected) else Next(p.(state := HeaderFieldStart), [])
  }

  // ---- header fields -----------------------------------------------------

  function SwitchField(p: Parser, ch: char): (t: Turn)
    requires InField(p.state)
    ensures t.ctl == Reexecute ==> Rank(t.p.state) < Rank(p.state)
    ensures t.skip == 0 && t.ctl != Exit && t.p.upgrade == p.upgrade
    ensures ActsFit(p.state, ch, t)
  {
    match p.state
    case HeaderFieldStart =>
      if ch == CR then Next(p.(state := HeadersAlmostDone), [])
      else if ch == LF then Goto(p.(state := HeadersAlmostDone), [])
      else if !IsToken(ch) then Fail(p, InvalidHeaderToken)
      else
        Next(p.(index := 0, state := HeaderField, headerState := FirstHeaderState(Lower(ch))),
             [Mark(OnHeaderField)])
    case HeaderField =>
      if IsToken(ch) then
        match FieldChar(p.headerState, p.index, Lower(ch))
        case None => Fail(p, Assertion)
        case Some((h, i)) => Next(p.(headerState := h, index := i), [])
      else if ch == ':' then Next(p.(state := HeaderValueStart), [Callback(OnHeaderField)])
      else if ch == CR then Next(p.(state := HeaderAlmostDone), [Callback(OnHeaderField)])
      else if ch == LF then Next(p.(state := HeaderFieldStart), [Callback(OnHeaderField)])
      else Fail(p, InvalidHeaderToken)
  }

  function FirstHeaderState(c: char): HeaderState {
    if c == 'c' then C
    else if c == 'p' then MatchingProxyConnection
    else if c == 't' then MatchingTransferEncoding
    else if c == 'u' then MatchingUpgrade
    else General
  }

  /** The index counter is an unsigned char. */
  function Bump(index: nat): (r: nat)
    ensures r < 256
  {
    (index + 1) % 256
  }

  /** Advance a matcher over `word`: one more character matched, all of it matched, or no match. */
  function MatchWord(word: string, matching: HeaderState, matched: HeaderState, index: nat, c: char)
    : (r: (HeaderState, nat))
    requires |word| >= 1
    ensures r.1 == Bump(index) && (r.0 == General || r.0 == matching || r.0 == matched)
  {
    var i := Bump(index);
    if i >= |word| || c != word[i] then (General, i)
    else if i == |word| - 1 then (matched, i)
    else (matching, i)
  }

  /** One more character of a header name; None is the "Unknown header_state" assertion. */
  function FieldChar(h: HeaderState, index: nat, c: char): Option<(HeaderState, nat)> {
    match h
    case General => Some((General, index))
    case C => Some((if c == 'o' then Co else General, Bump(index)))
    case Co => Some((if c == 'n' then Con else General, Bump(index)))
    case Con =>
      Some((if c == 'n' then MatchingConnection
            else if c == 't' then MatchingContentLength else General, Bump(index)))
    case MatchingConnection => Some(MatchWord("connection", h, Connection, index, c))
    case MatchingProxyConnection => Some(MatchWord("proxy-connection", h, Connection, index, c))
    case MatchingContentLength => Some(MatchWord("content-length", h, ContentLength, index, c))
    case MatchingTransferEncoding => Some(MatchWord("transfer-encoding", h, TransferEncoding, index, c))
    case MatchingUpgrade => Some(MatchWord("upgrade", h, Upgrade, index, c))
    case Connection | ContentLength | TransferEncoding | Upgrade => Some((General, index))
    case _ => None
  }

  // ---- header values -----------------------------------------------------

  function SwitchValue(p: Parser, ch: char): (t: Turn)
    requires InValue(p.state)
    ensures t.ctl == Reexecute ==> Rank(t.p.state) < Rank(p.state)
    ensures t.skip == 0 && t.ctl != Exit && t.p.upgrade == p.upgrade
    ensures ActsFit(p.state, ch, t)
  {
    match p.state
    case HeaderValueStart =>
      if ch == ' ' || ch == '\t' then Next(p, [])
      else
        var q := p.(state := HeaderValue, index := 0);
        if ch == CR then
          Next(q.(headerState := General, state := HeaderAlmostDone),
               [Mark(OnHeaderValue), Callback(OnHeaderValue)])
        else if ch == LF then
          Next(q.(state := HeaderFieldStart), [Mark(OnHeaderValue), Callback(OnHeaderValue)])
        else FirstValueChar(q, ch)
    case HeaderValue =>
      if ch == CR then Next(p.(state := HeaderAlmostDone), [Callback(OnHeaderValue)])
      else if ch == LF then Goto(p.(state := HeaderAlmostDone), [Callback(OnHeaderValue)])
      else ValueChar(p, ch)
    case HeaderAlmostDone =>
      if ch != LF then Fail(p, Strict)
      else
        var q := p.(state := HeaderValueLws);
        Next(match p.headerState
             case KeepAlive => q.(flags := p.flags.(keepAlive := true))
             case Close => q.(flags := p.flags.(close := true))
             case Chunked => q.(flags := p.flags.(chunked := true))
             case _ => q, [])
    case HeaderValueLws =>
      if ch == ' ' || ch == '\t' then Next(p.(state := HeaderValueStart), [])
      else Goto(p.(state := HeaderFieldStart), [])
  }

  function FirstValueChar(q: Parser, ch: char): Turn {
    var c := Lower(ch);
    var mark := [Mark(OnHeaderValue)];
    match q.headerState
    case Upgrade => Next(q.(flags := q.flags.(upgrade := true), headerState := General), mark)
    case TransferEncoding => Next(q.(headerState := if c == 'c' then MatchingChunked else General), mark)
    case ContentLength =>
      if !IsNum(ch) then Fail(q, InvalidContentLength)
      else Next(q.(contentLength := Digit(ch)), mark)
    case Connection =>
      Next(q.(headerState := if c == 'k' then MatchingKeepAlive
                             else if c == 'c' then MatchingClose else General), mark)
    case _ => Next(q.(headerState := General), mark)
  }

  /** uint64_t t = len * base + digit, with the source's own overflow test. */
  function Accumulate(len: nat, base: nat, digit: nat): Option<nat> {
    var t := (len * base + digit) % TWO64;
    if t < len || t == NO_LENGTH then None else Some(t)
  }

  function ValueChar(p: Parser, ch: char): Turn {
    var c := Lower(ch);
    match p.headerState
    case General => Next(p, [])
    case Connection | TransferEncoding => Fail(p, Assertion)
    case ContentLength =>
      if ch == ' ' then Next(p, [])
      else if !IsNum(ch) then Fail(p, InvalidContentLength)
      else
        (match Accumulate(p.contentLength, 10, Digit(ch))
         case None => Fail(p, InvalidContentLength)
         case Some(t) => Next(p.(contentLength := t), []))
    case MatchingChunked =>
      var (h, i) := MatchWord("chunked", MatchingChunked, Chunked, p.index, c);
      Next(p.(headerState := h, index := i), [])
    case MatchingKeepAlive =>
      var (h, i) := MatchWord("keep-alive", MatchingKeepAlive, KeepAlive, p.index, c);
      Next(p.(headerState := h, index := i), [])
    case MatchingClose =>
      var (h, i) := MatchWord("close", MatchingClose, Close, p.index, c);
      Next(p.(headerState := h, index := i), [])
    case Chunked | KeepAlive | Close =>
      Next(if ch != ' ' then p.(headerState := General) else p, [])
    case _ => Next(p.(state := HeaderValue, headerState := General), [])
  }

  // ---- end of headers, chunk framing -------------------------------------

  function SwitchEnd(p: Parser, ch: char, noBody: bool): (t: Turn)
    requires InEnd(p.state)
    ensures t.ctl == Reexecute ==> Rank(t.p.state) < Rank(p.state)
    ensures t.skip == 0 && (t.ctl == Exit ==> p.state == HeadersDone)
    ensures ActsFit(p.state, ch, t)
  {
    match p.state
    case HeadersAlmostDone =>
      if ch != LF then Fail(p, Strict)
      else if p.flags.trailing then Complete(p)
      else
        var q := p.(state := HeadersDone, upgrade := p.flags.upgrade || p.verb == CONNECT);
        Goto(if noBody then q.(flags := q.flags.(skipBody := true)) else q, [Notify(HeadersComplete)])
    case HeadersDone =>
      if ch != LF then Fail(p, Strict)
      else
        var q := p.(nread := 0);
        if q.upgrade then Complete(q).(ctl := Exit)
        else if q.flags.skipBody then Complete(q)
        else if q.flags.chunked then Next(q.(state := Chunk(SizeStart)), [])
        else if q.contentLength == 0 then Complete(q)
        else if q.contentLength != NO_LENGTH then Next(q.(state := BodyIdentity), [])
        else if q.kind == Request || !NeedsEof(q) then Complete(q)
        else Next(q.(state := BodyIdentityEof), [])
  }

  function SwitchChunk(p: Parser, ch: char): (t: Turn)
    requires p.state.Chunk?
    ensures t.ctl == Reexecute ==> Rank(t.p.state) < Rank(p.state)
    ensures t.skip == 0 && t.ctl != Exit && t.p.upgrade == p.upgrade
    ensures ActsFit(p.state, ch, t)
  {
    if !p.flags.chunked then Fail(p, Assertion)
    else match p.state.chunk
      case SizeStart =>
        if p.nread != 1 then Fail(p, Assertion)
        else if Unhex(ch) == -1 then Fail(p, InvalidChunkSize)
        else Next(p.(contentLength := Unhex(ch), state := Chunk(Size)), [])
      case Size =>
        if ch == CR then Next(p.(state := Chunk(SizeAlmostDone)), [])
        else if Unhex(ch) == -1 then
          if ch == ';' || ch == ' ' then Next(p.(state := Chunk(Parameters)), [])
          else Fail(p, InvalidChunkSize)
        else
          (match Accumulate(p.contentLength, 16, Unhex(ch))
           case None => Fail(p, InvalidContentLength)
           case Some(t) => Next(p.(contentLength := t), []))
      case Parameters =>
        Next(if ch == CR then p.(state := Chunk(SizeAlmostDone)) else p, [])
      case SizeAlmostDone =>
        if ch != LF then Fail(p, Strict)
        else
          var q := p.(nread := 0);
          Next(if p.contentLength == 0
               then q.(flags := q.flags.(trailing := true), state := HeaderFieldStart)
               else q.(state := ChunkData), [])
      case DataAlmostDone =>
        if p.contentLength != 0 then Fail(p, Assertion)
        else if ch != CR then Fail(p, Strict)
        else Next(p.(state := Chunk(DataDone)), [Callback(OnBody)])
      case DataDone =>
        if ch != LF then Fail(p, Strict)
        else Next(p.(nread := 0, state := Chunk(SizeStart)), [])
  }

  // ---- bodies ------------------------------------------------------------

  /** The three cases that take many bytes at once: to_read = MIN(content_length, avail). */
  function SwitchBody(p: Parser, avail: nat): (t: Turn)
    requires InBody(p.state) && avail >= 1
    ensures t.ctl == Reexecute ==> Rank(t.p.state) < Rank(p.state)
    ensures t.skip < avail
  {
    var toRead := if p.contentLength < avail then p.contentLength else avail;
    match p.state
    case BodyIdentityEof => Turn(p, [Mark(OnBody)], Advance, avail - 1)
    case BodyIdentity =>
      if p.contentLength == 0 || p.contentLength == NO_LENGTH then Fail(p, Assertion)
      else
        var q := p.(contentLength := p.contentLength - toRead);
        if q.contentLength == 0
        then Turn(q.(state := MessageDone), [Mark(OnBody), CallbackThrough(OnBody)], Reexecute, toRead - 1)
        else Turn(q, [Mark(OnBody)], Advance, toRead - 1)
    case ChunkData =>
      if !p.flags.chunked || p.contentLength == 0 || p.contentLength == NO_LENGTH then Fail(p, Assertion)
      else
        var q := p.(contentLength := p.contentLength - toRead);
        Turn(if q.contentLength == 0 then q.(state := Chunk(DataAlmostDone)) else q,
             [Mark(OnBody)], Advance, toRead - 1)
  }

  // ---- the switch --------------------------------------------------------

  function Switch(p: Parser, ch: char, avail: nat, noBody: bool): (t: Turn)
    requires avail >= 1
    ensures t.ctl == Reexecute ==> Rank(t.p.state) < Rank(p.state)
    ensures t.skip < avail && (!InBody(p.state) ==> t.skip == 0)
    ensures ActsFit(p.state, ch, t)
  {
    if InStart(p.state) then SwitchStart(p, ch)
    else if p.state.StatusLine? then SwitchResponseLine(p, ch)
    else if p.state.ReqMethod? then SwitchMethod(p, ch)
    else if p.state.Url? then SwitchUrl(p, ch)
    else if p.state.Version? then SwitchRequestVersion(p, ch)
    else if InField(p.state) then SwitchField(p, ch)
    else if InValue(p.state) then SwitchValue(p, ch)
    else if InEnd(p.state) then SwitchEnd(p, ch, noBody)
    else if p.state.Chunk? then SwitchChunk(p, ch)
    else if InBody(p.state) then SwitchBody(p, avail)
    else Complete(p)
  }
}

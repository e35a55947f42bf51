/** Whole requests, and requests one after the other on a connection, read from a parser that
    waits for them. */
module HttpRequests {
  import opened Wrappers
  import opened HttpTypes
  import opened HttpSwitch
  import opened HttpRun
  import opened HttpInvariant
  import opened HttpSegments
  import opened HttpSteps
  import opened HttpNumerals
  import opened HttpValues
  import opened HttpLines
  import opened HttpMessages
  import opened HttpRequestLine

  datatype RequestHead = RequestHead(start: StartLine, lines: seq<HeaderLine>, crlf: bool)

  predicate HeadOk(h: RequestHead) { StartOk(h.start) && forall l :: l in h.lines ==> LineOk(l) }

  function WriteHead(h: RequestHead): string { WriteStart(h.start) + Head(h.lines, h.crlf) }

  function RequestLog(log: Log, h: RequestHead): Log { HeadLog(StartLog(log, h.start), h.lines) }

  const NO_FRAMING := Framing(NO_FLAGS, NO_LENGTH)

  /** How a request is delimited, by its header lines alone; None when one is rejected. */
  function FramingFor(h: RequestHead): Option<Framing> { AppliedAll(NO_FRAMING, h.lines) }

  datatype Body = Empty | Plain(data: string) | InChunks(chunks: seq<ChunkText>, last: LastChunk)

  predicate BodyFits(f: Framing, b: Body) {
    match b
    case Empty => !f.flags.chunked && f.length == NO_LENGTH
    case Plain(data) => !f.flags.chunked && f.length == |data| < NO_LENGTH
    case InChunks(cs, z) => f.flags.chunked && (forall c :: c in cs ==> ChunkOk(c)) && LastOk(z)
  }

  function WriteBody(b: Body): string {
    match b
    case Empty => []
    case Plain(data) => data
    case InChunks(cs, z) => WriteChunks(cs) + WriteLast(z)
  }

  /** Body and trailer, as the callbacks deliver them. */
  function BodyLog(log: Log, b: Body): Log {
    match b
    case Empty => log
    case Plain(data) => AddBody(log, data)
    case InChunks(cs, z) => LinesLog(AddBody(log, Joined(cs)), z.trailer)
  }

  datatype HttpRequest = HttpRequest(head: RequestHead, body: Body)

  /** A request that stays within the protocol. */
  predicate RequestOk(r: HttpRequest) {
    && HeadOk(r.head) && r.head.start.verb != CONNECT
    && match FramingFor(r.head)
       case None => false
       case Some(f) => !f.flags.upgrade && BodyFits(f, r.body)
  }

  function WriteRequest(r: HttpRequest): string { WriteHead(r.head) + WriteBody(r.body) }

  function WholeLog(log: Log, r: HttpRequest): Log { Add(BodyLog(RequestLog(log, r.head), r.body), MessageComplete) }

  // ---- one request -------------------------------------------------------

  lemma HeadStarts(p: Parser, log: Log, h: RequestHead)
    requires Fresh(p) && HeadOk(h) && p.nread + |WriteHead(h)| <= MAX_HEADER_SIZE
    ensures
      var q := AtLines(p, h.start);
      && Goes(p, log, WriteStart(h.start), q, StartLog(log, h.start)) && Good(p, 0)
      && Heading(q, h.lines, h.crlf) && FramingOf(q) == NO_FRAMING
  {
    hide Good, Goes, StartOk, LineOk, WriteStart, WriteLines, Eol, StartLog, Value, MethodName;
    RequestLineRun(p, log, h.start);
    LinesFollow(p, h);
  }

  lemma LinesFollow(p: Parser, h: RequestHead)
    requires HeadOk(h) && p.nread + |WriteHead(h)| <= MAX_HEADER_SIZE && AtLine(AtLines(p, h.start))
    ensures Heading(AtLines(p, h.start), h.lines, h.crlf)
  {
    hide Good, StartOk, LineOk, WriteStart, Head, Value, MethodName;
  }

  /** What follows the request line of a request with its body. */
  lemma RestOfRequest(q: Parser, log: Log, r: HttpRequest)
    requires RequestOk(r) && Heading(q, r.head.lines, r.head.crlf) && FramingOf(q) == NO_FRAMING
    requires q.kind == Request && q.verb == r.head.start.verb
    ensures
      var rest := Head(r.head.lines, r.head.crlf) + WriteBody(r.body);
      var e := R(q, log, rest);
      && e.count == |rest| && !e.halted && e.p.errno == OK && !e.p.upgrade
      && SameHead(q, e.p) && e.p.state == NewMessage(e.p)
      && EndFlags(r) == Some(e.p.flags) && e.p.nread == EndCount(r)
      && e.log == Add(BodyLog(HeadLog(log, r.head.lines), r.body), MessageComplete)
  {
    hide R, Add, AddBody, LinesLog, HeadLog, AppliedAll, ChunkOk, LastOk, WriteChunks, WriteLast, Joined, Heading;
    hide HeadOk;
    hide NewMessage, SameHead;
    var f := FramingFor(r.head).value;
    var head := Head(r.head.lines, r.head.crlf);
    match r.body {
      case Empty =>
        BodilessRequest(q, log, r.head.lines, r.head.crlf, f);
        assert head + [] == head;
      case Plain(data) =>
        ContentLengthMessage(q, log, r.head.lines, r.head.crlf, f, data);
      case InChunks(cs, z) =>
        ChunkedRoundTrip(q, log, r.head.lines, r.head.crlf, f, cs, z);
        assert head + WriteChunks(cs) + WriteLast(z) == head + (WriteChunks(cs) + WriteLast(z));
    }
  }

  /** The flags a request ends with; a trailer may still change them. */
  function EndFlags(r: HttpRequest): Option<Flags>
    requires FramingFor(r.head).Some?
  {
    var f := FramingFor(r.head).value;
    match r.body
    case InChunks(_, z) =>
      (match AppliedAll(Framing(f.flags.(trailing := true), 0), z.trailer)
       case None => None
       case Some(g) => Some(g.flags))
    case Empty => Some(f.flags)
    case Plain(_) => Some(f.flags)
  }

  /** Header bytes a request leaves counted: those of its trailer. */
  function EndCount(r: HttpRequest): nat {
    match r.body
    case InChunks(_, z) => |Head(z.trailer, z.crlf)|
    case Empty => 0
    case Plain(_) => 0
  }

  /** Persistent by its version and its Connection lines, the trailer's included. */
  predicate StaysOpen(r: HttpRequest)
    requires FramingFor(r.head).Some?
  {
    match EndFlags(r)
    case None => false
    case Some(flags) =>
      match r.head.start.version
      case None => flags.keepAlive
      case Some(v) => if Value(v.minor, 10) > 0 then !flags.close else flags.keepAlive
  }

  /** All lines of a request, its trailer's included. */
  function AllLines(r: HttpRequest): seq<HeaderLine> {
    r.head.lines + match r.body { case InChunks(_, z) => z.trailer case Empty => [] case Plain(_) => [] }
  }

  /** A request keeps its connection exactly when it is of version 1.1 or higher and no line says
      close, or when it is older and a line says keep-alive. */
  lemma StaysOpenExact(r: HttpRequest)
    requires RequestOk(r)
    ensures EndFlags(r).Some?
    ensures
      var v := r.head.start.version;
      StaysOpen(r) <==>
        if v.Some? && Value(v.value.minor, 10) > 0 then forall l :: l in AllLines(r) ==> !IsClose(l)
        else exists l :: l in AllLines(r) && IsKeepAlive(l)
  {
    hide IsClose, IsKeepAlive, HeadOk, ChunkOk, AppliedAll, Value, LineOk, IsLength, LengthOf;
    var f := FramingFor(r.head).value;
    LinesConnect(NO_FRAMING, r.head.lines);
    match r.body {
      case InChunks(_, z) =>
        var g := Framing(f.flags.(trailing := true), 0);
        LinesAnnounce(g, z.trailer);
        LinesConnect(g, z.trailer);
      case Empty =>
      case Plain(_) =>
    }
    forall l ensures l in AllLines(r) <==>
      l in r.head.lines || (r.body.InChunks? && l in r.body.last.trailer) {}
  }

  /** Round trip of a whole request: any method but CONNECT, any URL and version, any list of header
      lines, and the body its lines announce.  The callbacks are exactly the URL, the lines, the
      body and one message-complete, on the last byte; then the parser waits for the next request or,
      when the connection is to be closed, is dead. */
  lemma RequestRoundTrip(p: Parser, log: Log, r: HttpRequest)
    requires Fresh(p) && p.kind == Request && RequestOk(r) && p.nread + |WriteHead(r.head)| <= MAX_HEADER_SIZE
    ensures
      var e := R(p, log, WriteRequest(r));
      && e.count == |WriteRequest(r)| && !e.halted && e.p.errno == OK && !e.p.upgrade && Good(e.p, 0)
      && SameHead(AtLines(p, r.head.start), e.p) && e.p.state == NewMessage(e.p)
      && EndFlags(r) == Some(e.p.flags) && e.p.nread == EndCount(r) && e.log == WholeLog(log, r)
      && e.p.state == if StaysOpen(r) then StartReq else Dead
  {
    hide Good, Goes, R, Add, StartLog, WriteStart, WriteBody, Head, HeadLog, BodyLog, EndFlags, EndCount, Heading;
    hide NewMessage, SameHead, HeadOk, FramingFor, BodyFits;
    HeadOf(r);
    HeadStarts(p, log, r.head);
    var q := AtLines(p, r.head.start);
    var start, rest := WriteStart(r.head.start), Head(r.head.lines, r.head.crlf) + WriteBody(r.body);
    Compose(p, log, start, q, StartLog(log, r.head.start), rest);
    RestOfRequest(q, StartLog(log, r.head.start), r);
    assert start + rest == WriteRequest(r);
    EndsGood(p, log, WriteRequest(r));
    NextState(p, r, R(p, log, WriteRequest(r)).p);
  }

  lemma HeadOf(r: HttpRequest)
    requires RequestOk(r)
    ensures HeadOk(r.head)
  {
    hide HeadOk, BodyFits, FramingFor;
  }

  lemma EndsGood(p: Parser, log: Log, s: string)
    requires Good(p, 0) && R(p, log, s).p.errno == OK
    ensures Good(R(p, log, s).p, 0)
  {
    hide Good, RunFrom;
    RunKeepsGood(p, log, s, 0, false);
  }

  /** A request that leaves the protocol, by an Upgrade line or as CONNECT: the parser stops
      behind its head and hands back the rest, body or not. */
  lemma UpgradeStops(p: Parser, log: Log, h: RequestHead, f: Framing, rest: string)
    requires Fresh(p) && HeadOk(h) && p.nread + |WriteHead(h)| <= MAX_HEADER_SIZE && FramingFor(h) == Some(f)
    requires f.flags.upgrade || h.start.verb == CONNECT
    ensures
      var e := R(p, log, WriteHead(h) + rest);
      && e.count == |WriteHead(h)| && e.halted && e.p.upgrade && e.p.errno == OK && e.p.verb == h.start.verb
      && e.log == Add(RequestLog(log, h), MessageComplete)
  {
    hide Good, Goes, R, Add, StartLog, WriteStart, Head, HeadLog, Heading, HeadOk, AppliedAll;
    HeadStarts(p, log, h);
    var q := AtLines(p, h.start);
    var start, tail := WriteStart(h.start), Head(h.lines, h.crlf) + rest;
    Compose(p, log, start, q, StartLog(log, h.start), tail);
    UpgradeMessage(q, StartLog(log, h.start), h.lines, h.crlf, f, rest);
    assert start + tail == WriteHead(h) + rest;
  }

  /** A Content-Length line among any others announces the body: the request with it, in any place
      of the head and under any segmentation, ends exactly behind the announced bytes. */
  lemma ContentLengthRequest(start: StartLine, before: seq<HeaderLine>, l: HeaderLine, after: seq<HeaderLine>,
                             crlf: bool,
                             body: string, pieces: seq<string>)
    requires StartOk(start) && start.verb != CONNECT && forall m :: m in before + [l] + after ==> LineOk(m)
    requires IsLength(l) && ValidLength(l.value) && Value(Digits(l.value), 10) == |body| < NO_LENGTH
    requires forall m :: m in before ==> LengthFits(m)
    requires forall m :: m in after ==> !IsLength(m)
    requires forall m :: m in before + [l] + after ==> !IsCoding(m) && !IsUpgrade(m)
    requires
      var h := RequestHead(start, before + [l] + after, crlf);
      && |WriteHead(h)| <= MAX_HEADER_SIZE
      && HttpSegments.Concat(pieces) == WriteRequest(HttpRequest(h, Plain(body))) && pieces != [] && [] !in pieces
    ensures
      var r := HttpRequest(RequestHead(start, before + [l] + after, crlf), Plain(body));
      var e := Feed(Init(Request), [], pieces, false);
      && RequestOk(r) && e.p.errno == OK && e.count == |WriteRequest(r)| && !e.halted
      && e.log == WholeLog([], r)
  {
    var ls := before + [l] + after;
    var r := HttpRequest(RequestHead(start, ls, crlf), Plain(body));
    LengthFraming(before, l, after, |body|);
    assert RequestOk(r) by { hide StartOk, LineOk, AppliedAll, IsLength, IsCoding, IsUpgrade; }
    hide *;
    RequestSegmented(r, pieces);
  }

  lemma LengthFraming(before: seq<HeaderLine>, l: HeaderLine, after: seq<HeaderLine>, n: nat)
    requires IsLength(l) && ValidLength(l.value) && Value(Digits(l.value), 10) == n < NO_LENGTH
    requires forall m :: m in before ==> LengthFits(m)
    requires forall m :: m in after ==> !IsLength(m)
    requires forall m :: m in before + [l] + after ==> !IsCoding(m) && !IsUpgrade(m)
    ensures
      var f := AppliedAll(NO_FRAMING, before + [l] + after);
      f.Some? && f.value.length == n && !f.value.flags.chunked && !f.value.flags.upgrade
  {
    hide IsLength, ValidLength, Value, Digits, IsCoding, IsUpgrade, AppliedAll, LengthOf;
    LinesAnnounce(NO_FRAMING, before);
    LengthAnnounced(NO_FRAMING, before, l, after);
    LinesAnnounce(NO_FRAMING, before + [l] + after);
  }

  /** A chunked request, its coding line anywhere in the head, under any segmentation. */
  lemma ChunkedRequest(h: RequestHead, cs: seq<ChunkText>, z: LastChunk, pieces: seq<string>)
    requires HeadOk(h) && h.start.verb != CONNECT && |WriteHead(h)| <= MAX_HEADER_SIZE
    requires (exists l :: l in h.lines && IsCoding(l)) && forall l :: l in h.lines ==> !IsUpgrade(l) && LengthFits(l)
    requires (forall c :: c in cs ==> ChunkOk(c)) && LastOk(z)
    requires HttpSegments.Concat(pieces) == WriteRequest(HttpRequest(h, InChunks(cs, z))) && pieces != []
      && [] !in pieces
    ensures
      var r := HttpRequest(h, InChunks(cs, z));
      var e := Feed(Init(Request), [], pieces, false);
      && RequestOk(r) && e.p.errno == OK && e.count == |WriteRequest(r)| && !e.halted
      && e.log == WholeLog([], r)
  {
    var r := HttpRequest(h, InChunks(cs, z));
    assert RequestOk(r) by {
      hide HeadOk, AppliedAll, IsLength, IsCoding, IsUpgrade, ChunkOk, LastOk, LengthOf;
      LinesAnnounce(NO_FRAMING, h.lines);
    }
    hide *;
    RequestSegmented(r, pieces);
  }

  lemma InitIsFresh()
    ensures Fresh(Init(Request)) && Init(Request).nread == 0 && Init(Request).kind == Request
  {
    InitGood(Request);
  }

  lemma RequestSegmented(r: HttpRequest, pieces: seq<string>)
    requires RequestOk(r) && |WriteHead(r.head)| <= MAX_HEADER_SIZE
    requires HttpSegments.Concat(pieces) == WriteRequest(r) && pieces != [] && [] !in pieces
    ensures
      var e := Feed(Init(Request), [], pieces, false);
      e.p.errno == OK && e.count == |WriteRequest(r)| && !e.halted && e.log == WholeLog([], r)
  {
    InitIsFresh();
    var p := Init(Request);
    hide *;
    RequestRoundTrip(p, [], r);
    FreshFed(p, [], pieces);
  }

  /** Feeding a waiting parser in pieces is running it over the whole. */
  lemma FreshFed(p: Parser, log: Log, pieces: seq<string>)
    requires Fresh(p) && pieces != [] && [] !in pieces
    ensures Feed(p, log, pieces, false) == R(p, log, HttpSegments.Concat(pieces))
  {
    hide RunFrom, Good, Feed;
    SegmentationInvariance(p, log, pieces, false);
    assert pieces[0] in pieces;
    assert HttpSegments.Concat(pieces) != [];
  }

  // ---- requests in a row -------------------------------------------------

  /** A request after which the connection is kept. */
  predicate Persistent(r: HttpRequest) { RequestOk(r) && StaysOpen(r) }

  function WriteAll(rs: seq<HttpRequest>): string { if rs == [] then [] else WriteRequest(rs[0]) + WriteAll(rs[1..]) }

  function AllLog(log: Log, rs: seq<HttpRequest>): Log
    decreases |rs|
  {
    if rs == [] then log else AllLog(WholeLog(log, rs[0]), rs[1..])
  }

  /** Every head is within the limit, counted from what the trailer before it left. */
  predicate AllFit(count: nat, rs: seq<HttpRequest>)
    decreases |rs|
  {
    rs == [] || (count + |WriteHead(rs[0].head)| <= MAX_HEADER_SIZE && AllFit(EndCount(rs[0]), rs[1..]))
  }

  /** The version and the flags decide whether the parser goes on. */
  lemma NextState(p: Parser, r: HttpRequest, e: Parser)
    requires RequestOk(r) && p.kind == Request
    requires SameHead(AtLines(p, r.head.start), e) && e.state == NewMessage(e) && EndFlags(r) == Some(e.flags)
    ensures e.state == (if StaysOpen(r) then StartReq else Dead) && e.kind == Request
  {
    hide Good, EndFlags, FramingFor, BodyFits;
    if r.head.start.version.Some? { VersionPositive(r); }
    hide Value, StartOk, LineOk;
  }

  lemma OpenIsFresh(r: HttpRequest, e: Parser)
    requires Persistent(r) && Good(e, 0) && e.errno == OK && !e.upgrade
    requires e.state == if StaysOpen(r) then StartReq else Dead
    ensures Fresh(e)
  {
    hide Good, RequestOk, StaysOpen;
  }

  lemma VersionPositive(r: HttpRequest)
    requires RequestOk(r) && r.head.start.version.Some?
    ensures Value(r.head.start.version.value.major, 10) > 0
  {
    hide BodyFits, FramingFor, RequestUrl;
    FirstDigitCounts(r.head.start.version.value.major);
  }

  lemma {:induction false} FirstDigitCounts(ds: string)
    requires Decimal(ds) && ds[0] != '0'
    ensures Value(ds, 10) > 0
    decreases |ds|
  {
    assert ds[0] in ds;
    if |ds| == 1 {
      assert Value(ds[..0], 10) == 0;
    } else {
      var init := ds[..|ds| - 1];
      forall c | c in init ensures IsNum(c) { assert c in ds; }
      assert init[0] == ds[0];
      FirstDigitCounts(init);
    }
  }

  /** Requests in a row on one connection, persistent up to the last: each is delivered as if it
      were alone, in order, and the parser waits for the next one. */
  lemma {:induction false} PipelinedRequests(p: Parser, log: Log, rs: seq<HttpRequest>)
    requires Fresh(p) && p.kind == Request && AllFit(p.nread, rs)
    requires forall r :: r in rs ==> Persistent(r)
    ensures
      var e := R(p, log, WriteAll(rs));
      Goes(p, log, WriteAll(rs), e.p, AllLog(log, rs)) && Fresh(e.p) && e.p.kind == Request
    decreases |rs|
  {
    hide Goes, R, Fresh, Persistent, WriteRequest, WholeLog, EndCount, WriteHead;
    FreshOk(p);
    if rs == [] {
      NoBytes(p, log);
      GoesEnd(p, log, [], p, log);
    } else {
      var r := rs[0];
      assert r in rs;
      OneOfMany(p, log, r);
      var q := R(p, log, WriteRequest(r)).p;
      forall s | s in rs[1..] ensures Persistent(s) { assert s in rs; }
      PipelinedRequests(q, WholeLog(log, r), rs[1..]);
      var e := R(q, WholeLog(log, r), WriteAll(rs[1..])).p;
      Then(p, log, WriteRequest(r), q, WholeLog(log, r), WriteAll(rs[1..]), e, AllLog(log, rs));
      GoesEnd(p, log, WriteAll(rs), e, AllLog(log, rs));
    }
  }

  lemma PersistentOk(r: HttpRequest)
    requires Persistent(r)
    ensures RequestOk(r)
  {
    hide RequestOk;
  }

  lemma FreshOk(p: Parser)
    requires Fresh(p)
    ensures Good(p, 0) && p.errno == OK
  {}

  lemma OneOfMany(p: Parser, log: Log, r: HttpRequest)
    requires Fresh(p) && p.kind == Request && Persistent(r)
    requires p.nread + |WriteHead(r.head)| <= MAX_HEADER_SIZE
    ensures
      var e := R(p, log, WriteRequest(r)).p;
      Goes(p, log, WriteRequest(r), e, WholeLog(log, r)) && Fresh(e) && e.kind == Request && e.nread == EndCount(r)
  {
    PersistentOk(r);
    hide *;
    RequestRoundTrip(p, log, r);
    var e := R(p, log, WriteRequest(r));
    FullRun(p, log, WriteRequest(r), e.p, WholeLog(log, r));
    NextState(p, r, e.p);
    OpenIsFresh(r, e.p);
  }

  /** From a new connection, and however the bytes arrive. */
  lemma PipelinedSegmented(rs: seq<HttpRequest>, pieces: seq<string>)
    requires AllFit(0, rs) && forall r :: r in rs ==> Persistent(r)
    requires HttpSegments.Concat(pieces) == WriteAll(rs) && pieces != [] && [] !in pieces
    ensures
      var e := Feed(Init(Request), [], pieces, false);
      e.p.errno == OK && e.count == |WriteAll(rs)| && !e.halted && e.log == AllLog([], rs) && e.p.state == StartReq
  {
    InitIsFresh();
    var p := Init(Request);
    hide Persistent, WriteAll, AllLog, AllFit, Feed, Good, R;
    PipelinedRequests(p, [], rs);
    FreshFed(p, [], pieces);
  }
}

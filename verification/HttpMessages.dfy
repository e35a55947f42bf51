/** Message framing (section 4.4 of RFC 2616, section 4.1 of RFC 7230): for every head, where the
    body ends and what is delivered of it. */
module HttpMessages {
  import opened Wrappers
  import opened HttpTypes
  import opened HttpSwitch
  import opened HttpRun
  import opened HttpInvariant
  import opened HttpExecute
  import opened HttpSegments
  import opened HttpSteps
  import opened HttpNames
  import opened HttpNumerals
  import opened HttpValues
  import opened HttpLines

  // ---- the end of a head -------------------------------------------------

  /** Header lines and the empty line. */
  function Head(ls: seq<HeaderLine>, crlf: bool): string { WriteLines(ls) + Eol(crlf) }

  function HeadLog(log: Log, ls: seq<HeaderLine>): Log { Add(LinesLog(log, ls), HeadersComplete) }

  /** At a line of the head of a message, with room for the lines `ls` and the empty line. */
  ghost predicate Heading(p: Parser, ls: seq<HeaderLine>, crlf: bool) {
    && AtLine(p) && !p.flags.trailing && !p.flags.skipBody
    && (forall l :: l in ls ==> LineOk(l)) && p.nread + |Head(ls, crlf)| <= MAX_HEADER_SIZE
  }

  /** What the parser makes of a head: the message fields at its end. */
  function Framed(p: Parser, f: Framing): Parser {
    p.(flags := f.flags, contentLength := f.length, nread := 0, state := HeadersDone,
       upgrade := f.flags.upgrade || p.verb == CONNECT)
  }

  /** The last byte of a head decides the framing. */
  function AfterHead(q: Parser): (t: Turn)
    requires q.state == HeadersDone
  {
    if q.upgrade then Complete(q).(ctl := Exit)
    else if q.flags.skipBody then Complete(q)
    else if q.flags.chunked then Next(q.(state := Chunk(SizeStart)), [])
    else if q.contentLength == 0 then Complete(q)
    else if q.contentLength != NO_LENGTH then Next(q.(state := BodyIdentity), [])
    else if q.kind == Request || !NeedsEof(q) then Complete(q)
    else Next(q.(state := BodyIdentityEof), [])
  }

  lemma LastByte(e: Parser, log: Log)
    requires e.state == HeadersAlmostDone || e.state == HeaderFieldStart
    requires e.nread < MAX_HEADER_SIZE && !e.flags.trailing && e.errno == OK
    ensures
      var t := AfterHead(Framed(e, FramingOf(e)));
      R(e, log, [LF]) == Run(t.p, AddAll(Add(log, HeadersComplete), Notes(t.acts)), 1, t.ctl == Exit)
  {
    hide StepByte, Add, AddAll, Notes, ActsFit, Rank, NeedsEof, NewMessage;
    EmptyLineStep(e);
    var u := SwitchEnd(AtFraming(e.(nread := e.nread + 1)), LF, false);
    assert u == AfterHead(Framed(e, FramingOf(e)));
    AddAllConcat(log, [HeadersComplete], Notes(u.acts));
    AddAllOne(log, HeadersComplete);
    hide SwitchEnd, AfterHead;
    OneStep(e, log, LF, Step(u.p, [HeadersComplete] + Notes(u.acts), u.ctl));
  }

  lemma OneStep(p: Parser, log: Log, c: char, s: Step)
    requires s == StepByte(p, c, false) && (s.ctl == Advance || s.ctl == Exit)
    ensures R(p, log, [c]) == Run(s.p, AddAll(log, s.events), 1, s.ctl == Exit)
  {
    hide StepByte, AddAll;
    assert [c][0] == c;
    assert R(p, log, [c]) == Continue(s, log, [c], 0, false);
  }

  lemma {:induction false} AppliedKeeps(f: Framing, ls: seq<HeaderLine>)
    ensures AppliedAll(f, ls).Some? ==>
      AppliedAll(f, ls).value.flags.trailing == f.flags.trailing
        && AppliedAll(f, ls).value.flags.skipBody == f.flags.skipBody
    decreases |ls|
  {
    if ls == [] {
    } else {
      var g := Applied(f, ls[0].name, ls[0].value);
      AppliedKeepsOne(f, ls[0].name, ls[0].value);
      hide Applied;
      if g.Some? { AppliedKeeps(g.value, ls[1..]); }
    }
  }

  lemma AppliedKeepsOne(f: Framing, name: string, value: string)
    ensures Applied(f, name, value).Some? ==>
      var g := Applied(f, name, value).value;
      g.flags.trailing == f.flags.trailing && g.flags.skipBody == f.flags.skipBody
  {
    hide Lowered, Spelled, LengthOf;
  }

  /** Every head: all lines are delivered in order, then the framing the lines determine takes
      effect on the last byte; a head with a rejected line stops the parser. */
  lemma HeadRun(p: Parser, log: Log, ls: seq<HeaderLine>, crlf: bool)
    requires Heading(p, ls, crlf)
    ensures
      var r := R(p, log, Head(ls, crlf));
      match AppliedAll(FramingOf(p), ls)
      case None => r.p.errno != OK
      case Some(f) =>
        var t := AfterHead(Framed(r.p, f));
        && SameHead(p, r.p) && !f.flags.skipBody && !f.flags.trailing
        && t.p.errno == OK
        && r == Run(t.p, AddAll(HeadLog(log, ls), Notes(t.acts)), |Head(ls, crlf)|, t.ctl == Exit)
  {
    hide Good, Goes, Add, AddAll, R, Notes, AfterHead, AppliedAll, WriteLines, LinesLog, LineOk, Eol;
    LinesRun(p, log, ls);
    AtLineOk(p);
    AppliedKeeps(FramingOf(p), ls);
    if AppliedAll(FramingOf(p), ls).None? {
      StaysFailed(p, log, WriteLines(ls), Eol(crlf));
    } else {
      var q, log1 := R(p, log, WriteLines(ls)).p, LinesLog(log, ls);
      AtLineOk(q);
      EolSome(crlf);
      EmptyLineRun(q, log1, crlf);
      Compose(p, log, WriteLines(ls), q, log1, Eol(crlf));
      var e := q.(state := if crlf then HeadersAlmostDone else HeaderFieldStart, nread := q.nread + |Eol(crlf)| - 1);
      LastByte(e, log1);
      var f := FramingOf(q);
      AfterHeadOk(Framed(e, f));
      SameFramed(e, AfterHead(Framed(e, f)).p, f);
      assert SameHead(p, e);
    }
  }

  lemma EolSome(crlf: bool)
    ensures 1 <= |Eol(crlf)| <= 2
  {}

  /** The fields a head never changes, `upgrade` aside. */
  predicate SameHead(p: Parser, q: Parser) {
    && q.kind == p.kind && q.verb == p.verb
    && q.httpMajor == p.httpMajor && q.httpMinor == p.httpMinor && q.statusCode == p.statusCode
  }

  lemma AfterHeadOk(q: Parser)
    requires q.state == HeadersDone && q.errno == OK
    ensures AfterHead(q).p == q.(state := AfterHead(q).p.state)
  {
    hide NewMessage, NeedsEof;
  }

  lemma SameFramed(e: Parser, q: Parser, f: Framing)
    requires q == Framed(e, f).(state := q.state)
    ensures Framed(q, f) == Framed(e, f)
  {}

  // ---- what lines announce -----------------------------------------------

  predicate IsLength(l: HeaderLine) { Lowered(l.name) == "content-length" && l.value != [] }

  /** A line that is no Content-Length, or one that is accepted. */
  predicate LengthFits(l: HeaderLine) { IsLength(l) ==> LengthOf(l.value).Some? }

  predicate IsCoding(l: HeaderLine) { Lowered(l.name) == "transfer-encoding" && Spelled(l.value, "chunked") }

  predicate IsUpgrade(l: HeaderLine) { Lowered(l.name) == "upgrade" && l.value != [] }

  predicate IsConnection(l: HeaderLine) { Lowered(l.name) == "connection" || Lowered(l.name) == "proxy-connection" }

  predicate IsKeepAlive(l: HeaderLine) { IsConnection(l) && Spelled(l.value, "keep-alive") }

  predicate IsClose(l: HeaderLine) { IsConnection(l) && Spelled(l.value, "close") }

  lemma FirstLetters(v: string)
    ensures !Spelled([], "keep-alive") && !Spelled([], "close")
    ensures Spelled(v, "keep-alive") ==> v != [] && Lower(v[0]) == 'k'
    ensures Spelled(v, "close") ==> v != [] && Lower(v[0]) == 'c'
  {
    if Spelled(v, "keep-alive") { assert Lowered(v[..10])[0] == 'k'; }
    if Spelled(v, "close") { assert Lowered(v[..5])[0] == 'c'; }
  }

  lemma OneConnects(f: Framing, l: HeaderLine)
    requires Applied(f, l.name, l.value).Some?
    ensures
      var g := Applied(f, l.name, l.value).value;
      && (g.flags.keepAlive <==> f.flags.keepAlive || IsKeepAlive(l))
      && (g.flags.close <==> f.flags.close || IsClose(l))
  {
    hide Lowered, LengthOf, Spelled, Lower;
    FirstLetters(l.value);
    if IsConnection(l) && l.value != [] { ConnectionApplies(f, l); }
  }

  lemma ConnectionApplies(f: Framing, l: HeaderLine)
    requires IsConnection(l) && l.value != []
    ensures Applied(f, l.name, l.value) ==
      Some(if Spelled(l.value, "keep-alive") then f.(flags := f.flags.(keepAlive := true))
           else if Spelled(l.value, "close") then f.(flags := f.flags.(close := true)) else f)
  {
    hide Lowered, LengthOf, Spelled;
  }

  lemma OneAnnounces(f: Framing, l: HeaderLine)
    ensures Applied(f, l.name, l.value).None? <==> IsLength(l) && LengthOf(l.value).None?
    ensures Applied(f, l.name, l.value).Some? ==>
      var g := Applied(f, l.name, l.value).value;
      && (g.flags.chunked <==> f.flags.chunked || IsCoding(l))
      && (g.flags.upgrade <==> f.flags.upgrade || IsUpgrade(l))
      && g.length == if IsLength(l) then LengthOf(l.value).value else f.length
  {
    hide Lowered, LengthOf;
    if l.value == [] { assert !Spelled(l.value, "chunked"); }
    hide Spelled;
  }

  /** A head is accepted exactly when all its lengths are; it is chunked, or an upgrade, exactly
      when one of its lines says so. */
  lemma {:induction false} LinesAnnounce(f: Framing, ls: seq<HeaderLine>)
    ensures AppliedAll(f, ls).Some? <==> forall l :: l in ls && IsLength(l) ==> LengthOf(l.value).Some?
    ensures AppliedAll(f, ls).Some? ==>
      var g := AppliedAll(f, ls).value;
      && (g.flags.chunked <==> f.flags.chunked || exists l :: l in ls && IsCoding(l))
      && (g.flags.upgrade <==> f.flags.upgrade || exists l :: l in ls && IsUpgrade(l))
      && ((forall l :: l in ls ==> !IsLength(l)) ==> g.length == f.length)
    decreases |ls|
  {
    hide Applied, IsLength, IsCoding, IsUpgrade, LengthOf;
    if ls == [] {
    } else {
      var l, rest := ls[0], ls[1..];
      assert ls == [l] + rest;
      assert forall m :: m in ls <==> m == l || m in rest;
      OneAnnounces(f, l);
      if Applied(f, l.name, l.value).Some? {
        LinesAnnounce(Applied(f, l.name, l.value).value, rest);
      }
    }
  }

  /** A head asks for keep-alive, or for close, exactly when one of its lines says so. */
  lemma {:induction false} LinesConnect(f: Framing, ls: seq<HeaderLine>)
    requires AppliedAll(f, ls).Some?
    ensures
      var g := AppliedAll(f, ls).value;
      && (g.flags.keepAlive <==> f.flags.keepAlive || exists l :: l in ls && IsKeepAlive(l))
      && (g.flags.close <==> f.flags.close || exists l :: l in ls && IsClose(l))
    decreases |ls|
  {
    hide Applied, IsKeepAlive, IsClose;
    if ls == [] {
    } else {
      var l, rest := ls[0], ls[1..];
      assert ls == [l] + rest;
      assert forall m :: m in ls <==> m == l || m in rest;
      OneConnects(f, l);
      LinesConnect(Applied(f, l.name, l.value).value, rest);
    }
  }

  lemma {:induction false} AppliedConcat(f: Framing, a: seq<HeaderLine>, b: seq<HeaderLine>)
    ensures AppliedAll(f, a + b) ==
      match AppliedAll(f, a)
      case None => None
      case Some(g) => AppliedAll(g, b)
    decreases |a|
  {
    hide Applied;
    if a == [] {
      assert a + b == b;
    } else {
      assert (a + b)[0] == a[0] && (a + b)[1..] == a[1..] + b;
      var g := Applied(f, a[0].name, a[0].value);
      if g.Some? { AppliedConcat(g.value, a[1..], b); }
    }
  }

  /** The last Content-Length of a head announces the number it denotes exactly when that number
      is below 2^64 - 1. */
  lemma LengthAnnounced(f: Framing, before: seq<HeaderLine>, l: HeaderLine, after: seq<HeaderLine>)
    requires IsLength(l) && ValidLength(l.value) && AppliedAll(f, before).Some?
    requires forall m :: m in after ==> !IsLength(m)
    ensures
      var g := AppliedAll(f, before + [l] + after);
      g.Some? && g.value.length == Value(Digits(l.value), 10) <==> Value(Digits(l.value), 10) < NO_LENGTH
  {
    DigitsAreDecimal(l.value);
    hide Applied, IsLength, Value, Parsed, Digits, ValidLength;
    ParsedExact(Digits(l.value), 10);
    AppliedConcat(f, before + [l], after);
    AppliedConcat(f, before, [l]);
    var g := AppliedAll(f, before).value;
    OneAnnounces(g, l);
    assert AppliedAll(g, [l]) == Applied(g, l.name, l.value) by { OneLine(g, l); }
    if Applied(g, l.name, l.value).Some? { LinesAnnounce(Applied(g, l.name, l.value).value, after); }
  }

  lemma OneLine(f: Framing, l: HeaderLine)
    ensures AppliedAll(f, [l]) == Applied(f, l.name, l.value)
  {
    hide Applied;
    match Applied(f, l.name, l.value)
    case None =>
    case Some(g) => assert AppliedAll(g, []) == Some(g);
  }

  // ---- bodies of a known length ------------------------------------------

  function AddBody(log: Log, data: string): Log {
    if data == [] then log else Add(log, Data(OnBody, data))
  }

  /** A message that neither is an upgrade nor chunked. */
  predicate Sized(p: Parser, f: Framing) { !f.flags.upgrade && !f.flags.chunked && p.verb != CONNECT }

  /** Content-Length conservation: whatever else the head says, exactly the announced number of
      bytes after it reaches the body callback and the message completes on the last of them. */
  lemma ContentLengthMessage(p: Parser, log: Log, ls: seq<HeaderLine>, crlf: bool, f: Framing, body: string)
    requires Heading(p, ls, crlf) && AppliedAll(FramingOf(p), ls) == Some(f) && Sized(p, f)
    requires f.length == |body| < NO_LENGTH
    ensures
      var r := R(p, log, Head(ls, crlf) + body);
      && r.count == |Head(ls, crlf)| + |body| && !r.halted && r.p.errno == OK
      && SameHead(p, r.p) && r.p.flags == f.flags && r.p.state == NewMessage(r.p) && r.p.nread == 0
      && !r.p.upgrade && r.log == Add(AddBody(HeadLog(log, ls), body), MessageComplete)
  {
    var head := Head(ls, crlf);
    HeadRun(p, log, ls, crlf);
    HeadingGood(p, ls, crlf);
    var h := R(p, log, head).p;
    SizedTurn(Framed(h, f));
    hide Good, Add, AddAll, R, Notes, AfterHead, HeadLog, Head, AppliedAll, NewMessage, Heading, SameHead;
    if body == [] {
      assert head + body == head;
      CompletedRun(HeadLog(log, ls));
    } else {
      QuietRun(HeadLog(log, ls));
      var q := Framed(h, f).(state := BodyIdentity);
      FullRun(p, log, head, q, HeadLog(log, ls));
      Compose(p, log, head, q, HeadLog(log, ls), body);
      WholeBody(q, HeadLog(log, ls), body);
      SameEnd(p, q);
    }
  }

  lemma SameEnd(p: Parser, q: Parser)
    ensures SameHead(p, q) ==> SameHead(p, q.(contentLength := 0, state := NewMessage(q.(contentLength := 0,
        state := MessageDone))))
    ensures
      var e := q.(contentLength := 0, state := MessageDone);
      NewMessage(e.(state := NewMessage(e))) == NewMessage(e)
  {}

  lemma HeadingGood(p: Parser, ls: seq<HeaderLine>, crlf: bool)
    requires Heading(p, ls, crlf)
    ensures Good(p, 0) && p.errno == OK
  {}

  lemma FullRun(p: Parser, log: Log, s: string, q: Parser, log': Log)
    requires R(p, log, s) == Run(q, log', |s|, false) && q.errno == OK
    ensures Goes(p, log, s, q, log')
  {
    hide R;
  }

  lemma QuietRun(log: Log)
    ensures AddAll(log, Notes([])) == log
  {
    NotesNone();
    AddAllNone(log);
  }

  lemma CompletedRun(log: Log)
    ensures AddAll(log, Notes([Notify(MessageComplete)])) == Add(log, MessageComplete)
  {
    NotesSingle(Notify(MessageComplete));
    AddAllOne(log, MessageComplete);
  }

  lemma SizedTurn(q: Parser)
    requires q.state == HeadersDone && !q.upgrade && !q.flags.skipBody && !q.flags.chunked
    requires q.contentLength < NO_LENGTH
    ensures AfterHead(q) == if q.contentLength == 0 then Complete(q) else Next(q.(state := BodyIdentity), [])
    ensures NewMessage(q.(state := NewMessage(q))) == NewMessage(q)
  {}

  /** ... and not earlier: after any proper part of the body the parser still waits for exactly
      the missing bytes. */
  lemma ContentLengthPartial(p: Parser, log: Log, ls: seq<HeaderLine>, crlf: bool, f: Framing, part: string)
    requires Heading(p, ls, crlf) && AppliedAll(FramingOf(p), ls) == Some(f) && Sized(p, f)
    requires |part| < f.length < NO_LENGTH
    ensures
      var r := R(p, log, Head(ls, crlf) + part);
      && r.p.state == BodyIdentity && r.p.contentLength == f.length - |part| && r.p.errno == OK && !r.halted
      && r.count == |Head(ls, crlf)| + |part| && r.log == AddBody(HeadLog(log, ls), part)
  {
    var head := Head(ls, crlf);
    HeadRun(p, log, ls, crlf);
    HeadingGood(p, ls, crlf);
    var q := Framed(R(p, log, head).p, f).(state := BodyIdentity);
    SizedTurn(Framed(R(p, log, head).p, f));
    hide Good, Add, AddAll, R, Notes, AfterHead, HeadLog, Head, AppliedAll, NewMessage, Heading, SameHead;
    QuietRun(HeadLog(log, ls));
    if part == [] {
      assert head + part == head;
    } else {
      FullRun(p, log, head, q, HeadLog(log, ls));
      Compose(p, log, head, q, HeadLog(log, ls), part);
      PartBody(q, HeadLog(log, ls), part);
    }
  }

  /** A request that announces no body has none: it completes with its head. */
  lemma BodilessRequest(p: Parser, log: Log, ls: seq<HeaderLine>, crlf: bool, f: Framing)
    requires Heading(p, ls, crlf) && AppliedAll(FramingOf(p), ls) == Some(f) && Sized(p, f)
    requires p.kind == Request && f.length == NO_LENGTH
    ensures
      var r := R(p, log, Head(ls, crlf));
      && r.count == |Head(ls, crlf)| && !r.halted && r.p.errno == OK && r.p.nread == 0 && !r.p.upgrade
      && SameHead(p, r.p) && r.p.flags == f.flags && r.p.state == NewMessage(r.p)
      && r.log == Add(HeadLog(log, ls), MessageComplete)
  {
    HeadRun(p, log, ls, crlf);
    HeadingGood(p, ls, crlf);
    var q := Framed(R(p, log, Head(ls, crlf)).p, f);
    BodilessTurn(q);
    hide Good, Add, AddAll, R, Notes, AfterHead, HeadLog, Head, AppliedAll, NewMessage, Heading, SameHead;
    CompletedRun(HeadLog(log, ls));
    SameState(p, q);
  }

  lemma SameState(p: Parser, q: Parser)
    ensures SameHead(p, q.(state := NewMessage(q))) <==> SameHead(p, q)
  {}

  lemma BodilessTurn(q: Parser)
    requires q.state == HeadersDone && !q.upgrade && !q.flags.skipBody && !q.flags.chunked
    requires q.kind == Request && q.contentLength == NO_LENGTH
    ensures AfterHead(q) == Complete(q) && NewMessage(q.(state := NewMessage(q))) == NewMessage(q)
  {}

  /** A message that leaves the protocol completes with its head, whatever its framing says, and
      the parser hands back everything behind it. */
  lemma UpgradeMessage(p: Parser, log: Log, ls: seq<HeaderLine>, crlf: bool, f: Framing, rest: string)
    requires Heading(p, ls, crlf) && AppliedAll(FramingOf(p), ls) == Some(f)
    requires f.flags.upgrade || p.verb == CONNECT
    ensures
      var r := R(p, log, Head(ls, crlf) + rest);
      && r.count == |Head(ls, crlf)| && r.halted && r.p.upgrade && r.p.errno == OK
      && SameHead(p, r.p) && r.log == Add(HeadLog(log, ls), MessageComplete)
  {
    var head := Head(ls, crlf);
    HeadRun(p, log, ls, crlf);
    HeadingGood(p, ls, crlf);
    var q := Framed(R(p, log, head).p, f);
    UpgradeTurn(q);
    hide Good, Add, AddAll, RunFrom, Notes, AfterHead, HeadLog, Head, AppliedAll, NewMessage, Heading, SameHead;
    CompletedRun(HeadLog(log, ls));
    RunConcat(p, log, head, rest, 0, false);
  }

  lemma UpgradeTurn(q: Parser)
    requires q.state == HeadersDone && q.upgrade
    ensures AfterHead(q) == Complete(q).(ctl := Exit)
  {}

  // ---- chunked transfer coding -------------------------------------------

  /** A chunk as written: a hexadecimal size, an extension that is skipped, and the data. */
  datatype ChunkText = ChunkText(size: string, extension: string, data: string)

  predicate IsExtension(s: string) { s == [] || ((s[0] == ';' || s[0] == ' ') && CR !in s) }

  predicate ChunkOk(c: ChunkText) {
    && Hexadecimal(c.size) && IsExtension(c.extension) && |c.size| + |c.extension| + 2 <= MAX_HEADER_SIZE
    && Value(c.size, 16) == |c.data| && 0 < |c.data| < NO_LENGTH
  }

  function WriteChunk(c: ChunkText): string { c.size + c.extension + "\r\n" + c.data + "\r" + "\n" }

  function WriteChunks(cs: seq<ChunkText>): string {
    if cs == [] then [] else WriteChunk(cs[0]) + WriteChunks(cs[1..])
  }

  function Joined(cs: seq<ChunkText>): string {
    if cs == [] then [] else cs[0].data + Joined(cs[1..])
  }

  lemma ParsedStep(ds: string, base: nat)
    requires |ds| > 1
    ensures Parsed(ds, base) ==
      match Parsed(AllButLast(ds), base)
      case None => None
      case Some(v) => Accumulate(v, base, DigitOf(Last(ds)))
  {
    hide Accumulate;
  }

  lemma FailsAfter(p: Parser, log: Log, a: string, q: Parser, log1: Log, c: char, e: Errno)
    requires Good(p, 0) && Goes(p, log, a, q, log1)
    requires StepByte(q, c, false).ctl == Error && StepByte(q, c, false).p.errno == e
    ensures R(p, log, a + [c]).p.errno == e
  {
    hide Goes, Good, StepByte;
    Compose(p, log, a, q, log1, [c]);
    assert [c][0] == c;
    assert R(q, log1, [c]) == Continue(StepByte(q, c, false), log1, [c], 0, false);
  }

  ghost predicate AtSize(p: Parser) {
    Good(p, 0) && p.errno == OK && p.state == Chunk(SizeStart) && p.nread == 0 && p.flags.chunked
  }

  function AfterSize(p: Parser, ds: string, n: nat): Parser {
    p.(state := Chunk(Size), contentLength := n, nread := |ds|)
  }

  /** A chunk size is accumulated into content_length, or rejected. */
  lemma {:induction false} SizeRun(p: Parser, log: Log, ds: string)
    requires AtSize(p) && Hexadecimal(ds) && |ds| <= MAX_HEADER_SIZE
    ensures
      match Parsed(ds, 16)
      case Some(n) => Goes(p, log, ds, AfterSize(p, ds, n), log)
      case None => R(p, log, ds).p.errno == InvalidContentLength
    decreases |ds|
  {
    hide Goes, Good, StepByte, AddAll, Parsed, R;
    var c := Last(ds);
    assert c in ds && IsHex(c);
    if |ds| == 1 {
      assert ds == [c];
      FirstSizeDigit(p, log, c);
    } else {
      var init := AllButLast(ds);
      assert ds == init + [c];
      assert Hexadecimal(init) by { forall d | d in init ensures IsHex(d) { assert d in ds; } }
      SizeRun(p, log, init);
      ParsedStep(ds, 16);
      match Parsed(init, 16) {
        case None => StaysFailed(p, log, init, [c]);
        case Some(n) => MoreSizeDigit(p, log, init, n, c);
      }
    }
  }

  lemma FirstSizeDigit(p: Parser, log: Log, c: char)
    requires AtSize(p) && IsHex(c)
    ensures Parsed([c], 16) == Some(DigitOf(c))
    ensures Goes(p, log, [c], AfterSize(p, [c], DigitOf(c)), log)
  {
    hide Goes, Good, StepByte, AddAll, ActsFit, Rank;
    ChunkStep(p, c);
    OneByte(p, log, c, AfterSize(p, [c], DigitOf(c)), []);
    AddAllNone(log);
  }

  lemma MoreSizeDigit(p: Parser, log: Log, init: string, n: nat, c: char)
    requires AtSize(p) && IsHex(c) && |init| < MAX_HEADER_SIZE
    requires Goes(p, log, init, AfterSize(p, init, n), log)
    ensures
      match Accumulate(n, 16, DigitOf(c))
      case Some(t) => Goes(p, log, init + [c], AfterSize(p, init + [c], t), log)
      case None => R(p, log, init + [c]).p.errno == InvalidContentLength
  {
    hide Goes, Good, StepByte, AddAll, Accumulate, R, ActsFit, Rank;
    var q := AfterSize(p, init, n);
    assert c != CR;
    match Accumulate(n, 16, DigitOf(c)) {
      case Some(t) =>
        var q1 := AfterSize(p, init + [c], t);
        ChunkStep(q, c);
        OneByte(q, log, c, q1, []);
        AddAllNone(log);
        Then(p, log, init, q, log, [c], q1, log);
      case None =>
        ChunkFails(q, c);
        FailsAfter(p, log, init, q, log, c, InvalidContentLength);
    }
  }

  /** An extension is skipped up to the CR. */
  lemma {:induction false} ExtensionRun(p: Parser, log: Log, s: string)
    requires Good(p, 0) && p.errno == OK && p.state == Chunk(Size) && p.flags.chunked
    requires IsExtension(s) && s != [] && p.nread + |s| <= MAX_HEADER_SIZE
    ensures Goes(p, log, s, p.(state := Chunk(Parameters), nread := p.nread + |s|), log)
    decreases |s|
  {
    hide Goes, Good, StepByte, AddAll, ActsFit, Rank;
    AddAllNone(log);
    var c, q' := Last(s), p.(state := Chunk(Parameters), nread := p.nread + |s|);
    if |s| == 1 {
      assert s == [c];
      NoDigit(c);
      ChunkStep(p, c);
      OneByte(p, log, c, q', []);
    } else {
      var init := AllButLast(s);
      assert s == init + [c] && init[0] == s[0] && c in s;
      assert IsExtension(init) by { assert CR in init ==> CR in s; }
      ExtensionRun(p, log, init);
      var q := p.(state := Chunk(Parameters), nread := p.nread + |init|);
      ChunkStep(q, c);
      OneByte(q, log, c, q', []);
      Then(p, log, init, q, log, [c], q', log);
    }
  }

  lemma NoDigit(c: char)
    requires c == ';' || c == ' '
    ensures Unhex(c) == -1
  {}

  /** The size of a chunk and its extension, up to the CR. */
  lemma SizeAndExtension(p: Parser, log: Log, ds: string, s: string, n: nat)
    requires AtSize(p) && Hexadecimal(ds) && IsExtension(s) && |ds| + |s| + 2 <= MAX_HEADER_SIZE
    requires Value(ds, 16) == n < NO_LENGTH
    ensures
      var q := p.(state := Chunk(if s == [] then Size else Parameters), contentLength := n, nread := |ds| + |s|);
      Goes(p, log, ds + s, q, log) && Good(q, 0)
  {
    hide Goes, Good, Parsed, R, Value, Hexadecimal;
    SizeRun(p, log, ds);
    ParsedExact(ds, 16) by { HexSome(ds); }
    var t := AfterSize(p, ds, n);
    Compose(p, log, ds, t, log, []);
    if s == [] {
      assert ds + s == ds;
    } else {
      ExtensionRun(t, log, s);
      var q := p.(state := Chunk(Parameters), contentLength := n, nread := |ds| + |s|);
      Then(p, log, ds, t, log, s, q, log);
      Compose(p, log, ds + s, q, log, []);
    }
  }

  lemma HexSome(ds: string)
    requires Hexadecimal(ds)
    ensures ds != []
  {}

  /** CR LF after a chunk size: data follows, or the trailer of the last chunk. */
  lemma SizeLineEnd(p: Parser, log: Log)
    requires Good(p, 0) && p.errno == OK && p.flags.chunked
    requires (p.state == Chunk(Size) || p.state == Chunk(Parameters)) && p.nread + 2 <= MAX_HEADER_SIZE
    ensures
      var q := p.(nread := 0);
      Goes(p, log, "\r\n",
           if p.contentLength > 0 then q.(state := ChunkData)
           else q.(state := HeaderFieldStart, flags := p.flags.(trailing := true)), log)
  {
    hide Goes, Good, StepByte, AddAll, ActsFit, Rank;
    AddAllNone(log);
    var q := p.(nread := p.nread + 1, state := Chunk(SizeAlmostDone));
    ChunkStep(p, CR);
    OneByte(p, log, CR, q, []);
    ChunkStep(q, LF);
    var q0 := p.(nread := 0);
    var q' := if p.contentLength > 0 then q0.(state := ChunkData)
              else q0.(state := HeaderFieldStart, flags := p.flags.(trailing := true));
    OneByte(q, log, LF, q', []);
    Then(p, log, [CR], q, log, [LF], q', log);
    assert [CR] + [LF] == "\r\n";
  }

  lemma DataLineEnd(p: Parser, log: Log)
    requires Good(p, 0) && p.errno == OK && p.state == Chunk(DataAlmostDone) && p.flags.chunked
    requires p.contentLength == 0
    ensures Goes(p, log, "\r" + "\n", p.(state := Chunk(SizeStart), nread := 0), log)
  {
    hide Goes, Good, StepByte, AddAll, ActsFit, Rank;
    AddAllNone(log);
    var q := p.(state := Chunk(DataDone));
    ChunkStep(p, CR);
    OneByte(p, log, CR, q, []);
    ChunkStep(q, LF);
    var q' := p.(state := Chunk(SizeStart), nread := 0);
    OneByte(q, log, LF, q', []);
    Then(p, log, [CR], q, log, [LF], q', log);
    assert [CR] + [LF] == "\r" + "\n";
  }

  lemma ChunkRun(p: Parser, log: Log, c: ChunkText)
    requires AtSize(p) && ChunkOk(c)
    ensures Goes(p, log, WriteChunk(c), p.(contentLength := 0), Add(log, Data(OnBody, c.data)))
  {
    hide Goes, Good, StepByte, Add, R, Value, AddAll, Hexadecimal, IsExtension;
    var n, line := |c.data|, c.size + c.extension;
    SizeAndExtension(p, log, c.size, c.extension, n);
    var s := p.(state := Chunk(if c.extension == [] then Size else Parameters), contentLength := n, nread := |line|);
    SizeLineEnd(s, log);
    var d := p.(nread := 0, state := ChunkData, contentLength := n);
    Then(p, log, line, s, log, "\r\n", d, log);
    ChunkDataRun(d, log, c.data);
    var log1 := Add(log, Data(OnBody, c.data));
    var e := d.(contentLength := 0, state := Chunk(DataAlmostDone));
    Then(p, log, line + "\r\n", d, log, c.data, e, log1);
    Compose(p, log, line + "\r\n" + c.data, e, log1, []);
    DataLineEnd(e, log1);
    Then(p, log, line + "\r\n" + c.data, e, log1, "\r" + "\n", p.(contentLength := 0), log1);
    assert line + "\r\n" + c.data + ("\r" + "\n") == WriteChunk(c);
  }

  lemma ChunkDataRun(d: Parser, log: Log, data: string)
    requires d.state == ChunkData && d.flags.chunked && d.contentLength == |data| && 0 < |data| < NO_LENGTH
    requires d.errno == OK
    ensures Goes(d, log, data, d.(contentLength := 0, state := Chunk(DataAlmostDone)), Add(log, Data(OnBody, data)))
  {
    hide R, Add;
    ChunkBytes(d, log, data);
  }

  lemma {:induction false} ChunksRun(p: Parser, log: Log, cs: seq<ChunkText>)
    requires AtSize(p) && forall c :: c in cs ==> ChunkOk(c)
    ensures Goes(p, log, WriteChunks(cs), if cs == [] then p else p.(contentLength := 0), AddBody(log, Joined(cs)))
    decreases cs
  {
    hide Goes, Good, StepByte, Add, R, Value, ChunkOk;
    if cs == [] {
      NoBytes(p, log);
    } else {
      var c := cs[0];
      var q := p.(contentLength := 0);
      assert c in cs;
      ChunkRun(p, log, c);
      var log1 := Add(log, Data(OnBody, c.data));
      Compose(p, log, WriteChunk(c), q, log1, []);
      forall d | d in cs[1..] ensures ChunkOk(d) { assert d in cs; }
      ChunksRun(q, log1, cs[1..]);
      ChunkHasData(c);
      AddTwice(log, OnBody, c.data, Joined(cs[1..]));
      assert c.data + [] == c.data;
      Then(p, log, WriteChunk(c), q, log1, WriteChunks(cs[1..]), q, AddBody(log, Joined(cs)));
    }
  }

  lemma ChunkHasData(c: ChunkText)
    requires ChunkOk(c)
    ensures c.data != []
  {}

  /** The last chunk: a size of zero, its extension, the trailer lines and the empty line. */
  datatype LastChunk = LastChunk(size: string, extension: string, trailer: seq<HeaderLine>, crlf: bool)

  predicate LastOk(z: LastChunk) {
    && Hexadecimal(z.size) && Value(z.size, 16) == 0 && IsExtension(z.extension)
    && |z.size| + |z.extension| + 2 <= MAX_HEADER_SIZE
    && (forall l :: l in z.trailer ==> LineOk(l) && LengthFits(l)) && |Head(z.trailer, z.crlf)| <= MAX_HEADER_SIZE
  }

  function WriteLast(z: LastChunk): string { z.size + z.extension + "\r\n" + Head(z.trailer, z.crlf) }

  /** A trailer is delivered like header lines and ends the message. */
  lemma TrailerRun(p: Parser, log: Log, ls: seq<HeaderLine>, crlf: bool)
    requires AtLine(p) && p.flags.trailing && p.nread + |Head(ls, crlf)| <= MAX_HEADER_SIZE
    requires forall l :: l in ls ==> LineOk(l) && LengthFits(l)
    ensures
      var r := R(p, log, Head(ls, crlf));
      && Goes(p, log, Head(ls, crlf), r.p, Add(LinesLog(log, ls), MessageComplete))
      && SameMessage(p, r.p) && r.p.state == NewMessage(r.p) && r.p.nread == p.nread + |Head(ls, crlf)|
      && AppliedAll(FramingOf(p), ls) == Some(FramingOf(r.p))
  {
    hide Good, Goes, Add, R, AppliedAll, WriteLines, LinesLog, LineOk, IsLength, Eol, NewMessage;
    LinesRun(p, log, ls);
    LinesAnnounce(FramingOf(p), ls);
    AppliedKeeps(FramingOf(p), ls);
    AtLineOk(p);
    var q, log1 := R(p, log, WriteLines(ls)).p, LinesLog(log, ls);
    AtLineOk(q);
    EolSome(crlf);
    EmptyLineRun(q, log1, crlf);
    var e := q.(state := if crlf then HeadersAlmostDone else HeaderFieldStart, nread := q.nread + |Eol(crlf)| - 1);
    TrailerLf(e, log1);
    Compose(p, log, WriteLines(ls), q, log1, Eol(crlf));
    var w := e.(nread := e.nread + 1);
    TrailerState(w);
    FullRun(p, log, Head(ls, crlf), w.(state := NewMessage(w)), Add(log1, MessageComplete));
  }

  lemma TrailerState(w: Parser)
    ensures NewMessage(w.(state := NewMessage(w))) == NewMessage(w)
  {}

  lemma TrailerLf(e: Parser, log: Log)
    requires (e.state == HeadersAlmostDone || e.state == HeaderFieldStart) && e.nread < MAX_HEADER_SIZE
      && e.flags.trailing
    ensures
      var w := e.(nread := e.nread + 1);
      R(e, log, [LF]) == Run(w.(state := NewMessage(w)), Add(log, MessageComplete), 1, false)
  {
    hide StepByte, AddAll, Add, R, NewMessage;
    TrailerEndStep(e);
    OneStep(e, log, LF, StepByte(e, LF, false));
    AddAllOne(log, MessageComplete);
  }

  lemma LastChunkRun(p: Parser, log: Log, z: LastChunk)
    requires AtSize(p) && LastOk(z)
    ensures
      var r := R(p, log, WriteLast(z));
      && Goes(p, log, WriteLast(z), r.p, Add(LinesLog(log, z.trailer), MessageComplete))
      && SameMessage(p, r.p) && r.p.state == NewMessage(r.p) && r.p.nread == |Head(z.trailer, z.crlf)|
      && AppliedAll(Framing(p.flags.(trailing := true), 0), z.trailer) == Some(FramingOf(r.p))
  {
    hide Goes, Good, Add, R, Value, Hexadecimal, IsExtension, LineOk, IsLength, Head, LinesLog, NewMessage, AppliedAll;
    var line := z.size + z.extension;
    SizeAndExtension(p, log, z.size, z.extension, 0);
    var s := p.(state := Chunk(if z.extension == [] then Size else Parameters), contentLength := 0, nread := |line|);
    SizeLineEnd(s, log);
    var t := p.(nread := 0, state := HeaderFieldStart, contentLength := 0, flags := p.flags.(trailing := true));
    Then(p, log, line, s, log, "\r\n", t, log);
    Compose(p, log, line + "\r\n", t, log, Head(z.trailer, z.crlf));
    TrailerRun(t, log, z.trailer, z.crlf);
    var r := R(t, log, Head(z.trailer, z.crlf)).p;
    Then(p, log, line + "\r\n", t, log, Head(z.trailer, z.crlf), r, Add(LinesLog(log, z.trailer), MessageComplete));
    GoesEnd(p, log, WriteLast(z), r, Add(LinesLog(log, z.trailer), MessageComplete));
  }

  /** Chunked round trip: whatever else the head says, whatever the chunks, their extensions and
      the trailer, the body callbacks deliver the data of the chunks, joined, and exactly one
      message-complete follows, on the very last byte. */
  lemma ChunkedRoundTrip(p: Parser, log: Log, ls: seq<HeaderLine>, crlf: bool, f: Framing, cs: seq<ChunkText>,
                         z: LastChunk)
    requires Heading(p, ls, crlf) && AppliedAll(FramingOf(p), ls) == Some(f)
    requires f.flags.chunked && !f.flags.upgrade && p.verb != CONNECT
    requires (forall c :: c in cs ==> ChunkOk(c)) && LastOk(z)
    ensures
      var input := Head(ls, crlf) + WriteChunks(cs) + WriteLast(z);
      var r := R(p, log, input);
      && r.count == |input| && !r.halted && r.p.errno == OK && SameHead(p, r.p) && !r.p.upgrade
      && r.p.state == NewMessage(r.p) && r.p.nread == |Head(z.trailer, z.crlf)|
      && AppliedAll(Framing(f.flags.(trailing := true), 0), z.trailer) == Some(FramingOf(r.p))
      && r.log == Add(LinesLog(AddBody(HeadLog(log, ls), Joined(cs)), z.trailer), MessageComplete)
  {
    HeadRun(p, log, ls, crlf);
    HeadingGood(p, ls, crlf);
    var head, log1 := Head(ls, crlf), HeadLog(log, ls);
    var q := Framed(R(p, log, head).p, f).(state := Chunk(SizeStart));
    ChunkedTurn(Framed(R(p, log, head).p, f));
    hide Good, Add, AddAll, R, Notes, AfterHead, HeadLog, Head, AppliedAll, NewMessage, Heading;
    hide ChunkOk, LastOk, WriteChunks, WriteLast, Joined, AddBody, LinesLog, Goes;
    QuietRun(log1);
    FullRun(p, log, head, q, log1);
    Compose(p, log, head, q, log1, []);
    ChunksRun(q, log1, cs);
    var q1 := if cs == [] then q else q.(contentLength := 0);
    var log2 := AddBody(log1, Joined(cs));
    Then(p, log, head, q, log1, WriteChunks(cs), q1, log2);
    Compose(p, log, head + WriteChunks(cs), q1, log2, WriteLast(z));
    LastChunkRun(q1, log2, z);
    var w := R(q1, log2, WriteLast(z)).p;
    var log3 := Add(LinesLog(log2, z.trailer), MessageComplete);
    Then(p, log, head + WriteChunks(cs), q1, log2, WriteLast(z), w, log3);
    Arrived(p, log, head + WriteChunks(cs) + WriteLast(z), w, log3);
  }

  lemma Arrived(p: Parser, log: Log, s: string, q: Parser, log': Log)
    requires Goes(p, log, s, q, log')
    ensures R(p, log, s) == Run(q, log', |s|, false) && q.errno == OK
  {
    hide R;
  }

  lemma ChunkedTurn(q: Parser)
    requires q.state == HeadersDone && !q.upgrade && !q.flags.skipBody && q.flags.chunked
    ensures AfterHead(q) == Next(q.(state := Chunk(SizeStart)), [])
  {}

  /** The hexadecimal numeral a sender writes. */
  function HexDigit(n: nat): char
    requires n < 16
  {
    "0123456789abcdef"[n]
  }

  function Hex(n: nat): (r: string)
    ensures r != []
  {
    if n < 16 then [HexDigit(n)] else Hex(n / 16) + [HexDigit(n % 16)]
  }

  lemma {:induction false} HexDenotes(n: nat)
    ensures Hexadecimal(Hex(n)) && Value(Hex(n), 16) == n
  {
    var ds := Hex(n);
    if n < 16 {
      HexDigitValue(n);
      assert ds[..0] == [];
    } else {
      HexDenotes(n / 16);
      HexDigitValue(n % 16);
      assert ds[..|ds| - 1] == Hex(n / 16);
      assert n == n / 16 * 16 + n % 16;
    }
  }

  lemma HexDigitValue(n: nat)
    requires n < 16
    ensures Unhex(HexDigit(n)) == n && IsHex(HexDigit(n))
  {}

  lemma {:induction false} HexShort(n: nat, k: nat)
    requires k >= 1 && n < Power16(k)
    ensures |Hex(n)| <= k
    decreases k
  {
    if n < 16 {
    } else {
      assert k >= 2;
      HexShort(n / 16, k - 1);
    }
  }

  function Power16(k: nat): nat { if k == 0 then 1 else 16 * Power16(k - 1) }

  /** Chunks written with canonical sizes satisfy `ChunkOk` whenever their length fits. */
  lemma CanonicalChunk(data: string)
    requires 0 < |data| < NO_LENGTH
    ensures ChunkOk(ChunkText(Hex(|data|), [], data))
  {
    HexDenotes(|data|);
    assert Power16(4) == 0x1_0000;
    assert Power16(8) == 0x1_0000_0000;
    assert Power16(12) == 0x1_0000_0000_0000;
    assert Power16(16) == 0x1_0000_0000_0000_0000;
    HexShort(|data|, 16);
  }
}

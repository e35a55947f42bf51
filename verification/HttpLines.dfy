/** Header lines and heads: every line delivers its name and value and has the effect on the
    framing that its name and value alone determine. */
module HttpLines {
  import opened Wrappers
  import opened HttpTypes
  import opened HttpSwitch
  import opened HttpRun
  import opened HttpInvariant
  import opened HttpSegments
  import opened HttpSteps
  import opened HttpNames
  import opened HttpNumerals
  import opened HttpValues

  /** A line as written; the blanks behind the colon and the form of the line end are free. */
  datatype HeaderLine = HeaderLine(name: string, pad: string, value: string, crlf: bool)

  predicate IsPad(s: string) { forall c :: c in s ==> Blank(c) }

  predicate LineOk(l: HeaderLine) {
    IsName(l.name) && IsPad(l.pad) && (l.value == [] || IsValue(l.value))
  }

  function Eol(crlf: bool): string { if crlf then "\r\n" else "\n" }

  function WriteLine(l: HeaderLine): string { l.name + ":" + l.pad + l.value + Eol(l.crlf) }

  function WriteLines(ls: seq<HeaderLine>): string {
    if ls == [] then [] else WriteLine(ls[0]) + WriteLines(ls[1..])
  }

  function LineLog(log: Log, l: HeaderLine): Log {
    Add(Add(log, Data(OnHeaderField, l.name)), Data(OnHeaderValue, l.value))
  }

  function LinesLog(log: Log, ls: seq<HeaderLine>): Log
    decreases |ls|
  {
    if ls == [] then log else LinesLog(LineLog(log, ls[0]), ls[1..])
  }

  /** The framing after a list of lines; None when one of them is rejected. */
  function AppliedAll(f: Framing, ls: seq<HeaderLine>): Option<Framing>
    decreases |ls|
  {
    if ls == [] then Some(f)
    else match Applied(f, ls[0].name, ls[0].value)
      case None => None
      case Some(g) => AppliedAll(g, ls[1..])
  }

  ghost predicate AtLine(p: Parser) {
    Good(p, 0) && (p.state == HeaderFieldStart || p.state == HeaderValueLws)
  }

  /** What header lines leave alone. */
  predicate SameMessage(p: Parser, q: Parser) {
    && q.kind == p.kind && q.verb == p.verb && q.upgrade == p.upgrade
    && q.httpMajor == p.httpMajor && q.httpMinor == p.httpMinor && q.statusCode == p.statusCode
  }

  // ---- the parts of a line -----------------------------------------------

  lemma {:induction false} PadRun(p: Parser, log: Log, pad: string)
    requires Good(p, 0) && p.state == HeaderValueStart && IsPad(pad) && p.nread + |pad| <= MAX_HEADER_SIZE
    ensures Goes(p, log, pad, p.(nread := p.nread + |pad|), log)
    decreases |pad|
  {
    hide Goes, Good, StepByte, AddAll;
    GoodIsOk(p);
    if pad == [] {
      NoBytes(p, log);
    } else {
      var init, c := AllButLast(pad), Last(pad);
      assert pad == init + [c] && c in pad;
      assert IsPad(init) by { forall d | d in init ensures Blank(d) { assert d in pad; } }
      PadRun(p, log, init);
      var q := p.(nread := p.nread + |init|);
      BlankStep(q, c);
      OneByte(q, log, c, p.(nread := p.nread + |pad|), []);
      AddAllNone(log);
      Then(p, log, init, q, log, [c], p.(nread := p.nread + |pad|), log);
    }
  }

  lemma NoBytes(p: Parser, log: Log)
    requires p.errno == OK
    ensures Goes(p, log, [], p, log)
  {}

  /** At the value of a line whose name and blanks have been read. */
  function AtValue(p: Parser, l: HeaderLine): Parser
    requires l.name != [] && NameFold(l.name).Some?
  {
    InName(p, l.name).(state := HeaderValueStart, nread := p.nread + |l.name| + 1 + |l.pad|)
  }

  lemma NamePart(p: Parser, log: Log, l: HeaderLine)
    requires Good(p, 0) && p.state == HeaderFieldStart && IsName(l.name) && IsPad(l.pad)
    requires p.nread + |l.name| + 1 + |l.pad| <= MAX_HEADER_SIZE
    ensures NameFold(l.name).Some?
    ensures Goes(p, log, l.name + ":" + l.pad, AtValue(p, l), Add(log, Data(OnHeaderField, l.name)))
  {
    hide Goes, Good, StepByte, Add, AddAll, NameFold;
    NameRun(p, log, l.name);
    GoodIsOk(p);
    var q := InName(p, l.name);
    var log1 := Add(log, Data(OnHeaderField, l.name));
    ColonStep(q);
    var q1 := q.(nread := q.nread + 1, state := HeaderValueStart);
    OneByte(q, log1, ':', q1, []);
    AddAllNone(log1);
    Then(p, log, l.name, q, log1, ":", q1, log1);
    Compose(p, log, l.name + ":", q1, log1, []);
    PadRun(q1, log1, l.pad);
    Then(p, log, l.name + ":", q1, log1, l.pad, AtValue(p, l), log1);
  }

  /** Behind the end of a line with the value `value`. */
  function BehindLine(v: Parser, value: string, crlf: bool): Parser
    requires value != [] ==> ValueFold(v, value).Some?
  {
    if value == [] then
      v.(index := 0, headerState := if crlf then General else v.headerState, nread := v.nread + |Eol(crlf)|,
         state := if crlf then HeaderValueLws else HeaderFieldStart)
    else
      var q := ValueFold(v, value).value;
      q.(state := HeaderValueLws, flags := LineFlags(q), nread := v.nread + |value| + |Eol(crlf)|)
  }

  lemma EmptyValuePart(v: Parser, log: Log, crlf: bool)
    requires Good(v, 0) && v.state == HeaderValueStart && v.nread + |Eol(crlf)| <= MAX_HEADER_SIZE
    ensures Goes(v, log, Eol(crlf), BehindLine(v, [], crlf), Add(log, Data(OnHeaderValue, [])))
  {
    hide Goes, Good, StepByte, Add, AddAll;
    GoodIsOk(v);
    var log1 := Add(log, Data(OnHeaderValue, []));
    AddAllOne(log, Data(OnHeaderValue, []));
    NoValueStep(v, if crlf then CR else LF);
    if crlf {
      var q := v.(index := 0, headerState := General, state := HeaderAlmostDone, nread := v.nread + 1);
      OneByte(v, log, CR, q, [Data(OnHeaderValue, [])]);
      LineEndStep(q);
      OneByte(q, log1, LF, BehindLine(v, [], true), []);
      AddAllNone(log1);
      Then(v, log, [CR], q, log1, [LF], BehindLine(v, [], true), log1);
      assert [CR] + [LF] == Eol(true);
    } else {
      OneByte(v, log, LF, BehindLine(v, [], false), [Data(OnHeaderValue, [])]);
      assert [LF] == Eol(false);
    }
  }

  lemma ValueEnd(q: Parser, log: Log, crlf: bool)
    requires Good(q, 0) && q.state == HeaderValue && q.nread + |Eol(crlf)| <= MAX_HEADER_SIZE
    ensures Goes(q, log, Eol(crlf), q.(state := HeaderValueLws, flags := LineFlags(q),
        nread := q.nread + |Eol(crlf)|), log)
  {
    hide Goes, Good, StepByte, AddAll;
    GoodIsOk(q);
    AddAllNone(log);
    var r := q.(state := HeaderValueLws, flags := LineFlags(q), nread := q.nread + |Eol(crlf)|);
    if crlf {
      ValueEndStep(q);
      var q1 := q.(nread := q.nread + 1, state := HeaderAlmostDone);
      OneByte(q, log, CR, q1, []);
      LineEndStep(q1);
      OneByte(q1, log, LF, r, []);
      Then(q, log, [CR], q1, log, [LF], r, log);
      assert [CR] + [LF] == Eol(true);
    } else {
      ValueLfStep(q);
      OneByte(q, log, LF, r, []);
      assert [LF] == Eol(false);
    }
  }

  lemma ValuePart(v: Parser, log: Log, value: string, crlf: bool)
    requires Good(v, 0) && v.state == HeaderValueStart && (value == [] || IsValue(value))
    requires v.nread + |value| + |Eol(crlf)| <= MAX_HEADER_SIZE
    ensures
      if value == [] || ValueFold(v, value).Some? then
        Goes(v, log, value + Eol(crlf), BehindLine(v, value, crlf), Add(log, Data(OnHeaderValue, value)))
      else R(v, log, value + Eol(crlf)).p.errno != OK
  {
    hide Goes, Good, StepByte, Add, AddAll, R, ValueFold;
    if value == [] {
      assert value + Eol(crlf) == Eol(crlf);
      EmptyValuePart(v, log, crlf);
    } else {
      ValueRun(v, log, value);
      match ValueFold(v, value) {
        case None =>
          StaysFailed(v, log, value, Eol(crlf));
        case Some(q) =>
          var log1 := Add(log, Data(OnHeaderValue, value));
          Compose(v, log, value, q, log1, []);
          ValueEnd(q, log1, crlf);
          Then(v, log, value, q, log1, Eol(crlf), BehindLine(v, value, crlf), log1);
      }
    }
  }

  lemma BehindLineSays(v: Parser, value: string, crlf: bool)
    requires v.state == HeaderValueStart && (value == [] || IsValue(value))
    ensures
      if value == [] || ValueFold(v, value).Some? then
        var q := BehindLine(v, value, crlf);
        && AppliedBy(FramingOf(v), v.headerState, value) == Some(FramingOf(q))
        && SameMessage(v, q) && q.nread == v.nread + |value| + |Eol(crlf)|
        && (q.state == HeaderFieldStart || q.state == HeaderValueLws)
      else AppliedBy(FramingOf(v), v.headerState, value).None?
  {
    hide ValueFold, LengthOf, Spelled, LineFlags;
    if value != [] { ValueExact(v, value); }
  }

  // ---- whole lines -------------------------------------------------------

  /** A header line, whatever its name and value: both are delivered, nothing but the framing
      changes, and it changes as the line says; a rejected line stops the parser. */
  lemma LineRun(p: Parser, log: Log, l: HeaderLine)
    requires AtLine(p) && LineOk(l) && p.nread + |WriteLine(l)| <= MAX_HEADER_SIZE
    ensures
      var q := R(p, log, WriteLine(l)).p;
      match Applied(FramingOf(p), l.name, l.value)
      case None => q.errno != OK
      case Some(f) =>
        && Goes(p, log, WriteLine(l), q, LineLog(log, l)) && AtLine(q)
        && FramingOf(q) == f && SameMessage(p, q) && q.nread == p.nread + |WriteLine(l)|
  {
    hide Goes, Good, Add, R, NameFold, ValueFold, Applied, AppliedBy, BehindLine, Eol, IsName, IsPad, IsValue;
    var s := p.(state := HeaderFieldStart);
    StartOfLine(p, log, l);
    NamePart(s, log, l);
    var v := AtValue(s, l);
    var log1 := Add(log, Data(OnHeaderField, l.name));
    var head, rest := l.name + ":" + l.pad, l.value + Eol(l.crlf);
    assert WriteLine(l) == head + rest;
    Compose(s, log, head, v, log1, rest);
    AppliedByName(FramingOf(p), l.name, l.value);
    BehindLineSays(v, l.value, l.crlf);
    ValuePart(v, log1, l.value, l.crlf);
    if l.value == [] || ValueFold(v, l.value).Some? {
      var q := BehindLine(v, l.value, l.crlf);
      Then(s, log, head, v, log1, rest, q, LineLog(log, l));
      Compose(s, log, head + rest, q, LineLog(log, l), []);
      GoesEnd(s, log, WriteLine(l), q, LineLog(log, l));
      SameRun(p, s, log, WriteLine(l), q, LineLog(log, l));
    }
  }

  lemma SameRun(p: Parser, s: Parser, log: Log, data: string, q: Parser, log': Log)
    requires R(p, log, data) == R(s, log, data) && Goes(s, log, data, q, log')
    ensures Goes(p, log, data, q, log')
  {
    hide R;
  }

  lemma GoesEnd(p: Parser, log: Log, s: string, q: Parser, log': Log)
    requires Goes(p, log, s, q, log')
    ensures R(p, log, s).p == q
  {
    hide R;
  }

  /** A line is read alike at the first line of a head and behind another line. */
  lemma StartOfLine(p: Parser, log: Log, l: HeaderLine)
    requires AtLine(p) && LineOk(l) && p.nread + |WriteLine(l)| <= MAX_HEADER_SIZE
    ensures l.name != [] && Good(p.(state := HeaderFieldStart), 0)
    ensures R(p, log, WriteLine(l)) == R(p.(state := HeaderFieldStart), log, WriteLine(l))
  {
    hide R;
    assert l.name[0] in l.name && WriteLine(l)[0] == l.name[0];
    if p.state == HeaderValueLws { LwsRun(p, log, WriteLine(l)); }
    assert p.state == HeaderFieldStart ==> p == p.(state := HeaderFieldStart);
  }

  /** Any list of lines, one after the other. */
  lemma {:induction false} LinesRun(p: Parser, log: Log, ls: seq<HeaderLine>)
    requires AtLine(p) && (forall l :: l in ls ==> LineOk(l)) && p.nread + |WriteLines(ls)| <= MAX_HEADER_SIZE
    ensures
      var q := R(p, log, WriteLines(ls)).p;
      match AppliedAll(FramingOf(p), ls)
      case None => q.errno != OK
      case Some(f) =>
        && Goes(p, log, WriteLines(ls), q, LinesLog(log, ls)) && AtLine(q)
        && FramingOf(q) == f && SameMessage(p, q) && q.nread == p.nread + |WriteLines(ls)|
    decreases |ls|
  {
    hide Goes, Good, R, Applied, WriteLine, LineLog, LineOk;
    if ls == [] {
      AtLineOk(p);
      NoBytes(p, log);
      GoesEnd(p, log, [], p, log);
    } else {
      var l := ls[0];
      assert l in ls;
      LineRun(p, log, l);
      AtLineOk(p);
      var q := R(p, log, WriteLine(l)).p;
      if Applied(FramingOf(p), l.name, l.value).None? {
        StaysFailed(p, log, WriteLine(l), WriteLines(ls[1..]));
      } else {
        forall m | m in ls[1..] ensures LineOk(m) { assert m in ls; }
        LinesRun(q, LineLog(log, l), ls[1..]);
        Compose(p, log, WriteLine(l), q, LineLog(log, l), WriteLines(ls[1..]));
        var r := R(q, LineLog(log, l), WriteLines(ls[1..])).p;
        if AppliedAll(FramingOf(q), ls[1..]).Some? {
          Then(p, log, WriteLine(l), q, LineLog(log, l), WriteLines(ls[1..]), r, LinesLog(log, ls));
        }
      }
    }
  }

  lemma AtLineOk(p: Parser)
    requires AtLine(p)
    ensures Good(p, 0) && p.errno == OK
  {}

  // ---- the end of a head -------------------------------------------------

  /** At the LF of the empty line. */
  lemma BlankCr(p: Parser, log: Log)
    requires AtLine(p) && p.nread < MAX_HEADER_SIZE
    ensures Goes(p, log, [CR], p.(state := HeadersAlmostDone, nread := p.nread + 1), log)
    ensures Good(p.(state := HeadersAlmostDone, nread := p.nread + 1), 0)
  {
    AtLineOk(p);
    AlmostDoneGood(p);
    hide R, StepByte, AddAll, Good, Goes;
    var s, q := p.(state := HeaderFieldStart), p.(state := HeadersAlmostDone, nread := p.nread + 1);
    BlankCrStep(s);
    OneByte(s, log, CR, q, []);
    AddAllNone(log);
    if p.state == HeaderValueLws { LwsRun(p, log, [CR]); }
    assert p.state == HeaderFieldStart ==> p == s;
    SameRun(p, s, log, [CR], q, log);
  }

  lemma AlmostDoneGood(p: Parser)
    requires Good(p, 0) && p.nread < MAX_HEADER_SIZE
    ensures Good(p.(state := HeadersAlmostDone, nread := p.nread + 1), 0)
  {}

  /** The empty line is CR LF or LF; either way the last byte acts on a parser at the end of the
      head with the same framing. */
  lemma EmptyLineRun(p: Parser, log: Log, crlf: bool)
    requires AtLine(p) && p.nread + |Eol(crlf)| <= MAX_HEADER_SIZE
    ensures
      var e := p.(state := if crlf then HeadersAlmostDone else HeaderFieldStart, nread := p.nread + |Eol(crlf)| - 1);
      R(p, log, Eol(crlf)) == (var r := R(e, log, [LF]); r.(count := |Eol(crlf)| - 1 + r.count))
  {
    hide Good, R, Goes, AtLine;
    AtLineOk(p);
    if crlf {
      BlankCr(p, log);
      Compose(p, log, [CR], p.(state := HeadersAlmostDone, nread := p.nread + 1), log, [LF]);
      assert [CR] + [LF] == Eol(true);
    } else {
      assert [LF] == Eol(false);
      LfAlone(p, log);
    }
  }

  lemma LfAlone(p: Parser, log: Log)
    requires AtLine(p) && p.nread < MAX_HEADER_SIZE
    ensures R(p, log, [LF]) == R(p.(state := HeaderFieldStart), log, [LF])
  {
    hide R;
    if p.state == HeaderValueLws { LwsRun(p, log, [LF]); }
    assert p.state == HeaderFieldStart ==> p == p.(state := HeaderFieldStart);
  }
}

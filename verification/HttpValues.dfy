/** Header values: the fold the parser makes over them, and which values it recognises. */
module HttpValues {
  import opened Wrappers
  import opened HttpTypes
  import opened HttpSwitch
  import opened HttpRun
  import opened HttpInvariant
  import opened HttpSegments
  import opened HttpSteps
  import opened HttpNames
  import opened HttpNumerals

  /** A value as it stands in a line, without the blanks in front of it. */
  predicate IsValue(v: string) { v != [] && Visible(v[0]) && forall c :: c in v ==> c != CR && c != LF }

  function Advanced(t: Turn): Option<Parser> { if t.ctl == Advance then Some(t.p) else None }

  /** The parser after the characters of a value, None when one of them is rejected. */
  function ValueFold(p: Parser, v: string): Option<Parser>
    requires v != []
  {
    if |v| == 1 then Advanced(FirstValueChar(p.(nread := p.nread + 1, state := HeaderValue, index := 0), v[0]))
    else match ValueFold(p, AllButLast(v))
      case None => None
      case Some(q) => Advanced(ValueChar(q.(nread := q.nread + 1), Last(v)))
  }

  /** Reading a value delivers it to on_header_value and folds over it, or stops with an error. */
  lemma {:induction false} ValueRun(p: Parser, log: Log, v: string)
    requires Good(p, 0) && p.state == HeaderValueStart && IsValue(v) && p.nread + |v| <= MAX_HEADER_SIZE
    ensures
      match ValueFold(p, v)
      case Some(q) =>
        && Goes(p, log, v, q, Add(log, Data(OnHeaderValue, v)))
        && q.state == HeaderValue && q.nread == p.nread + |v|
      case None => R(p, log, v).p.errno != OK
    decreases |v|
  {
    hide Goes, Good, StepByte, Add, AddAll, R, FirstValueChar, ValueChar, Advanced;
    var c := Last(v);
    if |v| == 1 {
      assert v == [c];
      FirstValueRun(p, log, c);
    } else {
      var init := AllButLast(v);
      assert v == init + [c] && init[0] == v[0];
      assert IsValue(init) by { forall d | d in init ensures d != CR && d != LF { assert d in v; } }
      assert c in v;
      ValueRun(p, log, init);
      match ValueFold(p, init) {
        case None =>
          StaysFailed(p, log, init, [c]);
        case Some(q) =>
          var log1 := Add(log, Data(OnHeaderValue, init));
          Compose(p, log, init, q, log1, [c]);
          MoreValueRun(q, log1, c);
          AddTwice(log, OnHeaderValue, init, [c]);
          var t := Advanced(ValueChar(q.(nread := q.nread + 1), c));
          if t.Some? { Then(p, log, init, q, log1, [c], t.value, Add(log, Data(OnHeaderValue, v))); }
      }
    }
  }

  lemma StaysFailed(p: Parser, log: Log, a: string, b: string)
    requires Good(p, 0) && R(p, log, a).p.errno != OK
    ensures R(p, log, a + b) == R(p, log, a)
  {
    hide RunFrom, Good;
    RunConcat(p, log, a, b, 0, false);
  }

  lemma FailedByte(p: Parser, log: Log, c: char)
    requires StepByte(p, c, false).ctl == Error
    ensures R(p, log, [c]).p == StepByte(p, c, false).p
  {
    hide StepByte;
    assert [c][0] == c;
    assert R(p, log, [c]) == Continue(StepByte(p, c, false), log, [c], 0, false);
  }

  lemma FirstValueRun(p: Parser, log: Log, c: char)
    requires Good(p, 0) && p.state == HeaderValueStart && Visible(c) && p.nread < MAX_HEADER_SIZE
    ensures
      match Advanced(FirstValueChar(p.(nread := p.nread + 1, state := HeaderValue, index := 0), c))
      case Some(q) =>
        && Goes(p, log, [c], q, Add(log, Data(OnHeaderValue, [c])))
        && q.state == HeaderValue && q.nread == p.nread + 1
      case None => R(p, log, [c]).p.errno != OK
  {
    GoodIsOk(p);
    FirstValueFacts(p.(nread := p.nread + 1, state := HeaderValue, index := 0), c);
    hide Goes, Good, StepByte, Add, AddAll, R, FirstValueChar;
    FirstValueStep(p, c);
    var t := FirstValueChar(p.(nread := p.nread + 1, state := HeaderValue, index := 0), c);
    if t.ctl == Advance {
      OneByte(p, log, c, t.p, [Data(OnHeaderValue, [c])]);
      AddAllOne(log, Data(OnHeaderValue, [c]));
    } else {
      FailedByte(p, log, c);
    }
  }

  lemma FirstValueFacts(q: Parser, c: char)
    requires q.errno == OK
    ensures
      var t := FirstValueChar(q, c);
      if t.ctl == Advance then t.p.errno == OK && t.p.state == q.state && t.p.nread == q.nread else t.p.errno != OK
  {}

  lemma MoreValueRun(p: Parser, log: Log, c: char)
    requires Good(p, 0) && p.state == HeaderValue && c != CR && c != LF && p.nread < MAX_HEADER_SIZE
    ensures
      match Advanced(ValueChar(p.(nread := p.nread + 1), c))
      case Some(q) =>
        && Goes(p, log, [c], q, Add(log, Data(OnHeaderValue, [c])))
        && q.state == HeaderValue && q.nread == p.nread + 1
      case None => R(p, log, [c]).p.errno != OK
  {
    assert ValueState(p.headerState) && p.errno == OK;
    MoreValueFacts(p.(nread := p.nread + 1), c);
    hide Goes, Good, StepByte, Add, AddAll, R, ValueChar, ValueState;
    ValueStep(p, c);
    var t := ValueChar(p.(nread := p.nread + 1), c);
    if t.ctl == Advance {
      OneByte(p, log, c, t.p, [Data(OnHeaderValue, [c])]);
      AddAllOne(log, Data(OnHeaderValue, [c]));
    } else {
      FailedByte(p, log, c);
    }
  }

  lemma MoreValueFacts(p: Parser, c: char)
    requires p.errno == OK && p.state == HeaderValue
    ensures
      var t := ValueChar(p, c);
      if t.ctl == Advance then t.p.errno == OK && t.p.state == HeaderValue && t.p.nread == p.nread else t.p.errno != OK
  {
    hide MatchWord, Accumulate;
  }

  // ---- words -------------------------------------------------------------

  /** The word in any mixture of cases, with nothing but blanks behind it. */
  predicate Spelled(v: string, w: string) {
    |v| >= |w| && Lowered(v[..|w|]) == w && forall i :: |w| <= i < |v| ==> v[i] == ' '
  }

  predicate Begins(v: string, w: string) { |v| < |w| && Lowered(v) == w[..|v|] }

  /** How the value states track a word from its first character on. */
  function WordFold(w: string, matching: HeaderState, matched: HeaderState, v: string): (HeaderState, nat)
    requires v != [] && |w| >= 1
  {
    if |v| == 1 then (matching, 0)
    else
      var (h, i) := WordFold(w, matching, matched, AllButLast(v));
      if h == matching then MatchWord(w, matching, matched, i, Lower(Last(v)))
      else if h == matched && Last(v) == ' ' then (matched, i)
      else (General, i)
  }

  /** The tracker says exactly whether the value spells the word or begins it. */
  ghost predicate Tells(w: string, matching: HeaderState, matched: HeaderState, v: string)
    requires v != [] && |w| >= 1
  {
    var (h, i) := WordFold(w, matching, matched, v);
    && (h == matched <==> Spelled(v, w)) && (h == matching <==> Begins(v, w))
    && (h == matching ==> i + 1 == |v|) && (h == matching || h == matched || h == General)
  }

  predicate IsWord(w: string, matching: HeaderState, matched: HeaderState) {
    2 <= |w| < 256 && ' ' !in w && matching != matched && matching != General && matched != General
  }

  /** The tracker is in its matched state exactly when the value spells the word. */
  lemma {:induction false} WordFoldExact(w: string, matching: HeaderState, matched: HeaderState, v: string)
    requires v != [] && IsWord(w, matching, matched) && Lower(v[0]) == w[0]
    ensures Tells(w, matching, matched, v)
    decreases |v|
  {
    if |v| == 1 {
      assert Lowered(v) == [Lower(v[0])] == w[..1];
    } else {
      hide *;
      AsLast(v);
      WordFoldExact(w, matching, matched, AllButLast(v));
      TellsMore(w, matching, matched, AllButLast(v), Last(v));
    }
  }

  lemma AsLast(v: string)
    requires |v| > 1
    ensures v == AllButLast(v) + [Last(v)] && |AllButLast(v)| == |v| - 1 && AllButLast(v)[0] == v[0]
  {}

  lemma TellsMore(w: string, matching: HeaderState, matched: HeaderState, init: string, c: char)
    requires init != [] && IsWord(w, matching, matched) && Tells(w, matching, matched, init)
    ensures Tells(w, matching, matched, init + [c])
  {
    hide WordFold, Spelled, Begins, Lower, Lowered, MatchWord;
    WordFoldMore(w, matching, matched, init, c);
    var (h, i) := WordFold(w, matching, matched, init);
    if h == matching {
      BeginsShort(init, w);
      MatchWordNext(w, matching, matched, i, Lower(c));
      MatchOneMore(w, init, c);
    } else {
      NoMatchOneMore(w, init, c);
    }
  }

  lemma BeginsShort(v: string, w: string)
    requires Begins(v, w)
    ensures |v| < |w|
  {}

  lemma MatchWordNext(w: string, matching: HeaderState, matched: HeaderState, i: nat, c: char)
    requires i + 1 < |w| < 256
    ensures MatchWord(w, matching, matched, i, c) ==
      (if c != w[i + 1] then General else if i + 2 == |w| then matched else matching, i + 1)
  {}

  lemma WordFoldMore(w: string, matching: HeaderState, matched: HeaderState, init: string, c: char)
    requires init != [] && |w| >= 1
    ensures
      var (h, i) := WordFold(w, matching, matched, init);
      WordFold(w, matching, matched, init + [c]) ==
        if h == matching then MatchWord(w, matching, matched, i, Lower(c))
        else if h == matched && c == ' ' then (matched, i)
        else (General, i)
  {
    hide MatchWord, Lower;
    assert AllButLast(init + [c]) == init && Last(init + [c]) == c;
  }

  lemma MatchOneMore(w: string, init: string, c: char)
    requires init != [] && Begins(init, w)
    ensures Spelled(init + [c], w) <==> |init| + 1 == |w| && Lower(c) == w[|init|]
    ensures Begins(init + [c], w) <==> |init| + 1 < |w| && Lower(c) == w[|init|]
  {
    var v := init + [c];
    assert Lowered(v) == Lowered(init) + [Lower(c)];
    assert w[..|init| + 1] == w[..|init|] + [w[|init|]];
    if |v| >= |w| { assert v[..|w|] == v && w[..|w|] == w; }
  }

  lemma NoMatchOneMore(w: string, init: string, c: char)
    requires init != [] && !Begins(init, w)
    ensures Spelled(init + [c], w) <==> Spelled(init, w) && c == ' '
    ensures !Begins(init + [c], w)
  {
    var v := init + [c];
    assert Lowered(v) == Lowered(init) + [Lower(c)] && Lowered(init) == Lowered(v)[..|init|];
    assert |v| <= |w| ==> w[..|v|][..|init|] == w[..|init|];
    assert |v| == |w| ==> v[..|w|] == v && w[..|v|] == w;
    if |init| >= |w| {
      assert v[..|w|] == init[..|w|];
      if Spelled(init, w) && c == ' ' {
        forall i | |w| <= i < |v| ensures v[i] == ' ' { if i < |init| { assert v[i] == init[i]; } }
      }
      if Spelled(v, w) {
        assert v[|init|] == ' ';
        forall i | |w| <= i < |init| ensures init[i] == ' ' { assert v[i] == init[i]; }
      }
    }
  }

  // ---- lengths -----------------------------------------------------------

  /** What a Content-Length value may consist of: a digit, then digits and blanks. */
  predicate ValidLength(v: string) {
    v != [] && IsNum(v[0]) && forall c :: c in v ==> IsNum(c) || c == ' '
  }

  /** The value without its blanks. */
  function Digits(v: string): string {
    if v == [] then [] else if Last(v) == ' ' then Digits(AllButLast(v)) else Digits(AllButLast(v)) + [Last(v)]
  }

  /** The announced length; None when the value is rejected. */
  function LengthOf(v: string): Option<nat> {
    if ValidLength(v) && Digits(v) != [] then Parsed(Digits(v), 10) else None
  }

  lemma {:induction false} DigitsAreDecimal(v: string)
    requires ValidLength(v)
    ensures Decimal(Digits(v))
    decreases |v|
  {
    if |v| == 1 {
      assert AllButLast(v) == [] && v[0] in v;
      assert Digits(v) == [] + [v[0]];
    } else {
      ValidInit(v);
      DigitsAreDecimal(AllButLast(v));
      assert Last(v) in v;
    }
  }

  lemma ValidInit(v: string)
    requires ValidLength(v) && |v| > 1
    ensures ValidLength(AllButLast(v))
  {
    forall c | c in AllButLast(v) ensures IsNum(c) || c == ' ' { assert c in v; }
  }

  /** Digits alone stand for themselves. */
  lemma {:induction false} DigitsOfDecimal(ds: string)
    requires Decimal(ds)
    ensures ValidLength(ds) && Digits(ds) == ds
    decreases |ds|
  {
    assert ds[0] in ds && Last(ds) in ds;
    if |ds| > 1 {
      forall c | c in AllButLast(ds) ensures IsNum(c) { assert c in ds; }
      DigitsOfDecimal(AllButLast(ds));
    } else {
      assert Digits(AllButLast(ds)) == [];
    }
  }

  lemma LengthOfFirst(c: char)
    ensures LengthOf([c]) == if IsNum(c) then Some(Digit(c)) else None
  {
    assert AllButLast([c]) == [] && Digits([]) == [];
    if IsNum(c) { assert Digits([c]) == [] + [c]; }
  }

  lemma LengthOfMore(init: string, c: char)
    requires init != []
    ensures LengthOf(init + [c]) ==
      match LengthOf(init)
      case None => None
      case Some(n) => if c == ' ' then Some(n) else if !IsNum(c) then None else Accumulate(n, 10, Digit(c))
  {
    hide Accumulate;
    var v := init + [c];
    assert AllButLast(v) == init && Last(v) == c && v[0] == init[0] && c in v;
    if ValidLength(init) {
      DigitsAreDecimal(init);
      if IsNum(c) || c == ' ' {
        assert ValidLength(v);
        if IsNum(c) {
          var ds := Digits(v);
          assert ds[..|ds| - 1] == Digits(init) && ds[|ds| - 1] == c;
        }
      }
    } else if ValidLength(v) {
      ValidInit(v);
    }
  }

  // ---- what a line does --------------------------------------------------

  /** What decides how a message is delimited. */
  datatype Framing = Framing(flags: Flags, length: nat)

  function FramingOf(p: Parser): Framing { Framing(p.flags, p.contentLength) }

  /** The effect of a header line, by its name and value alone; None when it is rejected. */
  function Applied(f: Framing, name: string, value: string): Option<Framing> {
    var n := Lowered(name);
    if value == [] then Some(f)
    else if n == "content-length" then
      match LengthOf(value)
      case None => None
      case Some(k) => Some(f.(length := k))
    else if n == "transfer-encoding" then
      Some(if Spelled(value, "chunked") then f.(flags := f.flags.(chunked := true)) else f)
    else if n == "connection" || n == "proxy-connection" then
      Some(if Spelled(value, "keep-alive") then f.(flags := f.flags.(keepAlive := true))
           else if Spelled(value, "close") then f.(flags := f.flags.(close := true)) else f)
    else if n == "upgrade" then Some(f.(flags := f.flags.(upgrade := true)))
    else Some(f)
  }

  /** The same by the header state the name has led to. */
  function AppliedBy(f: Framing, h: HeaderState, value: string): Option<Framing> {
    if value == [] then Some(f)
    else if h == ContentLength then
      match LengthOf(value)
      case None => None
      case Some(k) => Some(f.(length := k))
    else if h == TransferEncoding then
      Some(if Spelled(value, "chunked") then f.(flags := f.flags.(chunked := true)) else f)
    else if h == Connection then
      Some(if Spelled(value, "keep-alive") then f.(flags := f.flags.(keepAlive := true))
           else if Spelled(value, "close") then f.(flags := f.flags.(close := true)) else f)
    else if h == Upgrade then Some(f.(flags := f.flags.(upgrade := true)))
    else Some(f)
  }

  lemma AppliedByName(f: Framing, name: string, value: string)
    requires name != []
    ensures NameFold(name).Some? && Applied(f, name, value) == AppliedBy(f, NameFold(name).value.0, value)
  {
    hide NameFold, Lowered, Spelled, LengthOf;
    HeaderNamesExact(name);
  }

  /** Inside a value, with nothing but the tracking fields changed. */
  function InValueAt(p: Parser, v: string, h: HeaderState, i: nat): Parser {
    p.(state := HeaderValue, nread := p.nread + |v|, headerState := h, index := i)
  }

  predicate Tracks(w: string, matching: HeaderState, matched: HeaderState) {
    || (w == "chunked" && matching == MatchingChunked && matched == Chunked)
    || (w == "keep-alive" && matching == MatchingKeepAlive && matched == KeepAlive)
    || (w == "close" && matching == MatchingClose && matched == Close)
  }

  lemma TrackedChar(w: string, matching: HeaderState, matched: HeaderState, q: Parser, c: char)
    requires Tracks(w, matching, matched)
    ensures q.headerState == matching ==>
      var (h, i) := MatchWord(w, matching, matched, q.index, Lower(c));
      ValueChar(q, c) == Next(q.(headerState := h, index := i), [])
    ensures q.headerState == matched ==>
      ValueChar(q, c) == Next(if c != ' ' then q.(headerState := General) else q, [])
    ensures q.headerState == General ==> ValueChar(q, c) == Next(q, [])
  {
    hide MatchWord, Lower;
  }

  /** The fold over a value agrees with the tracker of a word. */
  ghost predicate Follows(p: Parser, v: string, w: string, matching: HeaderState, matched: HeaderState)
    requires v != [] && |w| >= 1
  {
    var (h, i) := WordFold(w, matching, matched, v);
    ValueFold(p, v) == Some(InValueAt(p, v, h, i)) && (h == matching || h == matched || h == General)
  }

  lemma {:induction false} WordValue(p: Parser, v: string, w: string, matching: HeaderState, matched: HeaderState)
    requires v != [] && |w| >= 1 && Tracks(w, matching, matched) && Follows(p, [v[0]], w, matching, matched)
    ensures Follows(p, v, w, matching, matched)
    decreases |v|
  {
    hide *;
    if |v| == 1 {
      assert v == [v[0]];
    } else {
      AsLast(v);
      WordValue(p, AllButLast(v), w, matching, matched);
      FollowsMore(p, AllButLast(v), Last(v), w, matching, matched);
    }
  }

  lemma FollowsMore(p: Parser, init: string, c: char, w: string, matching: HeaderState, matched: HeaderState)
    requires init != [] && |w| >= 1 && Tracks(w, matching, matched) && Follows(p, init, w, matching, matched)
    ensures Follows(p, init + [c], w, matching, matched)
  {
    hide FirstValueChar, ValueChar, MatchWord, Lower, Tracks, WordFold, ValueFold;
    WordFoldMore(w, matching, matched, init, c);
    ValueFoldMore(p, init, c);
    var (h, i) := WordFold(w, matching, matched, init);
    TrackedChar(w, matching, matched, InValueAt(p, init, h, i).(nread := p.nread + |init| + 1), c);
  }

  lemma ValueFoldMore(p: Parser, init: string, c: char)
    requires init != [] && ValueFold(p, init).Some?
    ensures
      var q := ValueFold(p, init).value;
      ValueFold(p, init + [c]) == Advanced(ValueChar(q.(nread := q.nread + 1), c))
  {
    hide ValueChar, FirstValueChar;
    assert AllButLast(init + [c]) == init && Last(init + [c]) == c;
  }

  lemma {:induction false} GeneralValue(p: Parser, v: string)
    requires IsValue(v)
    requires
      var t := FirstValueChar(p.(nread := p.nread + 1, state := HeaderValue, index := 0), v[0]);
      t.ctl == Advance && t.p.headerState == General && t.p.nread == p.nread + 1
    ensures
      var t := FirstValueChar(p.(nread := p.nread + 1, state := HeaderValue, index := 0), v[0]);
      ValueFold(p, v) == Some(t.p.(nread := p.nread + |v|))
    decreases |v|
  {
    hide FirstValueChar, ValueChar;
    if |v| == 1 {
    } else {
      var init := AllButLast(v);
      assert init[0] == v[0];
      assert IsValue(init) by { forall d | d in init ensures d != CR && d != LF { assert d in v; } }
      GeneralValue(p, init);
      var q := ValueFold(p, init).value;
      GeneralChar(q.(nread := q.nread + 1), Last(v));
    }
  }

  lemma GeneralChar(q: Parser, c: char)
    requires q.headerState == General
    ensures ValueChar(q, c) == Next(q, [])
  {}

  lemma {:induction false} LengthValue(p: Parser, v: string)
    requires IsValue(v) && p.headerState == ContentLength
    ensures ValueFold(p, v) ==
      match LengthOf(v)
      case None => None
      case Some(n) => Some(InValueAt(p, v, ContentLength, 0).(contentLength := n))
    decreases |v|
  {
    hide LengthOf, Accumulate, FirstValueChar, ValueChar;
    if |v| == 1 {
      assert v == [v[0]];
      LengthOfFirst(v[0]);
      FirstLengthChar(p.(nread := p.nread + 1, state := HeaderValue, index := 0), v[0]);
    } else {
      var init, c := AllButLast(v), Last(v);
      assert v == init + [c] && init[0] == v[0];
      assert IsValue(init) by { forall d | d in init ensures d != CR && d != LF { assert d in v; } }
      LengthValue(p, init);
      LengthOfMore(init, c);
      if LengthOf(init).Some? {
        LengthChar(InValueAt(p, init, ContentLength, 0).(contentLength := LengthOf(init).value,
            nread := p.nread + |v|), c);
      }
    }
  }

  lemma FirstLengthChar(q: Parser, c: char)
    requires q.headerState == ContentLength
    ensures Advanced(FirstValueChar(q, c)) == if IsNum(c) then Some(q.(contentLength := Digit(c))) else None
  {}

  lemma LengthChar(q: Parser, c: char)
    requires q.headerState == ContentLength
    ensures Advanced(ValueChar(q, c)) ==
      if c == ' ' then Some(q) else if !IsNum(c) then None
      else match Accumulate(q.contentLength, 10, Digit(c))
           case None => None
           case Some(n) => Some(q.(contentLength := n))
  {
    hide Accumulate;
  }

  /** The parser behind a value: the flags its line end will set and the length are those the
      value stands for, and nothing else of the message has changed. */
  ghost predicate ValueSays(p: Parser, v: string)
    requires v != []
  {
    match ValueFold(p, v)
    case None => AppliedBy(FramingOf(p), p.headerState, v).None?
    case Some(q) =>
      && AppliedBy(FramingOf(p), p.headerState, v) == Some(Framing(LineFlags(q), q.contentLength))
      && q == p.(state := HeaderValue, nread := p.nread + |v|, headerState := q.headerState, index := q.index,
                 flags := q.flags, contentLength := q.contentLength)
  }

  lemma ValueExact(p: Parser, v: string)
    requires IsValue(v) && p.state == HeaderValueStart
    ensures ValueSays(p, v)
  {
    hide ValueFold, LengthOf, FirstValueChar, Spelled, Lower, ValueSays;
    if p.headerState == ContentLength {
      LengthSays(p, v);
    } else if p.headerState == TransferEncoding {
      CodingSays(p, v);
    } else if p.headerState == Connection {
      ConnectionSays(p, v);
    } else {
      OtherSays(p, v);
    }
  }

  lemma LengthSays(p: Parser, v: string)
    requires IsValue(v) && p.headerState == ContentLength
    ensures ValueSays(p, v)
  {
    hide ValueFold, LengthOf;
    LengthValue(p, v);
  }

  lemma CodingSays(p: Parser, v: string)
    requires IsValue(v) && p.headerState == TransferEncoding
    ensures ValueSays(p, v)
  {
    hide ValueFold, Lower, Spelled, LengthOf;
    if Lower(v[0]) == 'c' {
      WordSays(p, v, "chunked", MatchingChunked, Chunked);
    } else {
      GeneralValue(p, v);
      OtherWord(v, "chunked");
    }
  }

  lemma ConnectionSays(p: Parser, v: string)
    requires IsValue(v) && p.headerState == Connection
    ensures ValueSays(p, v)
  {
    hide ValueFold, Lower, Spelled, LengthOf;
    if Lower(v[0]) == 'k' {
      WordSays(p, v, "keep-alive", MatchingKeepAlive, KeepAlive);
      OtherWord(v, "close");
    } else if Lower(v[0]) == 'c' {
      WordSays(p, v, "close", MatchingClose, Close);
      OtherWord(v, "keep-alive");
    } else {
      GeneralValue(p, v);
      OtherWord(v, "keep-alive");
      OtherWord(v, "close");
    }
  }

  lemma OtherSays(p: Parser, v: string)
    requires IsValue(v) && p.headerState != ContentLength && p.headerState != TransferEncoding
      && p.headerState != Connection
    ensures ValueSays(p, v)
  {
    hide ValueFold, Lower, Spelled, LengthOf;
    GeneralValue(p, v);
  }

  lemma OtherWord(v: string, w: string)
    requires v != [] && w != [] && Lower(v[0]) != w[0]
    ensures !Spelled(v, w)
  {
    if |v| >= |w| { assert Lowered(v[..|w|])[0] == Lower(v[0]); }
  }

  lemma WordSays(p: Parser, v: string, w: string, matching: HeaderState, matched: HeaderState)
    requires IsValue(v) && Tracks(w, matching, matched) && Lower(v[0]) == w[0]
    requires FirstValueChar(p.(nread := p.nread + 1, state := HeaderValue, index := 0), v[0]) ==
             Next(InValueAt(p, [v[0]], matching, 0), [Mark(OnHeaderValue)])
    ensures
      var (h, i) := WordFold(w, matching, matched, v);
      ValueFold(p, v) == Some(InValueAt(p, v, h, i)) && (h == matched <==> Spelled(v, w))
      && (h == matching || h == matched || h == General)
  {
    assert IsWord(w, matching, matched);
    FollowsFirst(p, v[0], w, matching, matched);
    hide FirstValueChar, ValueFold, WordFold, Lower, Spelled, Begins, Tracks;
    WordValue(p, v, w, matching, matched);
    WordFoldExact(w, matching, matched, v);
  }

  lemma FollowsFirst(p: Parser, c: char, w: string, matching: HeaderState, matched: HeaderState)
    requires |w| >= 1
    requires FirstValueChar(p.(nread := p.nread + 1, state := HeaderValue, index := 0), c) ==
             Next(InValueAt(p, [c], matching, 0), [Mark(OnHeaderValue)])
    ensures Follows(p, [c], w, matching, matched)
  {
    hide FirstValueChar;
  }
}

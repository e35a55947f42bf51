/** Request lines: the method matcher with its shared prefixes, the URL, the version,
    and whole requests read from a fresh parser. */
module HttpRequestLine {
  import opened Wrappers
  import opened HttpTypes
  import opened UrlChars
  import opened HttpSwitch
  import opened HttpRun
  import opened HttpInvariant
  import opened HttpExecute
  import opened HttpSegments
  import opened HttpSteps
  import opened HttpNames
  import opened HttpNumerals
  import opened HttpLines

  // ---- methods -----------------------------------------------------------

  /** Method and index after the characters of a method, None after a rejected one. */
  function MethodFold(s: string): Option<(Method, nat)>
    requires s != []
  {
    if |s| == 1 then
      match FirstMethod(s[0])
      case None => None
      case Some(m) => Some((m, 1))
    else match MethodFold(AllButLast(s))
      case None => None
      case Some(mi) => MethodChar(mi.0, mi.1, Last(s))
  }

  function MethodChar(m: Method, i: nat, c: char): Option<(Method, nat)> {
    if c as int == 0 || i > |MethodName(m)| then None
    else if i < |MethodName(m)| && c == MethodName(m)[i] then Some((m, i + 1))
    else match SiblingMethod(m, i, c)
      case None => None
      case Some(m') => Some((m', i + 1))
  }

  /** A method that has been matched so far is what has been read so far. */
  lemma {:induction false} MethodFoldReads(s: string)
    requires s != [] && MethodFold(s).Some?
    ensures
      var (m, i) := MethodFold(s).value;
      i == |s| <= |MethodName(m)| && (m != MSEARCH ==> s == MethodName(m)[..i])
    decreases |s|
  {
    hide MethodName, SiblingMethod;
    var (m, i) := MethodFold(s).value;
    if |s| == 1 {
      FirstMethodReads(s[0]);
      assert MethodName(m)[..1] == s;
    } else {
      var init := AllButLast(s);
      MethodFoldReads(init);
      var (n, j) := MethodFold(init).value;
      var c := Last(s);
      assert s == init + [c];
      if j < |MethodName(n)| && c == MethodName(n)[j] {
        assert MethodName(n)[..j + 1] == MethodName(n)[..j] + [c];
      } else {
        SiblingReads(n, j, c);
        if m != MSEARCH {
          assert MethodName(m)[..j] == MethodName(n)[..j];
          assert MethodName(m)[..j + 1] == MethodName(m)[..j] + [c];
        }
      }
    }
  }

  lemma FirstMethodReads(c: char)
    requires FirstMethod(c).Some?
    ensures var m := FirstMethod(c).value; |MethodName(m)| >= 1 && MethodName(m)[0] == c && m != MSEARCH
  {}

  /** A sibling method shares the prefix read so far and continues with the new character. */
  lemma SiblingReads(m: Method, i: nat, c: char)
    requires SiblingMethod(m, i, c).Some? && i <= |MethodName(m)|
    ensures
      var m' := SiblingMethod(m, i, c).value;
      && m != MSEARCH && i < |MethodName(m')|
      && (m' != MSEARCH ==> MethodName(m')[i] == c && forall k :: 0 <= k < i ==> MethodName(m')[k] == MethodName(m)[k])
  {
    hide MethodName;
    SiblingPairs(m, i, c);
    var m' := SiblingMethod(m, i, c).value;
    if i == 1 { SiblingsShareOne(m, m', c); }
    else if i == 2 { SiblingsShareTwo(m, m', c); }
    else { SiblingsShareFour(); }
  }

  lemma SiblingPairs(m: Method, i: nat, c: char)
    requires SiblingMethod(m, i, c).Some?
    ensures i == 1 || i == 2 || i == 4
    ensures i == 1 ==> OneShared(m, SiblingMethod(m, i, c).value, c)
    ensures i == 2 ==> TwoShared(m, SiblingMethod(m, i, c).value, c)
    ensures i == 4 ==> m == PROPFIND && SiblingMethod(m, i, c).value == PROPPATCH && c == 'P'
  {}

  predicate OneShared(m: Method, m': Method, c: char) {
    || (m == CONNECT && m' == CHECKOUT && c == 'H')
    || (m == MKCOL && m' == MOVE && c == 'O') || (m == MKCOL && m' == MERGE && c == 'E')
    || (m == MKCOL && m' == MSEARCH) || (m == SUBSCRIBE && m' == SEARCH && c == 'E')
    || (m == POST && m' == PROPFIND && c == 'R') || (m == POST && m' == PUT && c == 'U')
    || (m == POST && m' == PATCH && c == 'A')
  }

  predicate TwoShared(m: Method, m': Method, c: char) {
    || (m == CONNECT && m' == COPY && c == 'P') || (m == MKCOL && m' == MKACTIVITY && c == 'A')
    || (m == PUT && m' == PURGE && c == 'R') || (m == UNLOCK && m' == UNSUBSCRIBE && c == 'S')
  }

  lemma SiblingsShareOne(m: Method, m': Method, c: char)
    requires OneShared(m, m', c)
    ensures m != MSEARCH && 1 < |MethodName(m')| && 1 <= |MethodName(m)|
    ensures m' != MSEARCH ==> MethodName(m')[1] == c && MethodName(m')[0] == MethodName(m)[0]
  {}

  lemma SiblingsShareTwo(m: Method, m': Method, c: char)
    requires TwoShared(m, m', c)
    ensures m != MSEARCH && m' != MSEARCH && 2 < |MethodName(m')| && 2 <= |MethodName(m)|
    ensures MethodName(m')[2] == c && MethodName(m')[0] == MethodName(m)[0] && MethodName(m')[1] == MethodName(m)[1]
  {}

  lemma SiblingsShareFour()
    ensures 4 < |MethodName(PROPPATCH)| && 4 <= |MethodName(PROPFIND)| && MethodName(PROPPATCH)[4] == 'P'
    ensures forall k :: 0 <= k < 4 ==> MethodName(PROPPATCH)[k] == MethodName(PROPFIND)[k]
  {}

  lemma {:induction false} RestMatches(m: Method, from: nat, k: nat)
    requires 1 <= from <= k <= |MethodName(m)|
    requires MethodFold(MethodName(m)[..from]) == Some((m, from))
    requires forall i :: 0 <= i < |MethodName(m)| ==> MethodName(m)[i] as int != 0
    ensures MethodFold(MethodName(m)[..k]) == Some((m, k))
    decreases k
  {
    hide SiblingMethod, MethodName;
    if k > from {
      RestMatches(m, from, k - 1);
      var s := MethodName(m)[..k];
      assert AllButLast(s) == MethodName(m)[..k - 1] && Last(s) == MethodName(m)[k - 1];
    }
  }

  /** How many characters it takes until the matcher has settled on a method. */
  function Settled(m: Method): nat {
    match m
    case COPY | PURGE | UNSUBSCRIBE | MKACTIVITY => 3
    case MOVE | MERGE | SEARCH | CHECKOUT | PROPFIND | PUT | PATCH => 2
    case PROPPATCH => 5
    case _ => 1
  }

  lemma MethodSettles(m: Method)
    requires m != MSEARCH
    ensures Settled(m) <= |MethodName(m)| && MethodFold(MethodName(m)[..Settled(m)]) == Some((m, Settled(m)))
  {
    if Settled(m) == 1 {
      SettlesAtOnce(m);
    } else if Settled(m) == 2 {
      SettlesSecond(m);
    } else if Settled(m) == 3 {
      SettlesThird(m);
    } else {
      ProppatchSettles();
    }
  }

  lemma SettlesAtOnce(m: Method)
    requires Settled(m) == 1 && m != MSEARCH
    ensures MethodFold(MethodName(m)[..1]) == Some((m, 1))
  {
    hide SiblingMethod;
  }

  lemma SettlesSecond(m: Method)
    requires Settled(m) == 2
    ensures MethodFold(MethodName(m)[..2]) == Some((m, 2))
  {
    var s := MethodName(m);
    var n := FirstMethod(s[0]).value;
    assert MethodFold(s[..1]) == Some((n, 1));
    assert AllButLast(s[..2]) == s[..1] && Last(s[..2]) == s[1];
    assert MethodChar(n, 1, s[1]) == Some((m, 2));
  }

  lemma SettlesThird(m: Method)
    requires Settled(m) == 3
    ensures MethodFold(MethodName(m)[..3]) == Some((m, 3))
  {
    var s := MethodName(m);
    var n := if m == COPY then CONNECT else if m == PURGE then PUT else if m == UNSUBSCRIBE then UNLOCK else MKCOL;
    assert MethodFold(s[..1]) == Some((FirstMethod(s[0]).value, 1));
    assert AllButLast(s[..2]) == s[..1] && Last(s[..2]) == s[1];
    assert MethodFold(s[..2]) == Some((n, 2));
    assert AllButLast(s[..3]) == s[..2] && Last(s[..3]) == s[2];
    assert MethodChar(n, 2, s[2]) == Some((m, 3));
  }

  lemma MethodFoldMore(s: string, c: char)
    requires s != [] && MethodFold(s).Some?
    ensures MethodFold(s + [c]) == MethodChar(MethodFold(s).value.0, MethodFold(s).value.1, c)
  {
    hide MethodChar;
    assert AllButLast(s + [c]) == s && Last(s + [c]) == c;
  }

  lemma PropLetters()
    ensures MethodFold("P") == Some((POST, 1)) && MethodChar(POST, 1, 'R') == Some((PROPFIND, 2))
    ensures MethodChar(PROPFIND, 2, 'O') == Some((PROPFIND, 3)) && MethodChar(PROPFIND, 3, 'P') == Some((PROPFIND, 4))
    ensures MethodChar(PROPFIND, 4, 'P') == Some((PROPPATCH, 5))
  {}

  lemma ProppatchPrefix()
    ensures 5 <= |MethodName(PROPPATCH)| && MethodName(PROPPATCH)[..5] == "P" + "R" + "O" + "P" + "P"
  {}

  lemma ProppatchSettles()
    ensures 5 <= |MethodName(PROPPATCH)| && MethodFold(MethodName(PROPPATCH)[..5]) == Some((PROPPATCH, 5))
  {
    hide MethodFold, MethodChar, MethodName;
    ProppatchPrefix();
    PropLetters();
    MethodFoldMore("P", 'R');
    MethodFoldMore("P" + "R", 'O');
    MethodFoldMore("P" + "R" + "O", 'P');
    MethodFoldMore("P" + "R" + "O" + "P", 'P');
  }

  lemma NamesArePrintable(m: Method)
    ensures forall i :: 0 <= i < |MethodName(m)| ==> MethodName(m)[i] as int != 0
  {}

  /** Despite the shared prefixes, every method but M-SEARCH is recognised from its name, and
      a matcher that has come to the end of such a method has read exactly that name. */
  lemma MethodsExact(m: Method, s: string)
    requires m != MSEARCH && s != []
    ensures MethodFold(s) == Some((m, |MethodName(m)|)) <==> s == MethodName(m)
  {
    hide MethodFold, MethodName, Settled;
    if MethodFold(s) == Some((m, |MethodName(m)|)) {
      MethodFoldReads(s);
    }
    if s == MethodName(m) {
      MethodSettles(m);
      NamesArePrintable(m);
      SettledSome(m);
      RestMatches(m, Settled(m), |s|);
      assert s[..|s|] == s;
    }
  }

  lemma SettledSome(m: Method)
    ensures Settled(m) >= 1
  {}

  // ---- the method in the parser ------------------------------------------

  /** Waiting for a request. */
  ghost predicate Fresh(p: Parser) {
    Good(p, 0) && p.errno == OK && p.state == StartReq && !p.upgrade
  }

  function InMethod(p: Parser, s: string): Parser
    requires s != [] && MethodFold(s).Some?
  {
    p.(state := ReqMethod, verb := MethodFold(s).value.0, index := MethodFold(s).value.1,
       nread := p.nread + |s|, flags := NO_FLAGS, contentLength := NO_LENGTH)
  }

  lemma {:induction false} MethodRun(p: Parser, log: Log, s: string)
    requires Fresh(p) && s != [] && MethodFold(s).Some? && p.nread + |s| <= MAX_HEADER_SIZE
    ensures Goes(p, log, s, InMethod(p, s), Add(log, MessageBegin))
    decreases |s|
  {
    hide Goes, Good, StepByte, Add, AddAll, MethodName, SiblingMethod;
    var c := Last(s);
    if |s| == 1 {
      assert s == [c];
      StartStep(p, c);
      OneByte(p, log, c, InMethod(p, s), [MessageBegin]);
      AddAllOne(log, MessageBegin);
    } else {
      var init := AllButLast(s);
      assert s == init + [c];
      MethodRun(p, log, init);
      MethodFoldReads(init);
      var q := InMethod(p, init);
      var log1 := Add(log, MessageBegin);
      MethodStep(q, c);
      OneByte(q, log1, c, InMethod(p, s), []);
      AddAllNone(log1);
      Then(p, log, init, q, log1, [c], InMethod(p, s), log1);
    }
  }

  lemma StartStep(p: Parser, c: char)
    requires p.state == StartReq && p.nread < MAX_HEADER_SIZE && FirstMethod(c).Some?
    ensures StepByte(p, c, false) ==
      Step(p.(nread := p.nread + 1, flags := NO_FLAGS, contentLength := NO_LENGTH,
              verb := FirstMethod(c).value, index := 1, state := ReqMethod),
           [MessageBegin], Advance)
  {
    hide StepByte, Notes, ActsFit, Rank;
    var t := Switch(Count(p), c, 1, false);
    assert t == SwitchStart(Count(p), c);
    StepOnce(p, c, t);
    NotesSingle(Notify(MessageBegin));
    assert Owner(p.state, c, t.p.state) == [];
  }

  lemma MethodStep(p: Parser, c: char)
    requires p.state == ReqMethod && p.nread < MAX_HEADER_SIZE && p.index <= |MethodName(p.verb)|
    requires MethodChar(p.verb, p.index, c).Some?
    ensures
      var (m, i) := MethodChar(p.verb, p.index, c).value;
      StepByte(p, c, false) == Step(p.(nread := p.nread + 1, verb := m, index := i), [], Advance)
  {
    hide StepByte, ActsFit, Rank, MethodName, SiblingMethod;
    if c == ' ' { NoSiblingOnBlank(p.verb, p.index); }
    var t := Switch(Count(p), c, 1, false);
    assert t == SwitchMethod(Count(p), c);
    Quiet(p, c, t);
  }

  lemma NoSiblingOnBlank(m: Method, i: nat)
    ensures SiblingMethod(m, i, ' ').None?
  {}

  lemma MethodEndStep(p: Parser)
    requires p.state == ReqMethod && p.nread < MAX_HEADER_SIZE && p.index == |MethodName(p.verb)|
    ensures StepByte(p, ' ', false) ==
      Step(p.(nread := p.nread + 1, state := Url(SpacesBeforeUrl), index := p.index + 1), [], Advance)
  {
    hide StepByte, ActsFit, Rank, MethodName, SiblingMethod;
    var t := Switch(Count(p), ' ', 1, false);
    assert t == SwitchMethod(Count(p), ' ');
    Quiet(p, ' ', t);
  }

  /** Line ends in front of a request are skipped. */
  lemma {:induction false} LineEndsRun(p: Parser, log: Log, s: string)
    requires Fresh(p) && (forall c :: c in s ==> c == CR || c == LF) && p.nread + |s| <= MAX_HEADER_SIZE
    ensures Goes(p, log, s, p.(nread := p.nread + |s|), log) && Fresh(p.(nread := p.nread + |s|))
    decreases |s|
  {
    hide Goes, StepByte, AddAll;
    if s == [] {
      NoBytes(p, log);
    } else {
      var init, c := AllButLast(s), Last(s);
      assert s == init + [c] && c in s;
      forall d | d in init ensures d == CR || d == LF { assert d in s; }
      LineEndsRun(p, log, init);
      hide Good;
      var q := p.(nread := p.nread + |init|);
      LeadingStep(q, c);
      OneByte(q, log, c, p.(nread := p.nread + |s|), []);
      AddAllNone(log);
      Then(p, log, init, q, log, [c], p.(nread := p.nread + |s|), log);
      Compose(p, log, s, p.(nread := p.nread + |s|), log, []);
    }
  }

  lemma LeadingStep(p: Parser, c: char)
    requires p.state == StartReq && p.nread < MAX_HEADER_SIZE && (c == CR || c == LF)
    ensures StepByte(p, c, false) == Step(p.(nread := p.nread + 1), [], Advance)
  {
    hide StepByte, ActsFit, Rank;
    var t := Switch(Count(p), c, 1, false);
    assert t == SwitchStart(Count(p), c);
    Quiet(p, c, t);
  }

  // ---- the URL -----------------------------------------------------------

  /** Where the URL of a method starts. */
  function UrlEntry(m: Method): UrlPos { if m == CONNECT then ServerStart else SpacesBeforeUrl }

  predicate UrlEnds(u: UrlPos) {
    !(u.SpacesBeforeUrl? || u.Schema? || u.SchemaSlash? || u.SchemaSlashSlash? || u.ServerStart?)
  }

  /** A URL that may stand in a request line: well formed and not ending inside its scheme. */
  predicate RequestUrl(m: Method, url: string) {
    url != [] &&
    match UrlFold(UrlEntry(m), url)
    case None => false
    case Some(u) => UrlEnds(u)
  }

  predicate Blanks(s: string) { forall c :: c in s ==> c == ' ' }

  lemma UrlGapStep(p: Parser)
    requires p.state == Url(SpacesBeforeUrl) && p.nread < MAX_HEADER_SIZE
    ensures StepByte(p, ' ', false) == Step(p.(nread := p.nread + 1), [], Advance)
  {
    hide StepByte, ActsFit, Rank, ParseUrlChar;
    var t := Switch(Count(p), ' ', 1, false);
    assert t == SwitchUrl(Count(p), ' ');
    Quiet(p, ' ', t);
  }

  lemma VersionGapStep(p: Parser)
    requires p.state == Version(HttpStart) && p.nread < MAX_HEADER_SIZE
    ensures StepByte(p, ' ', false) == Step(p.(nread := p.nread + 1), [], Advance)
  {
    hide StepByte, ActsFit, Rank;
    var t := Switch(Count(p), ' ', 1, false);
    assert t == SwitchRequestVersion(Count(p), ' ');
    Quiet(p, ' ', t);
  }

  /** More blanks in front of the URL or the version are skipped. */
  lemma {:induction false} GapRun(p: Parser, log: Log, s: string)
    requires Good(p, 0) && (p.state == Url(SpacesBeforeUrl) || p.state == Version(HttpStart))
    requires Blanks(s) && p.nread + |s| <= MAX_HEADER_SIZE
    ensures Goes(p, log, s, p.(nread := p.nread + |s|), log)
    decreases |s|
  {
    hide Goes, Good, StepByte, AddAll;
    GoodIsOk(p);
    if s == [] {
      NoBytes(p, log);
    } else {
      var init := AllButLast(s);
      assert Last(s) in s;
      assert s == init + [' '];
      assert Blanks(init) by { forall c | c in init ensures c == ' ' { assert c in s; } }
      GapRun(p, log, init);
      var q := p.(nread := p.nread + |init|);
      if p.state == Version(HttpStart) { VersionGapStep(q); } else { UrlGapStep(q); }
      OneByte(q, log, ' ', p.(nread := p.nread + |s|), []);
      AddAllNone(log);
      Then(p, log, init, q, log, [' '], p.(nread := p.nread + |s|), log);
    }
  }

  /** The state a URL byte is judged in. */
  function UrlFrom(p: Parser): UrlPos
    requires p.state.Url?
  {
    if p.state.url == SpacesBeforeUrl then UrlEntry(p.verb) else p.state.url
  }

  lemma UrlStep(p: Parser, c: char)
    requires p.state.Url? && p.nread < MAX_HEADER_SIZE && ParseUrlChar(UrlFrom(p), c).Some?
    ensures StepByte(p, c, false) ==
      Step(p.(nread := p.nread + 1, state := Url(ParseUrlChar(UrlFrom(p), c).value)), [Data(OnUrl, [c])], Advance)
  {
    hide StepByte, Notes, ActsFit, Rank;
    NoBlankUrl(UrlFrom(p), c);
    hide ParseUrlChar;
    var t := Switch(Count(p), c, 1, false);
    assert t == SwitchUrl(Count(p), c);
    StepOnce(p, c, t);
    NotesNone();
    NotesSingle(Mark(OnUrl));
  }

  lemma NoBlankUrl(u: UrlPos, c: char)
    requires ParseUrlChar(u, c).Some?
    ensures c != ' ' && c != CR && c != LF
  {}

  lemma UrlFoldStep(from: UrlPos, url: string)
    requires url != [] && UrlFold(from, url).Some?
    ensures UrlFold(from, AllButLast(url)).Some?
    ensures UrlFold(from, url) == ParseUrlChar(UrlFold(from, AllButLast(url)).value, Last(url))
  {
    hide ParseUrlChar;
  }

  lemma UrlFoldNone(from: UrlPos)
    ensures UrlFold(from, []) == Some(from)
  {}

  lemma UrlFoldStarted(from: UrlPos, url: string)
    requires url != [] && UrlFold(from, url).Some?
    ensures UrlFold(from, url).value != SpacesBeforeUrl
  {
    hide ParseUrlChar;
  }

  lemma {:induction false} UrlRun(p: Parser, log: Log, url: string)
    requires Good(p, 0) && p.state == Url(SpacesBeforeUrl)
    requires url != [] && UrlFold(UrlEntry(p.verb), url).Some? && p.nread + |url| <= MAX_HEADER_SIZE
    ensures Goes(p, log, url,
                 p.(state := Url(UrlFold(UrlEntry(p.verb), url).value), nread := p.nread + |url|),
                 Add(log, Data(OnUrl, url)))
    decreases |url|
  {
    hide Goes, Good, StepByte, Add, AddAll, ParseUrlChar, UrlFold, UrlEntry;
    GoodIsOk(p);
    var from := UrlEntry(p.verb);
    var c, init := Last(url), AllButLast(url);
    UrlFoldStep(from, url);
    LastByte(url);
    var q1 := p.(state := Url(UrlFold(from, url).value), nread := p.nread + |url|);
    if init == [] {
      assert url == [c];
      UrlFoldNone(from);
      UrlByte(p, log, c);
    } else {
      UrlRun(p, log, init);
      UrlFoldStarted(from, init);
      var q := p.(state := Url(UrlFold(from, init).value), nread := p.nread + |init|);
      var log1 := Add(log, Data(OnUrl, init));
      UrlByte(q, log1, c);
      AddTwice(log, OnUrl, init, [c]);
      Then(p, log, init, q, log1, [c], q1, Add(log, Data(OnUrl, url)));
    }
  }

  lemma LastByte(s: string)
    requires s != []
    ensures s == AllButLast(s) + [Last(s)]
  {}

  lemma UrlByte(p: Parser, log: Log, c: char)
    requires p.errno == OK && p.state.Url? && p.nread < MAX_HEADER_SIZE && ParseUrlChar(UrlFrom(p), c).Some?
    ensures Goes(p, log, [c], p.(state := Url(ParseUrlChar(UrlFrom(p), c).value), nread := p.nread + 1),
                 Add(log, Data(OnUrl, [c])))
  {
    hide Goes, StepByte, Add, AddAll, ParseUrlChar, UrlFrom;
    UrlStep(p, c);
    OneByte(p, log, c, p.(state := Url(ParseUrlChar(UrlFrom(p), c).value), nread := p.nread + 1), [Data(OnUrl, [c])]);
    AddAllOne(log, Data(OnUrl, [c]));
  }

  /** The byte behind the URL: a version follows, or the line ends and the request is HTTP/0.9. */
  lemma UrlEndStep(p: Parser, c: char)
    requires p.state.Url? && p.nread < MAX_HEADER_SIZE && UrlEnds(p.state.url) && (c == ' ' || c == CR || c == LF)
    ensures
      var q := p.(nread := p.nread + 1);
      StepByte(p, c, false) ==
        Step(if c == ' ' then q.(state := Version(HttpStart))
             else q.(httpMajor := 0, httpMinor := 9,
                     state := if c == CR then Version(LineAlmostDone) else HeaderFieldStart), [], Advance)
  {
    hide StepByte, ActsFit, Rank, ParseUrlChar;
    var t := Switch(Count(p), c, 1, false);
    assert t == SwitchUrl(Count(p), c);
    Quiet(p, c, t);
  }

  // ---- the version -------------------------------------------------------

  lemma VersionByte(p: Parser, log: Log, c: char, q: Parser)
    requires p.state.Version? && p.nread < MAX_HEADER_SIZE && p.errno == OK
    requires SwitchRequestVersion(p.(nread := p.nread + 1), c) == Next(q, [])
    ensures Goes(p, log, [c], q, log)
  {
    hide StepByte, ActsFit, Rank, AddAll, Goes, SwitchRequestVersion;
    var t := Switch(Count(p), c, 1, false);
    assert t == SwitchRequestVersion(Count(p), c);
    VersionStays(p, c);
    Quiet(p, c, t);
    OneByte(p, log, c, q, []);
    AddAllNone(log);
  }

  lemma VersionStays(p: Parser, c: char)
    requires p.state.Version? && SwitchRequestVersion(p.(nread := p.nread + 1), c).ctl == Advance
    ensures
      var s := SwitchRequestVersion(p.(nread := p.nread + 1), c).p;
      LiveKind(s.state).None? && (p.errno == OK ==> s.errno == OK)
  {
    hide ActsFit, Rank;
  }

  /** After `HTTP`. */
  lemma LettersRun(p: Parser, log: Log)
    requires Good(p, 0) && p.state == Version(HttpStart) && p.nread + 4 <= MAX_HEADER_SIZE
    ensures Goes(p, log, "HTTP", p.(state := Version(HttpHTTP), nread := p.nread + 4), log)
  {
    hide Goes, Good, ActsFit, Rank;
    GoodIsOk(p);
    var q1 := p.(state := Version(HttpH), nread := p.nread + 1);
    var q2 := p.(state := Version(HttpHT), nread := p.nread + 2);
    var q3 := p.(state := Version(HttpHTT), nread := p.nread + 3);
    var q4 := p.(state := Version(HttpHTTP), nread := p.nread + 4);
    VersionByte(p, log, 'H', q1);
    VersionByte(q1, log, 'T', q2);
    VersionByte(q2, log, 'T', q3);
    VersionByte(q3, log, 'P', q4);
    Then(p, log, "H", q1, log, "T", q2, log);
    Then(p, log, "H" + "T", q2, log, "T", q3, log);
    Then(p, log, "H" + "T" + "T", q3, log, "P", q4, log);
    assert "H" + "T" + "T" + "P" == "HTTP";
  }

  /** Digits of a version: more of them than the first are accumulated, up to 999. */
  lemma {:induction false} VersionDigits(p: Parser, log: Log, ds: string, major: bool)
    requires Good(p, 0) && p.state == Version(if major then FirstMajor else FirstMinor)
    requires Decimal(ds) && Value(ds, 10) <= 999 && (major ==> ds[0] != '0') && p.nread + |ds| <= MAX_HEADER_SIZE
    ensures Goes(p, log, ds, AfterVersion(p, ds, major), log)
    decreases |ds|
  {
    hide Goes, Good, ActsFit, Rank, SwitchRequestVersion, Value;
    GoodIsOk(p);
    var c := Last(ds);
    assert c in ds && ds[0] in ds;
    if |ds| == 1 {
      assert ds == [c];
      FirstVersionDigit(p, c, major);
      VersionByte(p, log, c, AfterVersion(p, ds, major));
    } else {
      var init := AllButLast(ds);
      assert ds == init + [c] && init[0] == ds[0];
      assert Decimal(init) by { forall d | d in init ensures IsNum(d) { assert d in ds; } }
      LastDigit(ds, 10);
      VersionDigits(p, log, init, major);
      var q := AfterVersion(p, init, major);
      MoreVersionDigit(p, init, c, major);
      VersionByte(q, log, c, AfterVersion(p, ds, major));
      Then(p, log, init, q, log, [c], AfterVersion(p, ds, major), log);
    }
  }

  function AfterVersion(p: Parser, ds: string, major: bool): Parser {
    if major then p.(state := Version(Major), httpMajor := Value(ds, 10), nread := p.nread + |ds|)
    else p.(state := Version(Minor), httpMinor := Value(ds, 10), nread := p.nread + |ds|)
  }

  lemma FirstVersionDigit(p: Parser, c: char, major: bool)
    requires p.state == Version(if major then FirstMajor else FirstMinor) && IsNum(c) && (major ==> c != '0')
    ensures SwitchRequestVersion(p.(nread := p.nread + 1), c) == Next(AfterVersion(p, [c], major), [])
  {
    hide ActsFit, Rank;
    assert [c][..0] == [] && Value([], 10) == 0;
    assert Value([c], 10) == Digit(c);
  }

  lemma MoreVersionDigit(p: Parser, init: string, c: char, major: bool)
    requires IsNum(c) && Value(init + [c], 10) <= 999
    ensures
      var q := AfterVersion(p, init, major);
      SwitchRequestVersion(q.(nread := q.nread + 1), c) == Next(AfterVersion(p, init + [c], major), [])
  {
    hide ActsFit, Rank, Value;
    ValueMore(init, c);
  }

  lemma ValueMore(init: string, c: char)
    requires IsNum(c)
    ensures Value(init + [c], 10) == Value(init, 10) * 10 + Digit(c)
  {
    var ds := init + [c];
    assert ds[..|ds| - 1] == init && ds[|ds| - 1] == c;
  }

  /** What may stand behind the URL: blanks, `HTTP/`, and two numbers. */
  datatype VersionText = VersionText(gap: string, major: string, minor: string)

  predicate VersionOk(v: VersionText) {
    && Blanks(v.gap) && Decimal(v.major) && v.major[0] != '0' && Value(v.major, 10) <= 999
    && Decimal(v.minor) && Value(v.minor, 10) <= 999
  }

  function WriteVersion(v: VersionText): string { v.gap + "HTTP" + "/" + v.major + "." + v.minor }

  lemma VersionRun(p: Parser, log: Log, v: VersionText)
    requires Good(p, 0) && p.state == Version(HttpStart) && VersionOk(v)
      && p.nread + |WriteVersion(v)| <= MAX_HEADER_SIZE
    ensures
      Goes(p, log, WriteVersion(v),
           p.(state := Version(Minor), httpMajor := Value(v.major, 10), httpMinor := Value(v.minor, 10),
              nread := p.nread + |WriteVersion(v)|), log)
  {
    hide Goes, Good, Value, Decimal, AfterVersion, R, Blanks;
    GoodIsOk(p);
    var front := v.gap + "HTTP" + "/";
    var q3 := p.(state := Version(FirstMajor), nread := p.nread + |v.gap| + 5);
    ProtocolRun(p, log, v.gap);
    VersionDigits(q3, log, v.major, true);
    var q4 := AfterVersion(q3, v.major, true);
    Then(p, log, front, q3, log, v.major, q4, log);
    Compose(p, log, front + v.major, q4, log, []);
    DotRun(q3, log, v.major);
    var q5 := q3.(state := Version(FirstMinor), httpMajor := Value(v.major, 10), nread := q3.nread + |v.major| + 1);
    Then(p, log, front + v.major, q4, log, ".", q5, log);
    Compose(p, log, front + v.major + ".", q5, log, []);
    VersionDigits(q5, log, v.minor, false);
    var q6 := AfterVersion(q5, v.minor, false);
    Then(p, log, front + v.major + ".", q5, log, v.minor, q6, log);
    AfterMinor(q5, v.minor);
  }

  lemma AfterMinor(p: Parser, ds: string)
    ensures AfterVersion(p, ds, false) == p.(state := Version(Minor), httpMinor := Value(ds, 10),
        nread := p.nread + |ds|)
  {
    hide Value;
  }

  /** Blanks and `HTTP/`. */
  lemma ProtocolRun(p: Parser, log: Log, gap: string)
    requires Good(p, 0) && p.state == Version(HttpStart) && Blanks(gap) && p.nread + |gap| + 5 <= MAX_HEADER_SIZE
    ensures
      var q := p.(state := Version(FirstMajor), nread := p.nread + |gap| + 5);
      Goes(p, log, gap + "HTTP" + "/", q, log) && Good(q, 0)
  {
    hide Goes, Good, SwitchRequestVersion, R, Blanks;
    GoodIsOk(p);
    GapRun(p, log, gap);
    var q1 := p.(nread := p.nread + |gap|);
    Compose(p, log, gap, q1, log, []);
    LettersRun(q1, log);
    var q2 := q1.(state := Version(HttpHTTP), nread := q1.nread + 4);
    Then(p, log, gap, q1, log, "HTTP", q2, log);
    SlashStep(q2);
    var q3 := q2.(state := Version(FirstMajor), nread := q2.nread + 1);
    VersionByte(q2, log, '/', q3);
    Then(p, log, gap + "HTTP", q2, log, "/", q3, log);
    Compose(p, log, gap + "HTTP" + "/", q3, log, []);
  }

  lemma DotRun(p: Parser, log: Log, ds: string)
    requires p.errno == OK && p.nread + |ds| < MAX_HEADER_SIZE
    ensures Goes(AfterVersion(p, ds, true), log, ".",
                 p.(state := Version(FirstMinor), httpMajor := Value(ds, 10), nread := p.nread + |ds| + 1), log)
  {
    hide Goes, Value, SwitchRequestVersion;
    var q := AfterVersion(p, ds, true);
    DotStep(q);
    VersionByte(q, log, '.', p.(state := Version(FirstMinor), httpMajor := Value(ds, 10), nread := p.nread + |ds| + 1));
  }

  lemma SlashStep(p: Parser)
    requires p.state == Version(HttpHTTP)
    ensures SwitchRequestVersion(p.(nread := p.nread + 1), '/') ==
      Next(p.(state := Version(FirstMajor), nread := p.nread + 1), [])
  {
    hide ActsFit, Rank;
  }

  lemma DotStep(p: Parser)
    requires p.state == Version(Major)
    ensures SwitchRequestVersion(p.(nread := p.nread + 1), '.') ==
      Next(p.(state := Version(FirstMinor), nread := p.nread + 1), [])
  {
    hide ActsFit, Rank;
  }

  lemma VersionEnds(p: Parser, log: Log, crlf: bool)
    requires Good(p, 0) && p.state == Version(Minor) && p.nread + |Eol(crlf)| <= MAX_HEADER_SIZE
    ensures Goes(p, log, Eol(crlf), p.(state := HeaderFieldStart, nread := p.nread + |Eol(crlf)|), log)
  {
    hide Goes, Good, ActsFit, Rank;
    GoodIsOk(p);
    if crlf {
      var q := p.(state := Version(LineAlmostDone), nread := p.nread + 1);
      VersionByte(p, log, CR, q);
      LineEnds(q, log);
      Then(p, log, [CR], q, log, [LF], p.(state := HeaderFieldStart, nread := p.nread + 2), log);
      assert [CR] + [LF] == Eol(true);
    } else {
      VersionByte(p, log, LF, p.(state := HeaderFieldStart, nread := p.nread + 1));
      assert [LF] == Eol(false);
    }
  }

  lemma LineEnds(p: Parser, log: Log)
    requires p.errno == OK && p.state == Version(LineAlmostDone) && p.nread < MAX_HEADER_SIZE
    ensures Goes(p, log, [LF], p.(state := HeaderFieldStart, nread := p.nread + 1), log)
  {
    hide Goes, ActsFit, Rank;
    VersionByte(p, log, LF, p.(state := HeaderFieldStart, nread := p.nread + 1));
  }

  // ---- whole request lines -----------------------------------------------

  /** A request line as written: line ends in front, method, blanks, URL, and a version or none. */
  datatype StartLine = StartLine(
    front: string, verb: Method, gap: string, url: string, version: Option<VersionText>, crlf: bool)

  predicate StartOk(s: StartLine) {
    && (forall c :: c in s.front ==> c == CR || c == LF) && s.verb != MSEARCH && Blanks(s.gap)
    && RequestUrl(s.verb, s.url) && (s.version.Some? ==> VersionOk(s.version.value))
  }

  function WriteTarget(s: StartLine): string { s.front + MethodName(s.verb) + " " + s.gap + s.url }

  function WriteRest(s: StartLine): string {
    match s.version
    case None => Eol(s.crlf)
    case Some(v) => " " + WriteVersion(v) + Eol(s.crlf)
  }

  function WriteStart(s: StartLine): string { WriteTarget(s) + WriteRest(s) }

  function StartLog(log: Log, s: StartLine): Log { Add(Add(log, MessageBegin), Data(OnUrl, s.url)) }

  /** The parser behind the URL. */
  function AtTarget(p: Parser, s: StartLine): Parser
    requires RequestUrl(s.verb, s.url)
  {
    p.(state := Url(UrlFold(UrlEntry(s.verb), s.url).value), verb := s.verb, index := |MethodName(s.verb)| + 1,
       nread := p.nread + |WriteTarget(s)|, flags := NO_FLAGS, contentLength := NO_LENGTH)
  }

  lemma TargetRun(p: Parser, log: Log, s: StartLine)
    requires Fresh(p) && StartOk(s) && p.nread + |WriteTarget(s)| <= MAX_HEADER_SIZE
    ensures Goes(p, log, WriteTarget(s), AtTarget(p, s), StartLog(log, s)) && Good(AtTarget(p, s), 0)
  {
    hide Good, Goes, StepByte, Add, AddAll, MethodFold, MethodName, UrlFold, VersionOk;
    var name := MethodName(s.verb);
    NamesNonEmpty(s.verb);
    LineEndsRun(p, log, s.front);
    var q0 := p.(nread := p.nread + |s.front|);
    MethodsExact(s.verb, name);
    MethodRun(q0, log, name);
    var q1, log1 := InMethod(q0, name), Add(log, MessageBegin);
    Then(p, log, s.front, q0, log, name, q1, log1);
    MethodEndStep(q1);
    var q2 := q1.(nread := q1.nread + 1, state := Url(SpacesBeforeUrl), index := |name| + 1);
    OneByte(q1, log1, ' ', q2, []);
    AddAllNone(log1);
    Then(p, log, s.front + name, q1, log1, " ", q2, log1);
    Compose(p, log, s.front + name + " ", q2, log1, []);
    GapRun(q2, log1, s.gap);
    var q3 := q2.(nread := q2.nread + |s.gap|);
    Then(p, log, s.front + name + " ", q2, log1, s.gap, q3, log1);
    Compose(p, log, s.front + name + " " + s.gap, q3, log1, []);
    UrlRun(q3, log1, s.url);
    Then(p, log, s.front + name + " " + s.gap, q3, log1, s.url, AtTarget(p, s), StartLog(log, s));
    Compose(p, log, WriteTarget(s), AtTarget(p, s), StartLog(log, s), []);
  }

  lemma NamesNonEmpty(m: Method)
    ensures MethodName(m) != []
  {}

  /** The parser behind a request line. */
  function AtLines(p: Parser, s: StartLine): Parser {
    p.(state := HeaderFieldStart, verb := s.verb, index := |MethodName(s.verb)| + 1,
       nread := p.nread + |WriteStart(s)|, flags := NO_FLAGS, contentLength := NO_LENGTH,
       httpMajor := if s.version.Some? then Value(s.version.value.major, 10) else 0,
       httpMinor := if s.version.Some? then Value(s.version.value.minor, 10) else 9)
  }

  lemma RestRun(t: Parser, log: Log, s: StartLine, q: Parser)
    requires Good(t, 0) && t.state.Url? && UrlEnds(t.state.url) && t.nread + |WriteRest(s)| <= MAX_HEADER_SIZE
    requires s.version.Some? ==> VersionOk(s.version.value)
    requires q == t.(state := HeaderFieldStart, nread := t.nread + |WriteRest(s)|,
                     httpMajor := if s.version.Some? then Value(s.version.value.major, 10) else 0,
                     httpMinor := if s.version.Some? then Value(s.version.value.minor, 10) else 9)
    ensures Goes(t, log, WriteRest(s), q, log)
  {
    hide Good, Goes, StepByte, AddAll, Value, VersionOk, WriteVersion;
    GoodIsOk(t);
    AddAllNone(log);
    match s.version {
      case Some(v) =>
        UrlEndStep(t, ' ');
        var q1 := t.(nread := t.nread + 1, state := Version(HttpStart));
        OneByte(t, log, ' ', q1, []);
        Compose(t, log, " ", q1, log, []);
        VersionRun(q1, log, v);
        var q2 := q1.(state := Version(Minor), httpMajor := Value(v.major, 10), httpMinor := Value(v.minor, 10),
                      nread := q1.nread + |WriteVersion(v)|);
        Then(t, log, " ", q1, log, WriteVersion(v), q2, log);
        Compose(t, log, " " + WriteVersion(v), q2, log, []);
        VersionEnds(q2, log, s.crlf);
        Then(t, log, " " + WriteVersion(v), q2, log, Eol(s.crlf), q, log);
      case None =>
        UrlEndStep(t, if s.crlf then CR else LF);
        if s.crlf {
          var q1 := t.(nread := t.nread + 1, state := Version(LineAlmostDone), httpMajor := 0, httpMinor := 9);
          OneByte(t, log, CR, q1, []);
          LineEnds(q1, log);
          Then(t, log, [CR], q1, log, [LF], q, log);
          assert [CR] + [LF] == Eol(true);
        } else {
          OneByte(t, log, LF, q, []);
          assert [LF] == Eol(false);
        }
    }
  }

  /** A request line, CONNECT and HTTP/0.9 included, delivers its URL once and leaves the parser
      at the first header line with method and version set. */
  lemma RequestLineRun(p: Parser, log: Log, s: StartLine)
    requires Fresh(p) && StartOk(s) && p.nread + |WriteStart(s)| <= MAX_HEADER_SIZE
    ensures Goes(p, log, WriteStart(s), AtLines(p, s), StartLog(log, s)) && AtLine(AtLines(p, s))
  {
    hide Good, Goes, Add, UrlFold, MethodName, Value, VersionOk, WriteTarget, WriteRest;
    TargetRun(p, log, s);
    RestRun(AtTarget(p, s), StartLog(log, s), s, AtLines(p, s));
    Then(p, log, WriteTarget(s), AtTarget(p, s), StartLog(log, s), WriteRest(s), AtLines(p, s), StartLog(log, s));
    Compose(p, log, WriteStart(s), AtLines(p, s), StartLog(log, s), []);
  }
}

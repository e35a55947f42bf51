/** The character classes of the parser as literal sets, and which header names it takes:
    a token by section 2.2 of RFC 2616 is read to its colon, any other character stops the parser. */
module HttpTokens {
  import opened Wrappers
  import opened HttpTypes
  import opened HttpSwitch
  import opened HttpRun
  import opened HttpInvariant
  import opened HttpSegments
  import opened HttpSteps
  import opened HttpNames
  import opened HttpValues
  import opened HttpLines

  lemma SeparatorsListed(c: char)
    ensures c in "()<>@,;:\\\"/[]?={}" <==>
      || c == '(' || c == ')' || c == '<' || c == '>' || c == '@' || c == ',' || c == ';' || c == ':' || c == '\\'
      || c == '\"' || c == '/' || c == '[' || c == ']' || c == '?' || c == '=' || c == '{' || c == '}'
  {
    assert "()<>@,;:\\\"/[]?={}" == "()<>@,;:" + "\\\"/[]?={}";
    assert c in "()<>@,;:" <==>
      c == '(' || c == ')' || c == '<' || c == '>' || c == '@' || c == ',' || c == ';' || c == ':';
    assert c in "\\\"/[]?={}" <==>
      c == '\\' || c == '\"' || c == '/' || c == '[' || c == ']' || c == '?' || c == '=' || c == '{' || c == '}';
  }

  /** The token table is the rule of RFC 2616: any visible character that is no separator. */
  lemma TokensExact(c: char)
    ensures IsToken(c) <==> 33 <= c as int <= 126 && c !in "()<>@,;:\\\"/[]?={}"
  {
    SeparatorsListed(c);
    var s := c in "()<>@,;:\\\"/[]?={}";
    assert 33 <= c as int <= 126 && !s ==> IsToken(c);
  }

  /** Folding to lower case: a letter stands for itself and its capital, '-' for itself and CR. */
  lemma LowerExact(c: char, d: char)
    ensures 'a' <= d <= 'z' ==> (Lower(c) == d <==> c == d || (c as int + 32 == d as int))
    ensures Lower(c) == '-' <==> c == '-' || c == CR
    ensures Lower(c) == ' ' <==> c == ' ' || c as int == 0
    ensures IsNum(d) ==> (Lower(c) == d <==> c == d || c as int + 32 == d as int)
  {}

  /** The digits of both bases: each counts its place in the list, in either case. */
  lemma DigitsListed(i: nat)
    requires i < 16
    ensures Unhex("0123456789abcdef"[i]) == Unhex("0123456789ABCDEF"[i]) == i
    ensures IsHex("0123456789abcdef"[i]) && IsHex("0123456789ABCDEF"[i])
    ensures i < 10 ==> IsNum("0123456789"[i]) && Digit("0123456789"[i]) == i
  {}

  lemma DigitClasses(c: char)
    ensures IsNum(c) <==> exists i :: 0 <= i < 10 && "0123456789"[i] == c
    ensures IsHex(c) <==> exists i :: 0 <= i < 22 && "0123456789abcdefABCDEF"[i] == c
    ensures Unhex(c) == -1 <==> !IsHex(c) && c as int < 128
  {
    if IsNum(c) { assert "0123456789"[c as int - 48] == c; assert "0123456789abcdefABCDEF"[c as int - 48] == c; }
    if 'a' <= c <= 'f' { assert "0123456789abcdefABCDEF"[c as int - 87] == c; }
    if 'A' <= c <= 'F' { assert "0123456789abcdefABCDEF"[c as int - 49] == c; }
  }

  /** The methods and their names, in the order of their numbers. */
  lemma MethodsListed()
    ensures MethodName(DELETE) == "DELETE" && MethodName(GET) == "GET" && MethodName(HEAD) == "HEAD"
    ensures MethodName(POST) == "POST" && MethodName(PUT) == "PUT" && MethodName(CONNECT) == "CONNECT"
    ensures MethodName(OPTIONS) == "OPTIONS" && MethodName(TRACE) == "TRACE" && MethodName(COPY) == "COPY"
    ensures MethodName(LOCK) == "LOCK" && MethodName(MKCOL) == "MKCOL" && MethodName(MOVE) == "MOVE"
    ensures MethodName(PROPFIND) == "PROPFIND" && MethodName(PROPPATCH) == "PROPPATCH" && MethodName(SEARCH) == "SEARCH"
    ensures MethodName(UNLOCK) == "UNLOCK" && MethodName(REPORT) == "REPORT" && MethodName(MKACTIVITY) == "MKACTIVITY"
    ensures MethodName(CHECKOUT) == "CHECKOUT" && MethodName(MERGE) == "MERGE" && MethodName(MSEARCH) == "M - SEARCH"
    ensures MethodName(NOTIFY) == "NOTIFY" && MethodName(SUBSCRIBE) == "SUBSCRIBE"
    ensures MethodName(UNSUBSCRIBE) == "UNSUBSCRIBE"
    ensures MethodName(PATCH) == "PATCH" && MethodName(PURGE) == "PURGE"
  {}

  const FRAMING_NAMES: set<string> :=
    {"content-length", "transfer-encoding", "upgrade", "connection", "proxy-connection"}

  /** The names the framing depends on, in any mixture of cases, are header names: all that spell
      one are, but for the spellings with CR in the place of '-'. */
  lemma FramingNamesAreNames(name: string)
    requires Lowered(name) in FRAMING_NAMES
    ensures IsName(name) <==> CR !in name
  {
    hide Lower, IsToken;
    var w := Lowered(name);
    WordsAreLower(w);
    forall i | 0 <= i < |name| ensures IsToken(name[i]) <==> name[i] != CR {
      assert 'a' <= w[i] <= 'z' || w[i] == '-';
      SpelledCharacter(name[i]);
    }
    if CR !in name {
      forall c | c in name ensures IsToken(c) {
        var i :| 0 <= i < |name| && name[i] == c;
      }
    } else {
      var i :| 0 <= i < |name| && name[i] == CR;
    }
  }

  lemma SpelledCharacter(c: char)
    requires 'a' <= Lower(c) <= 'z' || Lower(c) == '-'
    ensures IsToken(c) <==> c != CR
  {}

  lemma WordsAreLower(w: string)
    requires w in FRAMING_NAMES
    ensures w != [] && forall i :: 0 <= i < |w| ==> 'a' <= w[i] <= 'z' || w[i] == '-'
  {}

  /** The matcher alone would take CR for '-'; such a line never gets that far. */
  lemma CrSpelling()
    ensures Lowered("content\rlength") == "content-length" && !IsName("content\rlength")
  {
    var name := "content\rlength";
    assert name[7] == CR && name[7] in name;
  }

  // ---- names that are not tokens -----------------------------------------

  ghost predicate Rejected(p: Parser, log: Log, s: string, at: nat, log': Log, e: Errno) {
    var r := R(p, log, s);
    r.p.errno == e && r.count == at && r.log == log' && !r.halted
  }

  predicate Tokens(s: string) { forall c :: c in s ==> IsToken(c) }

  /** A character that is no token ends a header name with an error, wherever it stands; only the
      colon and the line end may follow a name, and only the empty line may stand without one. */
  lemma BadNameStops(p: Parser, log: Log, name: string, c: char, rest: string)
    requires AtLine(p) && Tokens(name) && p.nread + |name| < MAX_HEADER_SIZE
    requires !IsToken(c) && c != CR && c != LF && (name != [] ==> c != ':')
    requires name == [] && p.state == HeaderValueLws ==> !Blank(c)
    ensures Rejected(p, log, name + [c] + rest, |name|,
        if name == [] then log else Add(log, Data(OnHeaderField, name)), InvalidHeaderToken)
  {
    hide Good, R, Add, IsToken, NameFold;
    var s := p.(state := HeaderFieldStart);
    var all := name + [c] + rest;
    assert all[0] == if name == [] then c else name[0];
    if name != [] { assert name[0] in name; TokenNotBlank(name[0]); }
    SameAtStart(p, log, all);
    AtLineOk(s);
    assert name + [c] + rest == name + ([c] + rest);
    if name == [] {
      assert name + [c] + rest == [c] + rest;
      BadCharacter(s, log, c, rest);
    } else {
      NameRun(s, log, name);
      var q, log1 := InName(s, name), Add(log, Data(OnHeaderField, name));
      Compose(s, log, name, q, log1, [c] + rest);
      BadCharacter(q, log1, c, rest);
    }
  }

  lemma TokenNotBlank(c: char)
    requires IsToken(c)
    ensures !Blank(c)
  {}

  lemma SameAtStart(p: Parser, log: Log, s: string)
    requires AtLine(p) && s != [] && (p.state == HeaderValueLws ==> !Blank(s[0])) && p.nread < MAX_HEADER_SIZE
    ensures AtLine(p.(state := HeaderFieldStart))
    ensures R(p, log, s) == R(p.(state := HeaderFieldStart), log, s)
  {
    hide R;
    if p.state == HeaderValueLws { LwsRun(p, log, s); }
    assert p.state == HeaderFieldStart ==> p == p.(state := HeaderFieldStart);
  }

  lemma BadCharacter(p: Parser, log: Log, c: char, rest: string)
    requires Good(p, 0) && p.nread < MAX_HEADER_SIZE && !IsToken(c) && c != CR && c != LF
    requires p.state == HeaderFieldStart || (p.state == HeaderField && c != ':')
    ensures Rejected(p, log, [c] + rest, 0, log, InvalidHeaderToken)
  {
    hide *;
    BadCharacterStep(p, c);
    Stops(p, log, c, rest);
    RejectedHere(p, log, [c] + rest, p.(nread := p.nread + 1, errno := InvalidHeaderToken));
  }

  /** A byte that fails ends the run in front of itself. */
  lemma Stops(p: Parser, log: Log, c: char, rest: string)
    requires StepByte(p, c, false).ctl == Error
    ensures R(p, log, [c] + rest) == Run(StepByte(p, c, false).p, log, 0, false)
  {
    hide StepByte;
    var s := [c] + rest;
    assert s[0] == c;
    assert R(p, log, s) == Continue(StepByte(p, c, false), log, s, 0, false);
  }

  lemma RejectedHere(p: Parser, log: Log, s: string, q: Parser)
    requires R(p, log, s) == Run(q, log, 0, false)
    ensures Rejected(p, log, s, 0, log, q.errno)
  {
    hide R;
  }

  lemma BadCharacterStep(p: Parser, c: char)
    requires p.nread < MAX_HEADER_SIZE && !IsToken(c) && c != CR && c != LF
    requires p.state == HeaderFieldStart || (p.state == HeaderField && c != ':')
    ensures StepByte(p, c, false) == Step(p.(nread := p.nread + 1, errno := InvalidHeaderToken), [], Error)
  {
    hide StepByte, ActsFit, Rank, FieldChar, IsToken;
    var t := Switch(Count(p), c, 1, false);
    assert t == SwitchField(Count(p), c);
    StepFails(p, c, t);
  }

  /** How far a text consists of tokens. */
  function TokenPrefix(s: string): (k: nat)
    ensures k <= |s| && Tokens(s[..k]) && (k < |s| ==> !IsToken(s[k]))
  {
    if s == [] || !IsToken(s[0]) then 0
    else
      var k := TokenPrefix(s[1..]);
      assert s[..k + 1] == [s[0]] + s[1..][..k];
      k + 1
  }

  /** Exactly the tokens are accepted as header names: the text up to the colon of a line is
      delivered when all of it is token characters, and refused at the first that is not. */
  lemma NameAcceptedExactly(p: Parser, log: Log, name: string)
    requires AtLine(p) && name != [] && p.nread + |name| < MAX_HEADER_SIZE
    requires ':' !in name && CR !in name && LF !in name && (p.state == HeaderValueLws ==> !Blank(name[0]))
    ensures
      var r := R(p, log, name + ":");
      if forall c :: c in name ==> 33 <= c as int <= 126 && c !in "()<>@,;:\\\"/[]?={}" then
        r.p.errno == OK && r.count == |name| + 1 && r.log == Add(log, Data(OnHeaderField, name))
      else r.p.errno == InvalidHeaderToken && r.count < |name| && name[r.count] in name && !IsToken(name[r.count])
  {
    forall c ensures IsToken(c) <==> 33 <= c as int <= 126 && c !in "()<>@,;:\\\"/[]?={}" { TokensExact(c); }
    hide Good, R, Add, IsToken, NameFold;
    var k := TokenPrefix(name);
    if k == |name| {
      assert name[..k] == name;
      var s := p.(state := HeaderFieldStart);
      assert name[0] in name && (name + ":")[0] == name[0];
      SameAtStart(p, log, name + ":");
      NamePart(s, log, HeaderLine(name, [], [], false));
      assert name + ":" + [] == name + ":";
    } else {
      assert name[k] in name;
      assert name + ":" == name[..k] + [name[k]] + (name[k + 1..] + ":");
      assert k == 0 ==> name[k] == name[0];
      BadNameStops(p, log, name[..k], name[k], name[k + 1..] + ":");
    }
  }

  // ---- the other forms of a header line ----------------------------------

  /** A name and a line end without a colon: the name is delivered, no value is, and the framing
      stays as it is. */
  lemma NameOnlyLine(p: Parser, log: Log, name: string, crlf: bool)
    requires AtLine(p) && IsName(name) && p.nread + |name| + |Eol(crlf)| <= MAX_HEADER_SIZE
    ensures
      var q := R(p, log, name + Eol(crlf)).p;
      && Goes(p, log, name + Eol(crlf), q, Add(log, Data(OnHeaderField, name))) && AtLine(q)
      && FramingOf(q) == FramingOf(p) && SameMessage(p, q) && q.nread == p.nread + |name| + |Eol(crlf)|
  {
    hide Good, R, Add, IsToken, NameFold, Goes, AddAll, StepByte;
    var s := p.(state := HeaderFieldStart);
    assert name[0] in name && (name + Eol(crlf))[0] == name[0];
    TokenNotBlank(name[0]);
    SameAtStart(p, log, name + Eol(crlf));
    AtLineOk(s);
    NameRun(s, log, name);
    NameFoldNamed(name);
    var q, log1 := InName(s, name), Add(log, Data(OnHeaderField, name));
    Compose(s, log, name, q, log1, Eol(crlf));
    NameEnd(q, log1, crlf);
    var r := q.(state := if crlf then HeaderValueLws else HeaderFieldStart, nread := q.nread + |Eol(crlf)|);
    Then(s, log, name, q, log1, Eol(crlf), r, log1);
    Compose(s, log, name + Eol(crlf), r, log1, []);
    GoesEnd(s, log, name + Eol(crlf), r, log1);
    SameRun(p, s, log, name + Eol(crlf), r, log1);
  }

  lemma NameEnd(q: Parser, log: Log, crlf: bool)
    requires Good(q, 0) && q.state == HeaderField && NameState(q.headerState)
    requires q.nread + |Eol(crlf)| <= MAX_HEADER_SIZE
    ensures
      var r := q.(state := if crlf then HeaderValueLws else HeaderFieldStart, nread := q.nread + |Eol(crlf)|);
      Goes(q, log, Eol(crlf), r, log)
  {
    hide Good, R, Goes, AddAll, StepByte, NameState;
    GoodIsOk(q);
    AddAllNone(log);
    NameEndStep(q, if crlf then CR else LF);
    if crlf {
      var q1 := q.(state := HeaderAlmostDone, nread := q.nread + 1);
      OneByte(q, log, CR, q1, []);
      LineEndStep(q1);
      NameFlags(q1);
      var r := q1.(state := HeaderValueLws, nread := q1.nread + 1);
      OneByte(q1, log, LF, r, []);
      Then(q, log, [CR], q1, log, [LF], r, log);
      assert [CR] + [LF] == Eol(true);
    } else {
      OneByte(q, log, LF, q.(state := HeaderFieldStart, nread := q.nread + 1), []);
      assert [LF] == Eol(false);
    }
  }

  lemma NameFlags(p: Parser)
    requires NameState(p.headerState)
    ensures LineFlags(p) == p.flags
  {}

  lemma NameEndStep(p: Parser, c: char)
    requires p.state == HeaderField && p.nread < MAX_HEADER_SIZE && (c == CR || c == LF)
    ensures StepByte(p, c, false) ==
      Step(p.(nread := p.nread + 1, state := if c == CR then HeaderAlmostDone else HeaderFieldStart), [], Advance)
  {
    hide StepByte, ActsFit, Rank, FieldChar;
    var t := Switch(Count(p), c, 1, false);
    assert t == SwitchField(Count(p), c);
    Quiet(p, c, t);
  }

  /** A line that begins with a blank continues the value before it: its text is delivered behind
      that value, and it acts on the framing by the header state the line before it has left. */
  lemma ContinuationLine(p: Parser, log: Log, blank: char, pad: string, value: string, crlf: bool)
    requires AtLine(p) && p.state == HeaderValueLws && Blank(blank) && IsPad(pad) && (value == [] || IsValue(value))
    requires p.nread + 1 + |pad| + |value| + |Eol(crlf)| <= MAX_HEADER_SIZE
    ensures
      var s := [blank] + pad + (value + Eol(crlf));
      var q := R(p, log, s).p;
      match AppliedBy(FramingOf(p), p.headerState, value)
      case None => q.errno != OK
      case Some(f) =>
        && Goes(p, log, s, q, Add(log, Data(OnHeaderValue, value))) && AtLine(q)
        && FramingOf(q) == f && SameMessage(p, q) && q.nread == p.nread + |s|
  {
    hide Good, R, Add, Goes, AddAll, StepByte, ValueFold, AppliedBy, BehindLine, Eol, IsPad, IsValue;
    AtLineOk(p);
    AddAllNone(log);
    ContinuationStep(p, blank);
    var u := p.(nread := p.nread + 1, state := HeaderValueStart);
    OneByte(p, log, blank, u, []);
    Compose(p, log, [blank], u, log, []);
    PadRun(u, log, pad);
    var v := u.(nread := u.nread + |pad|);
    Then(p, log, [blank], u, log, pad, v, log);
    var rest := value + Eol(crlf);
    Compose(p, log, [blank] + pad, v, log, rest);
    BehindLineSays(v, value, crlf);
    ValuePart(v, log, value, crlf);
    if value == [] || ValueFold(v, value).Some? {
      var q, log1 := BehindLine(v, value, crlf), Add(log, Data(OnHeaderValue, value));
      Then(p, log, [blank] + pad, v, log, rest, q, log1);
      Compose(p, log, [blank] + pad + rest, q, log1, []);
      GoesEnd(p, log, [blank] + pad + rest, q, log1);
    }
  }

  lemma ContinuationStep(p: Parser, c: char)
    requires p.state == HeaderValueLws && Blank(c) && p.nread < MAX_HEADER_SIZE
    ensures StepByte(p, c, false) == Step(p.(nread := p.nread + 1, state := HeaderValueStart), [], Advance)
  {
    hide StepByte, ActsFit, Rank, FirstValueChar, ValueChar;
    var t := Switch(Count(p), c, 1, false);
    assert t == SwitchValue(Count(p), c);
    Quiet(p, c, t);
  }
}

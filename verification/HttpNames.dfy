/** Which header names and values the character-by-character matchers recognise. */
module HttpNames {
  import opened Wrappers
  import opened HttpTypes
  import opened HttpSwitch
  import opened HttpRun
  import opened HttpInvariant
  import opened HttpSegments
  import opened HttpSteps

  function Lowered(s: string): (r: string)
    ensures |r| == |s| && forall i :: 0 <= i < |s| ==> r[i] == Lower(s[i])
  {
    seq(|s|, i requires 0 <= i < |s| => Lower(s[i]))
  }

  predicate IsName(s: string) { s != [] && forall c :: c in s ==> IsToken(c) }

  function AllButLast(s: string): string
    requires s != []
  {
    s[..|s| - 1]
  }

  function Last(s: string): char
    requires s != []
  {
    s[|s| - 1]
  }

  /** Header state and index after the characters of a header name. */
  function NameFold(name: string): Option<(HeaderState, nat)>
    requires name != []
  {
    if |name| == 1 then Some((FirstHeaderState(Lower(name[0])), 0))
    else match NameFold(AllButLast(name))
      case None => None
      case Some(hi) => FieldChar(hi.0, hi.1, Lower(Last(name)))
  }

  lemma {:induction false} NameFoldNamed(name: string)
    requires name != []
    ensures NameFold(name).Some? && NameState(NameFold(name).value.0) && NameFold(name).value.1 < 256
  {
    hide FieldChar;
    if |name| == 1 {
    } else {
      NameFoldNamed(AllButLast(name));
      var hi := NameFold(AllButLast(name)).value;
      FieldCharStaysNamed(hi.0, hi.1, Lower(Last(name)));
    }
  }

  /** The parser inside a header name. */
  function InName(p: Parser, name: string): Parser
    requires name != [] && NameFold(name).Some?
  {
    var hi := NameFold(name).value;
    p.(state := HeaderField, headerState := hi.0, index := hi.1, nread := p.nread + |name|)
  }

  /** Reading a header name delivers it to on_header_field and folds the matcher over it. */
  lemma {:induction false} NameRun(p: Parser, log: Log, name: string)
    requires Good(p, 0) && p.state == HeaderFieldStart && IsName(name)
    requires p.nread + |name| <= MAX_HEADER_SIZE
    ensures NameFold(name).Some?
    ensures Goes(p, log, name, InName(p, name), Add(log, Data(OnHeaderField, name)))
    decreases |name|
  {
    hide Goes, Good, FieldChar, StepByte, Add, AddAll;
    NameFoldNamed(name);
    GoodIsOk(p);
    var c := Last(name);
    assert c in name;
    if |name| == 1 {
      assert name == [c];
      FieldStartStep(p, c);
      OneByte(p, log, c, InName(p, name), [Data(OnHeaderField, [c])]);
      AddAllOne(log, Data(OnHeaderField, [c]));
    } else {
      var init := AllButLast(name);
      assert name == init + [c];
      assert IsName(init) by { forall d | d in init ensures IsToken(d) { assert d in name; } }
      NameRun(p, log, init);
      NameFoldNamed(init);
      var q := InName(p, init);
      var log1 := Add(log, Data(OnHeaderField, init));
      FieldStep(q, c);
      OneByte(q, log1, c, InName(p, name), [Data(OnHeaderField, [c])]);
      AddAllOne(log1, Data(OnHeaderField, [c]));
      AddTwice(log, OnHeaderField, init, [c]);
      Then(p, log, init, q, log1, [c], InName(p, name), Add(log, Data(OnHeaderField, name)));
    }
  }

  // ---- recognised names --------------------------------------------------

  ghost predicate MatcherFor(w: string, matching: HeaderState, matched: HeaderState) {
    |w| >= 1 &&
    forall i: nat, c :: FieldChar(matching, i, c) == Some(MatchWord(w, matching, matched, i, c))
  }

  /** A matcher started on a prefix of its word stays on it to the end. */
  lemma {:induction false} NameMatch(name: string, w: string, from: nat, matching: HeaderState,
                                     matched: HeaderState, k: nat)
    requires Lowered(name) == w && MatcherFor(w, matching, matched) && |w| < 256
    requires 1 <= from < |w| && from <= k <= |w|
    requires NameFold(name[..from]) == Some((matching, from - 1))
    ensures NameFold(name[..k]) == Some((if k == |w| then matched else matching, k - 1))
    decreases k
  {
    hide FieldChar, NameState, NameFold;
    if k > from {
      NameMatch(name, w, from, matching, matched, k - 1);
      NameFoldNext(name, k);
      assert Lower(name[k - 1]) == w[k - 1];
      assert FieldChar(matching, k - 2, w[k - 1]) == Some(MatchWord(w, matching, matched, k - 2, w[k - 1]));
    }
  }

  lemma NameFoldNext(name: string, k: nat)
    requires 2 <= k <= |name| && NameFold(name[..k - 1]).Some?
    ensures
      var hi := NameFold(name[..k - 1]).value;
      NameFold(name[..k]) == FieldChar(hi.0, hi.1, Lower(name[k - 1]))
  {
    hide FieldChar, Lower;
    assert AllButLast(name[..k]) == name[..k - 1] && Last(name[..k]) == name[k - 1];
  }

  /** What the matcher knows about the (lower-cased) name it has read. */
  ghost predicate Spells(h: HeaderState, i: nat, l: string) {
    match h
    case C => l == "c" && i == 0
    case Co => l == "co" && i == 1
    case Con => l == "con" && i == 2
    case MatchingConnection => i + 1 == |l| && l < "connection"
    case MatchingProxyConnection => i + 1 == |l| && l < "proxy-connection"
    case MatchingContentLength => i + 1 == |l| && l < "content-length"
    case MatchingTransferEncoding => i + 1 == |l| && l < "transfer-encoding"
    case MatchingUpgrade => i + 1 == |l| && l < "upgrade"
    case Connection => l == "connection" || l == "proxy-connection"
    case ContentLength => l == "content-length"
    case TransferEncoding => l == "transfer-encoding"
    case Upgrade => l == "upgrade"
    case _ => true
  }

  lemma MatchWordSpells(w: string, matching: HeaderState, matched: HeaderState, i: nat, l: string, c: char)
    requires 2 <= |w| < 256 && i + 1 == |l| && l < w && General != matching && General != matched && matching != matched
    ensures
      var (h, j) := MatchWord(w, matching, matched, i, c);
      && (h == matched ==> l + [c] == w)
      && (h == matching ==> j + 1 == |l + [c]| && l + [c] < w)
  {
    var j := Bump(i);
    assert j == i + 1 == |l|;
    if c == w[j] {
      assert l + [c] == w[..j + 1];
      if j == |w| - 1 { assert w[..j + 1] == w; }
    }
  }

  lemma SpellsStep(h: HeaderState, i: nat, l: string, c: char)
    requires NameState(h) && Spells(h, i, l) && l != [] && FieldChar(h, i, c).Some?
    ensures var hi := FieldChar(h, i, c).value; Spells(hi.0, hi.1, l + [c])
  {
    match h {
      case MatchingConnection => hide MatchWord; MatchWordSpells("connection", h, Connection, i, l, c);
      case MatchingProxyConnection => hide MatchWord; MatchWordSpells("proxy-connection", h, Connection, i, l, c);
      case MatchingContentLength => hide MatchWord; MatchWordSpells("content-length", h, ContentLength, i, l, c);
      case MatchingTransferEncoding => hide MatchWord; MatchWordSpells("transfer-encoding", h, TransferEncoding, i,
          l, c);
      case MatchingUpgrade => hide MatchWord; MatchWordSpells("upgrade", h, Upgrade, i, l, c);
      case C => ShortSpells(h, i, l, c);
      case Co => ShortSpells(h, i, l, c);
      case Con => ShortSpells(h, i, l, c);
      case _ =>
    }
  }

  lemma ShortSpells(h: HeaderState, i: nat, l: string, c: char)
    requires (h == C || h == Co || h == Con) && Spells(h, i, l)
    ensures var hi := FieldChar(h, i, c).value; Spells(hi.0, hi.1, l + [c])
  {
    hide MatchWord;
    if h == C && c == 'o' { assert l + [c] == "co"; }
    if h == Co && c == 'n' { assert l + [c] == "con"; }
    if h == Con && c == 'n' { assert l + [c] == "conn"; }
    if h == Con && c == 't' { assert l + [c] == "cont"; }
  }

  lemma FirstSpells(c: char)
    ensures Spells(FirstHeaderState(c), 0, [c])
  {}

  lemma {:induction false} NameFoldSpells(name: string)
    requires name != []
    ensures NameFold(name).Some?
    ensures Spells(NameFold(name).value.0, NameFold(name).value.1, Lowered(name))
  {
    hide Spells, FieldChar, NameState;
    NameFoldNamed(name);
    if |name| == 1 {
      assert Lowered(name) == [Lower(name[0])];
      FirstSpells(Lower(name[0]));
    } else {
      NameFoldNamed(AllButLast(name));
      NameFoldSpells(AllButLast(name));
      var hi := NameFold(AllButLast(name)).value;
      var c := Lower(Last(name));
      SpellsStep(hi.0, hi.1, Lowered(AllButLast(name)), c);
      assert Lowered(name) == Lowered(AllButLast(name)) + [c];
    }
  }

  /** A header name is taken for Content-Length, Transfer-Encoding, Upgrade or Connection
      exactly when it spells that name, in any mixture of cases. */
  lemma HeaderNamesExact(name: string)
    requires name != []
    ensures NameFold(name).Some?
    ensures NameFold(name).value.0 == ContentLength <==> Lowered(name) == "content-length"
    ensures NameFold(name).value.0 == TransferEncoding <==> Lowered(name) == "transfer-encoding"
    ensures NameFold(name).value.0 == Upgrade <==> Lowered(name) == "upgrade"
    ensures NameFold(name).value.0 == Connection
       <==> Lowered(name) == "connection" || Lowered(name) == "proxy-connection"
  {
    hide FieldChar, NameFold, MatchWord;
    NameFoldSpells(name);
    if Lowered(name) == "content-length" { ContentLengthName(name); }
    if Lowered(name) == "transfer-encoding" { TransferEncodingName(name); }
    if Lowered(name) == "upgrade" { UpgradeName(name); }
    if Lowered(name) == "connection" { ConnectionName(name); }
    if Lowered(name) == "proxy-connection" { ProxyConnectionName(name); }
  }

  lemma ContentLengthName(name: string)
    requires Lowered(name) == "content-length"
    ensures NameFold(name) == Some((ContentLength, 13))
  {
    ConFold(name, 't', MatchingContentLength);
    NameMatch(name, "content-length", 4, MatchingContentLength, ContentLength, 14);
    assert name[..14] == name;
  }

  lemma ConnectionName(name: string)
    requires Lowered(name) == "connection"
    ensures NameFold(name) == Some((Connection, 9))
  {
    ConFold(name, 'n', MatchingConnection);
    NameMatch(name, "connection", 4, MatchingConnection, Connection, 10);
    assert name[..10] == name;
  }

  lemma ConFold(name: string, fourth: char, h: HeaderState)
    requires |name| >= 4 && Lower(name[0]) == 'c' && Lower(name[1]) == 'o' && Lower(name[2]) == 'n'
    requires Lower(name[3]) == fourth
    requires (fourth == 't' && h == MatchingContentLength) || (fourth == 'n' && h == MatchingConnection)
    ensures NameFold(name[..4]) == Some((h, 3))
  {
    hide MatchWord;
    assert NameFold(name[..1]) == Some((C, 0));
    assert AllButLast(name[..2]) == name[..1];
    assert NameFold(name[..2]) == Some((Co, 1));
    assert AllButLast(name[..3]) == name[..2];
    assert NameFold(name[..3]) == Some((Con, 2));
    assert AllButLast(name[..4]) == name[..3];
  }

  lemma FirstFold(name: string)
    requires name != []
    ensures NameFold(name[..1]) == Some((FirstHeaderState(Lower(name[0])), 0))
  {}

  lemma TransferEncodingName(name: string)
    requires Lowered(name) == "transfer-encoding"
    ensures NameFold(name) == Some((TransferEncoding, 16))
  {
    FirstFold(name);
    assert Lower(name[0]) == 't';
    NameMatch(name, "transfer-encoding", 1, MatchingTransferEncoding, TransferEncoding, 17);
    assert name[..17] == name;
  }

  lemma UpgradeName(name: string)
    requires Lowered(name) == "upgrade"
    ensures NameFold(name) == Some((Upgrade, 6))
  {
    FirstFold(name);
    assert Lower(name[0]) == 'u';
    NameMatch(name, "upgrade", 1, MatchingUpgrade, Upgrade, 7);
    assert name[..7] == name;
  }

  lemma ProxyConnectionName(name: string)
    requires Lowered(name) == "proxy-connection"
    ensures NameFold(name) == Some((Connection, 15))
  {
    FirstFold(name);
    assert Lower(name[0]) == 'p';
    NameMatch(name, "proxy-connection", 1, MatchingProxyConnection, Connection, 16);
    assert name[..16] == name;
  }
}

/** The authorities http_parse_host accepts, as a grammar: userinfo, a host that is a name or a
    bracketed address, and a port. */
module HostGrammar {
  import opened Wrappers
  import opened HttpTypes
  import opened UrlSplit
  import opened HttpNames
  import opened UrlGrammar

  predicate HostChar(c: char) { LetterOrDigit(c) || c == '.' || c == '-' }
  predicate AddressChar(c: char) { c in "0123456789" || c in "abcdef" || c in "ABCDEF" || c == ':' || c == '.' }
  predicate DigitChar(c: char) { c in "0123456789" }

  lemma HostClassesExact(c: char)
    ensures IsHostChar(c) <==> HostChar(c)
    ensures IsHex(c) || c == ':' || c == '.' <==> AddressChar(c)
    ensures IsNum(c) <==> DigitChar(c)
    ensures IsUserinfoChar(c) <==> UserinfoChar(c)
    ensures HostChar(c) ==> c != '[' && c != ']' && c != ':' && c != '@'
    ensures AddressChar(c) ==> c != '[' && c != ']' && c != '@'
    ensures UserinfoChar(c) ==> c != '@'
  {
    ClassesExact(c);
    DigitsInText(c);
    assert c in "abcdef" <==> c == 'a' || c == 'b' || c == 'c' || c == 'd' || c == 'e' || c == 'f';
    assert c in "ABCDEF" <==> c == 'A' || c == 'B' || c == 'C' || c == 'D' || c == 'E' || c == 'F';
  }

  /** An authority up to some point: userinfo and its '@', an opening bracket, the host, a closing
      bracket, and what stands behind the colon. */
  datatype HostText = HostText(
    userinfo: string, at: bool, open: bool, host: string, close: bool, port: Option<string>)

  function If(b: bool, c: char): string { if b then [c] else [] }

  function WriteHost(h: HostText): string {
    h.userinfo + If(h.at, '@') + If(h.open, '[') + h.host + If(h.close, ']') + Behind(':', h.port)
  }

  predicate AllUserinfo(s: string) { forall c :: c in s ==> UserinfoChar(c) }
  predicate AllHost(s: string) { forall c :: c in s ==> HostChar(c) }
  predicate AllAddress(s: string) { forall c :: c in s ==> AddressChar(c) }
  predicate AllDigits(s: string) { forall c :: c in s ==> DigitChar(c) }

  /** Without an '@' in the authority there is no userinfo, with one nothing else comes before it. */
  predicate IsAuthority(foundAt: bool, h: HostText) {
    && AllUserinfo(h.userinfo) && (h.port.Some? ==> AllDigits(h.port.value))
    && (if h.open then AllAddress(h.host) else AllHost(h.host))
    && (!foundAt ==> h.userinfo == [] && !h.at)
    && (foundAt && (h.open || h.host != []) ==> h.at)
    && (h.close ==> h.open && h.host != [])
    && (h.port.Some? ==> h.host != [] && (h.open ==> h.close))
  }

  /** Nothing is missing: there is a host, its bracket is closed, and a colon has its port. */
  predicate Complete(h: HostText) { h.host != [] && (h.open ==> h.close) && h.port != Some([]) }

  function HostState(foundAt: bool, h: HostText): HostPos {
    if h.port.Some? then if h.port.value == [] then PortStart else Port
    else if h.close then HostV6End
    else if h.host != [] then if h.open then HostV6 else Host
    else if h.open then HostV6Start
    else if h.at then HostStart
    else if h.userinfo != [] then Userinfo
    else HostEntry(foundAt)
  }

  function HostPart(h: HostText, f: UrlField): string {
    match f
    case USERINFO => h.userinfo
    case HOST => h.host
    case PORT => TextOr(h.port)
    case SCHEMA | PATH | QUERY | FRAGMENT => []
  }

  // ---- one character less ------------------------------------------------

  predicate HasHostText(h: HostText) {
    h.userinfo != [] || h.at || h.open || h.host != [] || h.close || h.port.Some?
  }

  function PopHost(h: HostText): HostText {
    if h.port.Some? then h.(port := Less(h.port.value))
    else if h.close then h.(close := false)
    else if h.host != [] then h.(host := AllButLast(h.host))
    else if h.open then h.(open := false)
    else if h.at then h.(at := false)
    else if h.userinfo != [] then h.(userinfo := AllButLast(h.userinfo))
    else h
  }

  function LastOfHost(h: HostText): char
    requires HasHostText(h)
  {
    if h.port.Some? then LastOr(h.port.value, ':')
    else if h.close then ']'
    else if h.host != [] then Last(h.host)
    else if h.open then '['
    else if h.at then '@'
    else Last(h.userinfo)
  }

  lemma PopHostWrites(h: HostText)
    requires HasHostText(h)
    ensures WriteHost(h) == WriteHost(PopHost(h)) + [LastOfHost(h)]
  {
    hide AllButLast, Last, If;
    Written(h);
    if h.port.Some? {
      BehindLess(':', h.port.value);
    } else if h.close {
    } else if h.host != [] {
      Whole(h.host);
    } else if !h.open && !h.at {
      Whole(h.userinfo);
    }
  }

  lemma Written(h: HostText)
    ensures If(true, '@') == ['@'] && If(true, '[') == ['['] && If(true, ']') == [']']
    ensures forall c :: If(false, c) == []
    ensures h.port.None? ==> WriteHost(h) == h.userinfo + If(h.at, '@') + If(h.open, '[') + h.host + If(h.close, ']')
    ensures h.port.None? && !h.close ==> WriteHost(h) == h.userinfo + If(h.at, '@') + If(h.open, '[') + h.host
    ensures h.port.None? && !h.close && h.host == [] ==> WriteHost(h) == h.userinfo + If(h.at, '@') + If(h.open, '[')
    ensures h.port.None? && !h.close && h.host == [] && !h.open ==> WriteHost(h) == h.userinfo + If(h.at, '@')
  {}

  lemma PopIsAuthority(foundAt: bool, h: HostText)
    requires HasHostText(h) && IsAuthority(foundAt, h)
    ensures IsAuthority(foundAt, PopHost(h))
  {
    hide UserinfoChar, HostChar, AddressChar, DigitChar;
    if h.port.Some? {
      if h.port.value != [] { InFront(h.port.value); }
    } else if h.host != [] {
      InFront(h.host);
    } else if h.userinfo != [] {
      InFront(h.userinfo);
    }
  }

  lemma PopHostStep(foundAt: bool, h: HostText)
    requires HasHostText(h) && IsAuthority(foundAt, h)
    ensures ParseHostChar(HostState(foundAt, PopHost(h)), LastOfHost(h)) == Some(HostState(foundAt, h))
  {
    HostClassesExact(LastOfHost(h));
    hide IsUserinfoChar, IsHostChar, IsHex, IsNum, UserinfoChar, HostChar, AddressChar, DigitChar;
    if h.port.Some? {
      if h.port.value != [] { InFront(h.port.value); }
    } else if h.close {
    } else if h.host != [] {
      InFront(h.host);
    } else if !h.open && !h.at {
      InFront(h.userinfo);
    }
  }

  lemma PopHostParts(foundAt: bool, h: HostText, f: UrlField)
    requires HasHostText(h) && IsAuthority(foundAt, h)
    ensures HostPart(h, f) ==
      if HostLabel(HostState(foundAt, h)) == Some(f) then HostPart(PopHost(h), f) + [LastOfHost(h)]
      else HostPart(PopHost(h), f)
  {
    hide IsAuthority, AllButLast, Last;
    if h.port.Some? {
      if h.port.value != [] { Whole(h.port.value); }
    } else if h.close {
    } else if h.host != [] {
      Whole(h.host);
    } else if !h.open && !h.at {
      Whole(h.userinfo);
    }
  }

  // ---- what is written is accepted ---------------------------------------

  lemma HostFoldLast(start: HostPos, text: string, c: char)
    requires HostFold(start, text).Some?
    ensures HostFold(start, text + [c]) == ParseHostChar(HostFold(start, text).value, c)
  {
    hide ParseHostChar;
    assert (text + [c])[..|text|] == text;
  }

  lemma HostLabelledLast(start: HostPos, text: string, c: char, v: HostPos, f: UrlField)
    requires HostFold(start, text + [c]) == Some(v)
    ensures HostLabelled(start, text + [c], f) ==
            if HostLabel(v) == Some(f) then HostLabelled(start, text, f) + [c] else HostLabelled(start, text, f)
  {
    hide HostFold, HostLabel;
    assert (text + [c])[..|text|] == text;
  }

  lemma {:induction false} WrittenHostIsAccepted(foundAt: bool, h: HostText)
    requires IsAuthority(foundAt, h)
    ensures HostFold(HostEntry(foundAt), WriteHost(h)) == Some(HostState(foundAt, h))
    ensures forall f :: HostLabelled(HostEntry(foundAt), WriteHost(h), f) == HostPart(h, f)
    decreases |WriteHost(h)|
  {
    hide IsAuthority, ParseHostChar, HostFold, HostLabelled, WriteHost, HostState, HostPart, HostLabel;
    if HasHostText(h) {
      var start, t, c := HostEntry(foundAt), PopHost(h), LastOfHost(h);
      PopHostWrites(h);
      PopIsAuthority(foundAt, h);
      PopHostStep(foundAt, h);
      WrittenHostIsAccepted(foundAt, t);
      HostFoldLast(start, WriteHost(t), c);
      forall f ensures HostLabelled(start, WriteHost(h), f) == HostPart(h, f) {
        HostLabelledLast(start, WriteHost(t), c, HostState(foundAt, h), f);
        PopHostParts(foundAt, h, f);
      }
    } else {
      NoHostWritten(foundAt, h);
    }
  }

  lemma NoHostWritten(foundAt: bool, h: HostText)
    requires !HasHostText(h)
    ensures WriteHost(h) == [] && HostFold(HostEntry(foundAt), WriteHost(h)) == Some(HostState(foundAt, h))
    ensures forall f :: HostLabelled(HostEntry(foundAt), WriteHost(h), f) == HostPart(h, f) == []
  {}

  // ---- what is accepted is written ---------------------------------------

  function PushHost(h: HostText, v: HostPos, c: char): HostText {
    match v
    case Userinfo => h.(userinfo := h.userinfo + [c])
    case HostStart => h.(at := true)
    case HostV6Start => h.(open := true)
    case Host | HostV6 => h.(host := h.host + [c])
    case HostV6End => h.(close := true)
    case PortStart => h.(port := Some([]))
    case Port => h.(port := Some(TextOr(h.port) + [c]))
    case UserinfoStart => h
  }

  lemma HostBefore(s: HostPos, c: char, v: HostPos)
    requires ParseHostChar(s, c) == Some(v)
    ensures v != UserinfoStart
    ensures v == Userinfo ==> (s == UserinfoStart || s == Userinfo) && UserinfoChar(c)
    ensures v == HostStart ==> (s == UserinfoStart || s == Userinfo) && c == '@'
    ensures v == HostV6Start ==> s == HostStart && c == '['
    ensures v == Host ==> (s == HostStart || s == Host) && HostChar(c)
    ensures v == HostV6 ==> (s == HostV6Start || s == HostV6) && AddressChar(c)
    ensures v == HostV6End ==> s == HostV6 && c == ']'
    ensures v == PortStart ==> (s == Host || s == HostV6End) && c == ':'
    ensures v == Port ==> (s == PortStart || s == Port) && DigitChar(c)
  {
    HostClassesExact(c);
    hide IsUserinfoChar, IsHostChar, IsHex, IsNum, UserinfoChar, HostChar, AddressChar, DigitChar;
  }

  ghost predicate PushesHost(foundAt: bool, h: HostText, c: char, t: HostText) {
    IsAuthority(foundAt, t) && HasHostText(t) && PopHost(t) == h && LastOfHost(t) == c
  }

  lemma PushIsAuthority(foundAt: bool, h: HostText, c: char, v: HostPos)
    requires IsAuthority(foundAt, h) && ParseHostChar(HostState(foundAt, h), c) == Some(v)
    ensures PushesHost(foundAt, h, c, PushHost(h, v, c))
  {
    hide ParseHostChar;
    HostBefore(HostState(foundAt, h), c, v);
    hide IsAuthority, HostState, PushHost, PushesHost;
    match v {
      case Userinfo => PushUserinfo(foundAt, h, c, v);
      case HostStart => PushMark(foundAt, h, c, v);
      case HostV6Start => PushMark(foundAt, h, c, v);
      case Host => PushName(foundAt, h, c, v);
      case HostV6 => PushName(foundAt, h, c, v);
      case HostV6End => PushMark(foundAt, h, c, v);
      case PortStart => PushPort(foundAt, h, c, v);
      case Port => PushPort(foundAt, h, c, v);
    }
  }

  lemma PushUserinfo(foundAt: bool, h: HostText, c: char, v: HostPos)
    requires IsAuthority(foundAt, h) && v == Userinfo && UserinfoChar(c)
    requires var s := HostState(foundAt, h); s == UserinfoStart || s == Userinfo
    ensures PushesHost(foundAt, h, c, PushHost(h, v, c))
  {
    hide UserinfoChar, AllHost, AllAddress, AllDigits, AllButLast, Last;
    Added(h.userinfo, c);
    NoHostText();
  }

  lemma PushMark(foundAt: bool, h: HostText, c: char, v: HostPos)
    requires IsAuthority(foundAt, h)
    requires
      var s := HostState(foundAt, h);
      || (v == HostStart && (s == UserinfoStart || s == Userinfo) && c == '@')
      || (v == HostV6Start && s == HostStart && c == '[')
      || (v == HostV6End && s == HostV6 && c == ']')
    ensures PushesHost(foundAt, h, c, PushHost(h, v, c))
  {
    hide AllUserinfo, AllHost, AllAddress, AllDigits, AllButLast, Last;
    NoHostText();
  }

  lemma NoHostText()
    ensures AllHost([]) && AllAddress([]) && AllDigits([])
  {}

  lemma PushName(foundAt: bool, h: HostText, c: char, v: HostPos)
    requires IsAuthority(foundAt, h)
    requires
      var s := HostState(foundAt, h);
      || (v == Host && (s == HostStart || s == Host) && HostChar(c))
      || (v == HostV6 && (s == HostV6Start || s == HostV6) && AddressChar(c))
    ensures PushesHost(foundAt, h, c, PushHost(h, v, c))
  {
    hide HostChar, AddressChar, AllUserinfo, AllDigits, AllButLast, Last;
    Added(h.host, c);
  }

  lemma PushPort(foundAt: bool, h: HostText, c: char, v: HostPos)
    requires IsAuthority(foundAt, h)
    requires
      var s := HostState(foundAt, h);
      || (v == PortStart && (s == Host || s == HostV6End) && c == ':')
      || (v == Port && (s == PortStart || s == Port) && DigitChar(c))
    ensures PushesHost(foundAt, h, c, PushHost(h, v, c))
  {
    hide DigitChar, AllUserinfo, AllHost, AllAddress, AllButLast, Last;
    Added(TextOr(h.port), c);
  }

  const NO_HOST := HostText([], false, false, [], false, None)

  lemma {:induction false} AcceptedHostIsWritten(foundAt: bool, text: string) returns (h: HostText)
    requires HostFold(HostEntry(foundAt), text).Some?
    ensures IsAuthority(foundAt, h) && WriteHost(h) == text
    ensures HostFold(HostEntry(foundAt), text) == Some(HostState(foundAt, h))
    decreases |text|
  {
    if text == [] {
      h := NO_HOST;
    } else {
      hide IsAuthority, ParseHostChar, WriteHost, HostState, PushHost, HostFold, HostEntry;
      var init, c := AllButLast(text), Last(text);
      var start := HostEntry(foundAt);
      LessHostIsAccepted(start, text);
      var t := AcceptedHostIsWritten(foundAt, init);
      var v := HostFold(start, text).value;
      Whole(text);
      HostFoldLast(start, init, c);
      PushIsAuthority(foundAt, t, c, v);
      h := PushHost(t, v, c);
      PopHostWrites(h);
      PopHostStep(foundAt, h);
    }
  }

  lemma LessHostIsAccepted(start: HostPos, text: string)
    requires text != [] && HostFold(start, text).Some?
    ensures HostFold(start, AllButLast(text)).Some?
  {}

  /** The accepted authorities: exactly those written from complete parts. */
  lemma AuthoritiesExact(foundAt: bool, text: string)
    ensures AuthorityOk(foundAt, text) <==> exists h :: IsAuthority(foundAt, h) && Complete(h) && WriteHost(h) == text
  {
    hide IsAuthority, HostFold, HostEntry, WriteHost;
    if AuthorityOk(foundAt, text) {
      var h := AcceptedHostIsWritten(foundAt, text);
      CompleteEnds(foundAt, h);
    }
    forall h | IsAuthority(foundAt, h) && Complete(h) && WriteHost(h) == text ensures AuthorityOk(foundAt, text) {
      WrittenHostIsAccepted(foundAt, h);
      CompleteEnds(foundAt, h);
    }
  }

  lemma CompleteEnds(foundAt: bool, h: HostText)
    requires IsAuthority(foundAt, h)
    ensures HostEnd(HostState(foundAt, h)) <==> Complete(h)
  {
    hide AllUserinfo, AllHost, AllAddress, AllDigits;
  }
}

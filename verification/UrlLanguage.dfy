/** Which URLs are accepted, in whole: by http_parser_parse_url and in a request line. */
module UrlLanguage {
  import opened Wrappers
  import opened HttpTypes
  import opened UrlChars
  import opened UrlSplit
  import opened HttpNumerals
  import opened UrlGrammar
  import opened HostGrammar
  import opened HttpRequestLine

  /** A URL with neither scheme nor authority, or with a complete authority `h`; a port fits 16 bits
      and a CONNECT target has a host and a port and no other field. */
  predicate IsWhole(isConnect: bool, u: UrlText, h: HostText) {
    && IsUrl(isConnect, u)
    && (if u.scheme == [] && u.authority == [] then h == NO_HOST
        else IsAuthority('@' in u.authority, h) && Complete(h) && WriteHost(h) == u.authority)
    && Value(TextOr(h.port), 10) <= 65535
    && (isConnect ==>
          && u.path == [] && TextOr(u.query) == [] && DropHashes(TextOr(u.fragment)) == []
          && h.userinfo == [] && h.host != [] && TextOr(h.port) != [])
  }

  /** The text of a field, read off the parts. */
  function WholePart(u: UrlText, h: HostText, f: UrlField): string {
    if HostField(f) then HostPart(h, f) else Part(u, f)
  }

  /** The fields of a URL are its parts. */
  lemma FieldsAreParts(isConnect: bool, u: UrlText, h: HostText, f: UrlField)
    requires IsUrl(isConnect, u)
    requires if u.scheme == [] && u.authority == [] then h == NO_HOST
             else IsAuthority('@' in u.authority, h) && Complete(h) && WriteHost(h) == u.authority
    ensures FieldText(isConnect, Write(u), f) == WholePart(u, h, f) && AuthorityFits(isConnect, Write(u))
  {
    hide IsUrl, Write, Labelled, HasAt, HostLabelled, AuthorityOk, IsAuthority, Complete, WriteHost, Entry, HostEntry;
    WrittenIsAccepted(isConnect, u);
    var at := '@' in u.authority;
    assert Labelled(Entry(isConnect), Write(u), HOST) == Part(u, HOST);
    assert Labelled(Entry(isConnect), Write(u), SCHEMA) == Part(u, SCHEMA);
    if u.scheme == [] && u.authority == [] {
      NoHostLabels(at, f);
    } else {
      WrittenHostIsAccepted(at, h);
      AuthoritiesExact(at, u.authority);
    }
  }

  lemma NoHostLabels(at: bool, f: UrlField)
    ensures HostLabelled(HostEntry(at), [], f) == HostPart(NO_HOST, f)
  {}

  /** http_parser_parse_url accepts exactly the texts of this grammar. */
  lemma AcceptableExact(isConnect: bool, url: string)
    ensures Acceptable(isConnect, url) <==> exists u, h :: IsWhole(isConnect, u, h) && Write(u) == url
  {
    if Acceptable(isConnect, url) { var u, h := AcceptableIsWhole(isConnect, url); }
    hide Acceptable;
    forall u, h | IsWhole(isConnect, u, h) && Write(u) == url ensures Acceptable(isConnect, url) {
      WholeIsAcceptable(isConnect, u, h);
    }
  }

  lemma WholeIsAcceptable(isConnect: bool, u: UrlText, h: HostText)
    requires IsWhole(isConnect, u, h)
    ensures Acceptable(isConnect, Write(u))
    ensures forall f :: FieldText(isConnect, Write(u), f) == WholePart(u, h, f)
  {
    hide IsUrl, Write, FieldText, AuthorityFits, IsAuthority, WriteHost, DropHashes, UrlFold, Value, Complete, Entry;
    WrittenIsAccepted(isConnect, u);
    forall f ensures FieldText(isConnect, Write(u), f) == WholePart(u, h, f) && AuthorityFits(isConnect, Write(u)) {
      FieldsAreParts(isConnect, u, h, f);
    }
    assert AuthorityFits(isConnect, Write(u)) by { FieldsAreParts(isConnect, u, h, PORT); }
    assert WholePart(u, h, PORT) == TextOr(h.port);
    if isConnect { ConnectScheme(u); }
  }

  lemma ConnectScheme(u: UrlText)
    requires IsUrl(true, u)
    ensures u.scheme == []
  {}

  lemma AcceptableIsWhole(isConnect: bool, url: string) returns (u: UrlText, h: HostText)
    requires Acceptable(isConnect, url)
    ensures IsWhole(isConnect, u, h) && Write(u) == url
  {
    hide IsUrl, Write, FieldText, IsAuthority, WriteHost, DropHashes, UrlFold, Value, Complete, Entry, Labelled, HasAt;
    hide AuthorityOk;
    u := AcceptedIsWritten(isConnect, url);
    WrittenIsAccepted(isConnect, u);
    var start := Entry(isConnect);
    assert Labelled(start, url, HOST) == Part(u, HOST);
    assert Labelled(start, url, SCHEMA) == Part(u, SCHEMA);
    if u.scheme == [] && u.authority == [] {
      h := NO_HOST;
    } else {
      AuthoritiesExact('@' in u.authority, u.authority);
      h :| IsAuthority('@' in u.authority, h) && Complete(h) && WriteHost(h) == u.authority;
    }
    forall f ensures FieldText(isConnect, url, f) == WholePart(u, h, f) { FieldsAreParts(isConnect, u, h, f); }
    assert FieldText(isConnect, url, PORT) == WholePart(u, h, PORT);
    if isConnect { ConnectParts(u, h, url); }
  }

  lemma ConnectParts(u: UrlText, h: HostText, url: string)
    requires forall f :: FieldText(true, url, f) == WholePart(u, h, f)
    requires forall f :: FieldText(true, url, f) != [] <==> f == HOST || f == PORT
    ensures u.path == [] && TextOr(u.query) == [] && DropHashes(TextOr(u.fragment)) == []
    ensures h.userinfo == [] && h.host != [] && TextOr(h.port) != []
  {
    hide FieldText, DropHashes;
    assert WholePart(u, h, PATH) == [] && WholePart(u, h, QUERY) == [] && WholePart(u, h, FRAGMENT) == [];
    assert WholePart(u, h, USERINFO) == [] && WholePart(u, h, HOST) != [] && WholePart(u, h, PORT) != [];
  }

  /** A request line takes exactly the URLs that reach beyond "://": to an authority, a path or a query. */
  lemma RequestUrlExact(m: Method, url: string)
    ensures RequestUrl(m, url) <==>
      exists u :: IsUrl(m == CONNECT, u) && Write(u) == url && (u.authority != [] || u.path != [] || u.query.Some?)
  {
    hide IsUrl, UrlFold, Write;
    if RequestUrl(m, url) {
      var u := AcceptedIsWritten(m == CONNECT, url);
      Reaches(m == CONNECT, u);
      NotEmpty(u);
    }
    forall u | IsUrl(m == CONNECT, u) && Write(u) == url && (u.authority != [] || u.path != [] || u.query.Some?)
      ensures RequestUrl(m, url)
    {
      WrittenIsAccepted(m == CONNECT, u);
      Reaches(m == CONNECT, u);
      NotEmpty(u);
    }
  }

  lemma Reaches(isConnect: bool, u: UrlText)
    requires IsUrl(isConnect, u) && HasText(u)
    ensures UrlEnds(StateOf(isConnect, u)) <==> u.authority != [] || u.path != [] || u.query.Some?
  {
    hide AllLetters, AllPath, AllQuery, AllFragment, AuthorityText, DropHashes;
  }

  lemma NotEmpty(u: UrlText)
    ensures HasText(u) <==> Write(u) != []
  {}

  // ---- the common forms --------------------------------------------------

  predicate TailOk(q: Option<string>, f: Option<string>) {
    (q.Some? ==> AllQuery(q.value)) && (f.Some? ==> AllFragment(f.value))
  }

  /** A path that begins with '/' or '*', with or without a query and a fragment. */
  lemma RelativeUrl(p: string, q: Option<string>, f: Option<string>)
    requires p != [] && (p[0] == '/' || p[0] == '*') && AllPath(p) && TailOk(q, f)
    ensures
      var url := p + Behind('?', q) + Behind('#', f);
      && Acceptable(false, url)
      && FieldText(false, url, PATH) == p && FieldText(false, url, QUERY) == TextOr(q)
      && FieldText(false, url, FRAGMENT) == DropHashes(TextOr(f))
      && forall g :: g == SCHEMA || HostField(g) ==> FieldText(false, url, g) == []
  {
    hide *;
    var u := UrlText([], 0, [], p, q, f);
    RelativeIsWhole(u);
    RelativeText(p, q, f);
    WholeIsAcceptable(false, u, NO_HOST);
    RelativeParts(u);
  }

  lemma RelativeIsWhole(u: UrlText)
    requires u == UrlText([], 0, [], u.path, u.query, u.fragment) && u.path != []
    requires (u.path[0] == '/' || u.path[0] == '*') && AllPath(u.path) && TailOk(u.query, u.fragment)
    ensures IsWhole(false, u, NO_HOST)
  {
    NoSchemeText();
    hide AllPath, AllQuery, AllFragment, AllLetters, AuthorityText, Value;
  }

  lemma NoSchemeText()
    ensures AllLetters([]) && AuthorityText([]) && Value([], 10) == 0
  {}

  lemma RelativeText(p: string, q: Option<string>, f: Option<string>)
    ensures Write(UrlText([], 0, [], p, q, f)) == p + Behind('?', q) + Behind('#', f)
  {
    hide Behind;
  }

  lemma RelativeParts(u: UrlText)
    requires u.scheme == []
    ensures WholePart(u, NO_HOST, PATH) == u.path && WholePart(u, NO_HOST, QUERY) == TextOr(u.query)
    ensures WholePart(u, NO_HOST, FRAGMENT) == DropHashes(TextOr(u.fragment))
    ensures forall g :: g == SCHEMA || HostField(g) ==> WholePart(u, NO_HOST, g) == []
  {
    hide DropHashes;
  }

  /** A scheme and an authority in front of them. */
  lemma AbsoluteUrl(scheme: string, h: HostText, p: string, q: Option<string>, f: Option<string>)
    requires scheme != [] && AllLetters(scheme) && IsAuthority(h.at, h) && Complete(h)
    requires Value(TextOr(h.port), 10) <= 65535 && (p != [] ==> p[0] == '/') && AllPath(p) && TailOk(q, f)
    requires f.Some? ==> p != [] || q.Some?
    ensures
      var url := scheme + "://" + WriteHost(h) + p + Behind('?', q) + Behind('#', f);
      && Acceptable(false, url)
      && FieldText(false, url, SCHEMA) == scheme && FieldText(false, url, USERINFO) == h.userinfo
      && FieldText(false, url, HOST) == h.host && FieldText(false, url, PORT) == TextOr(h.port)
      && FieldText(false, url, PATH) == p && FieldText(false, url, QUERY) == TextOr(q)
      && FieldText(false, url, FRAGMENT) == DropHashes(TextOr(f))
  {
    hide Value, DropHashes, Acceptable, FieldText, WriteHost, IsAuthority, AuthorityText, AllLetters, AllPath, TailOk;
    hide Behind;
    var u := UrlText(scheme, 3, WriteHost(h), p, q, f);
    HostIsAuthority(h);
    TailOf(q, f);
    assert IsUrl(false, u) by { hide AllQuery, AllFragment; }
    assert IsWhole(false, u, h);
    assert Write(u) == scheme + "://" + WriteHost(h) + p + Behind('?', q) + Behind('#', f);
    hide IsWhole, Write;
    WholeIsAcceptable(false, u, h);
    assert WholePart(u, h, SCHEMA) == scheme && WholePart(u, h, USERINFO) == h.userinfo;
    assert WholePart(u, h, HOST) == h.host && WholePart(u, h, PORT) == TextOr(h.port);
    assert WholePart(u, h, PATH) == p && WholePart(u, h, QUERY) == TextOr(q);
    assert WholePart(u, h, FRAGMENT) == DropHashes(TextOr(f));
  }

  lemma TailOf(q: Option<string>, f: Option<string>)
    requires TailOk(q, f)
    ensures (q.Some? ==> AllQuery(q.value)) && (f.Some? ==> AllFragment(f.value))
  {
    hide AllQuery, AllFragment;
  }

  /** The authority of a host and port, and of a CONNECT target. */
  lemma HostIsAuthority(h: HostText)
    requires IsAuthority(h.at, h) && Complete(h)
    ensures AuthorityText(WriteHost(h)) && ('@' in WriteHost(h) <==> h.at) && WriteHost(h) != []
  {
    var s := WriteHost(h);
    var a := h.userinfo;
    var b := If(h.open, '[') + h.host + If(h.close, ']') + Behind(':', h.port);
    assert s == a + If(h.at, '@') + b;
    forall c | c in b ensures AuthorityChar(c) && c != '@' { HostPartChar(h, c); }
    forall c | c in a ensures AuthorityChar(c) && c != '@' { ClassesExact(c); HostClassesExact(c); }
    hide IsAuthority, WriteHost, Complete;
    AtOnce(a, h.at, b);
  }

  lemma HostPartChar(h: HostText, c: char)
    requires IsAuthority(h.at, h) && c in If(h.open, '[') + h.host + If(h.close, ']') + Behind(':', h.port)
    ensures AuthorityChar(c) && c != '@'
  {
    ClassesExact(c);
    HostClassesExact(c);
    assert c in h.host || c == '[' || c == ']' || c == ':' || (h.port.Some? && c in h.port.value);
  }

  lemma AtOnce(a: string, at: bool, b: string)
    requires forall c :: c in a || c in b ==> AuthorityChar(c) && c != '@'
    ensures var s := a + If(at, '@') + b; AuthorityText(s) && ('@' in s <==> at)
  {
    var s := a + If(at, '@') + b;
    ClassesExact('@');
    hide AuthorityChar;
    if at { assert s[|a|] == '@'; }
    forall i | 0 <= i < |s| ensures s[i] == '@' <==> at && i == |a| {
      if i < |a| { assert s[i] in a; } else if i >= |a| + |If(at, '@')| { assert s[i] in b; }
    }
  }

  /** A CONNECT target: host and port. */
  lemma ConnectUrl(h: HostText)
    requires IsAuthority(false, h) && Complete(h) && h.port.Some? && Value(h.port.value, 10) <= 65535
    ensures Acceptable(true, WriteHost(h))
    ensures FieldText(true, WriteHost(h), HOST) == h.host && FieldText(true, WriteHost(h), PORT) == h.port.value
  {
    NoUserinfo(h);
    HostIsAuthority(h);
    hide *;
    var u := UrlText([], 0, WriteHost(h), [], None, None);
    ConnectIsWhole(h);
    ConnectText(WriteHost(h));
    WholeIsAcceptable(true, u, h);
    ConnectFields(u, h);
  }

  lemma NoUserinfo(h: HostText)
    requires IsAuthority(false, h)
    ensures !h.at && h.userinfo == []
  {}

  lemma ConnectIsWhole(h: HostText)
    requires IsAuthority(false, h) && Complete(h) && h.port.Some? && Value(h.port.value, 10) <= 65535
    requires AuthorityText(WriteHost(h)) && '@' !in WriteHost(h) && WriteHost(h) != [] && h.userinfo == []
    ensures IsWhole(true, UrlText([], 0, WriteHost(h), [], None, None), h)
  {
    NoSchemeText();
    assert AllPath([]);
    hide IsAuthority, WriteHost, AuthorityText, AllPath, AllLetters, Value;
  }

  lemma ConnectText(authority: string)
    ensures Write(UrlText([], 0, authority, [], None, None)) == authority
  {}

  lemma ConnectFields(u: UrlText, h: HostText)
    requires h.port.Some?
    ensures WholePart(u, h, HOST) == h.host && WholePart(u, h, PORT) == h.port.value
  {}
}

/** The URLs the machine of parse_url_char accepts, as a grammar of literal character classes:
    a text is accepted exactly when it is written from parts of these classes, and the bytes the
    machine assigns to a field are the part of that name. */
module UrlGrammar {
  import opened Wrappers
  import opened HttpTypes
  import opened UrlChars
  import opened UrlSplit
  import opened HttpNames

  // ---- character classes -------------------------------------------------

  predicate Letter(c: char) { 65 <= c as int <= 90 || 97 <= c as int <= 122 }
  predicate LetterOrDigit(c: char) { Letter(c) || c in "0123456789" }
  predicate UserinfoChar(c: char) { LetterOrDigit(c) || c in "-_.!~*'()" || c in "%;:&=+$," }
  predicate AuthorityChar(c: char) { UserinfoChar(c) || c in "[]@" }
  predicate FragmentChar(c: char) { 33 <= c as int <= 126 }
  predicate QueryChar(c: char) { FragmentChar(c) && c != '#' }
  predicate PathChar(c: char) { QueryChar(c) && c != '?' }

  lemma DigitsInText(c: char)
    ensures c in "0123456789" <==> 48 <= c as int <= 57
  {
    if 48 <= c as int <= 57 { assert "0123456789"[c as int - 48] == c; }
  }

  lemma MarksInText(c: char)
    ensures c in "-_.!~*'()" <==> IsMark(c)
    ensures c in "%;:&=+$," <==>
      c == '%' || c == ';' || c == ':' || c == '&' || c == '=' || c == '+' || c == '$' || c == ','
  {
    assert c in "-_.!~*'()" <==>
      c == '-' || c == '_' || c == '.' || c == '!' || c == '~' || c == '*' || c == '\'' || c == '(' || c == ')';
    assert c in "%;:&=+$," <==>
      c == '%' || c == ';' || c == ':' || c == '&' || c == '=' || c == '+' || c == '$' || c == ',';
  }

  /** The tables of the machine are these classes. */
  lemma ClassesExact(c: char)
    ensures IsAlpha(c) <==> Letter(c)
    ensures IsUserinfoChar(c) <==> UserinfoChar(c)
    ensures IsUrlChar(c) <==> PathChar(c)
    ensures AuthorityChar(c) <==> UserinfoChar(c) || c == '[' || c == ']' || c == '@'
  {
    DigitsInText(c);
    MarksInText(c);
    assert c in "[]@" <==> c == '[' || c == ']' || c == '@';
  }

  // ---- the parts of a URL ------------------------------------------------

  /** `sep` tells how much of "://" follows the scheme; query and fragment are what stands behind
      the first '?' and behind the first '#' after it. */
  datatype UrlText = UrlText(
    scheme: string, sep: nat, authority: string, path: string, query: Option<string>, fragment: Option<string>)

  function Behind(mark: char, text: Option<string>): string {
    match text
    case None => []
    case Some(t) => [mark] + t
  }

  function Sep(n: nat): string { "://"[..if n < 3 then n else 3] }

  function Write(u: UrlText): string {
    u.scheme + Sep(u.sep) + u.authority + u.path + Behind('?', u.query) + Behind('#', u.fragment)
  }

  predicate AllLetters(s: string) { forall c :: c in s ==> Letter(c) }
  predicate AllPath(s: string) { forall c :: c in s ==> PathChar(c) }
  predicate AllQuery(s: string) { forall c :: c in s ==> QueryChar(c) }
  predicate AllFragment(s: string) { forall c :: c in s ==> FragmentChar(c) }

  /** An authority as the first pass sees it: no two '@' in a row. */
  predicate AuthorityText(s: string) {
    (forall c :: c in s ==> AuthorityChar(c)) && forall i :: 0 <= i < |s| - 1 ==> !(s[i] == '@' && s[i + 1] == '@')
  }

  predicate Classes(u: UrlText) {
    && AllLetters(u.scheme) && AuthorityText(u.authority) && AllPath(u.path)
    && (u.query.Some? ==> AllQuery(u.query.value)) && (u.fragment.Some? ==> AllFragment(u.fragment.value))
  }

  /** Which parts may stand together; a CONNECT target begins at its authority. */
  predicate Shape(isConnect: bool, u: UrlText) {
    && u.sep <= 3
    && (isConnect ==> u.scheme == [] && u.sep == 0)
    && (u.sep > 0 ==> u.scheme != [])
    && (u.authority != [] ==> isConnect || u.sep == 3)
    && (u.path != [] ==>
          if isConnect || u.sep == 3 then u.path[0] == '/'
          else u.scheme == [] && (u.path[0] == '/' || u.path[0] == '*'))
    && (u.query.Some? ==> isConnect || u.sep == 3 || u.path != [])
    && (u.fragment.Some? ==> u.path != [] || u.query.Some?)
  }

  /** A URL from its beginning. */
  predicate IsUrl(isConnect: bool, u: UrlText) { Classes(u) && Shape(isConnect, u) }

  /** A fragment without the '#' it may begin with. */
  function DropHashes(s: string): string { if s != [] && s[0] == '#' then DropHashes(s[1..]) else s }

  function TextOr(t: Option<string>): string { if t.Some? then t.value else [] }

  function Part(u: UrlText, f: UrlField): string {
    match f
    case SCHEMA => u.scheme
    case HOST => u.authority
    case PATH => u.path
    case QUERY => TextOr(u.query)
    case FRAGMENT => DropHashes(TextOr(u.fragment))
    case USERINFO | PORT => []
  }

  /** Where the machine is behind these parts. */
  function StateOf(isConnect: bool, u: UrlText): UrlPos {
    if u.fragment.Some? then if DropHashes(u.fragment.value) == [] then FragmentStart else Fragment
    else if u.query.Some? then if u.query.value == [] then QueryStart else Query
    else if u.path != [] then Path
    else if u.authority != [] then if Last(u.authority) == '@' then ServerWithAt else Server
    else if u.sep >= 3 then ServerStart
    else if u.sep == 2 then SchemaSlashSlash
    else if u.sep == 1 then SchemaSlash
    else if u.scheme != [] then Schema
    else Entry(isConnect)
  }

  // ---- one character less ------------------------------------------------

  /** Without the last character of what stands behind a mark, or without the mark. */
  function Less(t: string): Option<string> { if t == [] then None else Some(AllButLast(t)) }

  /** The parts of a URL without its last character. */
  function Pop(u: UrlText): UrlText {
    if u.fragment.Some? then u.(fragment := Less(u.fragment.value))
    else if u.query.Some? then u.(query := Less(u.query.value))
    else if u.path != [] then u.(path := AllButLast(u.path))
    else if u.authority != [] then u.(authority := AllButLast(u.authority))
    else if u.sep > 0 then u.(sep := u.sep - 1)
    else if u.scheme != [] then u.(scheme := AllButLast(u.scheme))
    else u
  }

  predicate HasText(u: UrlText) {
    u.scheme != [] || u.sep > 0 || u.authority != [] || u.path != [] || u.query.Some? || u.fragment.Some?
  }

  function LastOr(t: string, mark: char): char { if t == [] then mark else Last(t) }

  /** The last character of a URL. */
  function LastChar(u: UrlText): char
    requires HasText(u) && u.sep <= 3
  {
    if u.fragment.Some? then LastOr(u.fragment.value, '#')
    else if u.query.Some? then LastOr(u.query.value, '?')
    else if u.path != [] then Last(u.path)
    else if u.authority != [] then Last(u.authority)
    else if u.sep > 0 then "://"[u.sep - 1]
    else Last(u.scheme)
  }

  lemma BehindLess(mark: char, t: string)
    ensures Behind(mark, Some(t)) == Behind(mark, Less(t)) + [LastOr(t, mark)]
  {
    if t == [] {
      assert Behind(mark, Some(t)) == [mark] && Behind(mark, Less(t)) == [];
    } else {
      Whole(t);
      hide AllButLast, Last;
      assert [mark] + (AllButLast(t) + [Last(t)]) == ([mark] + AllButLast(t)) + [Last(t)];
    }
  }

  lemma PopWrites(u: UrlText)
    requires HasText(u) && u.sep <= 3
    ensures Write(u) == Write(Pop(u)) + [LastChar(u)]
  {
    hide AllButLast, Last, Behind, Sep;
    NothingBehind();
    if u.fragment.Some? {
      BehindLess('#', u.fragment.value);
    } else if u.query.Some? {
      BehindLess('?', u.query.value);
    } else if u.path != [] {
      Whole(u.path);
    } else if u.authority != [] {
      Whole(u.authority);
    } else if u.sep > 0 {
      SepMore(u.sep);
    } else {
      Whole(u.scheme);
    }
  }

  lemma NothingBehind()
    ensures Behind('?', None) == Behind('#', None) == [] && Sep(0) == []
  {}

  lemma SepMore(n: nat)
    requires 0 < n <= 3
    ensures Sep(n) == Sep(n - 1) + ["://"[n - 1]]
  {}

  lemma Whole(s: string)
    requires s != []
    ensures s == AllButLast(s) + [Last(s)]
  {}

  lemma Added(s: string, c: char)
    ensures s + [c] != [] && AllButLast(s + [c]) == s && Last(s + [c]) == c
  {}

  lemma InFront(s: string)
    requires s != []
    ensures Last(s) in s && forall c :: c in AllButLast(s) ==> c in s
  {}

  lemma PopIsUrl(isConnect: bool, u: UrlText)
    requires HasText(u) && IsUrl(isConnect, u)
    ensures IsUrl(isConnect, Pop(u))
  {
    PopShape(isConnect, u);
    hide Shape;
    PopClasses(u);
  }

  lemma PopShape(isConnect: bool, u: UrlText)
    requires Shape(isConnect, u)
    ensures Shape(isConnect, Pop(u))
  {}

  lemma PopClasses(u: UrlText)
    requires Classes(u)
    ensures Classes(Pop(u))
  {
    hide Letter, PathChar, QueryChar, FragmentChar, AuthorityChar;
    if u.fragment.Some? {
      if u.fragment.value != [] { InFront(u.fragment.value); }
    } else if u.query.Some? {
      if u.query.value != [] { InFront(u.query.value); }
    } else if u.path != [] {
      InFront(u.path);
    } else if u.authority != [] {
      InFront(u.authority);
    } else if u.scheme != [] {
      InFront(u.scheme);
    }
  }

  lemma {:induction false} DropHashesMore(s: string, c: char)
    ensures DropHashes(s + [c]) == if DropHashes(s) == [] && c == '#' then [] else DropHashes(s) + [c]
    decreases |s|
  {
    if s == [] {
      assert [c][1..] == [] && s + [c] == [c];
    } else if s[0] == '#' {
      assert (s + [c])[1..] == s[1..] + [c];
      DropHashesMore(s[1..], c);
    }
  }

  /** The machine takes the last character from the state of the parts before it. */
  lemma PopStep(isConnect: bool, u: UrlText)
    requires HasText(u) && IsUrl(isConnect, u)
    ensures ParseUrlChar(StateOf(isConnect, Pop(u)), LastChar(u)) == Some(StateOf(isConnect, u))
  {
    var c := LastChar(u);
    if u.fragment.Some? {
      FragmentStep(isConnect, u);
    } else if u.query.Some? {
      QueryStep(isConnect, u);
    } else if u.path != [] {
      PathStep(isConnect, u);
    } else if u.authority != [] {
      AuthorityStep(isConnect, u);
    } else {
      SchemeStep(isConnect, u);
    }
  }

  lemma FragmentStep(isConnect: bool, u: UrlText)
    requires IsUrl(isConnect, u) && u.fragment.Some?
    ensures ParseUrlChar(StateOf(isConnect, Pop(u)), LastChar(u)) == Some(StateOf(isConnect, u))
  {
    var c, f := LastChar(u), u.fragment.value;
    ClassesExact(c);
    hide IsUrlChar, IsUserinfoChar, IsAlpha, AuthorityText, Letter;
    if f == [] {
    } else {
      InFront(f);
      assert FragmentChar(c);
      DropHashesMore(AllButLast(f), c);
      assert f == AllButLast(f) + [c];
      hide DropHashes;
    }
  }

  lemma QueryStep(isConnect: bool, u: UrlText)
    requires IsUrl(isConnect, u) && u.query.Some? && u.fragment.None?
    ensures ParseUrlChar(StateOf(isConnect, Pop(u)), LastChar(u)) == Some(StateOf(isConnect, u))
  {
    var c, q := LastChar(u), u.query.value;
    ClassesExact(c);
    hide IsUrlChar, IsUserinfoChar, IsAlpha, AuthorityText, Letter;
    if q != [] {
      InFront(q);
      assert QueryChar(c);
    }
  }

  lemma PathStep(isConnect: bool, u: UrlText)
    requires IsUrl(isConnect, u) && u.path != [] && u.query.None? && u.fragment.None?
    ensures ParseUrlChar(StateOf(isConnect, Pop(u)), LastChar(u)) == Some(StateOf(isConnect, u))
  {
    var c := LastChar(u);
    ClassesExact(c);
    hide IsUrlChar, IsUserinfoChar, IsAlpha, AuthorityText, Letter;
    InFront(u.path);
    assert PathChar(c);
  }

  lemma AuthorityStep(isConnect: bool, u: UrlText)
    requires IsUrl(isConnect, u) && u.authority != [] && u.path == [] && u.query.None? && u.fragment.None?
    ensures ParseUrlChar(StateOf(isConnect, Pop(u)), LastChar(u)) == Some(StateOf(isConnect, u))
  {
    var c := LastChar(u);
    AuthorityEnd(u.authority);
    AuthorityVisible(c);
    hide Classes, AuthorityChar, UserinfoChar, AllButLast, Last;
    ServerTakes(c);
  }

  /** The last character of an authority and the one before it. */
  lemma AuthorityEnd(s: string)
    requires s != [] && AuthorityText(s)
    ensures AuthorityChar(Last(s))
    ensures AllButLast(s) != [] && Last(AllButLast(s)) == '@' ==> Last(s) != '@'
  {
    hide AuthorityChar;
    assert Last(s) in s;
    if |s| > 1 { assert s[|s| - 1] == s[|s| - 2 + 1]; }
  }

  lemma ServerTakes(c: char)
    requires AuthorityChar(c)
    ensures
      var v := if c == '@' then ServerWithAt else Server;
      && ParseUrlChar(ServerStart, c) == Some(v) && ParseUrlChar(Server, c) == Some(v)
      && (c != '@' ==> ParseUrlChar(ServerWithAt, c) == Some(v))
  {
    ClassesExact(c);
    AuthorityVisible(c);
    hide IsUrlChar, IsUserinfoChar, IsAlpha, Letter, AuthorityChar, UserinfoChar;
  }

  lemma AuthorityVisible(c: char)
    requires AuthorityChar(c)
    ensures 33 <= c as int <= 126 && c != '/' && c != '?' && c != '#'
    ensures UserinfoChar(c) ==> c != '@'
  {
    ClassesExact(c);
  }

  lemma SchemeStep(isConnect: bool, u: UrlText)
    requires IsUrl(isConnect, u) && u.authority == [] && u.path == [] && u.query.None? && u.fragment.None? && HasText(u)
    ensures ParseUrlChar(StateOf(isConnect, Pop(u)), LastChar(u)) == Some(StateOf(isConnect, u))
  {
    var c := LastChar(u);
    ClassesExact(c);
    hide IsUrlChar, IsUserinfoChar, AuthorityText;
    if u.sep == 0 { InFront(u.scheme); }
  }

  /** The last character belongs to the field of the state it leads to. */
  lemma PopParts(isConnect: bool, u: UrlText, f: UrlField)
    requires HasText(u) && IsUrl(isConnect, u)
    ensures Parts(isConnect, u, f)
  {
    hide IsUrl, Part, StateOf, Label, Pop;
    SepShort(isConnect, u);
    if u.fragment.Some? {
      FragmentParts(isConnect, u, f);
    } else if u.query.Some? {
      QueryParts(isConnect, u, f);
    } else if u.path != [] || u.authority != [] {
      PathParts(isConnect, u, f);
    } else {
      SchemeParts(isConnect, u, f);
    }
  }

  ghost predicate Parts(isConnect: bool, u: UrlText, f: UrlField)
    requires HasText(u) && u.sep <= 3
  {
    Part(u, f) == if Label(StateOf(isConnect, u)) == Some(f) then Part(Pop(u), f) + [LastChar(u)] else Part(Pop(u), f)
  }

  lemma FragmentParts(isConnect: bool, u: UrlText, f: UrlField)
    requires u.fragment.Some? && u.sep <= 3
    ensures Parts(isConnect, u, f)
  {
    if u.fragment.value != [] {
      DropHashesMore(AllButLast(u.fragment.value), LastChar(u));
      Whole(u.fragment.value);
    }
  }

  lemma QueryParts(isConnect: bool, u: UrlText, f: UrlField)
    requires u.fragment.None? && u.query.Some? && u.sep <= 3
    ensures Parts(isConnect, u, f)
  {
    hide AllButLast, Last;
    if u.query.value != [] { Whole(u.query.value); }
  }

  lemma PathParts(isConnect: bool, u: UrlText, f: UrlField)
    requires u.fragment.None? && u.query.None? && (u.path != [] || u.authority != []) && u.sep <= 3
    ensures Parts(isConnect, u, f)
  {
    hide AllButLast, Last, DropHashes;
    if u.path != [] { Whole(u.path); } else { Whole(u.authority); }
  }

  lemma SchemeParts(isConnect: bool, u: UrlText, f: UrlField)
    requires u.fragment.None? && u.query.None? && u.path == [] && u.authority == [] && u.sep <= 3 && HasText(u)
    ensures Parts(isConnect, u, f)
  {
    hide AllButLast, Last, DropHashes;
    if u.sep == 0 { Whole(u.scheme); }
  }

  lemma PopAt(isConnect: bool, u: UrlText)
    requires HasText(u) && IsUrl(isConnect, u)
    ensures '@' in u.authority <==> '@' in Pop(u).authority || StateOf(isConnect, u) == ServerWithAt
  {
    hide AuthorityText, AllLetters, AllPath, AllQuery, AllFragment, DropHashes;
    if u.authority != [] { assert u.authority == AllButLast(u.authority) + [Last(u.authority)]; }
  }

  // ---- what is written is accepted ---------------------------------------

  lemma FoldLast(start: UrlPos, text: string, c: char)
    requires UrlFold(start, text).Some?
    ensures UrlFold(start, text + [c]) == ParseUrlChar(UrlFold(start, text).value, c)
    ensures HasAt(start, text + [c]) <==> UrlFold(start, text + [c]) == Some(ServerWithAt) || HasAt(start, text)
  {
    hide ParseUrlChar;
    assert (text + [c])[..|text|] == text;
  }

  lemma LabelledLast(start: UrlPos, text: string, c: char, v: UrlPos, f: UrlField)
    requires UrlFold(start, text + [c]) == Some(v)
    ensures Labelled(start, text + [c], f) ==
            if Label(v) == Some(f) then Labelled(start, text, f) + [c] else Labelled(start, text, f)
  {
    hide UrlFold, Label;
    assert (text + [c])[..|text|] == text;
  }

  /** Every URL of the grammar is accepted, in the state of its last part; its fields are its parts. */
  lemma {:induction false} WrittenIsAccepted(isConnect: bool, u: UrlText)
    requires IsUrl(isConnect, u)
    ensures UrlFold(Entry(isConnect), Write(u)) == Some(StateOf(isConnect, u))
    ensures forall f :: Labelled(Entry(isConnect), Write(u), f) == Part(u, f)
    ensures HasAt(Entry(isConnect), Write(u)) <==> '@' in u.authority
    decreases |Write(u)|
  {
    hide IsUrl, ParseUrlChar, UrlFold, Labelled, HasAt, Write, StateOf, Part, Label;
    SepShort(isConnect, u);
    if HasText(u) {
      var start, t, c := Entry(isConnect), Pop(u), LastChar(u);
      PopWrites(u);
      PopIsUrl(isConnect, u);
      SepShort(isConnect, t);
      PopStep(isConnect, u);
      PopAt(isConnect, u);
      WrittenIsAccepted(isConnect, t);
      FoldLast(start, Write(t), c);
      forall f ensures Labelled(start, Write(u), f) == Part(u, f) {
        LabelledLast(start, Write(t), c, StateOf(isConnect, u), f);
        PopParts(isConnect, u, f);
      }
    } else {
      NothingWritten(isConnect, u);
    }
  }

  lemma SepShort(isConnect: bool, u: UrlText)
    requires IsUrl(isConnect, u)
    ensures u.sep <= 3
  {}

  lemma NothingWritten(isConnect: bool, u: UrlText)
    requires !HasText(u)
    ensures Write(u) == [] && UrlFold(Entry(isConnect), Write(u)) == Some(StateOf(isConnect, u))
    ensures forall f :: Labelled(Entry(isConnect), Write(u), f) == Part(u, f) == []
    ensures !HasAt(Entry(isConnect), Write(u)) && '@' !in u.authority
  {}

  // ---- what is accepted is written ---------------------------------------

  /** The parts with one more character, by the state it leads to. */
  function Push(u: UrlText, v: UrlPos, c: char): UrlText {
    match v
    case Schema => u.(scheme := u.scheme + [c])
    case SchemaSlash | SchemaSlashSlash | ServerStart => u.(sep := u.sep + 1)
    case Server | ServerWithAt => u.(authority := u.authority + [c])
    case Path => u.(path := u.path + [c])
    case QueryStart => u.(query := Some([]))
    case Query => u.(query := Some(TextOr(u.query) + [c]))
    case FragmentStart | Fragment => u.(fragment := if u.fragment.None? then Some([]) else Some(u.fragment.value + [c]))
    case SpacesBeforeUrl => u
  }

  ghost predicate Pushes(isConnect: bool, u: UrlText, c: char, t: UrlText) {
    IsUrl(isConnect, t) && HasText(t) && Pop(t) == u && LastChar(t) == c
  }

  lemma PushIsUrl(isConnect: bool, u: UrlText, c: char, v: UrlPos)
    requires IsUrl(isConnect, u) && ParseUrlChar(StateOf(isConnect, u), c) == Some(v)
    ensures Pushes(isConnect, u, c, Push(u, v, c))
  {
    hide IsUrl, ParseUrlChar, StateOf, Pushes, Push;
    match v {
      case Schema => PushScheme(isConnect, u, c, v);
      case SchemaSlash => PushScheme(isConnect, u, c, v);
      case SchemaSlashSlash => PushScheme(isConnect, u, c, v);
      case ServerStart => PushScheme(isConnect, u, c, v);
      case Server => PushAuthority(isConnect, u, c, v);
      case ServerWithAt => PushAuthority(isConnect, u, c, v);
      case Path => PushPath(isConnect, u, c, v);
      case QueryStart => PushQuery(isConnect, u, c, v);
      case Query => PushQuery(isConnect, u, c, v);
      case FragmentStart => PushFragment(isConnect, u, c, v);
      case Fragment => PushFragment(isConnect, u, c, v);
    }
  }

  /** The states from which a part is reached. */
  lemma Before(s: UrlPos, c: char, v: UrlPos)
    requires ParseUrlChar(s, c) == Some(v)
    ensures v == Schema ==> (s == SpacesBeforeUrl || s == Schema) && Letter(c)
    ensures v == SchemaSlash ==> s == Schema && c == ':'
    ensures v == SchemaSlashSlash ==> s == SchemaSlash && c == '/'
    ensures v == ServerStart ==> s == SchemaSlashSlash && c == '/'
    ensures v == Server || v == ServerWithAt ==>
      (s == ServerStart || s == Server || s == ServerWithAt) && AuthorityChar(c)
    ensures (v == Server || v == ServerWithAt) && s == ServerWithAt ==> c != '@'
    ensures v == Path ==> s == SpacesBeforeUrl || s == ServerStart || s == Server || s == ServerWithAt || s == Path
    ensures v == Path ==> if s == Path then PathChar(c) else c == '/' || (c == '*' && s == SpacesBeforeUrl)
    ensures v == QueryStart ==> (s == ServerStart || s == Server || s == ServerWithAt || s == Path) && c == '?'
    ensures v == Query ==> (s == QueryStart || s == Query) && QueryChar(c)
    ensures v == FragmentStart ==> (s == Path || s == QueryStart || s == Query || s == FragmentStart) && c == '#'
    ensures v == Fragment ==> (s == FragmentStart || s == Fragment) && FragmentChar(c)
  {
    ClassesExact(c);
    hide IsUrlChar, IsUserinfoChar, IsAlpha, Letter, UserinfoChar, AuthorityChar;
  }

  // Each class admits one more of its characters.

  lemma MoreLetters(s: string, c: char)
    requires AllLetters(s) && Letter(c)
    ensures AllLetters(s + [c])
  {
    hide Letter;
  }

  lemma MoreAuthority(s: string, c: char)
    requires AuthorityText(s) && AuthorityChar(c) && (s != [] && Last(s) == '@' ==> c != '@')
    ensures AuthorityText(s + [c])
  {
    hide AuthorityChar;
    var t := s + [c];
    forall i | 0 <= i < |t| - 1 ensures !(t[i] == '@' && t[i + 1] == '@') {
      if i < |s| - 1 { assert t[i] == s[i] && t[i + 1] == s[i + 1]; }
    }
  }

  lemma MorePath(s: string, c: char)
    requires AllPath(s) && PathChar(c)
    ensures AllPath(s + [c])
  {
    hide PathChar;
  }

  lemma MoreQuery(s: string, c: char)
    requires AllQuery(s) && QueryChar(c)
    ensures AllQuery(s + [c])
  {
    hide QueryChar;
  }

  lemma MoreFragment(s: string, c: char)
    requires AllFragment(s) && FragmentChar(c)
    ensures AllFragment(s + [c])
  {
    hide FragmentChar;
  }

  lemma PushScheme(isConnect: bool, u: UrlText, c: char, v: UrlPos)
    requires IsUrl(isConnect, u) && ParseUrlChar(StateOf(isConnect, u), c) == Some(v)
    requires v == Schema || v == SchemaSlash || v == SchemaSlashSlash || v == ServerStart
    ensures Pushes(isConnect, u, c, Push(u, v, c))
  {
    hide ParseUrlChar, AuthorityText, AllLetters, AllPath, AllQuery, AllFragment, DropHashes, Letter, AllButLast, Last;
    Before(StateOf(isConnect, u), c, v);
    Added(u.scheme, c);
    if v == Schema { MoreLetters(u.scheme, c); }
  }

  lemma PushAuthority(isConnect: bool, u: UrlText, c: char, v: UrlPos)
    requires IsUrl(isConnect, u) && ParseUrlChar(StateOf(isConnect, u), c) == Some(v)
    requires v == Server || v == ServerWithAt
    ensures Pushes(isConnect, u, c, Push(u, v, c))
  {
    hide ParseUrlChar, AuthorityText, AllLetters, AllPath, AllQuery, AllFragment, DropHashes, AuthorityChar;
    hide AllButLast, Last;
    Before(StateOf(isConnect, u), c, v);
    Added(u.authority, c);
    MoreAuthority(u.authority, c);
  }

  lemma PushPath(isConnect: bool, u: UrlText, c: char, v: UrlPos)
    requires IsUrl(isConnect, u) && ParseUrlChar(StateOf(isConnect, u), c) == Some(v) && v == Path
    ensures Pushes(isConnect, u, c, Push(u, v, c))
  {
    hide ParseUrlChar, AuthorityText, AllLetters, AllPath, AllQuery, AllFragment, DropHashes, AllButLast, Last;
    Before(StateOf(isConnect, u), c, v);
    Added(u.path, c);
    assert PathChar('/') && PathChar('*');
    hide PathChar;
    MorePath(u.path, c);
    assert (u.path + [c])[0] == if u.path == [] then c else u.path[0];
  }

  lemma PushQuery(isConnect: bool, u: UrlText, c: char, v: UrlPos)
    requires IsUrl(isConnect, u) && ParseUrlChar(StateOf(isConnect, u), c) == Some(v) && (v == QueryStart || v == Query)
    ensures Pushes(isConnect, u, c, Push(u, v, c))
  {
    NoText();
    hide ParseUrlChar, AuthorityText, AllLetters, AllPath, AllQuery, AllFragment, DropHashes, QueryChar;
    hide AllButLast, Last;
    Before(StateOf(isConnect, u), c, v);
    Added(TextOr(u.query), c);
    if v == Query { MoreQuery(u.query.value, c); }
  }

  lemma PushFragment(isConnect: bool, u: UrlText, c: char, v: UrlPos)
    requires IsUrl(isConnect, u) && ParseUrlChar(StateOf(isConnect, u), c) == Some(v)
    requires v == FragmentStart || v == Fragment
    ensures Pushes(isConnect, u, c, Push(u, v, c))
  {
    var s := StateOf(isConnect, u);
    Before(s, c, v);
    InFragment(isConnect, u);
    hide IsUrl, ParseUrlChar, StateOf;
    if u.fragment.None? {
      OpenFragment(isConnect, u);
    } else {
      GrowFragment(isConnect, u, c);
    }
  }

  lemma InFragment(isConnect: bool, u: UrlText)
    ensures u.fragment.Some? <==> StateOf(isConnect, u).FragmentStart? || StateOf(isConnect, u).Fragment?
    ensures StateOf(isConnect, u).Path? ==> u.path != []
    ensures StateOf(isConnect, u).QueryStart? || StateOf(isConnect, u).Query? ==> u.query.Some?
  {
    hide DropHashes;
  }

  lemma OpenFragment(isConnect: bool, u: UrlText)
    requires IsUrl(isConnect, u) && u.fragment.None? && (u.path != [] || u.query.Some?)
    ensures Pushes(isConnect, u, '#', u.(fragment := Some([])))
  {
    NoText();
    hide AuthorityText, AllLetters, AllPath, AllQuery, AllFragment;
  }

  lemma GrowFragment(isConnect: bool, u: UrlText, c: char)
    requires IsUrl(isConnect, u) && u.fragment.Some? && FragmentChar(c)
    ensures Pushes(isConnect, u, c, u.(fragment := Some(u.fragment.value + [c])))
  {
    hide AuthorityText, AllLetters, AllPath, AllQuery, AllFragment, FragmentChar, AllButLast, Last;
    Added(u.fragment.value, c);
    MoreFragment(u.fragment.value, c);
  }

  lemma NoText()
    ensures AllQuery([]) && AllFragment([])
  {}

  const NO_URL := UrlText([], 0, [], [], None, None)

  /** Whatever the machine accepts is written from such parts. */
  lemma {:induction false} AcceptedIsWritten(isConnect: bool, url: string) returns (u: UrlText)
    requires UrlFold(Entry(isConnect), url).Some?
    ensures IsUrl(isConnect, u) && Write(u) == url && UrlFold(Entry(isConnect), url) == Some(StateOf(isConnect, u))
    decreases |url|
  {
    if url == [] {
      u := NO_URL;
    } else {
      hide IsUrl, ParseUrlChar, Write, StateOf, Push, UrlFold, Entry;
      var init, c := AllButLast(url), Last(url);
      var start := Entry(isConnect);
      LessIsAccepted(start, url);
      var t := AcceptedIsWritten(isConnect, init);
      var v := UrlFold(start, url).value;
      Whole(url);
      FoldLast(start, init, c);
      PushIsUrl(isConnect, t, c, v);
      u := Push(t, v, c);
      PopWrites(u);
      PopStep(isConnect, u);
    }
  }

  lemma LessIsAccepted(start: UrlPos, url: string)
    requires url != [] && UrlFold(start, url).Some?
    ensures UrlFold(start, AllButLast(url)).Some?
  {}

  /** The language of the machine. */
  lemma UrlsExact(isConnect: bool, url: string)
    ensures UrlFold(Entry(isConnect), url).Some? <==> exists u :: IsUrl(isConnect, u) && Write(u) == url
  {
    hide IsUrl, UrlFold, Entry;
    if UrlFold(Entry(isConnect), url).Some? {
      var u := AcceptedIsWritten(isConnect, url);
      SepShort(isConnect, u);
    }
    forall u | IsUrl(isConnect, u) && Write(u) == url ensures UrlFold(Entry(isConnect), url).Some? {
      SepShort(isConnect, u);
      WrittenIsAccepted(isConnect, u);
    }
  }
}

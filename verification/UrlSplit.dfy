/** http_parser_parse_url and http_parse_host: cutting a URL into its fields. */
module UrlSplit {
  import opened Wrappers
  import opened HttpTypes
  import opened UrlChars
  import opened HttpNumerals

  datatype UrlField = SCHEMA | USERINFO | HOST | PORT | PATH | QUERY | FRAGMENT

  /** A run of the buffer; offsets and lengths are 16 bits wide. */
  datatype Span = Span(off: nat, len: nat) {
    function End(): nat { off + len }
    predicate Has(k: nat) { off <= k < off + len }
  }

  function U16(n: nat): (r: nat)
    ensures r <= n && r <= 0xFFFF && (n <= 0xFFFF ==> r == n)
  {
    n % 0x1_0000
  }

  /** The fields that are set, and where they are. */
  type Fields = map<UrlField, Span>

  function Place(f: UrlField): nat {
    match f
    case SCHEMA => 0
    case USERINFO => 1
    case HOST => 2
    case PORT => 3
    case PATH => 4
    case QUERY => 5
    case FRAGMENT => 6
  }

  predicate IsDelimiter(c: char) {
    c == ':' || c == '/' || c == '?' || c == '#' || c == '@' || c == '[' || c == ']'
  }

  ghost predicate Covered(fs: Fields, k: nat) { exists f :: f in fs && fs[f].Has(k) }

  ghost predicate Inside(fs: Fields, n: nat) {
    forall f :: f in fs ==> fs[f].len >= 1 && fs[f].End() <= n
  }

  /** In the order schema, userinfo, host, port, path, query, fragment, without overlap. */
  ghost predicate Ordered(fs: Fields) {
    forall f, g :: f in fs && g in fs && Place(f) < Place(g) ==> fs[f].End() <= fs[g].off
  }

  /** The fields tile the first `n` bytes: nothing but delimiters lies between them. */
  ghost predicate Tiles(fs: Fields, buf: string, n: nat)
    requires n <= |buf|
  {
    && Inside(fs, n) && Ordered(fs)
    && CoveredFrom(fs, buf, 0, n)
  }

  ghost predicate CoveredFrom(fs: Fields, buf: string, from: nat, n: nat)
    requires from <= n <= |buf|
  {
    forall k :: from <= k < n ==> Covered(fs, k) || IsDelimiter(buf[k])
  }

  lemma CoverMore(fs: Fields, fs': Fields, f: UrlField, buf: string, from: nat, n: nat)
    requires from <= n < |buf| && fs'.Keys == fs.Keys + {f}
    requires CoveredFrom(fs, buf, from, n)
    requires forall g :: g in fs && g != f ==> fs'[g] == fs[g]
    requires fs'[f].len >= 1 && fs'[f].End() == n + 1
    requires f in fs ==> fs'[f].off == fs[f].off && fs[f].End() == n
    ensures CoveredFrom(fs', buf, from, n + 1)
  {
    hide IsDelimiter;
    forall k | from <= k < n + 1 ensures Covered(fs', k) || IsDelimiter(buf[k]) {
      if k == n {
        assert fs'[f].Has(k);
      } else if Covered(fs, k) {
        var g :| g in fs && fs[g].Has(k);
        assert fs'[g].Has(k);
      }
    }
  }


  // ---- the first pass ----------------------------------------------------

  /** The field a byte belongs to, by the state it leads to; delimiters belong to none. */
  function Label(u: UrlPos): Option<UrlField> {
    match u
    case Schema => Some(SCHEMA)
    case Server | ServerWithAt => Some(HOST)
    case Path => Some(PATH)
    case Query => Some(QUERY)
    case Fragment => Some(FRAGMENT)
    case _ => None
  }

  /** The bytes of a URL that the machine assigns to field `f`. */
  function Labelled(start: UrlPos, text: string, f: UrlField): string {
    if text == [] then []
    else
      var before := Labelled(start, text[..|text| - 1], f);
      match UrlFold(start, text)
      case None => before
      case Some(v) => if Label(v) == Some(f) then before + [text[|text| - 1]] else before
  }

  /** Whether an '@' is met in the authority. */
  predicate HasAt(start: UrlPos, text: string) {
    text != [] && (UrlFold(start, text) == Some(ServerWithAt) || HasAt(start, text[..|text| - 1]))
  }

  /** The field is set when the text is not empty, and then covers exactly that text. */
  predicate Shows(fs: Fields, buf: string, f: UrlField, text: string) {
    if f in fs then text != [] && fs[f].End() <= |buf| && buf[fs[f].off..fs[f].End()] == text else text == []
  }

  /** URL states only ever move forward. */
  function Order(u: UrlPos): nat {
    match u
    case SpacesBeforeUrl => 0
    case Schema => 1
    case SchemaSlash => 2
    case SchemaSlashSlash => 3
    case ServerStart => 4
    case Server => 5
    case ServerWithAt => 5
    case Path => 6
    case QueryStart => 7
    case Query => 8
    case FragmentStart => 9
    case Fragment => 10
  }

  function FieldOrder(f: UrlField): nat {
    match f
    case SCHEMA => 1
    case HOST | USERINFO | PORT => 5
    case PATH => 6
    case QUERY => 8
    case FRAGMENT => 10
  }

  lemma Forward(u: UrlPos, ch: char)
    requires ParseUrlChar(u, ch).Some?
    ensures
      var v := ParseUrlChar(u, ch).value;
      Order(u) <= Order(v) && (Label(v).None? ==> IsDelimiter(ch)) && v != SpacesBeforeUrl
  {}

  lemma LabelOrder(u: UrlPos, f: UrlField)
    requires f != USERINFO && f != PORT
    ensures Label(u) == Some(f) <==> Order(u) == FieldOrder(f)
  {}

  ghost predicate FirstPass(fs: Fields, old_: Option<UrlField>, u: UrlPos) {
    && USERINFO !in fs && PORT !in fs
    && (forall g :: g in fs ==> FieldOrder(g) <= Order(u))
    && (if old_.None? then fs == map[]
        else old_.value in fs && forall g :: g in fs ==> Place(g) <= Place(old_.value))
  }

  /** The state of the first pass after `n` bytes. */
  ghost predicate Scanned(fs: Fields, old_: Option<UrlField>, u: UrlPos, buf: string, n: nat)
    requires n <= |buf|
  {
    && Tiles(fs, buf, n)
    && FirstPass(fs, old_, u)
    && (Label(u).Some? ==> old_ == Label(u) && fs[old_.value].End() == n)
  }

  lemma Grow(fs: Fields, f: UrlField, u: UrlPos, v: UrlPos, buf: string, n: nat)
    requires n < |buf| && Scanned(fs, Some(f), u, buf, n)
    requires Order(u) <= Order(v) && Label(v) == Some(f)
    ensures f in fs && fs[f].End() == n
    ensures Scanned(fs[f := Span(fs[f].off, fs[f].len + 1)], Some(f), v, buf, n + 1)
  {
    LabelOrder(u, f);
    LabelOrder(v, f);
    var fs' := fs[f := Span(fs[f].off, fs[f].len + 1)];
    CoverMore(fs, fs', f, buf, 0, n);
  }

  lemma Open(fs: Fields, old_: Option<UrlField>, f: UrlField, u: UrlPos, v: UrlPos, buf: string, n: nat)
    requires n < |buf| && Scanned(fs, old_, u, buf, n) && old_ != Some(f)
    requires Order(u) <= Order(v) && Label(v) == Some(f)
    ensures f !in fs
    ensures Scanned(fs[f := Span(n, 1)], Some(f), v, buf, n + 1)
  {
    LabelOrder(v, f);
    var fs' := fs[f := Span(n, 1)];
    hide FirstPass, Ordered, Order, FieldOrder, CoveredFrom, Place, Inside, Label;
    OpenIsLater(fs, old_, f, u, v);
    OpenOrdered(fs, f, n);
    OpenInside(fs, f, n);
    OpenFirstPass(fs, old_, f, u, v, Span(n, 1));
    CoverMore(fs, fs', f, buf, 0, n);
  }

  lemma OpenInside(fs: Fields, f: UrlField, n: nat)
    requires Inside(fs, n)
    ensures Inside(fs[f := Span(n, 1)], n + 1)
  {}

  lemma OpenOrdered(fs: Fields, f: UrlField, n: nat)
    requires Inside(fs, n) && Ordered(fs) && forall g :: g in fs ==> Place(g) < Place(f)
    ensures Ordered(fs[f := Span(n, 1)])
  {
    hide Place;
  }

  lemma OpenFirstPass(fs: Fields, old_: Option<UrlField>, f: UrlField, u: UrlPos, v: UrlPos, sp: Span)
    requires FirstPass(fs, old_, u) && Order(u) <= Order(v) == FieldOrder(f) && f != USERINFO && f != PORT
    requires forall g :: g in fs ==> Place(g) < Place(f)
    ensures FirstPass(fs[f := sp], Some(f), v)
  {
    hide Place, Order, FieldOrder;
  }

  lemma OpenIsLater(fs: Fields, old_: Option<UrlField>, f: UrlField, u: UrlPos, v: UrlPos)
    requires FirstPass(fs, old_, u) && old_ != Some(f) && Order(u) <= Order(v) && Order(v) == FieldOrder(f)
    requires f != USERINFO && f != PORT
    ensures forall g :: g in fs ==> Place(g) < Place(f)
  {
    hide Order;
    forall g | g in fs ensures Place(g) < Place(f) {
      assert FieldOrder(g) <= FieldOrder(f);
      if g == f { assert false; }
    }
  }

  lemma Skip(fs: Fields, old_: Option<UrlField>, u: UrlPos, v: UrlPos, buf: string, n: nat)
    requires n < |buf| && Scanned(fs, old_, u, buf, n)
    requires Order(u) <= Order(v) && Label(v).None? && IsDelimiter(buf[n])
    ensures Scanned(fs, old_, v, buf, n + 1)
  {}

  /** No field reaches beyond `i`. */
  ghost predicate EndsBy(fs: Fields, i: nat) {
    forall f :: f in fs ==> fs[f].End() <= i
  }

  ghost predicate Texts(start: UrlPos, fs: Fields, buf: string, i: nat)
    requires i <= |buf|
  {
    forall f :: Shows(fs, buf, f, Labelled(start, buf[..i], f))
  }

  ghost predicate Known(fs: Fields, old_: Option<UrlField>, i: nat) {
    (old_.Some? ==> old_.value in fs) && EndsBy(fs, i) && USERINFO !in fs && PORT !in fs
  }

  /** What the first loop holds after `i` bytes; the tiling needs offsets that fit 16 bits. */
  ghost predicate Splitting(start: UrlPos, s: UrlPos, at: bool, old_: Option<UrlField>, fs: Fields, buf: string,
                            i: nat) {
    && i <= |buf| && UrlFold(start, buf[..i]) == Some(s)
    && (at <==> HasAt(start, buf[..i]))
    && Known(fs, old_, i)
    && (|buf| <= 0xFFFF ==> Scanned(fs, old_, s, buf, i) && Texts(start, fs, buf, i))
  }

  /** The entry made for one byte in state `v`. */
  function Take(fs: Fields, old_: Option<UrlField>, v: UrlPos, i: nat): Fields
    requires old_.Some? ==> old_.value in fs
  {
    match Label(v)
    case None => fs
    case Some(f) =>
      if old_ == Some(f) then fs[f := Span(fs[f].off, U16(fs[f].len + 1))] else fs[f := Span(U16(i), 1)]
  }

  lemma SplittingStarts(start: UrlPos, buf: string)
    requires Label(start).None?
    ensures Splitting(start, start, false, None, map[], buf, 0)
  {}

  lemma SplittingStep(start: UrlPos, s: UrlPos, v: UrlPos, at: bool, old_: Option<UrlField>, fs: Fields,
                      buf: string, i: nat)
    requires Splitting(start, s, at, old_, fs, buf, i) && i < |buf| && ParseUrlChar(s, buf[i]) == Some(v)
    ensures Splitting(start, v, at || v == ServerWithAt, Current(old_, v), Take(fs, old_, v, i), buf, i + 1)
  {
    hide UrlFold, ParseUrlChar, Scanned, Take, Current, Labelled, HasAt, Texts, Known;
    FoldMore(start, buf, i);
    HasAtMore(start, buf, i);
    KnownStep(fs, old_, v, i);
    if |buf| <= 0xFFFF {
      ScannedStep(fs, old_, s, v, buf, i);
      TextsStep(start, fs, old_, s, v, buf, i);
    }
  }

  lemma HasAtMore(start: UrlPos, buf: string, i: nat)
    requires i < |buf|
    ensures HasAt(start, buf[..i + 1]) <==> HasAt(start, buf[..i]) || UrlFold(start, buf[..i + 1]) == Some(ServerWithAt)
  {
    hide UrlFold;
    assert buf[..i + 1][..i] == buf[..i];
  }

  lemma LabelledMore(start: UrlPos, buf: string, i: nat, v: UrlPos, f: UrlField)
    requires i < |buf| && UrlFold(start, buf[..i + 1]) == Some(v)
    ensures Labelled(start, buf[..i + 1], f) ==
            if Label(v) == Some(f) then Labelled(start, buf[..i], f) + [buf[i]] else Labelled(start, buf[..i], f)
  {
    hide UrlFold, Label;
    assert buf[..i + 1][..i] == buf[..i];
  }

  lemma TextsStep(start: UrlPos, fs: Fields, old_: Option<UrlField>, s: UrlPos, v: UrlPos, buf: string, i: nat)
    requires i < |buf| <= 0xFFFF && Scanned(fs, old_, s, buf, i) && ParseUrlChar(s, buf[i]) == Some(v)
    requires Texts(start, fs, buf, i) && UrlFold(start, buf[..i + 1]) == Some(v)
    ensures old_.Some? ==> old_.value in fs
    ensures Texts(start, Take(fs, old_, v, i), buf, i + 1)
  {
    TakenSpan(fs, old_, s, v, buf, i);
    hide Scanned, UrlFold, ParseUrlChar, Label, Take;
    var fs' := Take(fs, old_, v, i);
    var text := buf[..i + 1];
    forall f ensures Shows(fs', buf, f, Labelled(start, text, f)) {
      LabelledMore(start, buf, i, v, f);
      hide Labelled;
      assert Shows(fs, buf, f, Labelled(start, buf[..i], f));
      if Label(v) == Some(f) { ShowsMore(fs, fs', buf, f, Labelled(start, buf[..i], f), i); }
    }
  }

  lemma TakenSpan(fs: Fields, old_: Option<UrlField>, s: UrlPos, v: UrlPos, buf: string, i: nat)
    requires i < |buf| <= 0xFFFF && Scanned(fs, old_, s, buf, i) && ParseUrlChar(s, buf[i]) == Some(v)
    ensures old_.Some? ==> old_.value in fs
    ensures forall f :: Label(v) != Some(f) ==> Kept(fs, Take(fs, old_, v, i), f)
    ensures forall f :: Label(v) == Some(f) ==> Extended(fs, Take(fs, old_, v, i), f, i)
  {
    hide *;
    Forward(s, buf[i]);
    LiveIsKnown(fs, old_, s, buf, i);
    TakeSmall(fs, old_, v, i);
    if Label(v).Some? {
      if old_ == Label(v) {
        Grow(fs, old_.value, s, v, buf, i);
      } else {
        Open(fs, old_, Label(v).value, s, v, buf, i);
      }
      SpanCases(fs, Take(fs, old_, v, i), Label(v).value, i);
    }
    var fs' := Take(fs, old_, v, i);
    forall f | Label(v) != Some(f) ensures Kept(fs, fs', f) {
      var g := if Label(v).Some? then Label(v).value else f;
      KeptCases(fs, g, if g in fs' then fs'[g] else Span(0, 0), f);
    }
  }

  predicate Kept(fs: Fields, fs': Fields, f: UrlField) {
    (f in fs <==> f in fs') && (f in fs ==> fs'[f] == fs[f])
  }

  /** Byte `i` has been added to field `f`, which it may have opened. */
  predicate Extended(fs: Fields, fs': Fields, f: UrlField, i: nat) {
    f in fs' && if f in fs then fs[f].End() == i && fs'[f] == Span(fs[f].off, fs[f].len + 1) else fs'[f] == Span(i, 1)
  }

  lemma SpanCases(fs: Fields, fs': Fields, f: UrlField, i: nat)
    requires (f in fs && fs[f].End() == i && fs' == fs[f := Span(fs[f].off, fs[f].len + 1)])
          || (f !in fs && fs' == fs[f := Span(i, 1)])
    ensures Extended(fs, fs', f, i)
  {}

  lemma KeptCases(fs: Fields, g: UrlField, sp: Span, f: UrlField)
    ensures Kept(fs, fs, f) && (g != f ==> Kept(fs, fs[g := sp], f))
  {}

  lemma ShowsMore(fs: Fields, fs': Fields, buf: string, f: UrlField, text: string, i: nat)
    requires i < |buf| && Shows(fs, buf, f, text) && Extended(fs, fs', f, i)
    ensures Shows(fs', buf, f, text + [buf[i]])
  {
    assert buf[fs'[f].off..i + 1] == text + [buf[i]];
  }

  /** The field that is being read after a byte in state `v`. */
  function Current(old_: Option<UrlField>, v: UrlPos): Option<UrlField> { if Label(v).None? then old_ else Label(v) }

  lemma KnownStep(fs: Fields, old_: Option<UrlField>, v: UrlPos, i: nat)
    requires Known(fs, old_, i)
    ensures old_.Some? ==> old_.value in fs
    ensures Known(Take(fs, old_, v, i), Current(old_, v), i + 1)
  {
    hide U16;
  }

  lemma ScannedStep(fs: Fields, old_: Option<UrlField>, s: UrlPos, v: UrlPos, buf: string, i: nat)
    requires i < |buf| <= 0xFFFF && Scanned(fs, old_, s, buf, i) && ParseUrlChar(s, buf[i]) == Some(v)
    ensures old_.Some? ==> old_.value in fs
    ensures Scanned(Take(fs, old_, v, i), Current(old_, v), v, buf, i + 1)
  {
    hide ParseUrlChar, Scanned, Take, Label;
    Forward(s, buf[i]);
    LiveIsKnown(fs, old_, s, buf, i);
    if Label(v).None? {
      Skip(fs, old_, s, v, buf, i);
    } else if old_ == Label(v) {
      Grow(fs, old_.value, s, v, buf, i);
    } else {
      Open(fs, old_, Label(v).value, s, v, buf, i);
    }
    TakeSmall(fs, old_, v, i);
  }

  lemma LiveIsKnown(fs: Fields, old_: Option<UrlField>, u: UrlPos, buf: string, n: nat)
    requires n <= |buf| && Scanned(fs, old_, u, buf, n)
    ensures old_.Some? ==> old_.value in fs && fs[old_.value].End() <= n
  {}

  lemma TakeSmall(fs: Fields, old_: Option<UrlField>, v: UrlPos, i: nat)
    requires i < 0xFFFF && (old_.Some? ==> old_.value in fs && fs[old_.value].End() <= i)
    ensures Label(v).None? ==> Take(fs, old_, v, i) == fs
    ensures Label(v).Some? && old_ == Label(v) ==>
      Take(fs, old_, v, i) == fs[old_.value := Span(fs[old_.value].off, fs[old_.value].len + 1)]
    ensures Label(v).Some? && old_ != Label(v) ==> Take(fs, old_, v, i) == fs[Label(v).value := Span(i, 1)]
  {
    hide U16;
  }

  lemma FoldMore(start: UrlPos, buf: string, i: nat)
    requires i < |buf| && UrlFold(start, buf[..i]).Some?
    ensures UrlFold(start, buf[..i + 1]) == ParseUrlChar(UrlFold(start, buf[..i]).value, buf[i])
  {
    hide ParseUrlChar;
    assert buf[..i + 1][..i] == buf[..i];
  }

  lemma SplittingEnds(start: UrlPos, s: UrlPos, at: bool, old_: Option<UrlField>, fs: Fields, buf: string)
    requires Splitting(start, s, at, old_, fs, buf, |buf|)
    ensures UrlFold(start, buf) == Some(s) && (at <==> HasAt(start, buf))
    ensures |buf| <= 0xFFFF ==> Tiles(fs, buf, |buf|) && forall f :: Shows(fs, buf, f, Labelled(start, buf, f))
    ensures EndsBy(fs, |buf|) && USERINFO !in fs && PORT !in fs
  {
    hide UrlFold, HasAt, Labelled, Shows, EndsBy;
    assert buf[..|buf|] == buf;
  }

  lemma SplittingFails(start: UrlPos, s: UrlPos, at: bool, old_: Option<UrlField>, fs: Fields, buf: string, i: nat)
    requires Splitting(start, s, at, old_, fs, buf, i) && i < |buf| && ParseUrlChar(s, buf[i]).None?
    ensures UrlFold(start, buf).None?
  {
    hide ParseUrlChar;
    FoldMore(start, buf, i);
    MalformedPrefix(start, buf, i + 1);
  }

  /** The first pass in terms of the machine: a tiling, each field showing its bytes. */
  ghost predicate SplitFirst(isConnect: bool, fs: Fields, buf: string) {
    Tiles(fs, buf, |buf|) && forall f :: Shows(fs, buf, f, Labelled(Entry(isConnect), buf, f))
  }

  function Entry(isConnect: bool): UrlPos { if isConnect then ServerStart else SpacesBeforeUrl }

  /** The first loop of http_parser_parse_url: fails exactly on a malformed URL, and
      otherwise tiles the buffer with schema, host, path, query and fragment. */
  method SplitFields(buf: string, isConnect: bool) returns (ok: bool, fs: Fields, foundAt: bool)
    ensures ok <==> UrlFold(Entry(isConnect), buf).Some?
    ensures ok ==> EndsBy(fs, |buf|) && USERINFO !in fs && PORT !in fs
    ensures ok ==> (foundAt <==> HasAt(Entry(isConnect), buf))
    ensures ok && |buf| <= 0xFFFF ==> SplitFirst(isConnect, fs, buf)
  {
    hide Splitting, ParseUrlChar, UrlFold, Tiles, HasAt, Labelled, Shows, EndsBy;
    var s := Entry(isConnect);
    var oldUf: Option<UrlField> := None;
    fs, foundAt := map[], false;
    SplittingStarts(s, buf);
    var i := 0;
    while i < |buf|
      invariant i <= |buf| && (oldUf.Some? ==> oldUf.value in fs)
      invariant Splitting(Entry(isConnect), s, foundAt, oldUf, fs, buf, i)
    {
      match ParseUrlChar(s, buf[i]) {
        case None =>
          SplittingFails(Entry(isConnect), s, foundAt, oldUf, fs, buf, i);
          return false, fs, foundAt;
        case Some(v) =>
          SplittingStep(Entry(isConnect), s, v, foundAt, oldUf, fs, buf, i);
          foundAt := foundAt || v == ServerWithAt;
          match Label(v) {
            case None =>
            case Some(uf) =>
              if oldUf == Some(uf) {
                fs := fs[uf := Span(fs[uf].off, U16(fs[uf].len + 1))];
              } else {
                fs := fs[uf := Span(U16(i), 1)];
                oldUf := Some(uf);
              }
          }
          s := v;
      }
      i := i + 1;
    }
    SplittingEnds(Entry(isConnect), s, foundAt, oldUf, fs, buf);
    ok := true;
  }

  lemma {:induction false} MalformedPrefix(from: UrlPos, buf: string, n: nat)
    requires n <= |buf| && UrlFold(from, buf[..n]).None?
    ensures UrlFold(from, buf).None?
    decreases |buf| - n
  {
    if n == |buf| {
      assert buf[..n] == buf;
    } else {
      assert buf[..n + 1][..n] == buf[..n];
      MalformedPrefix(from, buf, n + 1);
    }
  }

  // ---- the host pass -----------------------------------------------------

  datatype HostPos =
    | UserinfoStart | Userinfo | HostStart | HostV6Start | Host | HostV6 | HostV6End | PortStart | Port

  /** http_parse_host_char; None is s_http_host_dead. */
  function ParseHostChar(s: HostPos, ch: char): Option<HostPos> {
    match s
    case UserinfoStart | Userinfo =>
      if ch == '@' then Some(HostStart) else if IsUserinfoChar(ch) then Some(Userinfo) else None
    case HostStart =>
      if ch == '[' then Some(HostV6Start) else if IsHostChar(ch) then Some(Host) else None
    case Host =>
      if IsHostChar(ch) then Some(Host) else if ch == ':' then Some(PortStart) else None
    case HostV6End =>
      if ch == ':' then Some(PortStart) else None
    case HostV6 =>
      if ch == ']' then Some(HostV6End)
      else if IsHex(ch) || ch == ':' || ch == '.' then Some(HostV6) else None
    case HostV6Start =>
      if IsHex(ch) || ch == ':' || ch == '.' then Some(HostV6) else None
    case PortStart | Port =>
      if IsNum(ch) then Some(Port) else None
  }

  function HostFold(from: HostPos, text: string): Option<HostPos> {
    if text == [] then Some(from)
    else match HostFold(from, text[..|text| - 1])
      case None => None
      case Some(s) => ParseHostChar(s, text[|text| - 1])
  }

  predicate HostEnd(s: HostPos) { s == Host || s == HostV6End || s == Port }

  /** An authority is accepted when the machine ends after a host or a port. */
  predicate AuthorityOk(foundAt: bool, text: string) {
    match HostFold(HostEntry(foundAt), text)
    case None => false
    case Some(s) => HostEnd(s)
  }

  function HostLabel(s: HostPos): Option<UrlField> {
    match s
    case Userinfo => Some(USERINFO)
    case Host | HostV6 => Some(HOST)
    case Port => Some(PORT)
    case _ => None
  }

  /** The bytes of an authority that the machine assigns to field `f`. */
  function HostLabelled(start: HostPos, text: string, f: UrlField): string {
    if text == [] then []
    else
      var before := HostLabelled(start, text[..|text| - 1], f);
      match HostFold(start, text)
      case None => before
      case Some(v) => if HostLabel(v) == Some(f) then before + [text[|text| - 1]] else before
  }

  function HostOrder(s: HostPos): nat {
    match s
    case UserinfoStart => 0
    case Userinfo => 1
    case HostStart => 2
    case HostV6Start => 3
    case Host => 4
    case HostV6 => 4
    case HostV6End => 5
    case PortStart => 6
    case Port => 7
  }

  predicate HostField(f: UrlField) { f == USERINFO || f == HOST || f == PORT }

  function HostFieldOrder(f: UrlField): nat
    requires HostField(f)
  {
    match f
    case USERINFO => 1
    case HOST => 4
    case PORT => 7
  }

  /** The fields of the authority found in bytes `from` to `n`. */
  ghost predicate HostScanned(fs: Fields, s: HostPos, buf: string, from: nat, n: nat)
    requires from <= n <= |buf|
  {
    && Inside(fs, n) && Ordered(fs) && Placed(fs, s, from) && CoveredFrom(fs, buf, from, n)
    && (HostLabel(s).Some? ==> HostLabel(s).value in fs && fs[HostLabel(s).value].End() == n)
    && (HostOrder(s) >= 5 ==> HOST in fs)
  }

  ghost predicate Placed(fs: Fields, s: HostPos, from: nat) {
    forall f :: f in fs ==> HostField(f) && fs[f].off >= from && HostFieldOrder(f) <= HostOrder(s)
  }

  lemma HostForward(s: HostPos, ch: char)
    requires ParseHostChar(s, ch).Some?
    ensures
      var t := ParseHostChar(s, ch).value;
      && HostOrder(s) <= HostOrder(t) && (HostLabel(t).None? ==> IsDelimiter(ch))
      && (HostOrder(t) >= 5 ==> HostOrder(s) >= 4)
      && (HostOrder(s) == HostOrder(t) ==> s == t)
  {}

  lemma HostLabelOrder(s: HostPos, f: UrlField)
    requires HostField(f)
    ensures HostLabel(s) == Some(f) <==> HostOrder(s) == HostFieldOrder(f)
  {}

  /** One more byte of the authority: it extends its field, opens it, or is a delimiter. */
  function HostTake(fs: Fields, s: HostPos, t: HostPos, i: nat): Fields {
    match HostLabel(t)
    case None => fs
    case Some(f) =>
      if s == t && f in fs then fs[f := Span(fs[f].off, fs[f].len + 1)] else fs[f := Span(i, 1)]
  }

  lemma HostStep(fs: Fields, s: HostPos, t: HostPos, buf: string, from: nat, n: nat)
    requires from <= n < |buf| && HostScanned(fs, s, buf, from, n)
    requires ParseHostChar(s, buf[n]) == Some(t)
    ensures HostScanned(HostTake(fs, s, t, n), t, buf, from, n + 1)
  {
    HostForward(s, buf[n]);
    hide ParseHostChar;
    var fs' := HostTake(fs, s, t, n);
    match HostLabel(t) {
      case None =>
        HostSkips(fs, s, t, buf, from, n);
      case Some(f) =>
        HostLabelOrder(t, f);
        HostLabelOrder(s, f);
        if s != t && f in fs { assert false; }
        HostGrows(fs, fs', s, t, f, buf, from, n);
    }
  }

  lemma HostSkips(fs: Fields, s: HostPos, t: HostPos, buf: string, from: nat, n: nat)
    requires from <= n < |buf| && HostScanned(fs, s, buf, from, n)
    requires HostOrder(s) <= HostOrder(t) && HostLabel(t).None? && IsDelimiter(buf[n])
    requires HostOrder(t) >= 5 ==> HostOrder(s) >= 4
    ensures HostScanned(fs, t, buf, from, n + 1)
  {
    if HostOrder(s) == 4 { HostLabelOrder(s, HOST); }
  }

  lemma HostGrows(fs: Fields, fs': Fields, s: HostPos, t: HostPos, f: UrlField, buf: string, from: nat, n: nat)
    requires from <= n < |buf| && HostScanned(fs, s, buf, from, n) && HostOrder(s) <= HostOrder(t)
    requires HostLabel(t) == Some(f) && HostField(f)
    requires HostOrder(t) >= 5 ==> HostOrder(s) >= 4
    requires if s == t then f in fs && fs' == fs[f := Span(fs[f].off, fs[f].len + 1)]
             else f !in fs && fs' == fs[f := Span(n, 1)]
    ensures HostScanned(fs', t, buf, from, n + 1)
  {
    hide Ordered, CoveredFrom, Inside, Placed, HostOrder, HostFieldOrder, HostField;
    HostLabelOrder(t, f);
    HostGrowsOn(fs, s, buf, from, n);
    HostGrowsOrder(fs, fs', s, t, f, from, n);
    HostGrowsInside(fs, fs', s, t, f, from, n);
    CoverMore(fs, fs', f, buf, from, n);
  }

  lemma HostGrowsInside(fs: Fields, fs': Fields, s: HostPos, t: HostPos, f: UrlField, from: nat, n: nat)
    requires from <= n && Inside(fs, n) && Placed(fs, s, from) && HostOrder(s) <= HostOrder(t)
    requires HostField(f) && HostOrder(t) == HostFieldOrder(f)
    requires if s == t then f in fs && fs[f].End() == n && fs' == fs[f := Span(fs[f].off, fs[f].len + 1)]
             else f !in fs && fs' == fs[f := Span(n, 1)]
    ensures Inside(fs', n + 1) && Placed(fs', t, from)
  {}

  lemma HostGrowsOn(fs: Fields, s: HostPos, buf: string, from: nat, n: nat)
    requires from <= n < |buf| && HostScanned(fs, s, buf, from, n)
    ensures HostOrder(s) >= 4 ==> HOST in fs
  {
    if HostOrder(s) == 4 { HostLabelOrder(s, HOST); }
  }

  lemma HostGrowsOrder(fs: Fields, fs': Fields, s: HostPos, t: HostPos, f: UrlField, from: nat, n: nat)
    requires from <= n && Inside(fs, n) && Ordered(fs) && Placed(fs, s, from) && HostOrder(s) <= HostOrder(t)
    requires HostLabel(t) == Some(f) && HostField(f) && HostOrder(t) == HostFieldOrder(f)
    requires if s == t then f in fs && fs' == fs[f := Span(fs[f].off, fs[f].len + 1)]
             else f !in fs && fs' == fs[f := Span(n, 1)]
    ensures Ordered(fs')
  {
    forall h | h in fs && h != f ensures Place(h) < Place(f) {
      hide Ordered, Inside, Place;
      assert HostField(h) && HostFieldOrder(h) <= HostFieldOrder(f);
      FieldsApart(f, h);
    }
    hide Placed, HostField, HostFieldOrder, HostOrder, HostLabel, Place;
    LastGrows(fs, fs', f, n);
  }

  /** Growing the last field, or opening one behind all others, keeps the order. */
  lemma LastGrows(fs: Fields, fs': Fields, f: UrlField, n: nat)
    requires Inside(fs, n) && Ordered(fs) && forall h :: h in fs && h != f ==> Place(h) < Place(f)
    requires (f in fs && fs' == fs[f := Span(fs[f].off, fs[f].len + 1)]) || (f !in fs && fs' == fs[f := Span(n, 1)])
    ensures Ordered(fs')
  {
    hide Place;
    forall g, h | g in fs' && h in fs' && Place(g) < Place(h) ensures fs'[g].End() <= fs'[h].off {
      if h == f {
        assert g in fs && fs'[g] == fs[g];
      } else {
        assert fs'[g] == fs[g] && fs'[h] == fs[h];
      }
    }
  }

  lemma FieldsApart(f: UrlField, g: UrlField)
    requires HostField(f) && HostField(g) && HostFieldOrder(g) <= HostFieldOrder(f)
    ensures Place(g) < Place(f) || g == f
  {}

  /** What the loop of http_parse_host holds after the bytes `from` to `i`. */
  ghost predicate Hosting(start: HostPos, s: HostPos, fs: Fields, buf: string, from: nat, i: nat) {
    && from <= i <= |buf| && HostFold(start, buf[from..i]) == Some(s)
    && EndsBy(fs, i)
    && (|buf| <= 0xFFFF ==> HostScanned(fs, s, buf, from, i) && HostTexts(start, fs, buf, from, i))
  }

  ghost predicate HostTexts(start: HostPos, fs: Fields, buf: string, from: nat, i: nat)
    requires from <= i <= |buf|
  {
    forall f :: Shows(fs, buf, f, HostLabelled(start, buf[from..i], f))
  }

  lemma HostLabelledMore(start: HostPos, buf: string, from: nat, i: nat, v: HostPos, f: UrlField)
    requires from <= i < |buf| && HostFold(start, buf[from..i + 1]) == Some(v)
    ensures HostLabelled(start, buf[from..i + 1], f) ==
            if HostLabel(v) == Some(f) then HostLabelled(start, buf[from..i], f) + [buf[i]]
            else HostLabelled(start, buf[from..i], f)
  {
    hide HostFold, HostLabel;
    assert buf[from..i + 1][..i - from] == buf[from..i];
  }

  lemma HostTextsStep(start: HostPos, fs: Fields, s: HostPos, t: HostPos, buf: string, from: nat, i: nat)
    requires from <= i < |buf| && HostScanned(fs, s, buf, from, i) && ParseHostChar(s, buf[i]) == Some(t)
    requires HostTexts(start, fs, buf, from, i) && HostFold(start, buf[from..i + 1]) == Some(t)
    ensures HostTexts(start, HostTake(fs, s, t, i), buf, from, i + 1)
  {
    HostTakenSpan(fs, s, t, buf, from, i);
    hide HostScanned, HostFold, ParseHostChar, HostLabel, HostTake;
    var fs' := HostTake(fs, s, t, i);
    var text := buf[from..i + 1];
    forall f ensures Shows(fs', buf, f, HostLabelled(start, text, f)) {
      HostLabelledMore(start, buf, from, i, t, f);
      hide HostLabelled;
      assert Shows(fs, buf, f, HostLabelled(start, buf[from..i], f));
      if HostLabel(t) == Some(f) { ShowsMore(fs, fs', buf, f, HostLabelled(start, buf[from..i], f), i); }
    }
  }

  lemma HostTakenSpan(fs: Fields, s: HostPos, t: HostPos, buf: string, from: nat, i: nat)
    requires from <= i < |buf| && HostScanned(fs, s, buf, from, i) && ParseHostChar(s, buf[i]) == Some(t)
    ensures forall f :: HostLabel(t) != Some(f) ==> Kept(fs, HostTake(fs, s, t, i), f)
    ensures forall f :: HostLabel(t) == Some(f) ==> Extended(fs, HostTake(fs, s, t, i), f, i)
  {
    HostForward(s, buf[i]);
    var fs' := HostTake(fs, s, t, i);
    if HostLabel(t).Some? {
      var f := HostLabel(t).value;
      HostLabelOrder(t, f);
      if s != t { HostFieldIsNew(fs, s, t, f, from); }
      hide *;
      hide HostScanned, HostOrder, HostFieldOrder, HostField, ParseHostChar;
      assert f in fs ==> fs[f].End() == i by { if f in fs { HostLive(fs, s, buf, from, i); } }
      HostTakes(fs, s, t, i);
      SpanCases(fs, fs', f, i);
    }
    hide *;
    HostTakes(fs, s, t, i);
    forall f | HostLabel(t) != Some(f) ensures Kept(fs, fs', f) {
      var g := if HostLabel(t).Some? then HostLabel(t).value else f;
      KeptCases(fs, g, if g in fs' then fs'[g] else Span(0, 0), f);
    }
  }

  lemma HostLive(fs: Fields, s: HostPos, buf: string, from: nat, i: nat)
    requires from <= i <= |buf| && HostScanned(fs, s, buf, from, i)
    ensures HostLabel(s).Some? ==> HostLabel(s).value in fs && fs[HostLabel(s).value].End() == i
  {}

  lemma HostTakes(fs: Fields, s: HostPos, t: HostPos, i: nat)
    ensures HostLabel(t).None? ==> HostTake(fs, s, t, i) == fs
    ensures HostLabel(t).Some? && s == t && HostLabel(t).value in fs ==>
      var f := HostLabel(t).value; HostTake(fs, s, t, i) == fs[f := Span(fs[f].off, fs[f].len + 1)]
    ensures HostLabel(t).Some? && !(s == t && HostLabel(t).value in fs) ==>
      HostTake(fs, s, t, i) == fs[HostLabel(t).value := Span(i, 1)]
  {}

  lemma HostFieldIsNew(fs: Fields, s: HostPos, t: HostPos, f: UrlField, from: nat)
    requires Placed(fs, s, from) && HostField(f) && HostOrder(s) < HostOrder(t) == HostFieldOrder(f)
    ensures f !in fs
  {
  }

  function HostTake16(fs: Fields, s: HostPos, t: HostPos, i: nat): Fields {
    match HostLabel(t)
    case None => fs
    case Some(f) =>
      if s == t && f in fs then fs[f := Span(fs[f].off, U16(fs[f].len + 1))] else fs[f := Span(U16(i), 1)]
  }

  lemma HostingStep(start: HostPos, s: HostPos, t: HostPos, fs: Fields, buf: string, from: nat, i: nat)
    requires Hosting(start, s, fs, buf, from, i) && i < |buf| && ParseHostChar(s, buf[i]) == Some(t)
    ensures Hosting(start, t, HostTake16(fs, s, t, i), buf, from, i + 1)
  {
    HostFoldMore(start, buf, from, i);
    HostTakeEnds(fs, s, t, i);
    if |buf| <= 0xFFFF {
      HostStep(fs, s, t, buf, from, i);
      HostTextsStep(start, fs, s, t, buf, from, i);
      SmallSpans(fs, s, t, buf, from, i);
    }
    hide HostFold, ParseHostChar, HostScanned, HostTexts, HostTake16, HostTake, EndsBy;
  }

  lemma HostTakeEnds(fs: Fields, s: HostPos, t: HostPos, i: nat)
    requires EndsBy(fs, i)
    ensures EndsBy(HostTake16(fs, s, t, i), i + 1)
  {
    hide U16;
  }

  lemma HostFoldMore(start: HostPos, buf: string, from: nat, i: nat)
    requires from <= i < |buf| && HostFold(start, buf[from..i]).Some?
    ensures HostFold(start, buf[from..i + 1]) == ParseHostChar(HostFold(start, buf[from..i]).value, buf[i])
  {
    hide ParseHostChar;
    assert buf[from..i + 1][..i - from] == buf[from..i];
  }

  lemma HostingStarts(start: HostPos, buf: string, from: nat)
    requires from <= |buf| && (start == UserinfoStart || start == HostStart)
    ensures Hosting(start, start, map[], buf, from, from)
  {}

  lemma HostingFails(start: HostPos, s: HostPos, fs: Fields, buf: string, from: nat, i: nat, end: nat)
    requires Hosting(start, s, fs, buf, from, i) && i < end <= |buf| && ParseHostChar(s, buf[i]).None?
    ensures HostFold(start, buf[from..end]).None?
  {
    hide ParseHostChar;
    HostFoldMore(start, buf, from, i);
    MalformedAuthority(start, buf, from, i + 1, end);
  }

  lemma HostingEnds(start: HostPos, s: HostPos, fs: Fields, buf: string, from: nat, end: nat)
    requires Hosting(start, s, fs, buf, from, end)
    ensures HostFold(start, buf[from..end]) == Some(s)
    ensures EndsBy(fs, end)
    ensures HostEnd(s) && |buf| <= 0xFFFF ==>
      TilesHost(fs, buf, from, end) && forall f :: Shows(fs, buf, f, HostLabelled(start, buf[from..end], f))
  {
    hide HostFold, HostLabelled, Shows, EndsBy;
    if |buf| <= 0xFFFF && HostEnd(s) && HostOrder(s) == 4 { HostLabelOrder(s, HOST); }
  }

  /** Userinfo, host and port of an authority that lies in the bytes `from` to `end`. */
  ghost predicate TilesHost(fs: Fields, buf: string, from: nat, end: nat)
    requires from <= end <= |buf|
  {
    && Inside(fs, end) && Ordered(fs) && HOST in fs
    && (forall f :: f in fs ==> HostField(f) && fs[f].off >= from)
    && CoveredFrom(fs, buf, from, end)
  }

  ghost predicate SplitHost(at: bool, fs: Fields, buf: string, from: nat, end: nat)
    requires from <= end <= |buf|
  {
    TilesHost(fs, buf, from, end) && forall f :: Shows(fs, buf, f, HostLabelled(HostEntry(at), buf[from..end], f))
  }

  function HostEntry(foundAt: bool): HostPos { if foundAt then UserinfoStart else HostStart }

  /** http_parse_host on bytes `from` to `end`: fails exactly on a malformed authority, and
      otherwise tiles those bytes with userinfo, host and port; there is a host. */
  method ParseHost(buf: string, from: nat, end: nat, foundAt: bool) returns (ok: bool, fs: Fields)
    requires from <= end <= |buf|
    ensures ok <==> AuthorityOk(foundAt, buf[from..end])
    ensures ok ==> EndsBy(fs, end)
    ensures ok && |buf| <= 0xFFFF ==> SplitHost(foundAt, fs, buf, from, end)
  {
    hide Hosting, ParseHostChar, HostFold, TilesHost, HostLabelled, Shows, EndsBy;
    var s := HostEntry(foundAt);
    fs := map[];
    HostingStarts(s, buf, from);
    var i := from;
    while i < end
      invariant from <= i <= end && Hosting(HostEntry(foundAt), s, fs, buf, from, i)
    {
      match ParseHostChar(s, buf[i]) {
        case None =>
          HostingFails(HostEntry(foundAt), s, fs, buf, from, i, end);
          return false, fs;
        case Some(t) =>
          HostingStep(HostEntry(foundAt), s, t, fs, buf, from, i);
          match HostLabel(t) {
            case None =>
            case Some(f) =>
              if s == t && f in fs {
                fs := fs[f := Span(fs[f].off, U16(fs[f].len + 1))];
              } else {
                fs := fs[f := Span(U16(i), 1)];
              }
          }
          s := t;
      }
      i := i + 1;
    }
    HostingEnds(HostEntry(foundAt), s, fs, buf, from, end);
    ok := HostEnd(s);
  }

  lemma SmallSpans(fs: Fields, s: HostPos, t: HostPos, buf: string, from: nat, n: nat)
    requires from <= n < |buf| <= 0xFFFF && HostScanned(fs, s, buf, from, n)
    ensures HostTake16(fs, s, t, n) == HostTake(fs, s, t, n)
  {
    hide U16, Ordered, Covered;
  }

  lemma {:induction false} MalformedAuthority(start: HostPos, buf: string, from: nat, n: nat, end: nat)
    requires from <= n <= end <= |buf| && HostFold(start, buf[from..n]).None?
    ensures HostFold(start, buf[from..end]).None?
    decreases end - n
  {
    if n < end {
      assert buf[from..n + 1][..n - from] == buf[from..n];
      MalformedAuthority(start, buf, from, n + 1, end);
    }
  }

  // ---- both passes -------------------------------------------------------

  datatype UrlParts = UrlParts(fields: Fields, port: nat)

  /** The fields of the authority replace the host of the first pass. */
  function Merged(fs: Fields, parts: Fields): Fields { (fs - {HOST}) + parts }

  predicate HostAndPort(fs: Fields) { fs.Keys == {HOST, PORT} }

  /** The text of each field of a URL, by the two machines alone. */
  function FieldText(isConnect: bool, url: string, f: UrlField): string {
    var start := Entry(isConnect);
    if HostField(f) then HostLabelled(HostEntry(HasAt(start, url)), Labelled(start, url, HOST), f)
    else Labelled(start, url, f)
  }

  /** The URLs that have an authority to look at, and those whose authority is well formed. */
  predicate AuthorityFits(isConnect: bool, url: string) {
    var start := Entry(isConnect);
    || (Labelled(start, url, SCHEMA) == [] && Labelled(start, url, HOST) == [])
    || AuthorityOk(HasAt(start, url), Labelled(start, url, HOST))
  }

  /** What http_parser_parse_url accepts. */
  ghost predicate Acceptable(isConnect: bool, url: string) {
    && UrlFold(Entry(isConnect), url).Some?
    && AuthorityFits(isConnect, url)
    && (isConnect ==> forall f :: FieldText(isConnect, url, f) != [] <==> f == HOST || f == PORT)
    && Value(FieldText(isConnect, url, PORT), 10) <= 0xFFFF
  }

  /** http_parser_parse_url on a zeroed result.  For a buffer of at most 65535 bytes: it succeeds
      exactly on acceptable URLs; the fields tile the buffer in order, each set field covers
      exactly its text, and the port is the number the port field denotes. */
  method ParseUrl(buf: string, isConnect: bool) returns (ok: bool, u: UrlParts)
    ensures ok ==> UrlFold(Entry(isConnect), buf).Some?
    ensures |buf| <= 0xFFFF ==> (ok <==> Acceptable(isConnect, buf))
    ensures ok && |buf| <= 0xFFFF ==>
      && Tiles(u.fields, buf, |buf|) && (SCHEMA in u.fields ==> HOST in u.fields)
      && ShowsTexts(isConnect, u.fields, buf)
      && u.port == Value(FieldText(isConnect, buf, PORT), 10)
  {
    hide UrlFold, Tiles, TilesHost, HostFold, Value, Labelled, HostLabelled, HasAt, Shows, Acceptable, SplitWell;
    hide FieldText, AuthorityOk, EndsBy,
      SplitFirst, SplitHost, ShowsTexts, Entry, HostEntry, Merged, HostAndPort;
    u := UrlParts(map[], 0);
    var fs, foundAt;
    ok, fs, foundAt := SplitFields(buf, isConnect);
    if !ok {
      NotAcceptable(isConnect, buf);
      return;
    }
    if SCHEMA in fs || HOST in fs {
      var host := if HOST in fs then fs[HOST] else Span(0, 0);
      EndOf(fs, HOST, |buf|);
      var parts;
      ok, parts := ParseHost(buf, host.off, host.End(), foundAt);
      if |buf| <= 0xFFFF { WithAuthority(isConnect, buf, fs, foundAt, host, parts, ok); }
      if !ok { return; }
      EndsByMerge(fs, parts, host.End(), |buf|);
      fs := Merged(fs, parts);
    } else if |buf| <= 0xFFFF {
      WithoutAuthority(isConnect, buf, fs);
    }
    if isConnect && !HostAndPort(fs) {
      if |buf| <= 0xFFFF { ConnectNeedsHostAndPort(buf, fs); }
      return false, u;
    }
    u := UrlParts(fs, 0);
    if PORT in fs {
      EndOf(fs, PORT, |buf|);
      var v := Value(buf[fs[PORT].off..fs[PORT].End()], 10);
      if |buf| <= 0xFFFF { PortOfText(isConnect, buf, fs); }
      if v > 0xFFFF { return false, u; }
      u := UrlParts(fs, v);
    } else if |buf| <= 0xFFFF {
      NoPort(isConnect, buf, fs);
    }
    if |buf| <= 0xFFFF { AllAcceptable(isConnect, buf, fs); }
    return true, u;
  }

  /** Each field is set exactly when its text is not empty, and then covers exactly that text. */
  ghost predicate ShowsTexts(isConnect: bool, fs: Fields, buf: string) {
    forall f :: Shows(fs, buf, f, FieldText(isConnect, buf, f))
  }

  lemma EndOf(fs: Fields, f: UrlField, n: nat)
    requires EndsBy(fs, n)
    ensures f in fs ==> fs[f].End() <= n
  {}

  lemma EndsByMerge(fs: Fields, parts: Fields, end: nat, n: nat)
    requires EndsBy(fs, n) && EndsBy(parts, end) && end <= n
    ensures EndsBy(Merged(fs, parts), n)
  {}

  /** What holds of the fields once the authority has been looked at. */
  ghost predicate SplitWell(isConnect: bool, buf: string, fs: Fields) {
    && UrlFold(Entry(isConnect), buf).Some? && AuthorityFits(isConnect, buf)
    && Tiles(fs, buf, |buf|) && (SCHEMA in fs ==> HOST in fs)
    && ShowsTexts(isConnect, fs, buf)
  }

  lemma NotAcceptable(isConnect: bool, buf: string)
    requires UrlFold(Entry(isConnect), buf).None? || !AuthorityFits(isConnect, buf)
    ensures !Acceptable(isConnect, buf)
  {
    hide UrlFold, AuthorityFits, FieldText, Value;
  }

  lemma WithoutAuthority(isConnect: bool, buf: string, fs: Fields)
    requires UrlFold(Entry(isConnect), buf).Some? && SplitFirst(isConnect, fs, buf)
    requires SCHEMA !in fs && HOST !in fs && USERINFO !in fs && PORT !in fs
    ensures SplitWell(isConnect, buf, fs)
  {
    hide UrlFold, Tiles, Labelled, HasAt, HostFold;
    assert Shows(fs, buf, SCHEMA, Labelled(Entry(isConnect), buf, SCHEMA));
    assert Shows(fs, buf, HOST, Labelled(Entry(isConnect), buf, HOST));
  }

  /** http_parse_host decides, and its fields take the place of the whole authority. */
  lemma WithAuthority(isConnect: bool, buf: string, fs: Fields, at: bool, host: Span, parts: Fields, ok: bool)
    requires UrlFold(Entry(isConnect), buf).Some? && SplitFirst(isConnect, fs, buf)
      && (at <==> HasAt(Entry(isConnect), buf))
    requires (SCHEMA in fs || HOST in fs) && USERINFO !in fs && PORT !in fs
    requires host == (if HOST in fs then fs[HOST] else Span(0, 0)) && host.End() <= |buf|
    requires ok <==> AuthorityOk(at, buf[host.off..host.End()])
    requires ok ==> SplitHost(at, parts, buf, host.off, host.End())
    ensures ok ==> SplitWell(isConnect, buf, Merged(fs, parts))
    ensures !ok ==> !Acceptable(isConnect, buf)
  {
    hide *;
    FirstShows(isConnect, fs, buf, HOST);
    FirstShows(isConnect, fs, buf, SCHEMA);
    var text := Labelled(Entry(isConnect), buf, HOST);
    AuthorityBytes(fs, buf, host, text, Labelled(Entry(isConnect), buf, SCHEMA));
    AuthorityDecides(isConnect, buf, at);
    if ok {
      EmptyAuthority(at);
      MergedWell(isConnect, buf, fs, at, host, parts);
    } else {
      NotAcceptable(isConnect, buf);
    }
  }

  lemma AuthorityDecides(isConnect: bool, buf: string, at: bool)
    requires at <==> HasAt(Entry(isConnect), buf)
    requires Labelled(Entry(isConnect), buf, SCHEMA) != [] || Labelled(Entry(isConnect), buf, HOST) != []
    ensures AuthorityFits(isConnect, buf) <==> AuthorityOk(at, Labelled(Entry(isConnect), buf, HOST))
  {
    hide AuthorityOk, Labelled, HasAt, Entry;
  }

  lemma MergedWell(isConnect: bool, buf: string, fs: Fields, at: bool, host: Span, parts: Fields)
    requires UrlFold(Entry(isConnect), buf).Some? && AuthorityFits(isConnect, buf)
    requires SplitFirst(isConnect, fs, buf) && (at <==> HasAt(Entry(isConnect), buf)) && HOST in fs && host == fs[HOST]
    requires USERINFO !in fs && PORT !in fs && host.End() <= |buf|
    requires buf[host.off..host.End()] == Labelled(Entry(isConnect), buf, HOST)
    requires SplitHost(at, parts, buf, host.off, host.End())
    ensures SplitWell(isConnect, buf, Merged(fs, parts))
  {
    hide UrlFold, AuthorityFits, Tiles, Labelled, HasAt, SplitHost, SplitFirst, Merged, ShowsTexts, Entry;
    FirstTiles(isConnect, fs, buf);
    MergedTiles(fs, parts, buf, host, at);
    MergedTexts(isConnect, buf, fs, at, host, parts);
  }

  lemma FirstShows(isConnect: bool, fs: Fields, buf: string, f: UrlField)
    requires SplitFirst(isConnect, fs, buf)
    ensures Shows(fs, buf, f, Labelled(Entry(isConnect), buf, f))
  {
    hide Shows, Labelled, Tiles;
  }

  lemma FirstTiles(isConnect: bool, fs: Fields, buf: string)
    requires SplitFirst(isConnect, fs, buf)
    ensures Tiles(fs, buf, |buf|)
  {
    hide Shows, Labelled, Tiles;
  }

  /** The host span of the first pass covers the bytes the machine gives to the authority. */
  lemma AuthorityBytes(fs: Fields, buf: string, host: Span, hostText: string, schemaText: string)
    requires Shows(fs, buf, HOST, hostText) && Shows(fs, buf, SCHEMA, schemaText) && (SCHEMA in fs || HOST in fs)
    requires host == (if HOST in fs then fs[HOST] else Span(0, 0)) && host.End() <= |buf|
    ensures buf[host.off..host.End()] == hostText && (schemaText != [] || hostText != [])
    ensures hostText == [] <==> HOST !in fs
  {}

  lemma MergedTiles(fs: Fields, parts: Fields, buf: string, host: Span, at: bool)
    requires Tiles(fs, buf, |buf|) && USERINFO !in fs && PORT !in fs && HOST in fs && host == fs[HOST]
      && host.End() <= |buf|
    requires SplitHost(at, parts, buf, host.off, host.End())
    ensures Tiles(Merged(fs, parts), buf, |buf|) && HOST in Merged(fs, parts)
  {
    hide Tiles, TilesHost, Shows, HostLabelled;
    Refined(fs, parts, buf, host);
  }

  lemma MergedTexts(isConnect: bool, buf: string, fs: Fields, at: bool, host: Span, parts: Fields)
    requires SplitFirst(isConnect, fs, buf) && (at <==> HasAt(Entry(isConnect), buf)) && HOST in fs && host == fs[HOST]
    requires USERINFO !in fs && PORT !in fs && host.End() <= |buf|
    requires buf[host.off..host.End()] == Labelled(Entry(isConnect), buf, HOST)
    requires SplitHost(at, parts, buf, host.off, host.End())
    ensures ShowsTexts(isConnect, Merged(fs, parts), buf)
  {
    hide Tiles, TilesHost, Labelled, HostLabelled, HasAt, Shows, Merged, SplitFirst, SplitHost;
    forall f ensures Shows(Merged(fs, parts), buf, f, FieldText(isConnect, buf, f)) {
      HostShows(at, parts, buf, host.off, host.End(), f);
      HostPartsOnly(parts, buf, host, f);
      FirstShows(isConnect, fs, buf, f);
      ShowsMerged(fs, parts, buf, f, FieldText(isConnect, buf, f));
    }
  }

  lemma HostShows(at: bool, parts: Fields, buf: string, from: nat, end: nat, f: UrlField)
    requires from <= end <= |buf| && SplitHost(at, parts, buf, from, end)
    ensures Shows(parts, buf, f, HostLabelled(HostEntry(at), buf[from..end], f)) && TilesHost(parts, buf, from, end)
  {
    hide Shows, HostLabelled, TilesHost;
  }

  lemma ShowsMerged(fs: Fields, parts: Fields, buf: string, f: UrlField, text: string)
    requires f in parts ==> HostField(f)
    requires USERINFO !in fs && PORT !in fs
    requires if HostField(f) then Shows(parts, buf, f, text) else Shows(fs, buf, f, text)
    ensures Shows(Merged(fs, parts), buf, f, text)
  {}

  lemma HostPartsOnly(parts: Fields, buf: string, host: Span, f: UrlField)
    requires host.End() <= |buf| && TilesHost(parts, buf, host.off, host.End())
    ensures f in parts ==> HostField(f)
  {}

  lemma EmptyAuthority(at: bool)
    ensures !AuthorityOk(at, [])
  {}

  lemma ConnectNeedsHostAndPort(buf: string, fs: Fields)
    requires SplitWell(true, buf, fs) && !HostAndPort(fs)
    ensures !Acceptable(true, buf)
  {
    hide FieldText, Tiles, UrlFold, AuthorityFits, Value;
    if Acceptable(true, buf) {
      forall f ensures f in fs.Keys <==> f in {HOST, PORT} {
        assert Shows(fs, buf, f, FieldText(true, buf, f));
      }
    }
  }

  lemma PortOfText(isConnect: bool, buf: string, fs: Fields)
    requires SplitWell(isConnect, buf, fs) && PORT in fs
    ensures fs[PORT].End() <= |buf| && buf[fs[PORT].off..fs[PORT].End()] == FieldText(isConnect, buf, PORT)
    ensures Value(FieldText(isConnect, buf, PORT), 10) > 0xFFFF ==> !Acceptable(isConnect, buf)
  {
    hide FieldText, Tiles, UrlFold, AuthorityFits, Value;
    assert Shows(fs, buf, PORT, FieldText(isConnect, buf, PORT));
  }

  lemma NoPort(isConnect: bool, buf: string, fs: Fields)
    requires SplitWell(isConnect, buf, fs) && PORT !in fs
    ensures Value(FieldText(isConnect, buf, PORT), 10) == 0
  {
    hide FieldText, Tiles, UrlFold, AuthorityFits;
    assert Shows(fs, buf, PORT, FieldText(isConnect, buf, PORT));
  }

  lemma AllAcceptable(isConnect: bool, buf: string, fs: Fields)
    requires SplitWell(isConnect, buf, fs) && (isConnect ==> HostAndPort(fs))
    requires Value(FieldText(isConnect, buf, PORT), 10) <= 0xFFFF
    ensures Acceptable(isConnect, buf) && Tiles(fs, buf, |buf|) && (SCHEMA in fs ==> HOST in fs)
    ensures ShowsTexts(isConnect, fs, buf)
  {
    hide FieldText, Tiles, UrlFold, AuthorityFits, Value;
    if isConnect {
      forall f ensures FieldText(isConnect, buf, f) != [] <==> f == HOST || f == PORT {
        assert Shows(fs, buf, f, FieldText(isConnect, buf, f));
        assert f in fs.Keys <==> f in {HOST, PORT};
      }
    }
  }

  /** Replacing the host by the tiling of its bytes keeps the whole a tiling. */
  lemma Refined(fs: Fields, parts: Fields, buf: string, host: Span)
    requires Tiles(fs, buf, |buf|) && USERINFO !in fs && PORT !in fs && HOST in fs && host == fs[HOST]
    requires TilesHost(parts, buf, host.off, host.End())
    ensures Tiles((fs - {HOST}) + parts, buf, |buf|)
    ensures HOST in parts
  {
    var all := (fs - {HOST}) + parts;
    assert Inside(all, |buf|) by { hide Ordered, Covered, IsDelimiter; }
    assert Ordered(all) by {
      hide Covered, IsDelimiter, Inside;
      forall f, g | f in all && g in all && Place(f) < Place(g) ensures all[f].End() <= all[g].off {
        RefinedPair(fs, parts, host, f, g);
      }
    }
    hide Ordered, Inside, IsDelimiter;
    RefinedCover(fs, parts, buf, host);
  }

  lemma RefinedCover(fs: Fields, parts: Fields, buf: string, host: Span)
    requires HOST in fs && host == fs[HOST] && host.End() <= |buf|
    requires forall f :: f in parts ==> HostField(f)
    requires USERINFO !in fs && PORT !in fs
    requires CoveredFrom(fs, buf, 0, |buf|)
    requires CoveredFrom(parts, buf, host.off, host.End())
    ensures CoveredFrom((fs - {HOST}) + parts, buf, 0, |buf|)
  {
    hide IsDelimiter;
    var all := (fs - {HOST}) + parts;
    forall k | 0 <= k < |buf| ensures Covered(all, k) || IsDelimiter(buf[k]) {
      if Covered(fs, k) {
        var f :| f in fs && fs[f].Has(k);
        if f == HOST {
          if Covered(parts, k) {
            var g :| g in parts && parts[g].Has(k);
            assert all[g].Has(k);
          }
        } else {
          assert all[f].Has(k);
        }
      }
    }
  }

  lemma RefinedPair(fs: Fields, parts: Fields, host: Span, f: UrlField, g: UrlField)
    requires Ordered(fs) && USERINFO !in fs && PORT !in fs && HOST in fs && host == fs[HOST]
    requires Inside(parts, host.End()) && Ordered(parts)
    requires forall f :: f in parts ==> HostField(f) && parts[f].off >= host.off
    requires f in (fs - {HOST}) + parts && g in (fs - {HOST}) + parts && Place(f) < Place(g)
    ensures var all := (fs - {HOST}) + parts; all[f].End() <= all[g].off
  {
    if f in parts && g in parts {
    } else if f in parts {
      assert g in fs && Place(HOST) < Place(g);
      assert fs[HOST].End() <= fs[g].off;
    } else if g in parts {
      assert f in fs && Place(f) < Place(HOST);
      assert fs[f].End() <= fs[HOST].off;
    }
  }
}

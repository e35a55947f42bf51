/** The data model of the incremental HTTP parser: parser states, header states,
    flags, error numbers, the parser record and the events its callbacks see.
    Bytes of the stream are characters; everything at or above 0x80 is treated
    alike, as the strict-mode character tables do. */
module HttpTypes {
  import opened Wrappers

  const CR := '\r'
  const LF := '\n'
  /** ULLONG_MAX: the content length of a message that announced none. */
  const NO_LENGTH: nat := 0xFFFF_FFFF_FFFF_FFFF
  const MAX_HEADER_SIZE: nat := 80 * 1024

  datatype Kind = Request | Response | Both

  /** Where the response line is: the states s_res_H to s_res_line_almost_done. */
  datatype StatusPos =
    | ResH | ResHT | ResHTT | ResHTTP
    | ResFirstMajor | ResMajor | ResFirstMinor | ResMinor
    | ResFirstStatusCode | ResStatusCode | ResStatus | ResLineAlmostDone

  /** Where the URL is: the states s_req_spaces_before_url to s_req_fragment. */
  datatype UrlPos =
    | SpacesBeforeUrl
    | Schema | SchemaSlash | SchemaSlashSlash
    | ServerStart | Server | ServerWithAt
    | Path | QueryStart | Query | FragmentStart | Fragment

  /** Where the version of a request line is: s_req_http_start to s_req_line_almost_done. */
  datatype VersionPos =
    | HttpStart | HttpH | HttpHT | HttpHTT | HttpHTTP
    | FirstMajor | Major | FirstMinor | Minor | LineAlmostDone

  /** Where the framing of a chunk is (the chunk data itself is a state of its own). */
  datatype ChunkPos =
    | SizeStart | Size | Parameters | SizeAlmostDone | DataAlmostDone | DataDone

  /** enum state, with the long runs of related states grouped. */
  datatype State =
    | Dead | StartReqOrRes | ResOrRespH | StartRes | StartReq
    | StatusLine(status: StatusPos)
    | ReqMethod
    | Url(url: UrlPos)
    | Version(version: VersionPos)
    | HeaderFieldStart | HeaderField
    | HeaderValueStart | HeaderValue | HeaderAlmostDone | HeaderValueLws
    | HeadersAlmostDone | HeadersDone
    | Chunk(chunk: ChunkPos)
    | ChunkData | BodyIdentity | BodyIdentityEof | MessageDone

  datatype HeaderState =
    | General | C | Co | Con
    | MatchingConnection | MatchingProxyConnection | MatchingContentLength
    | MatchingTransferEncoding | MatchingUpgrade
    | Connection | ContentLength | TransferEncoding | Upgrade
    | MatchingChunked | MatchingKeepAlive | MatchingClose
    | Chunked | KeepAlive | Close

  datatype Flags = Flags(
    chunked: bool, keepAlive: bool, close: bool,
    trailing: bool, upgrade: bool, skipBody: bool)

  const NO_FLAGS := Flags(false, false, false, false, false, false)

  datatype Method =
    | DELETE | GET | HEAD | POST | PUT | CONNECT | OPTIONS | TRACE
    | COPY | LOCK | MKCOL | MOVE | PROPFIND | PROPPATCH | SEARCH | UNLOCK
    | REPORT | MKACTIVITY | CHECKOUT | MERGE
    | MSEARCH | NOTIFY | SUBSCRIBE | UNSUBSCRIBE | PATCH | PURGE

  /** The stringified method table; the M-SEARCH entry keeps the blanks it has there. */
  function MethodName(m: Method): string {
    match m
    case DELETE => "DELETE"
    case GET => "GET"
    case HEAD => "HEAD"
    case POST => "POST"
    case PUT => "PUT"
    case CONNECT => "CONNECT"
    case OPTIONS => "OPTIONS"
    case TRACE => "TRACE"
    case COPY => "COPY"
    case LOCK => "LOCK"
    case MKCOL => "MKCOL"
    case MOVE => "MOVE"
    case PROPFIND => "PROPFIND"
    case PROPPATCH => "PROPPATCH"
    case SEARCH => "SEARCH"
    case UNLOCK => "UNLOCK"
    case REPORT => "REPORT"
    case MKACTIVITY => "MKACTIVITY"
    case CHECKOUT => "CHECKOUT"
    case MERGE => "MERGE"
    case MSEARCH => "M - SEARCH"
    case NOTIFY => "NOTIFY"
    case SUBSCRIBE => "SUBSCRIBE"
    case UNSUBSCRIBE => "UNSUBSCRIBE"
    case PATCH => "PATCH"
    case PURGE => "PURGE"
  }

  /** `Assertion` is not an error number of the library: it marks a failed internal
      assertion (or a read past the end of a matcher), proved unreachable. */
  datatype Errno =
    | OK
    | InvalidEofState | HeaderOverflow | ClosedConnection
    | InvalidVersion | InvalidStatus | InvalidMethod | InvalidUrl
    | LfExpected | InvalidHeaderToken | InvalidContentLength | InvalidChunkSize
    | InvalidConstant | Strict
    | Assertion

  datatype Parser = Parser(
    kind: Kind, flags: Flags, state: State, headerState: HeaderState,
    index: nat, nread: nat, contentLength: nat,
    httpMajor: nat, httpMinor: nat, statusCode: nat, verb: Method,
    errno: Errno, upgrade: bool)

  /** http_parser_init */
  function Init(kind: Kind): (p: Parser) {
    Parser(kind, NO_FLAGS,
           match kind { case Request => StartReq case Response => StartRes case Both => StartReqOrRes },
           General, 0, 0, 0, 0, 0, 0, DELETE, OK, false)
  }

  datatype DataKind = OnUrl | OnHeaderField | OnHeaderValue | OnBody

  datatype Event =
    | MessageBegin | StatusComplete | HeadersComplete | MessageComplete
    | Data(kind: DataKind, bytes: string)

  type Log = seq<Event>

  /** What an application sees: a data callback continues the previous one of the
      same kind, because the parser may deliver one string in many pieces. */
  function Add(log: Log, e: Event): (r: Log)
    ensures |r| >= 1
  {
    if e.Data? && |log| > 0 && log[|log| - 1].Data? && log[|log| - 1].kind == e.kind then
      log[..|log| - 1] + [Data(e.kind, log[|log| - 1].bytes + e.bytes)]
    else
      log + [e]
  }

  function AddAll(log: Log, es: seq<Event>): Log
    decreases es
  {
    if es == [] then log else AddAll(Add(log, es[0]), es[1..])
  }

  lemma {:induction false} AddAllConcat(log: Log, a: seq<Event>, b: seq<Event>)
    ensures AddAll(log, a + b) == AddAll(AddAll(log, a), b)
    decreases a
  {
    if a == [] {
      assert a + b == b;
    } else {
      assert (a + b)[1..] == a[1..] + b;
      AddAllConcat(Add(log, a[0]), a[1..], b);
    }
  }

  lemma AddAllNone(log: Log)
    ensures AddAll(log, []) == log
  {}

  lemma AddAllOne(log: Log, e: Event)
    ensures AddAll(log, [e]) == Add(log, e)
  {
    assert [e][1..] == [];
  }

  lemma AddTwice(log: Log, k: DataKind, x: string, y: string)
    ensures Add(Add(log, Data(k, x)), Data(k, y)) == Add(log, Data(k, x + y))
  {
    var one := Add(log, Data(k, x));
    if |log| > 0 && log[|log| - 1].Data? && log[|log| - 1].kind == k {
      var old_ := log[|log| - 1].bytes;
      assert one[|one| - 1] == Data(k, old_ + x);
      assert one[..|one| - 1] == log[..|log| - 1];
      assert old_ + x + y == old_ + (x + y);
    } else {
      assert one[..|one| - 1] == log;
    }
  }

  ghost predicate LastIs(log: Log, k: DataKind) {
    |log| > 0 && log[|log| - 1].Data? && log[|log| - 1].kind == k
  }

  lemma AddNothing(log: Log, k: DataKind)
    requires LastIs(log, k)
    ensures Add(log, Data(k, [])) == log
  {
    assert log[|log| - 1].bytes + [] == log[|log| - 1].bytes;
    assert log[..|log| - 1] + [log[|log| - 1]] == log;
  }

  /** Character classes, strict mode. */
  function Lower(c: char): char {
    if c as int < 0x80 && (c as int / 32) % 2 == 0 then (c as int + 32) as char else c
  }

  predicate IsAlpha(c: char) { 'a' <= c <= 'z' || 'A' <= c <= 'Z' }
  predicate IsNum(c: char) { '0' <= c <= '9' }
  predicate IsAlphaNum(c: char) { IsAlpha(c) || IsNum(c) }
  predicate IsHex(c: char) { IsNum(c) || 'a' <= c <= 'f' || 'A' <= c <= 'F' }
  predicate IsMark(c: char) {
    c == '-' || c == '_' || c == '.' || c == '!' || c == '~' || c == '*' || c == '\'' || c == '(' || c == ')'
  }
  predicate IsUserinfoChar(c: char) {
    IsAlphaNum(c) || IsMark(c) || c == '%' || c == ';' || c == ':' || c == '&' || c == '=' ||
    c == '+' || c == '$' || c == ','
  }
  predicate IsUrlChar(c: char) { '!' <= c <= '~' && c != '#' && c != '?' }
  predicate IsHostChar(c: char) { IsAlphaNum(c) || c == '.' || c == '-' }

  predicate IsToken(c: char) {
    IsAlphaNum(c) || c == '!' || c == '#' || c == '$' || c == '%' || c == '&' || c == '\'' ||
    c == '*' || c == '+' || c == '-' || c == '.' || c == '^' || c == '_' || c == '`' || c == '|' || c == '~'
  }

  /** The `unhex` table: -1 for no digit; its upper half is zero-filled. */
  function Unhex(c: char): (v: int)
    ensures -1 <= v < 16
  {
    if IsNum(c) then c as int - '0' as int
    else if 'a' <= c <= 'f' then c as int - 'a' as int + 10
    else if 'A' <= c <= 'F' then c as int - 'A' as int + 10
    else if c as int >= 0x80 then 0
    else -1
  }

  function Digit(c: char): (d: nat)
    requires IsNum(c)
    ensures d <= 9
  {
    c as int - '0' as int
  }
}

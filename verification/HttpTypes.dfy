/** The data of http_parser: the parser record, its states, and its character tables. */
module HttpTypes {
  /** A byte of HTTP text. */
  type octet = c: char | c as int < 256

  type u64 = x: int | 0 <= x < 0x1_0000_0000_0000_0000

  /** ULLONG_MAX, which content_length holds when no length is known. */
  const NO_LENGTH: u64 := 0xFFFF_FFFF_FFFF_FFFF

  const HTTP_MAX_HEADER_SIZE := 80 * 1024

  const CR: octet := '\r'
  const LF: octet := '\n'

  datatype Kind = Request | Response | Both

  datatype Flags = Flags(
    chunked: bool,
    keepAlive: bool,
    close: bool,
    trailing: bool,
    upgrade: bool,
    skipBody: bool)

  const NO_FLAGS := Flags(false, false, false, false, false, false)

  datatype State =
    | Dead
    | StartReqOrRes | ResOrRespH
    | StartRes | ResH | ResHT | ResHTT | ResHTTP
    | ResFirstHttpMajor | ResHttpMajor | ResFirstHttpMinor | ResHttpMinor
    | ResFirstStatusCode | ResStatusCode | ResStatus | ResLineAlmostDone
    | StartReq | ReqMethod | ReqSpacesBeforeUrl
    | ReqSchema | ReqSchemaSlash | ReqSchemaSlashSlash
    | ReqServerStart | ReqServer | ReqServerWithAt
    | ReqPath | ReqQueryStringStart | ReqQueryString | ReqFragmentStart | ReqFragment
    | ReqHttpStart | ReqHttpH | ReqHttpHT | ReqHttpHTT | ReqHttpHTTP
    | ReqFirstHttpMajor | ReqHttpMajor | ReqFirstHttpMinor | ReqHttpMinor | ReqLineAlmostDone
    | HeaderFieldStart | HeaderField | HeaderValueStart | HeaderValue | HeaderValueLws | HeaderAlmostDone
    | ChunkSizeStart | ChunkSize | ChunkParameters | ChunkSizeAlmostDone
    | HeadersAlmostDone | HeadersDone
    | ChunkData | ChunkDataAlmostDone | ChunkDataDone
    | BodyIdentity | BodyIdentityEof
    | MessageDone

  datatype HeaderState =
    | General
    | C | CO | CON
    | MatchingConnection | MatchingProxyConnection | MatchingContentLength
    | MatchingTransferEncoding | MatchingUpgrade
    | Connection | ContentLength | TransferEncoding | Upgrade
    | MatchingTransferEncodingChunked | MatchingConnectionKeepAlive | MatchingConnectionClose
    | TransferEncodingChunked | ConnectionKeepAlive | ConnectionClose

  datatype Errno =
    | Ok
    | CbMessageBegin | CbUrl | CbHeaderField | CbHeaderValue | CbHeadersComplete | CbBody | CbMessageComplete
    | InvalidEofState | HeaderOverflow | ClosedConnection
    | InvalidVersion | InvalidStatus | InvalidMethod | InvalidUrl
    | LfExpected | InvalidHeaderToken | InvalidContentLength | InvalidChunkSize
    | InvalidConstant | Strict | Paused | Unknown

  datatype Method =
    | DELETE | GET | HEAD | POST | PUT | CONNECT | OPTIONS | TRACE
    | COPY | LOCK | MKCOL | MOVE | PROPFIND | PROPPATCH | SEARCH | UNLOCK
    | REPORT | MKACTIVITY | CHECKOUT | MERGE
    | MSEARCH | NOTIFY | SUBSCRIBE | UNSUBSCRIBE
    | PATCH | PURGE

  function MethodString(m: Method): (s: string)
    ensures |s| >= 3
  {
    match m
    case DELETE => "DELETE" case GET => "GET" case HEAD => "HEAD" case POST => "POST" case PUT => "PUT"
    case CONNECT => "CONNECT" case OPTIONS => "OPTIONS" case TRACE => "TRACE"
    case COPY => "COPY" case LOCK => "LOCK" case MKCOL => "MKCOL" case MOVE => "MOVE"
    case PROPFIND => "PROPFIND" case PROPPATCH => "PROPPATCH" case SEARCH => "SEARCH" case UNLOCK => "UNLOCK"
    case REPORT => "REPORT" case MKACTIVITY => "MKACTIVITY" case CHECKOUT => "CHECKOUT" case MERGE => "MERGE"
    case MSEARCH => "M-SEARCH" case NOTIFY => "NOTIFY" case SUBSCRIBE => "SUBSCRIBE"
    case UNSUBSCRIBE => "UNSUBSCRIBE" case PATCH => "PATCH" case PURGE => "PURGE"
  }

  const PROXY_CONNECTION := "proxy-connection"
  const CONNECTION := "connection"
  const CONTENT_LENGTH := "content-length"
  const TRANSFER_ENCODING := "transfer-encoding"
  const UPGRADE := "upgrade"
  const CHUNKED := "chunked"
  const KEEP_ALIVE := "keep-alive"
  const CLOSE := "close"

  /** A character of a C string, which ends with a NUL. */
  function At(s: string, i: nat): char {
    if i < |s| then s[i] else '\0'
  }

  /** struct http_parser. */
  datatype Parser = Parser(
    kind: Kind,
    flags: Flags,
    state: State,
    headerState: HeaderState,
    index: nat,
    nread: nat,
    contentLength: u64,
    httpMajor: nat,
    httpMinor: nat,
    statusCode: nat,
    verb: Method,
    errno: Errno,
    upgrade: bool)

  /** http_parser_init. */
  function Init(kind: Kind): Parser {
    Parser(kind, NO_FLAGS,
           match kind case Request => StartReq case Response => StartRes case Both => StartReqOrRes,
           General, 0, 0, 0, 0, 0, 0, DELETE, Ok, false)
  }

  // Character classes

  predicate IsAlpha(ch: char) {
    'a' <= ch <= 'z' || 'A' <= ch <= 'Z'
  }

  predicate IsNum(ch: char) {
    '0' <= ch <= '9'
  }

  predicate IsAlphanum(ch: char) {
    IsAlpha(ch) || IsNum(ch)
  }

  predicate IsHex(ch: char) {
    IsNum(ch) || 'a' <= ch <= 'f' || 'A' <= ch <= 'F'
  }

  /** LOWER(ch) == x, for an x that has bit 5 set, as letters and '-' have. */
  predicate LowerIs(ch: char, x: char) {
    ch == x || ch as int + 32 == x as int
  }

  function Digit(ch: char): (d: nat)
    requires IsNum(ch)
    ensures d <= 9
  {
    ch as int - '0' as int
  }

  predicate IsMark(ch: char) {
    ch in {'-', '_', '.', '!', '~', '*', '\'', '(', ')'}
  }

  predicate IsUserinfoChar(ch: char) {
    IsAlphanum(ch) || IsMark(ch) || ch in {'%', ';', ':', '&', '=', '+', '$', ','}
  }

  predicate IsHostChar(ch: char) {
    IsAlphanum(ch) || ch == '.' || ch == '-'
  }

  /** normal_url_char: printable ASCII but for the two delimiters. */
  predicate IsUrlChar(ch: char) {
    '!' <= ch <= '~' && ch != '#' && ch != '?'
  }

  /** tokens: the lower-cased character of a header name, or NUL. */
  function Token(ch: char): char {
    if 'A' <= ch <= 'Z' then (ch as int + 32) as char
    else if IsAlphanum(ch) || ch in {'!', '#', '$', '%', '&', '\'', '*', '+', '-', '.', '^', '_', '`', '|', '~'} then ch
    else '\0'
  }

  /**
   unhex: the value of a hexadecimal digit, or -1. The table lists 128 entries only, so
   the bytes above them read as the zeros that C fills it up with.
   */
  function Unhex(ch: octet): (v: int)
    ensures -1 <= v <= 15
  {
    if IsNum(ch) then Digit(ch)
    else if 'a' <= ch <= 'f' then ch as int - 'a' as int + 10
    else if 'A' <= ch <= 'F' then ch as int - 'A' as int + 10
    else if ch as int < 128 then -1
    else 0
  }

  /** PARSING_HEADER. */
  predicate ParsingHeader(s: State) {
    !s.ChunkData? && !s.ChunkDataAlmostDone? && !s.ChunkDataDone?
    && !s.BodyIdentity? && !s.BodyIdentityEof? && !s.MessageDone?
  }

  /** http_message_needs_eof: section 4.4 of RFC 2616. */
  predicate MessageNeedsEof(q: Parser) {
    !q.kind.Request?
    && !(q.statusCode / 100 == 1 || q.statusCode == 204 || q.statusCode == 304 || q.flags.skipBody)
    && !(q.flags.chunked || q.contentLength != NO_LENGTH)
  }

  /** http_should_keep_alive. */
  predicate ShouldKeepAlive(q: Parser) {
    (if q.httpMajor > 0 && q.httpMinor > 0 then !q.flags.close else q.flags.keepAlive)
    && !MessageNeedsEof(q)
  }

  function StartState(q: Parser): State {
    if q.kind.Request? then StartReq else StartRes
  }

  /** NEW_MESSAGE, in strict mode. */
  function NewMessage(q: Parser): State {
    if ShouldKeepAlive(q) then StartState(q) else Dead
  }
}

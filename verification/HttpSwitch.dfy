/**
 What http_parser_execute does with one byte: the body of its switch, as a function of
 the parser record. Marks, callbacks and the position in the buffer are left to the
 caller, which a Step tells what to do with them.
 */
module HttpSwitch {
  import opened Base
  import opened HttpTypes

  datatype DataKind = UrlData | FieldData | ValueData | BodyData

  datatype Note = MessageBegin | HeadersComplete | MessageComplete

  /**
   The callback of a step. `whole` data include the current byte; a stopped parser has
   consumed the current byte only if the callback `eats` it.
   */
  datatype Call =
    | NoCall
    | DataCall(k: DataKind, whole: bool, eats: bool)
    | Notify(note: Note, eats: bool)

  /** How a step goes on: next byte, goto reexecute_byte, return, goto error, or a failed assert. */
  datatype Then = Advance | Again | Leave | Fail | Abort

  datatype Step = Step(q: Parser, mark: Option<DataKind>, skip: nat, call: Call, then_: Then)

  function Go(q: Parser): Step {
    Step(q, None, 0, NoCall, Advance)
  }

  function GoTo(q: Parser, s: State): Step {
    Go(q.(state := s))
  }

  function Retry(q: Parser, s: State): Step {
    Step(q.(state := s), None, 0, NoCall, Again)
  }

  function Error(q: Parser, e: Errno): Step {
    Step(q.(errno := e), None, 0, NoCall, Fail)
  }

  function Told(q: Parser, note: Note): Step {
    Step(q, None, 0, Notify(note, true), Advance)
  }

  function Flush(q: Parser, k: DataKind): Step {
    Step(q, None, 0, DataCall(k, false, true), Advance)
  }

  /** STRICT_CHECK: the byte must be `expected`. */
  function Expect(q: Parser, ch: octet, expected: octet, s: State): Step {
    if ch != expected then Error(q, Strict) else GoTo(q, s)
  }

  /** parse_url_char, in strict mode. */
  function UrlChar(s: State, ch: octet): State {
    if ch in {' ', '\r', '\n', '\t', '\U{0c}'} then Dead
    else
      match s
      case ReqSpacesBeforeUrl =>
        if ch == '/' || ch == '*' then ReqPath else if IsAlpha(ch) then ReqSchema else Dead
      case ReqSchema =>
        if IsAlpha(ch) then s else if ch == ':' then ReqSchemaSlash else Dead
      case ReqSchemaSlash => if ch == '/' then ReqSchemaSlashSlash else Dead
      case ReqSchemaSlashSlash => if ch == '/' then ReqServerStart else Dead
      case ReqServerWithAt => if ch == '@' then Dead else UrlServerChar(ch)
      case ReqServerStart => UrlServerChar(ch)
      case ReqServer => UrlServerChar(ch)
      case ReqPath =>
        if IsUrlChar(ch) then s else if ch == '?' then ReqQueryStringStart
        else if ch == '#' then ReqFragmentStart else Dead
      case ReqQueryStringStart => UrlQueryChar(ch)
      case ReqQueryString => UrlQueryChar(ch)
      case ReqFragmentStart =>
        if IsUrlChar(ch) || ch == '?' then ReqFragment else if ch == '#' then s else Dead
      case ReqFragment =>
        if IsUrlChar(ch) || ch == '?' || ch == '#' then s else Dead
      case _ => Dead
  }

  function UrlServerChar(ch: octet): State {
    if ch == '/' then ReqPath
    else if ch == '?' then ReqQueryStringStart
    else if ch == '@' then ReqServerWithAt
    else if IsUserinfoChar(ch) || ch == '[' || ch == ']' then ReqServer
    else Dead
  }

  function UrlQueryChar(ch: octet): State {
    if IsUrlChar(ch) || ch == '?' then ReqQueryString else if ch == '#' then ReqFragmentStart else Dead
  }

  /** The two-step number parsers of version and status code. */
  function AddDigit(n: nat, ch: octet): nat
    requires IsNum(ch)
  {
    n * 10 + Digit(ch)
  }

  function MajorDigits(q: Parser, ch: octet, dot: State): Step {
    if ch == '.' then GoTo(q, dot)
    else if !IsNum(ch) then Error(q, InvalidVersion)
    else
      var q' := q.(httpMajor := AddDigit(q.httpMajor, ch));
      if q'.httpMajor > 999 then Error(q', InvalidVersion) else Go(q')
  }

  function MinorDigits(q: Parser, ch: octet): Step {
    if !IsNum(ch) then Error(q, InvalidVersion)
    else
      var q' := q.(httpMinor := AddDigit(q.httpMinor, ch));
      if q'.httpMinor > 999 then Error(q', InvalidVersion) else Go(q')
  }

  // Start of a message, and the status line

  function OnStart(q: Parser, ch: octet): Step {
    match q.state
    case Dead =>
      if ch == CR || ch == LF then Go(q) else Error(q, ClosedConnection)
    case StartReqOrRes =>
      if ch == CR || ch == LF then Go(q)
      else
        var q' := q.(flags := NO_FLAGS, contentLength := NO_LENGTH);
        if ch == 'H' then Told(q'.(state := ResOrRespH), MessageBegin)
        else Retry(q'.(kind := Request), StartReq)
    case ResOrRespH =>
      if ch == 'T' then GoTo(q.(kind := Response), ResHT)
      else if ch != 'E' then Error(q, InvalidConstant)
      else GoTo(q.(kind := Request, verb := HEAD, index := 2), ReqMethod)
    case StartRes =>
      var q' := q.(flags := NO_FLAGS, contentLength := NO_LENGTH);
      if ch == 'H' then Told(q'.(state := ResH), MessageBegin)
      else if ch == CR || ch == LF then Told(q', MessageBegin)
      else Error(q', InvalidConstant)
    case _ => Step(q, None, 0, NoCall, Abort)
  }

  function OnStatusLine(q: Parser, ch: octet): Step {
    match q.state
    case ResH => Expect(q, ch, 'T', ResHT)
    case ResHT => Expect(q, ch, 'T', ResHTT)
    case ResHTT => Expect(q, ch, 'P', ResHTTP)
    case ResHTTP => Expect(q, ch, '/', ResFirstHttpMajor)
    case ResFirstHttpMajor =>
      if !IsNum(ch) then Error(q, InvalidVersion) else GoTo(q.(httpMajor := Digit(ch)), ResHttpMajor)
    case ResHttpMajor => MajorDigits(q, ch, ResFirstHttpMinor)
    case ResFirstHttpMinor =>
      if !IsNum(ch) then Error(q, InvalidVersion) else GoTo(q.(httpMinor := Digit(ch)), ResHttpMinor)
    case ResHttpMinor =>
      if ch == ' ' then GoTo(q, ResFirstStatusCode) else MinorDigits(q, ch)
    case ResFirstStatusCode =>
      if IsNum(ch) then GoTo(q.(statusCode := Digit(ch)), ResStatusCode)
      else if ch == ' ' then Go(q)
      else Error(q, InvalidStatus)
    case ResStatusCode =>
      if !IsNum(ch) then
        if ch == ' ' then GoTo(q, ResStatus)
        else if ch == CR then GoTo(q, ResLineAlmostDone)
        else if ch == LF then GoTo(q, HeaderFieldStart)
        else Error(q, InvalidStatus)
      else
        var q' := q.(statusCode := AddDigit(q.statusCode, ch));
        if q'.statusCode > 999 then Error(q', InvalidStatus) else Go(q')
    case ResStatus =>
      if ch == CR then GoTo(q, ResLineAlmostDone) else if ch == LF then GoTo(q, HeaderFieldStart) else Go(q)
    case ResLineAlmostDone => Expect(q, ch, LF, HeaderFieldStart)
    case _ => Step(q, None, 0, NoCall, Abort)
  }

  // The request line

  /** The method that a first letter stands for until more is known. */
  function FirstMethod(ch: octet): Option<Method> {
    match ch
    case 'C' => Some(CONNECT) case 'D' => Some(DELETE) case 'G' => Some(GET) case 'H' => Some(HEAD)
    case 'L' => Some(LOCK) case 'M' => Some(MKCOL) case 'N' => Some(NOTIFY) case 'O' => Some(OPTIONS)
    case 'P' => Some(POST) case 'R' => Some(REPORT) case 'S' => Some(SUBSCRIBE) case 'T' => Some(TRACE)
    case 'U' => Some(UNLOCK)
    case _ => None
  }

  /**
   The method after a letter that is not the next one of q.verb: another method, the
   same one, or an error. At index 2 every method that is not named goes on unchanged.
   */
  function OtherMethod(q: Parser, ch: octet): (m: Option<Method>) {
    if q.verb == CONNECT then
      if q.index == 1 && ch == 'H' then Some(CHECKOUT)
      else if q.index == 2 && ch == 'P' then Some(COPY)
      else None
    else if q.verb == MKCOL then
      if q.index == 1 && ch == 'O' then Some(MOVE)
      else if q.index == 1 && ch == 'E' then Some(MERGE)
      else if q.index == 1 && ch == '-' then Some(MSEARCH)
      else if q.index == 2 && ch == 'A' then Some(MKACTIVITY)
      else None
    else if q.verb == SUBSCRIBE then
      if q.index == 1 && ch == 'E' then Some(SEARCH) else None
    else if q.index == 1 && q.verb == POST then
      if ch == 'R' then Some(PROPFIND) else if ch == 'U' then Some(PUT) else if ch == 'A' then Some(PATCH) else None
    else if q.index == 2 then
      if q.verb == PUT && ch == 'R' then Some(PURGE)
      else if q.verb == UNLOCK && ch == 'S' then Some(UNSUBSCRIBE)
      else Some(q.verb)
    else if q.index == 4 && q.verb == PROPFIND && ch == 'P' then Some(PROPPATCH)
    else None
  }

  /** Errors inside CONNECT, MKCOL, SUBSCRIBE and POST are raised without an errno, which becomes UNKNOWN. */
  function MethodErrno(q: Parser): Errno {
    if q.verb == CONNECT || q.verb == MKCOL || q.verb == SUBSCRIBE || (q.index == 1 && q.verb == POST)
    then Unknown else InvalidMethod
  }

  function OnMethod(q: Parser, ch: octet): Step {
    if q.state == StartReq then
      if ch == CR || ch == LF then Go(q)
      else
        var q' := q.(flags := NO_FLAGS, contentLength := NO_LENGTH);
        if !IsAlpha(ch) then Error(q', InvalidMethod)
        else
          match FirstMethod(ch)
          case None => Error(q'.(verb := DELETE, index := 1), InvalidMethod)
          case Some(m) => Told(q'.(verb := m, index := 1, state := ReqMethod), MessageBegin)
    else if ch == '\0' then Error(q, InvalidMethod)
    else
      var expected := At(MethodString(q.verb), q.index);
      if ch == ' ' && expected == '\0' then Go(q.(state := ReqSpacesBeforeUrl, index := q.index + 1))
      else if ch == expected then Go(q.(index := q.index + 1))
      else
        match OtherMethod(q, ch)
        case Some(m) => Go(q.(verb := m, index := q.index + 1))
        case None => Error(q, MethodErrno(q))
  }

  function ToUrl(q: Parser, from: State, ch: octet): Step {
    var s := UrlChar(from, ch);
    if s == Dead then Error(q.(state := Dead), InvalidUrl) else GoTo(q, s)
  }

  function OnUrl(q: Parser, ch: octet): Step {
    match q.state
    case ReqSpacesBeforeUrl =>
      if ch == ' ' then Go(q)
      else ToUrl(q, if q.verb == CONNECT then ReqServerStart else q.state, ch).(mark := Some(UrlData))
    case ReqSchema => OnUrlStart(q, ch)
    case ReqSchemaSlash => OnUrlStart(q, ch)
    case ReqSchemaSlashSlash => OnUrlStart(q, ch)
    case ReqServerStart => OnUrlStart(q, ch)
    case _ =>
      if ch == ' ' then Flush(q.(state := ReqHttpStart), UrlData)
      else if ch == CR then Flush(q.(httpMajor := 0, httpMinor := 9, state := ReqLineAlmostDone), UrlData)
      else if ch == LF then Flush(q.(httpMajor := 0, httpMinor := 9, state := HeaderFieldStart), UrlData)
      else ToUrl(q, q.state, ch)
  }

  function OnUrlStart(q: Parser, ch: octet): Step {
    if ch == ' ' || ch == CR || ch == LF then Error(q, InvalidUrl) else ToUrl(q, q.state, ch)
  }

  function OnRequestLine(q: Parser, ch: octet): Step {
    match q.state
    case ReqHttpStart =>
      if ch == 'H' then GoTo(q, ReqHttpH) else if ch == ' ' then Go(q) else Error(q, InvalidConstant)
    case ReqHttpH => Expect(q, ch, 'T', ReqHttpHT)
    case ReqHttpHT => Expect(q, ch, 'T', ReqHttpHTT)
    case ReqHttpHTT => Expect(q, ch, 'P', ReqHttpHTTP)
    case ReqHttpHTTP => Expect(q, ch, '/', ReqFirstHttpMajor)
    case ReqFirstHttpMajor =>
      if !('1' <= ch <= '9') then Error(q, InvalidVersion) else GoTo(q.(httpMajor := Digit(ch)), ReqHttpMajor)
    case ReqHttpMajor => MajorDigits(q, ch, ReqFirstHttpMinor)
    case ReqFirstHttpMinor =>
      if !IsNum(ch) then Error(q, InvalidVersion) else GoTo(q.(httpMinor := Digit(ch)), ReqHttpMinor)
    case ReqHttpMinor =>
      if ch == CR then GoTo(q, ReqLineAlmostDone)
      else if ch == LF then GoTo(q, HeaderFieldStart)
      else MinorDigits(q, ch)
    case ReqLineAlmostDone =>
      if ch != LF then Error(q, LfExpected) else GoTo(q, HeaderFieldStart)
    case _ => Step(q, None, 0, NoCall, Abort)
  }

  // Headers

  function OnHeaderFieldStart(q: Parser, ch: octet): Step {
    if ch == CR then GoTo(q, HeadersAlmostDone)
    else if ch == LF then Retry(q, HeadersAlmostDone)
    else
      var c := Token(ch);
      if c == '\0' then Error(q, InvalidHeaderToken)
      else
        var h := match c
          case 'c' => C
          case 'p' => MatchingProxyConnection
          case 't' => MatchingTransferEncoding
          case 'u' => MatchingUpgrade
          case _ => General;
        Step(q.(index := 0, state := HeaderField, headerState := h), Some(FieldData), 0, NoCall, Advance)
  }

  /** One more character of a name that is being matched, or of a value. */
  function Match(q: Parser, name: string, same: bool, found: HeaderState): Parser {
    var i := q.index + 1;
    if i > |name| || !same then q.(index := i, headerState := General)
    else if i == |name| - 1 then q.(index := i, headerState := found)
    else q.(index := i)
  }

  function MatchField(q: Parser, c: char, name: string, found: HeaderState): Parser {
    Match(q, name, c == At(name, q.index + 1), found)
  }

  function MatchValue(q: Parser, ch: octet, name: string, found: HeaderState): Parser {
    Match(q, name, LowerIs(ch, At(name, q.index + 1)), found)
  }

  function FieldChar(q: Parser, ch: octet, c: char): Step {
    match q.headerState
    case General => Go(q)
    case C => Go(q.(index := q.index + 1, headerState := if c == 'o' then CO else General))
    case CO => Go(q.(index := q.index + 1, headerState := if c == 'n' then CON else General))
    case CON =>
      Go(q.(index := q.index + 1,
            headerState := if c == 'n' then MatchingConnection
                           else if c == 't' then MatchingContentLength else General))
    case MatchingConnection => Go(MatchField(q, c, CONNECTION, Connection))
    case MatchingProxyConnection => Go(MatchField(q, c, PROXY_CONNECTION, Connection))
    case MatchingContentLength => Go(MatchField(q, c, CONTENT_LENGTH, ContentLength))
    case MatchingTransferEncoding => Go(MatchField(q, c, TRANSFER_ENCODING, TransferEncoding))
    case MatchingUpgrade => Go(MatchField(q, c, UPGRADE, HeaderState.Upgrade))
    case Connection => Go(LoseUnlessSpace(q, ch))
    case ContentLength => Go(LoseUnlessSpace(q, ch))
    case TransferEncoding => Go(LoseUnlessSpace(q, ch))
    case Upgrade => Go(LoseUnlessSpace(q, ch))
    case _ => Step(q, None, 0, NoCall, Abort)
  }

  function LoseUnlessSpace(q: Parser, ch: octet): Parser {
    if ch != ' ' then q.(headerState := General) else q
  }

  function OnHeaderField(q: Parser, ch: octet): Step {
    var c := Token(ch);
    if c != '\0' then FieldChar(q, ch, c)
    else if ch == ':' then Flush(q.(state := HeaderValueStart), FieldData)
    else if ch == CR then Flush(q.(state := HeaderAlmostDone), FieldData)
    else if ch == LF then Flush(q.(state := HeaderFieldStart), FieldData)
    else Error(q, InvalidHeaderToken)
  }

  function OnHeaderValueStart(q: Parser, ch: octet): Step {
    if ch == ' ' || ch == '\t' then Go(q)
    else
      var q' := q.(state := HeaderValue, index := 0);
      var step :=
        if ch == CR then Flush(q'.(headerState := General, state := HeaderAlmostDone), ValueData)
        else if ch == LF then Flush(q'.(state := HeaderFieldStart), ValueData)
        else
          match q.headerState
          case Upgrade => Go(q'.(flags := q.flags.(upgrade := true), headerState := General))
          case TransferEncoding =>
            Go(q'.(headerState := if LowerIs(ch, 'c') then MatchingTransferEncodingChunked else General))
          case ContentLength =>
            if !IsNum(ch) then Error(q', InvalidContentLength) else Go(q'.(contentLength := Digit(ch)))
          case Connection =>
            Go(q'.(headerState := if LowerIs(ch, 'k') then MatchingConnectionKeepAlive
                                  else if LowerIs(ch, 'c') then MatchingConnectionClose else General))
          case _ => Go(q'.(headerState := General));
      step.(mark := Some(ValueData))
  }

  /** One more digit of a length, in 64-bit arithmetic, or None if the overflow test fails. */
  function AddLengthDigit(length: u64, base: nat, d: nat): Option<u64> {
    var t := (length * base + d) % 0x1_0000_0000_0000_0000;
    if t < length || t == NO_LENGTH then None else Some(t)
  }

  function ValueChar(q: Parser, ch: octet): Step {
    match q.headerState
    case General => Go(q)
    case Connection => Step(q, None, 0, NoCall, Abort)
    case TransferEncoding => Step(q, None, 0, NoCall, Abort)
    case ContentLength =>
      if ch == ' ' then Go(q)
      else if !IsNum(ch) then Error(q, InvalidContentLength)
      else (match AddLengthDigit(q.contentLength, 10, Digit(ch))
            case None => Error(q, InvalidContentLength)
            case Some(t) => Go(q.(contentLength := t)))
    case MatchingTransferEncodingChunked => Go(MatchValue(q, ch, CHUNKED, TransferEncodingChunked))
    case MatchingConnectionKeepAlive => Go(MatchValue(q, ch, KEEP_ALIVE, ConnectionKeepAlive))
    case MatchingConnectionClose => Go(MatchValue(q, ch, CLOSE, ConnectionClose))
    case TransferEncodingChunked => Go(LoseUnlessSpace(q, ch))
    case ConnectionKeepAlive => Go(LoseUnlessSpace(q, ch))
    case ConnectionClose => Go(LoseUnlessSpace(q, ch))
    case _ => Go(q.(headerState := General))
  }

  function OnHeaderValue(q: Parser, ch: octet): Step {
    if ch == CR then Flush(q.(state := HeaderAlmostDone), ValueData)
    else if ch == LF then
      Step(q.(state := HeaderAlmostDone), None, 0, DataCall(ValueData, false, false), Again)
    else ValueChar(q, ch)
  }

  function OnHeaderEnd(q: Parser, ch: octet): Step {
    if q.state == HeaderAlmostDone then
      if ch != LF then Error(q, Strict)
      else
        var flags := match q.headerState
          case ConnectionKeepAlive => q.flags.(keepAlive := true)
          case ConnectionClose => q.flags.(close := true)
          case TransferEncodingChunked => q.flags.(chunked := true)
          case _ => q.flags;
        GoTo(q.(flags := flags), HeaderValueLws)
    else if ch == ' ' || ch == '\t' then GoTo(q, HeaderValueStart)
    else Retry(q, HeaderFieldStart)
  }

  function OnHeadersEnd(q: Parser, ch: octet): Step {
    if ch != LF then Error(q, Strict)
    else if q.state == HeadersAlmostDone then
      if q.flags.trailing then Told(q.(state := NewMessage(q)), MessageComplete)
      else
        Step(q.(state := HeadersDone, upgrade := q.flags.upgrade || q.verb == CONNECT), None, 0,
             Notify(HeadersComplete, false), Again)
    else
      var q' := q.(nread := 0);
      if q.upgrade then Told(q'.(state := NewMessage(q')), MessageComplete).(then_ := Leave)
      else if q.flags.skipBody then Told(q'.(state := NewMessage(q')), MessageComplete)
      else if q.flags.chunked then GoTo(q', ChunkSizeStart)
      else if q.contentLength == 0 then Told(q'.(state := NewMessage(q')), MessageComplete)
      else if q.contentLength != NO_LENGTH then GoTo(q', BodyIdentity)
      else if q.kind.Request? || !MessageNeedsEof(q') then Told(q'.(state := NewMessage(q')), MessageComplete)
      else GoTo(q', BodyIdentityEof)
  }

  // Bodies

  predicate HasBodyLength(q: Parser) {
    q.contentLength != 0 && q.contentLength != NO_LENGTH
  }

  /** Bodies are taken in bulk: `left` is the number of bytes in the buffer from the current one on. */
  function OnBody(q: Parser, ch: octet, left: nat): Step
    requires left > 0
  {
    match q.state
    case BodyIdentity =>
      if !HasBodyLength(q) then Step(q, None, 0, NoCall, Abort)
      else
        var toRead := if q.contentLength < left then q.contentLength else left;
        var q' := q.(contentLength := q.contentLength - toRead);
        if q'.contentLength == 0 then
          Step(q'.(state := MessageDone), Some(BodyData), toRead - 1, DataCall(BodyData, true, false), Again)
        else Step(q', Some(BodyData), toRead - 1, NoCall, Advance)
    case BodyIdentityEof => Step(q, Some(BodyData), left - 1, NoCall, Advance)
    case MessageDone => Told(q.(state := NewMessage(q)), MessageComplete)
    case _ => Step(q, None, 0, NoCall, Abort)
  }

  function OnChunk(q: Parser, ch: octet, left: nat): Step
    requires left > 0
  {
    if !q.flags.chunked then Step(q, None, 0, NoCall, Abort)
    else
      match q.state
      case ChunkSizeStart =>
        if q.nread != 1 then Step(q, None, 0, NoCall, Abort)
        else if Unhex(ch) == -1 then Error(q, InvalidChunkSize)
        else GoTo(q.(contentLength := Unhex(ch)), ChunkSize)
      case ChunkSize =>
        if ch == CR then GoTo(q, ChunkSizeAlmostDone)
        else if Unhex(ch) == -1 then
          if ch == ';' || ch == ' ' then GoTo(q, ChunkParameters) else Error(q, InvalidChunkSize)
        else (match AddLengthDigit(q.contentLength, 16, Unhex(ch))
              case None => Error(q, InvalidContentLength)
              case Some(t) => Go(q.(contentLength := t)))
      case ChunkParameters => if ch == CR then GoTo(q, ChunkSizeAlmostDone) else Go(q)
      case ChunkSizeAlmostDone =>
        if ch != LF then Error(q, Strict)
        else if q.contentLength == 0 then
          GoTo(q.(nread := 0, flags := q.flags.(trailing := true)), HeaderFieldStart)
        else GoTo(q.(nread := 0), ChunkData)
      case ChunkData =>
        if !HasBodyLength(q) then Step(q, None, 0, NoCall, Abort)
        else
          var toRead := if q.contentLength < left then q.contentLength else left;
          var q' := q.(contentLength := q.contentLength - toRead);
          Step(if q'.contentLength == 0 then q'.(state := ChunkDataAlmostDone) else q',
               Some(BodyData), toRead - 1, NoCall, Advance)
      case ChunkDataAlmostDone =>
        if q.contentLength != 0 then Step(q, None, 0, NoCall, Abort)
        else if ch != CR then Error(q, Strict)
        else Flush(q.(state := ChunkDataDone), BodyData)
      case ChunkDataDone =>
        if ch != LF then Error(q, Strict) else GoTo(q.(nread := 0), ChunkSizeStart)
      case _ => Step(q, None, 0, NoCall, Abort)
  }

  /** The switch of http_parser_execute. */
  function Switch(q: Parser, ch: octet, left: nat): Step
    requires left > 0
  {
    match q.state
    case Dead => OnStart(q, ch)
    case StartReqOrRes => OnStart(q, ch)
    case ResOrRespH => OnStart(q, ch)
    case StartRes => OnStart(q, ch)
    case StartReq => OnMethod(q, ch)
    case ReqMethod => OnMethod(q, ch)
    case HeaderFieldStart => OnHeaderFieldStart(q, ch)
    case HeaderField => OnHeaderField(q, ch)
    case HeaderValueStart => OnHeaderValueStart(q, ch)
    case HeaderValue => OnHeaderValue(q, ch)
    case HeaderValueLws => OnHeaderEnd(q, ch)
    case HeaderAlmostDone => OnHeaderEnd(q, ch)
    case HeadersAlmostDone => OnHeadersEnd(q, ch)
    case HeadersDone => OnHeadersEnd(q, ch)
    case BodyIdentity => OnBody(q, ch, left)
    case BodyIdentityEof => OnBody(q, ch, left)
    case MessageDone => OnBody(q, ch, left)
    case _ =>
      if InStatusLine(q.state) then OnStatusLine(q, ch)
      else if InUrl(q.state) || q.state == ReqSpacesBeforeUrl then OnUrl(q, ch)
      else if InRequestLine(q.state) then OnRequestLine(q, ch)
      else OnChunk(q, ch, left)
  }

  predicate InStatusLine(s: State) {
    s.ResH? || s.ResHT? || s.ResHTT? || s.ResHTTP? || s.ResFirstHttpMajor? || s.ResHttpMajor?
    || s.ResFirstHttpMinor? || s.ResHttpMinor? || s.ResFirstStatusCode? || s.ResStatusCode?
    || s.ResStatus? || s.ResLineAlmostDone?
  }

  predicate InRequestLine(s: State) {
    s.ReqHttpStart? || s.ReqHttpH? || s.ReqHttpHT? || s.ReqHttpHTT? || s.ReqHttpHTTP?
    || s.ReqFirstHttpMajor? || s.ReqHttpMajor? || s.ReqFirstHttpMinor? || s.ReqHttpMinor?
    || s.ReqLineAlmostDone?
  }

  /** The states in which http_parser_execute starts with a mark at the front of the buffer. */
  predicate InUrl(s: State) {
    s.ReqSchema? || s.ReqSchemaSlash? || s.ReqSchemaSlashSlash? || s.ReqServerStart? || s.ReqServer?
    || s.ReqServerWithAt? || s.ReqPath? || s.ReqQueryStringStart? || s.ReqQueryString?
    || s.ReqFragmentStart? || s.ReqFragment?
  }

  predicate InChunk(s: State) {
    s.ChunkSizeStart? || s.ChunkSize? || s.ChunkParameters? || s.ChunkSizeAlmostDone?
    || s.ChunkData? || s.ChunkDataAlmostDone? || s.ChunkDataDone?
  }
}

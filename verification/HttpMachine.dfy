/**
 The parser as a machine that eats one byte at a time, which knows nothing of buffers,
 marks or bulk copies, and the invariant its steps keep.
 */
module HttpMachine {
  import opened Base
  import opened HttpTypes
  import opened HttpSwitch

  /** What the callbacks were told: a notification, or data of one kind. */
  datatype Event = DataOf(kind: DataKind, bytes: seq<octet>) | NoteOf(note: Note)

  type Log = seq<Event>

  /** A log in which adjacent data of one kind are joined. */
  function Push(log: Log, e: Event): Log {
    if e.DataOf? && log != [] && log[|log| - 1].DataOf? && log[|log| - 1].kind == e.kind
    then log[..|log| - 1] + [DataOf(e.kind, log[|log| - 1].bytes + e.bytes)]
    else log + [e]
  }

  function Join(trace: seq<Event>): Log {
    if trace == [] then [] else Push(Join(trace[..|trace| - 1]), trace[|trace| - 1])
  }

  lemma JoinPush(trace: seq<Event>, e: Event)
    ensures Join(trace + [e]) == Push(Join(trace), e)
  {
    assert (trace + [e])[..|trace|] == trace;
  }

  lemma PushPush(log: Log, k: DataKind, x: seq<octet>, y: seq<octet>)
    ensures Push(Push(log, DataOf(k, x)), DataOf(k, y)) == Push(log, DataOf(k, x + y))
  {
    var once := Push(log, DataOf(k, x));
    assert once[..|once| - 1] + [DataOf(k, once[|once| - 1].bytes + y)] == Push(log, DataOf(k, x + y)) by {
      if log != [] && log[|log| - 1].DataOf? && log[|log| - 1].kind == k {
        assert log[|log| - 1].bytes + x + y == log[|log| - 1].bytes + (x + y);
        assert once[..|once| - 1] == log[..|log| - 1];
      } else {
        assert once[..|once| - 1] == log;
      }
    }
  }

  /** The log ends with data of this kind, which more data of the kind would be joined to. */
  predicate EndsWith(log: Log, k: DataKind) {
    log != [] && log[|log| - 1].DataOf? && log[|log| - 1].kind == k
  }

  lemma PushNothing(log: Log, k: DataKind)
    requires EndsWith(log, k)
    ensures Push(log, DataOf(k, [])) == log
  {
    assert log[|log| - 1].bytes + [] == log[|log| - 1].bytes;
    assert log[..|log| - 1] + [log[|log| - 1]] == log;
  }

  /** The states whose bytes belong to data that began earlier: a buffer starts with a mark there. */
  function Carry(s: State): Option<DataKind> {
    if s.HeaderField? then Some(FieldData)
    else if s.HeaderValue? then Some(ValueData)
    else if InUrl(s) then Some(UrlData)
    else None
  }

  /** How often a byte can be executed again from here on. */
  function Rank(s: State): nat {
    match s
    case HeaderValueLws => 3
    case HeaderFieldStart => 2
    case HeadersAlmostDone => 1
    case HeaderValue => 1
    case BodyIdentity => 1
    case StartReqOrRes => 1
    case _ => 0
  }

  /** Does the application answer on_headers_complete with 1, given all it has been told? */
  type SkipBody = Log -> bool

  /** The effect of the answer on the parser. */
  function Answered(skip: SkipBody, q: Parser, log: Log, note: Note): Parser {
    if note == HeadersComplete && skip(log) then q.(flags := q.flags.(skipBody := true)) else q
  }

  datatype ByteResult =
    | Next(q: Parser, log: Log)
    | Left(q: Parser, log: Log)
    | Failed(q: Parser, log: Log)

  /** The log after a step on a buffer that holds this byte only. */
  function LogStep(q: Parser, s: Step, log: Log, ch: octet): Log {
    match s.call
    case DataCall(k, whole, _) =>
      if whole then Push(log, DataOf(k, [ch]))
      else if s.mark.Some? then Push(log, DataOf(k, []))
      else log
    case Notify(note, _) => Push(log, NoteOf(note))
    case NoCall =>
      var k := if s.mark.Some? then s.mark else Carry(q.state);
      if s.then_ == Advance && k.Some? then Push(log, DataOf(k.value, [ch])) else log
  }

  /** The parser after a step, once a callback has answered. */
  function AfterStep(skip: SkipBody, s: Step, log: Log): (q: Parser)
    ensures q.state == s.q.state && q.nread == s.q.nread && q.errno == s.q.errno
  {
    if s.call.Notify? then Answered(skip, s.q, log, s.call.note) else s.q
  }

  /** Execute a byte, again and again until it is consumed. */
  function Finish(skip: SkipBody, q: Parser, log: Log, ch: octet): ByteResult
    decreases Rank(q.state)
  {
    var s := Switch(q, ch, 1);
    var log1 := LogStep(q, s, log, ch);
    var q1 := AfterStep(skip, s, log1);
    match s.then_
    case Advance => Next(q1, log1)
    case Again => AgainDecreases(q, ch, 1); Finish(skip, q1, log1, ch)
    case Leave => Left(q1, log1)
    case Fail => Failed(q1, log1)
    case Abort => Failed(q1, log1)
  }

  lemma AgainDecreases(q: Parser, ch: octet, left: nat)
    requires left > 0
    ensures Switch(q, ch, left).then_ == Again ==> Rank(Switch(q, ch, left).q.state) < Rank(q.state)
  {
    hide OnStart, OnStatusLine, OnMethod, OnUrl, OnRequestLine, OnHeaderFieldStart, OnHeaderField;
    hide OnHeaderValueStart, OnHeaderValue, OnHeaderEnd, OnHeadersEnd, OnBody, OnChunk;
    NeverAgain(q, ch, left);
    NeverAgainInNames(q, ch);
    AgainInFields(q, ch);
    AgainInValues(q, ch);
    AgainElsewhere(q, ch, left);
  }

  lemma AgainInFields(q: Parser, ch: octet)
    ensures OnHeaderFieldStart(q, ch).then_ == Again ==> OnHeaderFieldStart(q, ch).q.state == HeadersAlmostDone
    ensures OnHeaderField(q, ch).then_ != Again
  {
    hide FieldChar, Token;
    NeverAgainInNames(q, ch);
  }

  lemma AgainInValues(q: Parser, ch: octet)
    ensures OnHeaderValueStart(q, ch).then_ != Again
    ensures OnHeaderValue(q, ch).then_ == Again ==> OnHeaderValue(q, ch).q.state == HeaderAlmostDone
  {
    hide ValueChar, LowerIs;
    NeverAgainInNames(q, ch);
  }

  lemma AgainElsewhere(q: Parser, ch: octet, left: nat)
    requires left > 0
    ensures OnStart(q, ch).then_ == Again ==> q.state == StartReqOrRes && OnStart(q, ch).q.state == StartReq
    ensures OnHeaderEnd(q, ch).then_ == Again ==>
      q.state != HeaderAlmostDone && OnHeaderEnd(q, ch).q.state == HeaderFieldStart
    ensures OnBody(q, ch, left).then_ == Again ==> q.state == BodyIdentity && OnBody(q, ch, left).q.state == MessageDone
  {
    hide NewMessage;
  }

  /** Most states never execute a byte again. */
  lemma NeverAgain(q: Parser, ch: octet, left: nat)
    requires left > 0
    ensures OnStatusLine(q, ch).then_ != Again
    ensures OnRequestLine(q, ch).then_ != Again
    ensures OnChunk(q, ch, left).then_ != Again
  {
    hide Unhex, Digit, AddDigit, AddLengthDigit;
  }

  lemma NeverAgainInNames(q: Parser, ch: octet)
    ensures OnMethod(q, ch).then_ != Again
    ensures OnUrl(q, ch).then_ != Again
    ensures FieldChar(q, ch, Token(ch)).then_ != Again && ValueChar(q, ch).then_ != Again
    ensures OnHeadersEnd(q, ch).then_ == Again ==>
      q.state == HeadersAlmostDone && OnHeadersEnd(q, ch).q.state == HeadersDone
  {
    hide OnMethod, OnUrl, FieldChar, ValueChar, NewMessage, Token, MessageNeedsEof;
    NeverAgainInMethod(q, ch);
    NeverAgainInUrl(q, ch);
    NeverAgainInText(q, ch);
  }

  lemma NeverAgainInMethod(q: Parser, ch: octet)
    ensures OnMethod(q, ch).then_ != Again
  {
    hide OtherMethod, FirstMethod, MethodString, MethodErrno, At;
  }

  lemma NeverAgainInUrl(q: Parser, ch: octet)
    ensures OnUrl(q, ch).then_ != Again
  {
    hide UrlChar;
  }

  lemma NeverAgainInText(q: Parser, ch: octet)
    ensures FieldChar(q, ch, Token(ch)).then_ != Again && ValueChar(q, ch).then_ != Again
  {
    hide MatchField, MatchValue, LoseUnlessSpace, Digit, Token, AddLengthDigit;
  }

  /** The count of header bytes, before a byte is executed. */
  function Count(q: Parser): Parser {
    if ParsingHeader(q.state) then
      if q.nread + 1 > HTTP_MAX_HEADER_SIZE then q.(nread := q.nread + 1, errno := HeaderOverflow)
      else q.(nread := q.nread + 1)
    else q
  }

  /** How a run over some bytes ended; `n` is the number of bytes consumed. */
  datatype Ending = Ran | Stopped | Broken

  datatype Fed = Fed(q: Parser, log: Log, n: nat, ending: Ending)

  function Shift(f: Fed, n: nat): Fed {
    f.(n := f.n + n)
  }

  /** The reference machine: all bytes, one after the other. */
  function Feed(skip: SkipBody, q: Parser, log: Log, data: seq<octet>): Fed
    decreases |data|, 1
  {
    if data == [] then Fed(q, log, 0, Ran)
    else if Count(q).errno != Ok then Fed(Count(q), log, 0, Broken)
    else Continue(skip, Count(q), log, data)
  }

  /** The same from the middle of the first byte. */
  function Continue(skip: SkipBody, q: Parser, log: Log, data: seq<octet>): Fed
    requires data != []
    decreases |data|, 0
  {
    match Finish(skip, q, log, data[0])
    case Next(q', log') => Shift(Feed(skip, q', log', data[1..]), 1)
    case Left(q', log') => Fed(q', log', 1, Stopped)
    case Failed(q', log') => Fed(q', log', 0, Broken)
  }

  /** The message that was completed last asked for an upgrade: what follows is not HTTP. */
  predicate AtUpgrade(q: Parser, log: Log) {
    q.upgrade && log != [] && log[|log| - 1] == NoteOf(MessageComplete)
  }

  // The invariant

  /** The lengths of the names, which the invariant has as numbers. */
  lemma NameLengths()
    ensures |CONNECTION| == 10 && |PROXY_CONNECTION| == 16 && |CONTENT_LENGTH| == 14
    ensures |TRANSFER_ENCODING| == 17 && |UPGRADE| == 7
    ensures |CHUNKED| == 7 && |KEEP_ALIVE| == 10 && |CLOSE| == 5
  {
  }

  function MethodLength(m: Method): (n: nat) {
    match m
    case GET => 3 case PUT => 3
    case HEAD => 4 case POST => 4 case COPY => 4 case LOCK => 4 case MOVE => 4
    case TRACE => 5 case MKCOL => 5 case MERGE => 5 case PATCH => 5 case PURGE => 5
    case DELETE => 6 case SEARCH => 6 case UNLOCK => 6 case REPORT => 6 case NOTIFY => 6
    case CONNECT => 7 case OPTIONS => 7
    case PROPFIND => 8 case CHECKOUT => 8 case MSEARCH => 8
    case PROPPATCH => 9 case SUBSCRIBE => 9
    case MKACTIVITY => 10
    case UNSUBSCRIBE => 11
  }

  lemma MethodLengths(m: Method)
    ensures |MethodString(m)| == MethodLength(m)
  {
  }

  /** The header states that occur inside a field name, with the position in the name being matched. */
  predicate FieldStateOk(h: HeaderState, index: nat) {
    match h
    case General => true
    case C => index == 0
    case CO => index == 1
    case CON => index == 2
    case MatchingConnection => index <= 8
    case MatchingProxyConnection => index <= 14
    case MatchingContentLength => index <= 12
    case MatchingTransferEncoding => index <= 15
    case MatchingUpgrade => index <= 5
    case Connection => true
    case ContentLength => true
    case TransferEncoding => true
    case Upgrade => true
    case _ => false
  }

  /** The header states that occur inside a value. */
  predicate ValueStateOk(h: HeaderState, index: nat) {
    match h
    case General => true
    case ContentLength => true
    case MatchingTransferEncodingChunked => index <= 5
    case MatchingConnectionKeepAlive => index <= 8
    case MatchingConnectionClose => index <= 3
    case TransferEncodingChunked => true
    case ConnectionKeepAlive => true
    case ConnectionClose => true
    case _ => false
  }

  /** The states behind the headers of a message that has a body. */
  predicate InMessageBody(s: State) {
    InChunk(s) || s.BodyIdentity? || s.BodyIdentityEof? || s.MessageDone?
  }

  /** What every assert of http_parser_execute needs, but for the byte count. */
  predicate Sane(q: Parser) {
    && q.errno == Ok
    && (InChunk(q.state) ==> q.flags.chunked)
    && (q.state.BodyIdentity? || q.state.ChunkData? ==> HasBodyLength(q))
    && (q.state.ChunkDataAlmostDone? ==> q.contentLength == 0)
    && (q.state.ChunkSize? || q.state.ChunkParameters? || q.state.ChunkSizeAlmostDone? ==> q.contentLength != NO_LENGTH)
    && (q.state.HeaderField? ==> FieldStateOk(q.headerState, q.index))
    && (q.state.HeaderValue? ==> ValueStateOk(q.headerState, q.index))
    && (InMessageBody(q.state) || q.flags.trailing ==> !q.upgrade)
    && (q.state.ReqMethod? ==> q.index <= MethodLength(q.verb))
    && q.httpMajor <= 999 && q.httpMinor <= 999 && q.statusCode <= 999
  }

  /** Between two bytes. */
  predicate Valid(q: Parser) {
    Sane(q) && (q.state.ChunkSizeStart? ==> q.nread == 0) && q.nread <= HTTP_MAX_HEADER_SIZE
  }

  /** While a byte is executed, after it was counted. */
  predicate Counted(q: Parser) {
    Sane(q) && (q.state.ChunkSizeStart? ==> q.nread == 1) && q.nread <= HTTP_MAX_HEADER_SIZE
  }

  lemma ValidOk(q: Parser)
    requires Valid(q)
    ensures q.errno == Ok
  {
  }

  lemma CountKeeps(q: Parser)
    requires Valid(q)
    ensures Count(q).errno == Ok ==> Counted(Count(q))
    ensures Count(q).errno != Ok <==> ParsingHeader(q.state) && q.nread == HTTP_MAX_HEADER_SIZE
  {
  }

  /** No assert failed, and the invariant holds where the step leads. */
  predicate Kept(s: Step) {
    && s.then_ != Abort
    && (s.then_ == Advance || s.then_ == Leave ==> Valid(s.q))
    && (s.then_ == Again ==> Counted(s.q) && !s.q.state.ChunkSizeStart?)
    && (s.then_ == Fail <==> s.q.errno != Ok) && OfSwitch(s.q.errno)
  }

  /** The switch neither pauses the parser nor counts bytes. */
  predicate OfSwitch(e: Errno) {
    e != Errno.Paused && e != HeaderOverflow
  }

  /** The states that the invariant says nothing special about. */
  predicate Plain(s: State) {
    && !InMessageBody(s)
    && !s.HeaderField? && !s.HeaderValue? && !s.ReqMethod?
  }

  lemma MovesKeep(q: Parser)
    requires Counted(q)
    ensures forall s :: Plain(s) ==> Kept(GoTo(q, s))
    ensures forall e :: e != Ok && OfSwitch(e) ==> Kept(Error(q, e))
    ensures Plain(q.state) ==> Kept(Go(q))
  {
  }

  lemma StartKeeps(q: Parser, ch: octet)
    requires Counted(q) && (q.state.Dead? || q.state.StartReqOrRes? || q.state.ResOrRespH? || q.state.StartRes?)
    ensures Kept(OnStart(q, ch))
  {
  }

  lemma StatusLineKeeps(q: Parser, ch: octet)
    requires Counted(q) && InStatusLine(q.state)
    ensures Kept(OnStatusLine(q, ch))
  {
    hide MajorDigits, MinorDigits, Kept, Counted, GoTo, Error, Go;
    DigitsKeep(q, ch, ResFirstHttpMinor);
    NumbersKeep(q, ch);
    MovesKeep(q);
  }

  lemma NumbersKeep(q: Parser, ch: octet)
    requires Counted(q) && Plain(q.state)
    ensures IsNum(ch) ==>
      && (forall s :: Plain(s) ==> Kept(GoTo(q.(httpMajor := Digit(ch)), s)))
      && (forall s :: Plain(s) ==> Kept(GoTo(q.(httpMinor := Digit(ch)), s)))
      && (forall s :: Plain(s) ==> Kept(GoTo(q.(statusCode := Digit(ch)), s)))
      && var q' := q.(statusCode := AddDigit(q.statusCode, ch));
         (if q'.statusCode > 999 then Kept(Error(q', InvalidStatus)) else Kept(Go(q')))
  {
  }

  lemma DigitsKeep(q: Parser, ch: octet, dot: State)
    requires Counted(q) && !InChunk(q.state)
    requires dot == ResFirstHttpMinor || dot == ReqFirstHttpMinor
    ensures Kept(MajorDigits(q, ch, dot))
    ensures Kept(MinorDigits(q, ch))
  {
    hide Kept, Counted, GoTo, Error, Go, AddDigit;
    MovesKeep(q);
    if IsNum(ch) {
      VersionKeeps(q, AddDigit(q.httpMajor, ch));
      VersionKeeps(q, AddDigit(q.httpMinor, ch));
    }
  }

  lemma VersionKeeps(q: Parser, n: nat)
    requires Counted(q) && !InChunk(q.state)
    ensures var r := q.(httpMajor := n); if n > 999 then Kept(Error(r, InvalidVersion)) else Kept(Go(r))
    ensures var r := q.(httpMinor := n); if n > 999 then Kept(Error(r, InvalidVersion)) else Kept(Go(r))
  {
  }

  lemma MethodKeeps(q: Parser, ch: octet)
    requires Counted(q) && (q.state.StartReq? || q.state.ReqMethod?)
    ensures Kept(OnMethod(q, ch))
  {
    hide OnMethod;
    if q.state.StartReq? {
      MethodStartKeeps(q, ch);
    } else {
      MethodGoesOn(q, ch);
    }
  }

  lemma MethodStartKeeps(q: Parser, ch: octet)
    requires Counted(q) && q.state.StartReq?
    ensures Kept(OnMethod(q, ch))
  {
    hide FirstMethod, OtherMethod, MethodString;
  }

  lemma MethodGoesOn(q: Parser, ch: octet)
    requires Counted(q) && q.state.ReqMethod?
    ensures Kept(OnMethod(q, ch))
  {
    hide OtherMethod, MethodString, MethodErrno, FirstMethod;
    if ch != '\0' {
      MethodIndexKept(q, ch);
      MethodErrnoOk(q);
    }
  }

  lemma MethodErrnoOk(q: Parser)
    ensures MethodErrno(q) != Ok && OfSwitch(MethodErrno(q))
  {
  }

  /** The index stays inside the method name, whatever method a letter switches to. */
  lemma MethodIndexKept(q: Parser, ch: octet)
    requires q.index <= MethodLength(q.verb) && ch != '\0'
    ensures At(MethodString(q.verb), q.index) == ch ==> q.index < MethodLength(q.verb)
    ensures OtherMethod(q, ch).Some? ==> q.index + 1 <= MethodLength(OtherMethod(q, ch).value)
  {
    MethodLengths(q.verb);
    hide MethodString;
  }

  lemma UrlKeeps(q: Parser, ch: octet)
    requires Counted(q) && (InUrl(q.state) || q.state.ReqSpacesBeforeUrl?)
    ensures Kept(OnUrl(q, ch))
  {
    hide UrlChar, Kept, Counted, GoTo, Error, Go, Flush;
    MovesKeep(q);
    FlushKeeps(q, ch);
    var from := if q.state.ReqSpacesBeforeUrl? && q.verb == CONNECT then ReqServerStart else q.state;
    ToUrlKeeps(q, from, ch);
    hide ToUrl;
  }

  lemma ToUrlKeeps(q: Parser, from: State, ch: octet)
    requires Counted(q)
    ensures Kept(ToUrl(q, from, ch)) && Kept(ToUrl(q, from, ch).(mark := Some(UrlData)))
  {
    hide UrlChar, Kept, Counted, GoTo, Error, Go, Flush;
    MovesKeep(q);
    FlushKeeps(q, ch);
    UrlCharStays(from, ch);
  }

  /** Marks and data callbacks do not touch the invariant. */
  lemma FlushKeeps(q: Parser, ch: octet)
    requires Counted(q)
    ensures forall s :: Kept(GoTo(q, s)) ==>
        Kept(GoTo(q, s).(mark := Some(UrlData))) && Kept(Flush(q.(state := s), UrlData))
    ensures forall s :: Kept(GoTo(q, s)) ==>
      Kept(Flush(q.(httpMajor := 0, httpMinor := 9, state := s), UrlData))
    ensures forall e :: e != Ok && OfSwitch(e) ==>
      Kept(Error(q.(state := Dead), e)) && Kept(Error(q.(state := Dead), e).(mark := Some(UrlData)))
  {
  }

  lemma UrlCharStays(s: State, ch: octet)
    ensures UrlChar(s, ch).Dead? || InUrl(UrlChar(s, ch))
  {
  }

  lemma RequestLineKeeps(q: Parser, ch: octet)
    requires Counted(q) && InRequestLine(q.state)
    ensures Kept(OnRequestLine(q, ch))
  {
    hide MajorDigits, MinorDigits, Kept, Counted, GoTo, Error, Go;
    DigitsKeep(q, ch, ReqFirstHttpMinor);
    NumbersKeep(q, ch);
    MovesKeep(q);
  }

  lemma HeaderFieldStartKeeps(q: Parser, ch: octet)
    requires Counted(q) && q.state.HeaderFieldStart?
    ensures Kept(OnHeaderFieldStart(q, ch))
  {
    hide Token;
  }

  lemma HeaderFieldKeeps(q: Parser, ch: octet)
    requires Counted(q) && q.state.HeaderField?
    ensures Kept(OnHeaderField(q, ch))
  {
    FieldCharKeeps(q, ch, Token(ch));
    hide Token, FieldChar;
  }

  /** A match never runs past the name: it has failed, succeeded, or has a character to go. */
  lemma MatchStays(q: Parser, name: string, same: bool, found: HeaderState)
    requires q.index <= |name| - 2
    ensures var r := Match(q, name, same, found);
      && r == q.(index := q.index + 1, headerState := r.headerState)
      && (r.headerState == General || r.headerState == found
          || (r.headerState == q.headerState && r.index <= |name| - 2))
  {
  }

  lemma FieldMoves(q: Parser, h: HeaderState, index: nat)
    requires Counted(q) && q.state.HeaderField? && FieldStateOk(h, index)
    ensures Kept(Go(q.(headerState := h, index := index)))
  {
  }

  /** Inside a name, only the header state and the index move, and stay in step. */
  lemma FieldCharStays(q: Parser, ch: octet, c: char)
    requires FieldStateOk(q.headerState, q.index)
    ensures var r := FieldChar(q, ch, c).q;
      FieldChar(q, ch, c) == Go(q.(headerState := r.headerState, index := r.index))
        && FieldStateOk(r.headerState, r.index)
  {
    hide FieldChar, FieldStateOk;
    match q.headerState {
      case MatchingConnection => NameMatchStays(q, ch, c);
      case MatchingProxyConnection => NameMatchStays(q, ch, c);
      case MatchingContentLength => NameMatchStays(q, ch, c);
      case MatchingTransferEncoding => NameMatchStays(q, ch, c);
      case MatchingUpgrade => NameMatchStays(q, ch, c);
      case _ => LettersStay(q, ch, c);
    }
  }

  predicate MatchingName(h: HeaderState) {
    h.MatchingConnection? || h.MatchingProxyConnection? || h.MatchingContentLength?
    || h.MatchingTransferEncoding? || h.MatchingUpgrade?
  }

  lemma NameMatchStays(q: Parser, ch: octet, c: char)
    requires FieldStateOk(q.headerState, q.index) && MatchingName(q.headerState)
    ensures var r := FieldChar(q, ch, c).q;
      FieldChar(q, ch, c) == Go(q.(headerState := r.headerState, index := r.index))
        && FieldStateOk(r.headerState, r.index)
  {
    NameLengths();
    hide Match, At, CONNECTION, PROXY_CONNECTION, CONTENT_LENGTH, TRANSFER_ENCODING, UPGRADE;
    match q.headerState {
      case MatchingConnection => MatchStays(q, CONNECTION, c == At(CONNECTION, q.index + 1), Connection);
      case MatchingProxyConnection =>
        MatchStays(q, PROXY_CONNECTION, c == At(PROXY_CONNECTION, q.index + 1), Connection);
      case MatchingContentLength => MatchStays(q, CONTENT_LENGTH, c == At(CONTENT_LENGTH, q.index + 1), ContentLength);
      case MatchingTransferEncoding =>
        MatchStays(q, TRANSFER_ENCODING, c == At(TRANSFER_ENCODING, q.index + 1), TransferEncoding);
      case MatchingUpgrade => MatchStays(q, UPGRADE, c == At(UPGRADE, q.index + 1), HeaderState.Upgrade);
      case _ =>
    }
  }

  lemma LettersStay(q: Parser, ch: octet, c: char)
    requires FieldStateOk(q.headerState, q.index) && !MatchingName(q.headerState)
    ensures var r := FieldChar(q, ch, c).q;
      FieldChar(q, ch, c) == Go(q.(headerState := r.headerState, index := r.index))
        && FieldStateOk(r.headerState, r.index)
  {
    hide MatchField;
  }

  lemma FieldCharKeeps(q: Parser, ch: octet, c: char)
    requires Counted(q) && q.state.HeaderField?
    ensures Kept(FieldChar(q, ch, c))
  {
    hide FieldChar, FieldStateOk, Kept, Go;
    var r := FieldChar(q, ch, c).q;
    FieldCharStays(q, ch, c);
    FieldMoves(q, r.headerState, r.index);
  }

  lemma HeaderValueStartKeeps(q: Parser, ch: octet)
    requires Counted(q) && q.state.HeaderValueStart?
    ensures Kept(OnHeaderValueStart(q, ch))
  {
    hide OnHeaderValueStart, Counted, Kept;
    if ch == CR || ch == LF || q.headerState == ContentLength {
      ValueStartKeeps(q, ch);
    } else {
      NamedValueKeeps(q, ch);
    }
  }

  lemma ValueStartKeeps(q: Parser, ch: octet)
    requires Counted(q) && q.state.HeaderValueStart? && (ch == CR || ch == LF || q.headerState == ContentLength)
    ensures Kept(OnHeaderValueStart(q, ch))
  {
    hide LowerIs, Digit;
  }

  lemma NamedValueKeeps(q: Parser, ch: octet)
    requires Counted(q) && q.state.HeaderValueStart? && ch != CR && ch != LF && q.headerState != ContentLength
    ensures Kept(OnHeaderValueStart(q, ch))
  {
    hide LowerIs, Digit;
  }

  lemma HeaderValueKeeps(q: Parser, ch: octet)
    requires Counted(q) && q.state.HeaderValue?
    ensures Kept(OnHeaderValue(q, ch))
  {
    ValueCharKeeps(q, ch);
    hide ValueChar;
  }

  lemma ValueCharKeeps(q: Parser, ch: octet)
    requires Counted(q) && q.state.HeaderValue?
    ensures Kept(ValueChar(q, ch))
  {
    hide Kept, Counted, Go, Error, AddLengthDigit, MatchValue, LoseUnlessSpace;
    ValueMovesKeep(q, q.contentLength);
    match q.headerState {
      case ContentLength =>
        if IsNum(ch) && AddLengthDigit(q.contentLength, 10, Digit(ch)).Some? {
          ValueMovesKeep(q, AddLengthDigit(q.contentLength, 10, Digit(ch)).value);
        }
      case MatchingTransferEncodingChunked => MatchValueKeeps(q, ch, CHUNKED, TransferEncodingChunked);
      case MatchingConnectionKeepAlive => MatchValueKeeps(q, ch, KEEP_ALIVE, ConnectionKeepAlive);
      case MatchingConnectionClose => MatchValueKeeps(q, ch, CLOSE, ConnectionClose);
      case _ => LoseKeeps(q, ch);
    }
    InValueOnly(q);
  }

  lemma InValueOnly(q: Parser)
    requires Counted(q) && q.state.HeaderValue?
    ensures q.headerState != Connection && q.headerState != TransferEncoding
  {
  }

  lemma ValueMovesKeep(q: Parser, length: u64)
    requires Counted(q) && q.state.HeaderValue?
    ensures Kept(Go(q)) && Kept(Go(q.(headerState := General))) && Kept(Go(q.(contentLength := length)))
    ensures Kept(Error(q, InvalidContentLength))
  {
  }

  lemma LoseKeeps(q: Parser, ch: octet)
    requires Counted(q) && q.state.HeaderValue?
    ensures Kept(Go(LoseUnlessSpace(q, ch)))
  {
  }

  lemma MatchValueKeeps(q: Parser, ch: octet, name: string, found: HeaderState)
    requires Counted(q) && q.state.HeaderValue?
    requires
      || (name == CHUNKED && found == TransferEncodingChunked && q.headerState == MatchingTransferEncodingChunked)
      || (name == KEEP_ALIVE && found == ConnectionKeepAlive && q.headerState == MatchingConnectionKeepAlive)
      || (name == CLOSE && found == ConnectionClose && q.headerState == MatchingConnectionClose)
    ensures Kept(Go(MatchValue(q, ch, name, found)))
  {
    NameLengths();
    hide At, LowerIs, CHUNKED, KEEP_ALIVE, CLOSE;
    MatchStays(q, name, LowerIs(ch, At(name, q.index + 1)), found);
    hide Match;
  }

  lemma HeaderEndKeeps(q: Parser, ch: octet)
    requires Counted(q) && (q.state.HeaderAlmostDone? || q.state.HeaderValueLws?)
    ensures Kept(OnHeaderEnd(q, ch))
  {
  }

  lemma HeadersEndKeeps(q: Parser, ch: octet)
    requires Counted(q) && (q.state.HeadersAlmostDone? || q.state.HeadersDone?)
    ensures Kept(OnHeadersEnd(q, ch))
  {
    hide ShouldKeepAlive, MessageNeedsEof;
  }

  lemma BodyKeeps(q: Parser, ch: octet, left: nat)
    requires Counted(q) && left > 0
    requires q.state.BodyIdentity? || q.state.BodyIdentityEof? || q.state.MessageDone?
    ensures Kept(OnBody(q, ch, left))
  {
    hide ShouldKeepAlive, MessageNeedsEof;
  }

  lemma ChunkKeeps(q: Parser, ch: octet, left: nat)
    requires Counted(q) && left > 0 && InChunk(q.state)
    ensures Kept(OnChunk(q, ch, left))
  {
    LengthNeverSentinel(q.contentLength, ch);
    hide AddLengthDigit;
  }

  lemma LengthNeverSentinel(length: u64, ch: octet)
    ensures Unhex(ch) >= 0 && AddLengthDigit(length, 16, Unhex(ch)).Some? ==>
      AddLengthDigit(length, 16, Unhex(ch)).value != NO_LENGTH
  {
  }

  /** No assert fails, and the invariant is kept by every byte, in a buffer of any length. */
  lemma StepKeeps(q: Parser, ch: octet, left: nat)
    requires Counted(q) && left > 0
    ensures Kept(Switch(q, ch, left))
    ensures Switch(q, ch, left).then_ == Again ==> Rank(Switch(q, ch, left).q.state) < Rank(q.state)
  {
    hide OnStart, OnStatusLine, OnMethod, OnUrl, OnRequestLine, OnHeaderFieldStart, OnHeaderField;
    hide OnHeaderValueStart, OnHeaderValue, OnHeaderEnd, OnHeadersEnd, OnBody, OnChunk;
    hide Kept, Counted, Rank;
    AgainDecreases(q, ch, left);
    match q.state {
      case Dead => StartKeeps(q, ch);
      case StartReqOrRes => StartKeeps(q, ch);
      case ResOrRespH => StartKeeps(q, ch);
      case StartRes => StartKeeps(q, ch);
      case StartReq => MethodKeeps(q, ch);
      case ReqMethod => MethodKeeps(q, ch);
      case HeaderFieldStart => HeaderFieldStartKeeps(q, ch);
      case HeaderField => HeaderFieldKeeps(q, ch);
      case HeaderValueStart => HeaderValueStartKeeps(q, ch);
      case HeaderValue => HeaderValueKeeps(q, ch);
      case HeaderValueLws => HeaderEndKeeps(q, ch);
      case HeaderAlmostDone => HeaderEndKeeps(q, ch);
      case HeadersAlmostDone => HeadersEndKeeps(q, ch);
      case HeadersDone => HeadersEndKeeps(q, ch);
      case BodyIdentity => BodyKeeps(q, ch, left);
      case BodyIdentityEof => BodyKeeps(q, ch, left);
      case MessageDone => BodyKeeps(q, ch, left);
      case _ =>
        if InStatusLine(q.state) {
          StatusLineKeeps(q, ch);
        } else if InUrl(q.state) || q.state == ReqSpacesBeforeUrl {
          UrlKeeps(q, ch);
        } else if InRequestLine(q.state) {
          RequestLineKeeps(q, ch);
        } else {
          ChunkKeeps(q, ch, left);
        }
    }
  }
}

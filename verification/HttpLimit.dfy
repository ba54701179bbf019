/**
 Inputs for which pausing matters: requests in chunks whose headers are just as long as
 the limit on header bytes allows.
 */
module HttpLimit {
  import opened Base
  import opened HttpTypes
  import opened HttpSwitch
  import opened HttpMachine
  import opened HttpCount
  import opened HttpExecute
  import opened HttpTheorems
  import opened HttpReading
  import opened HttpHeaders
  import opened HttpLines

  /** In front of the last byte of the headers of a message in chunks, which is the last that may be counted. */
  predicate AtLimit(q: Parser) {
    && Valid(q) && q.state.HeadersAlmostDone? && q.flags.chunked && q.verb != CONNECT
    && !q.flags.upgrade && !q.flags.trailing && !q.flags.skipBody && q.nread == HTTP_MAX_HEADER_SIZE - 1
  }

  /** The parser while on_headers_complete is told. */
  function InCallback(q: Parser): Parser {
    q.(state := HeadersDone, upgrade := false, nread := HTTP_MAX_HEADER_SIZE)
  }

  function BehindHeaders(q: Parser): Parser {
    q.(state := ChunkSizeStart, upgrade := false, nread := 0)
  }

  /**
   The last byte of the headers is the last that may be counted. It ends them when
   on_headers_complete does not pause; presented again after a pause, it is one too many.
   */
  lemma PauseHitsLimit(skip: SkipBody, pauses: Log -> bool, q: Parser, log: Log)
    requires AtLimit(q)
    requires var told := log + [NoteOf(HeadersComplete)]; !skip(told) && pauses(told)
    ensures var paused, told := InCallback(q), log + [NoteOf(HeadersComplete)];
      && Valid(paused) && Valid(BehindHeaders(q))
      && Feed(skip, q, log, [LF]) == Continue(skip, paused, told, [LF]) == Fed(BehindHeaders(q), told, 1, Ran)
      && Feed(skip, paused, told, [LF]).q.errno == HeaderOverflow
      && Over(skip, pauses, q, log, [LF])
  {
    hide Switch, Feed, Continue, Over, Finish;
    HeadersEnd(Count(q));
    var told := log + [NoteOf(HeadersComplete)];
    FinishEnd(skip, pauses, Count(q), InCallback(q), BehindHeaders(q), log, told);
    FeedEnd(skip, pauses, q, InCallback(q), BehindHeaders(q), log, told);
  }

  /** The two executions of the byte that ends the headers. */
  lemma HeadersEnd(q: Parser)
    requires q.state.HeadersAlmostDone? && q.flags.chunked && q.verb != CONNECT
    requires !q.flags.upgrade && !q.flags.trailing && !q.flags.skipBody
    ensures var paused := q.(state := HeadersDone, upgrade := false);
      && Switch(q, LF, 1) == Step(paused, None, 0, Notify(HeadersComplete, false), Again)
      && Switch(paused, LF, 1) == Go(paused.(nread := 0, state := ChunkSizeStart))
  {
    hide NewMessage, MessageNeedsEof;
  }

  lemma FinishEnd(skip: SkipBody, pauses: Log -> bool, r: Parser, paused: Parser, last: Parser, log: Log, told: Log)
    requires told == log + [NoteOf(HeadersComplete)] && !skip(told) && pauses(told)
    requires Switch(r, LF, 1) == Step(paused, None, 0, Notify(HeadersComplete, false), Again)
    requires Switch(paused, LF, 1) == Go(last) && paused.state == HeadersDone
    ensures Finish(skip, paused, told, LF) == Finish(skip, r, log, LF) == Next(last, told)
    ensures OverIn(skip, pauses, r, log, [LF]) == Over(skip, pauses, paused, told, [LF])
  {
    hide Switch, Over;
  }

  lemma FeedEnd(skip: SkipBody, pauses: Log -> bool, q: Parser, paused: Parser, last: Parser, log: Log, told: Log)
    requires Count(q).errno == Ok && Count(paused).errno == HeaderOverflow
    requires Finish(skip, paused, told, LF) == Finish(skip, Count(q), log, LF) == Next(last, told)
    requires OverIn(skip, pauses, Count(q), log, [LF]) == Over(skip, pauses, paused, told, [LF])
    ensures Feed(skip, q, log, [LF]) == Continue(skip, paused, told, [LF]) == Fed(last, told, 1, Ran)
    ensures Feed(skip, paused, told, [LF]).q.errno == HeaderOverflow && Over(skip, pauses, q, log, [LF])
  {
    hide Finish, OverIn, Count;
    assert [LF][1..] == [];
  }

  // The request line

  const GET_ROOT: seq<octet> := ['G', 'E', 'T', ' ', '/']
  const VERSION: seq<octet> := [' ', 'H', 'T', 'T', 'P', '/', '1', '.', '1', CR, LF]
  const REQUEST_LINE: seq<octet> := GET_ROOT + VERSION

  /** Bytes of which nothing is told, one after the other. */
  lemma {:induction false} Walk(skip: SkipBody, qs: seq<Parser>, log: Log, x: seq<octet>)
    requires |qs| == |x| + 1 && forall i :: 0 <= i < |x| ==> Eats(skip, qs[i], log, [x[i]], qs[i + 1], log)
    ensures Eats(skip, qs[0], log, x, qs[|x|], log)
    decreases |x|
  {
    hide Eats;
    if x == [] {
      EatsNothing(skip, qs[0], log);
    } else {
      var n := |x| - 1;
      Walk(skip, qs[..n + 1], log, x[..n]);
      EatsBoth(skip, qs[0], log, x[..n], qs[n], log, [x[n]], qs[n + 1], log);
      assert x[..n] + [x[n]] == x;
    }
  }

  /** The parser at position i of the version. */
  function InVersion(q: Parser, i: nat): Parser
    requires i <= 11
  {
    var s := [ReqPath, ReqHttpStart, ReqHttpH, ReqHttpHT, ReqHttpHTT, ReqHttpHTTP, ReqFirstHttpMajor, ReqHttpMajor,
              ReqFirstHttpMinor, ReqHttpMinor, ReqLineAlmostDone, HeaderFieldStart][i];
    q.(state := s, nread := q.nread + i, httpMajor := if i < 7 then q.httpMajor else 1,
       httpMinor := if i < 9 then q.httpMinor else 1)
  }

  lemma VersionStep(q: Parser, i: nat)
    requires q.state.ReqPath? && i < 11
    ensures var s := Switch(InVersion(q, i).(nread := q.nread + i + 1), VERSION[i], 1);
      s == if i == 0 then Flush(InVersion(q, i + 1), UrlData) else Go(InVersion(q, i + 1))
  {
    hide OnChunk, OnMethod, OnHeadersEnd, OnStart, OnStatusLine, OnHeaderValueStart;
    if i < 6 {
    } else {
    }
  }

  lemma InVersionOk(q: Parser, i: nat)
    requires q.state.ReqPath? && i <= 11
    ensures var r := InVersion(q, i);
      && ParsingHeader(r.state) && (i > 0 ==> Carry(r.state).None?)
      && r.nread == q.nread + i && r.errno == q.errno
      && r.(nread := r.nread + 1) == InVersion(q, i).(nread := q.nread + i + 1)
  {
  }

  lemma VersionByte(skip: SkipBody, q: Parser, log: Log, i: nat)
    requires q.errno == Ok && q.state.ReqPath? && q.nread + 11 <= HTTP_MAX_HEADER_SIZE && i < 11
    ensures Eats(skip, InVersion(q, i), log, [VERSION[i]], InVersion(q, i + 1), log)
  {
    hide Switch, Eats, InVersion, ParsingHeader, Carry;
    VersionStep(q, i);
    InVersionOk(q, i);
    EatsByte(skip, InVersion(q, i), log, VERSION[i], InVersion(q, i + 1));
  }

  lemma VersionRead(skip: SkipBody, q: Parser, log: Log)
    requires q.errno == Ok && q.state.ReqPath? && q.nread + 11 <= HTTP_MAX_HEADER_SIZE
    ensures Eats(skip, q, log, VERSION, InVersion(q, 11), log)
  {
    hide Eats;
    assert InVersion(q, 0) == q && |VERSION| == 11;
    hide InVersion;
    var qs := seq(12, i requires 0 <= i < 12 => InVersion(q, i));
    forall i | 0 <= i < 11
      ensures Eats(skip, qs[i], log, [VERSION[i]], qs[i + 1], log)
    {
      VersionByte(skip, q, log, i);
    }
    Walk(skip, qs, log, VERSION);
  }

  /** The parser behind the method and the path. */
  function AtPath(q: Parser): Parser {
    q.(flags := NO_FLAGS, contentLength := NO_LENGTH, verb := GET, index := 4, state := ReqPath, nread := q.nread + 5)
  }

  function LogAtPath(log: Log): Log {
    Push(Push(log, NoteOf(MessageBegin)), DataOf(UrlData, ['/']))
  }

  /** The parser inside the method, behind `i` of its letters. */
  function InMethod(q: Parser, i: nat): Parser {
    q.(flags := NO_FLAGS, contentLength := NO_LENGTH, verb := GET, index := i, state := ReqMethod, nread := q.nread + i)
  }

  lemma FirstStep(q: Parser)
    requires q.state.StartReq?
    ensures Switch(q, 'G', 1)
         == Told(q.(flags := NO_FLAGS, contentLength := NO_LENGTH, verb := GET, index := 1, state := ReqMethod),
                 MessageBegin)
  {
  }

  lemma LetterStep(q: Parser, ch: octet)
    requires q.state.ReqMethod? && q.verb == GET && 1 <= q.index <= 3
    requires ch == (if q.index == 1 then 'E' else if q.index == 2 then 'T' else ' ')
    ensures Switch(q, ch, 1)
         == Go(q.(index := q.index + 1, state := if q.index == 3 then ReqSpacesBeforeUrl else ReqMethod))
  {
    hide OtherMethod, MethodErrno;
  }

  lemma PathStep(q: Parser)
    requires q.state.ReqSpacesBeforeUrl? && q.verb == GET
    ensures Switch(q, '/', 1) == Step(q.(state := ReqPath), Some(UrlData), 0, NoCall, Advance)
  {
  }

  lemma FirstLetterRead(skip: SkipBody, q: Parser, log: Log)
    requires q.errno == Ok && q.state.StartReq? && q.nread < HTTP_MAX_HEADER_SIZE
    ensures Eats(skip, q, log, ['G'], InMethod(q, 1), Push(log, NoteOf(MessageBegin)))
  {
    hide Switch, Push, Eats;
    FirstStep(q.(nread := q.nread + 1));
    EatsOne(skip, q, log, 'G', InMethod(q, 1), Push(log, NoteOf(MessageBegin)));
  }

  /** One more letter of the method, or the space behind it. */
  lemma LetterRead(skip: SkipBody, q: Parser, log: Log, i: nat, ch: octet)
    requires q.errno == Ok && 1 <= i <= 3 && q.nread + i < HTTP_MAX_HEADER_SIZE
    requires ch == (if i == 1 then 'E' else if i == 2 then 'T' else ' ')
    ensures Eats(skip, InMethod(q, i), log, [ch],
                 InMethod(q, i + 1).(state := if i == 3 then ReqSpacesBeforeUrl else ReqMethod), log)
  {
    hide Switch, Eats;
    LetterStep(InMethod(q, i).(nread := q.nread + i + 1), ch);
    EatsByte(skip, InMethod(q, i), log, ch,
             InMethod(q, i + 1).(state := if i == 3 then ReqSpacesBeforeUrl else ReqMethod));
  }

  lemma MethodRead(skip: SkipBody, q: Parser, log: Log)
    requires q.errno == Ok && q.state.StartReq? && q.nread + 4 <= HTTP_MAX_HEADER_SIZE
    ensures Eats(skip, q, log, ['G', 'E', 'T', ' '], InMethod(q, 4).(state := ReqSpacesBeforeUrl),
                 Push(log, NoteOf(MessageBegin)))
  {
    hide Push, Eats;
    var log1 := Push(log, NoteOf(MessageBegin));
    var q4 := InMethod(q, 4).(state := ReqSpacesBeforeUrl);
    FirstLetterRead(skip, q, log);
    LetterRead(skip, q, log1, 1, 'E');
    LetterRead(skip, q, log1, 2, 'T');
    LetterRead(skip, q, log1, 3, ' ');
    hide InMethod;
    EatsBoth(skip, q, log, ['G'], InMethod(q, 1), log1, ['E'], InMethod(q, 2), log1);
    EatsBoth(skip, q, log, ['G'] + ['E'], InMethod(q, 2), log1, ['T'], InMethod(q, 3), log1);
    EatsBoth(skip, q, log, ['G'] + ['E'] + ['T'], InMethod(q, 3), log1, [' '], q4, log1);
    assert ['G'] + ['E'] + ['T'] + [' '] == ['G', 'E', 'T', ' '];
  }

  lemma GetRead(skip: SkipBody, q: Parser, log: Log)
    requires q.errno == Ok && q.state.StartReq? && q.nread + 5 <= HTTP_MAX_HEADER_SIZE
    ensures Eats(skip, q, log, GET_ROOT, AtPath(q), LogAtPath(log))
  {
    hide Switch, Push, Eats;
    var log1 := Push(log, NoteOf(MessageBegin));
    var q4 := InMethod(q, 4).(state := ReqSpacesBeforeUrl);
    MethodRead(skip, q, log);
    PathStep(q4.(nread := q.nread + 5));
    EatsData(skip, q4, log1, '/', UrlData, AtPath(q));
    EatsBoth(skip, q, log, ['G', 'E', 'T', ' '], q4, log1, ['/'], AtPath(q), LogAtPath(log));
    assert ['G', 'E', 'T', ' '] + ['/'] == GET_ROOT;
  }

  /** The parser behind the request line. */
  function BehindLine(q: Parser): Parser {
    q.(flags := NO_FLAGS, contentLength := NO_LENGTH, verb := GET, index := 4, state := HeaderFieldStart,
       httpMajor := 1, httpMinor := 1, nread := q.nread + |REQUEST_LINE|)
  }

  lemma RequestLineRead(skip: SkipBody, q: Parser, log: Log)
    requires q.errno == Ok && q.state.StartReq? && q.nread + |REQUEST_LINE| <= HTTP_MAX_HEADER_SIZE
    ensures Eats(skip, q, log, REQUEST_LINE, BehindLine(q), LogAtPath(log))
  {
    hide Eats, Push;
    GetRead(skip, q, log);
    VersionRead(skip, AtPath(q), LogAtPath(log));
    assert InVersion(AtPath(q), 11) == BehindLine(q);
    EatsBoth(skip, q, log, GET_ROOT, AtPath(q), LogAtPath(log), VERSION, BehindLine(q), LogAtPath(log));
  }

  // A whole request

  /** A header line with which a body in chunks is announced. */
  predicate Announces(te: Header) {
    IsHeader(te) && Lower(te.name) == TRANSFER_ENCODING && IsChunked(te.value)
  }

  /** The headers of a request in chunks, but for the last byte. */
  function Head(te: Header, hs: seq<Header>): seq<octet> {
    REQUEST_LINE + Line(te) + Lines(hs) + [CR]
  }

  /** What the application is told of it. */
  function HeadTold(te: Header, hs: seq<Header>): Log {
    AllTold(ToldOf(LogAtPath([]), te), hs)
  }

  lemma HeadRead(skip: SkipBody, te: Header, hs: seq<Header>) returns (q: Parser)
    requires Announces(te) && NoneKnown(hs) && |Head(te, hs)| < HTTP_MAX_HEADER_SIZE
    ensures Eats(skip, Init(Request), [], Head(te, hs), q, HeadTold(te, hs))
    ensures q.nread == |Head(te, hs)| && Valid(q) && (q.nread == HTTP_MAX_HEADER_SIZE - 1 ==> AtLimit(q))
  {
    hide Eats, Push, IsHeader, Lower, IsChunked, NoneKnown, Lines, AllTold, HopeOf;
    var q0 := Init(Request);
    var q1, log1 := BehindLine(q0), LogAtPath([]);
    RequestLineRead(skip, q0, []);
    var i := EncodingExact(skip, q1, log1, te);
    var q2, log2 := AfterEncoding(q1, te, i), ToldOf(log1, te);
    EatsBoth(skip, q0, [], REQUEST_LINE, q1, log1, Line(te), q2, log2);
    LinesRead(skip, q2, log2, hs);
    var q3, log3 := AfterLines(q2, hs), HeadTold(te, hs);
    EatsBoth(skip, q0, [], REQUEST_LINE + Line(te), q2, log2, Lines(hs), q3, log3);
    HeadersCr(skip, q3, log3);
    q := q3.(state := HeadersAlmostDone, nread := q3.nread + 1);
    EatsBoth(skip, q0, [], REQUEST_LINE + Line(te) + Lines(hs), q3, log3, [CR], q, log3);
    AfterLinesCount(q2, hs);
    hide AfterLines;
  }

  /**
   From a fresh parser: the headers of a request in chunks that take the limit to the last
   byte are read without an error if nothing pauses, and run into the limit if
   on_headers_complete does.
   */
  lemma RequestHitsLimit(skip: SkipBody, pauses: Log -> bool, te: Header, hs: seq<Header>)
    requires Announces(te) && NoneKnown(hs) && |Head(te, hs)| == HTTP_MAX_HEADER_SIZE - 1
    requires var told := HeadTold(te, hs) + [NoteOf(HeadersComplete)]; !skip(told) && pauses(told)
    ensures var f := Feed(skip, Init(Request), [], Head(te, hs) + [LF]);
      && f.ending == Ran && f.q.errno == Ok && f.q.state == ChunkSizeStart
      && f.log == HeadTold(te, hs) + [NoteOf(HeadersComplete)]
    ensures Over(skip, pauses, Init(Request), [], Head(te, hs) + [LF])
  {
    hide Eats, AtLimit, Valid, Head, HeadTold, Announces, NoneKnown, Feed, Over;
    var q := HeadRead(skip, te, hs);
    assert |Head(te, hs)| == q.nread;
    InitValid();
    LimitBehind(skip, pauses, Init(Request), [], Head(te, hs), q, HeadTold(te, hs));
  }

  lemma InitValid()
    ensures Valid(Init(Request))
  {
  }

  /** The same behind any input that leads to the limit. */
  lemma LimitBehind(skip: SkipBody, pauses: Log -> bool, q0: Parser, log0: Log, x: seq<octet>, q: Parser, log: Log)
    requires Valid(q0) && Eats(skip, q0, log0, x, q, log) && AtLimit(q)
    requires var told := log + [NoteOf(HeadersComplete)]; !skip(told) && pauses(told)
    ensures var f := Feed(skip, q0, log0, x + [LF]);
      f.ending == Ran && f.q == BehindHeaders(q) && f.q.errno == Ok && f.log == log + [NoteOf(HeadersComplete)]
    ensures Over(skip, pauses, q0, log0, x + [LF])
  {
    LimitOk(q);
    hide Feed, Over, Continue, Valid, AtLimit;
    PauseHitsLimit(skip, pauses, q, log);
    FeedConcat(skip, q0, log0, x, [LF]);
    OverLater(skip, pauses, q0, log0, x, [LF]);
  }

  lemma LimitOk(q: Parser)
    requires AtLimit(q)
    ensures q.errno == Ok
  {
  }

  /** And so does http_parser_execute, however often its callbacks pause besides. */
  method ExecutePaused(parser: HttpParser, te: Header, hs: seq<Header>, cb: Callbacks, ghost pauses: Log -> bool)
    requires parser.Valid() && parser.p == Init(Request) && parser.trace == [] && Harmless(cb) && PausesBy(cb, pauses)
    requires Announces(te) && NoneKnown(hs) && |Head(te, hs)| == HTTP_MAX_HEADER_SIZE - 1
    requires var told := HeadTold(te, hs) + [NoteOf(HeadersComplete)]; !cb.skipBody(told) && pauses(told)
    modifies parser
    ensures parser.p.errno == HeaderOverflow
  {
    hide Head, HeadTold, Announces, NoneKnown, Feed, Over, Harmless, PausesWithin, PausesBy, Valid, ParserOk, Join;
    RequestHitsLimit(cb.skipBody, pauses, te, hs);
    AtStart(cb, pauses);
    var input := Head(te, hs) + [LF];
    assert input + [] == input;
    var total;
    ghost var ending;
    total, ending := ExecuteThrough(parser, input, cb, Ahead(pauses, []));
    NothingOver(cb.skipBody, pauses, parser.p, Join(parser.trace));
  }

  lemma AtStart(cb: Callbacks, pauses: Log -> bool)
    requires PausesBy(cb, pauses)
    ensures PausesWithin(cb, pauses) && Join([]) == [] && Init(Request).errno == Ok
  {
  }

  lemma NothingOver(skip: SkipBody, pauses: Log -> bool, q: Parser, log: Log)
    ensures !Over(skip, pauses, q, log, [])
  {
  }

  /** Such headers exist. */
  lemma LongHeaders() returns (te: Header, hs: seq<Header>)
    ensures Announces(te) && NoneKnown(hs) && |Head(te, hs)| == HTTP_MAX_HEADER_SIZE - 1
  {
    hide Announces, IsHeader, Known;
    te := Encoding();
    var x := Padding(HTTP_MAX_HEADER_SIZE - |REQUEST_LINE| - |Line(te)| - 6);
    hide Line;
    hs := [x];
    assert hs[1..] == [];
    assert Lines(hs) == Line(x) + Lines([]);
    assert Lines([]) == [];
  }

  predicate Letters(name: seq<octet>) {
    name != [] && forall i :: 0 <= i < |name| ==> 'a' <= name[i] <= 'z' || name[i] == '-'
  }

  lemma LettersMean(name: seq<octet>)
    requires Letters(name)
    ensures IsName(name) && IsValue(name) && Lower(name) == name
  {
  }

  lemma Spelled() returns (name: seq<octet>, value: seq<octet>)
    ensures name == TRANSFER_ENCODING && Letters(name) && value == CHUNKED && Letters(value)
  {
    name := ['t', 'r', 'a', 'n', 's', 'f', 'e', 'r', '-', 'e', 'n', 'c', 'o', 'd', 'i', 'n', 'g'];
    value := ['c', 'h', 'u', 'n', 'k', 'e', 'd'];
  }

  lemma Encoding() returns (te: Header)
    ensures Announces(te) && |Line(te)| < 100
  {
    var name, value := Spelled();
    NameLengths();
    hide TRANSFER_ENCODING, CHUNKED, Letters, IsName, IsValue, Lower;
    LettersMean(name);
    LettersMean(value);
    te := Header(name, [], value);
  }

  lemma Padding(n: nat) returns (h: Header)
    ensures IsHeader(h) && !Known(h.name) && |Line(h)| == n + 4
  {
    var name: seq<octet> := ['x'];
    h := Header(name, [], seq(n, _ => 'x'));
    LettersMean(name);
    assert Lower(name)[0] == 'x';
    assert CONNECTION[0] == CONTENT_LENGTH[0] == 'c' && PROXY_CONNECTION[0] == 'p';
    assert TRANSFER_ENCODING[0] == 't' && UPGRADE[0] == 'u';
    hide CONNECTION, CONTENT_LENGTH, PROXY_CONNECTION, TRANSFER_ENCODING, UPGRADE;
  }
}

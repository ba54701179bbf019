/** The count of header bytes takes no part in parsing, but for its limit. */
module HttpCount {
  import opened Base
  import opened HttpTypes
  import opened HttpSwitch
  import opened HttpMachine

  /** The same parser, with at least as many header bytes counted. */
  predicate Like(q: Parser, r: Parser) {
    q == r.(nread := q.nread) && q.nread >= r.nread
  }

  /** Two steps that differ in the count at most, which both keep or both reset. */
  predicate SameStep(s: Step, t: Step, n: nat, m: nat) {
    s == t.(q := t.q.(nread := s.q.nread))
    && ((s.q.nread == n && t.q.nread == m) || (s.q.nread == 0 && t.q.nread == 0))
  }

  lemma NewMessageLike(q: Parser, n: nat)
    ensures NewMessage(q.(nread := n)) == NewMessage(q)
    ensures MessageNeedsEof(q.(nread := n)) == MessageNeedsEof(q)
  {
  }

  lemma StartLike(q: Parser, n: nat, ch: octet)
    ensures SameStep(OnStart(q.(nread := n), ch), OnStart(q, ch), n, q.nread)
  {
  }

  lemma MovesLike(q: Parser, n: nat)
    ensures forall s :: SameStep(GoTo(q.(nread := n), s), GoTo(q, s), n, q.nread)
    ensures forall e :: SameStep(Error(q.(nread := n), e), Error(q, e), n, q.nread)
    ensures SameStep(Go(q.(nread := n)), Go(q), n, q.nread)
    ensures SameStep(Step(q.(nread := n), None, 0, NoCall, Abort), Step(q, None, 0, NoCall, Abort), n, q.nread)
  {
  }

  lemma DigitsLike(q: Parser, n: nat, ch: octet, dot: State)
    ensures SameStep(MajorDigits(q.(nread := n), ch, dot), MajorDigits(q, ch, dot), n, q.nread)
    ensures SameStep(MinorDigits(q.(nread := n), ch), MinorDigits(q, ch), n, q.nread)
  {
    hide AddDigit;
  }

  lemma NumbersLike(q: Parser, n: nat, ch: octet)
    requires IsNum(ch)
    ensures forall s :: SameStep(GoTo(q.(nread := n).(httpMajor := Digit(ch)), s),
      GoTo(q.(httpMajor := Digit(ch)), s), n, q.nread)
    ensures forall s :: SameStep(GoTo(q.(nread := n).(httpMinor := Digit(ch)), s),
      GoTo(q.(httpMinor := Digit(ch)), s), n, q.nread)
    ensures forall s :: SameStep(GoTo(q.(nread := n).(statusCode := Digit(ch)), s),
      GoTo(q.(statusCode := Digit(ch)), s), n, q.nread)
  {
  }

  lemma StatusCodeLike(q: Parser, n: nat, c: nat)
    ensures SameStep(Error(q.(nread := n).(statusCode := c), InvalidStatus),
      Error(q.(statusCode := c), InvalidStatus), n, q.nread)
    ensures SameStep(Go(q.(nread := n).(statusCode := c)), Go(q.(statusCode := c)), n, q.nread)
  {
  }

  lemma StatusLineLike(q: Parser, n: nat, ch: octet)
    requires InStatusLine(q.state)
    ensures SameStep(OnStatusLine(q.(nread := n), ch), OnStatusLine(q, ch), n, q.nread)
  {
    hide AddDigit, Digit, SameStep, Go, GoTo, Error, MajorDigits, MinorDigits;
    MovesLike(q, n);
    DigitsLike(q, n, ch, ResFirstHttpMinor);
    if IsNum(ch) {
      NumbersLike(q, n, ch);
      StatusCodeLike(q, n, AddDigit(q.statusCode, ch));
    }
  }

  lemma RequestLike(q: Parser, n: nat, ch: octet)
    ensures SameStep(OnMethod(q.(nread := n), ch), OnMethod(q, ch), n, q.nread)
  {
    hide MethodString, FirstMethod;
  }

  lemma RequestLineLike(q: Parser, n: nat, ch: octet)
    ensures SameStep(OnRequestLine(q.(nread := n), ch), OnRequestLine(q, ch), n, q.nread)
  {
    hide AddDigit, Digit, SameStep, Go, GoTo, Error, MajorDigits, MinorDigits;
    MovesLike(q, n);
    DigitsLike(q, n, ch, ResFirstHttpMinor);
    DigitsLike(q, n, ch, ReqFirstHttpMinor);
    if IsNum(ch) {
      NumbersLike(q, n, ch);
    }
  }

  lemma UrlLike(q: Parser, n: nat, ch: octet)
    ensures SameStep(OnUrl(q.(nread := n), ch), OnUrl(q, ch), n, q.nread)
  {
    hide ToUrl, OnUrlStart;
    ToUrlLike(q, n, q.state, ch);
    ToUrlLike(q, n, ReqServerStart, ch);
    UrlStartLike(q, n, ch);
  }

  lemma UrlStartLike(q: Parser, n: nat, ch: octet)
    ensures SameStep(OnUrlStart(q.(nread := n), ch), OnUrlStart(q, ch), n, q.nread)
  {
    hide ToUrl;
    ToUrlLike(q, n, q.state, ch);
  }

  lemma ToUrlLike(q: Parser, n: nat, from: State, ch: octet)
    ensures SameStep(ToUrl(q.(nread := n), from, ch), ToUrl(q, from, ch), n, q.nread)
    ensures SameStep(ToUrl(q.(nread := n), from, ch).(mark := Some(UrlData)),
      ToUrl(q, from, ch).(mark := Some(UrlData)), n, q.nread)
  {
    hide UrlChar;
  }

  lemma NamesLike(q: Parser, n: nat, i: nat, h: HeaderState)
    ensures SameStep(Go(q.(nread := n).(headerState := h, index := i)), Go(q.(headerState := h, index := i)), n,
      q.nread)
  {
  }

  lemma FieldCharSame(q: Parser, n: nat, ch: octet, c: char)
    ensures FieldChar(q, ch, c).q.headerState == FieldChar(q.(nread := n), ch, c).q.headerState
    ensures FieldChar(q, ch, c).q.index == FieldChar(q.(nread := n), ch, c).q.index
  {
    hide At, Match, CONNECTION, PROXY_CONNECTION, CONTENT_LENGTH, TRANSFER_ENCODING, UPGRADE;
    match q.headerState {
      case MatchingConnection => MatchLike(q, n, CONNECTION, c == At(CONNECTION, q.index + 1), Connection);
      case MatchingProxyConnection => MatchLike(q, n, PROXY_CONNECTION, c == At(PROXY_CONNECTION, q.index + 1),
        Connection);
      case MatchingContentLength => MatchLike(q, n, CONTENT_LENGTH, c == At(CONTENT_LENGTH, q.index + 1),
        ContentLength);
      case MatchingTransferEncoding =>
        MatchLike(q, n, TRANSFER_ENCODING, c == At(TRANSFER_ENCODING, q.index + 1), TransferEncoding);
      case MatchingUpgrade => MatchLike(q, n, UPGRADE, c == At(UPGRADE, q.index + 1), HeaderState.Upgrade);
      case _ =>
    }
  }

  lemma MatchLike(q: Parser, n: nat, name: string, same: bool, found: HeaderState)
    ensures Match(q.(nread := n), name, same, found) == Match(q, name, same, found).(nread := n)
  {
  }

  lemma FieldCharLike(q: Parser, n: nat, ch: octet, c: char)
    requires FieldStateOk(q.headerState, q.index)
    ensures SameStep(FieldChar(q.(nread := n), ch, c), FieldChar(q, ch, c), n, q.nread)
  {
    FieldCharStays(q, ch, c);
    FieldCharStays(q.(nread := n), ch, c);
    var r, r' := FieldChar(q, ch, c).q, FieldChar(q.(nread := n), ch, c).q;
    FieldCharSame(q, n, ch, c);
    hide FieldChar, SameStep, Go;
    NamesLike(q, n, r.index, r.headerState);
  }

  lemma FieldLike(q: Parser, n: nat, ch: octet)
    ensures SameStep(OnHeaderFieldStart(q.(nread := n), ch), OnHeaderFieldStart(q, ch), n, q.nread)
    ensures q.state.HeaderField? && FieldStateOk(q.headerState, q.index) ==>
      SameStep(OnHeaderField(q.(nread := n), ch), OnHeaderField(q, ch), n, q.nread)
  {
    hide Token, FieldChar;
    if FieldStateOk(q.headerState, q.index) {
      FieldCharLike(q, n, ch, Token(ch));
    }
  }

  lemma ValueCharLike(q: Parser, n: nat, ch: octet)
    ensures SameStep(ValueChar(q.(nread := n), ch), ValueChar(q, ch), n, q.nread)
  {
    hide AddLengthDigit, SameStep, Go, Error, MatchValue;
    MovesLike(q, n);
    ValueMatchLike(q, n, ch, CHUNKED, TransferEncodingChunked);
    ValueMatchLike(q, n, ch, KEEP_ALIVE, ConnectionKeepAlive);
    ValueMatchLike(q, n, ch, CLOSE, ConnectionClose);
    ValueMovesLike(q, n);
  }

  lemma ValueMatchLike(q: Parser, n: nat, ch: octet, name: string, found: HeaderState)
    ensures SameStep(Go(MatchValue(q.(nread := n), ch, name, found)), Go(MatchValue(q, ch, name, found)), n, q.nread)
  {
    hide At, LowerIs;
  }

  lemma ValueMovesLike(q: Parser, n: nat)
    ensures forall h :: SameStep(Go(q.(nread := n).(headerState := h)), Go(q.(headerState := h)), n, q.nread)
    ensures forall t: u64 :: SameStep(Go(q.(nread := n).(contentLength := t)), Go(q.(contentLength := t)), n, q.nread)
  {
  }

  lemma ValueStartLike(q: Parser, n: nat, ch: octet)
    ensures SameStep(OnHeaderValueStart(q.(nread := n), ch), OnHeaderValueStart(q, ch), n, q.nread)
  {
    hide LowerIs;
  }

  lemma ValueLike(q: Parser, n: nat, ch: octet)
    ensures SameStep(OnHeaderValue(q.(nread := n), ch), OnHeaderValue(q, ch), n, q.nread)
  {
    hide ValueChar;
    ValueCharLike(q, n, ch);
  }

  lemma HeadersEndLike(q: Parser, n: nat, ch: octet)
    ensures SameStep(OnHeaderEnd(q.(nread := n), ch), OnHeaderEnd(q, ch), n, q.nread)
    ensures SameStep(OnHeadersEnd(q.(nread := n), ch), OnHeadersEnd(q, ch), n, q.nread)
  {
    NewMessageLike(q, n);
    NewMessageLike(q, 0);
    hide NewMessage, MessageNeedsEof;
  }

  lemma BodyLike(q: Parser, n: nat, ch: octet)
    ensures SameStep(OnBody(q.(nread := n), ch, 1), OnBody(q, ch, 1), n, q.nread)
  {
    NewMessageLike(q, n);
    hide NewMessage;
  }

  lemma ChunkLike(q: Parser, n: nat, ch: octet)
    requires !q.state.ChunkSizeStart? || n == q.nread
    ensures SameStep(OnChunk(q.(nread := n), ch, 1), OnChunk(q, ch, 1), n, q.nread)
  {
    hide OnChunk, SameStep;
    if q.state.ChunkSizeStart? || q.state.ChunkSize? {
      ChunkSizeLike(q, n, ch);
    } else if q.state.ChunkData? {
      ChunkDataLike(q, n, ch);
    } else {
      ChunkEndLike(q, n, ch);
    }
  }

  lemma ChunkSizeLike(q: Parser, n: nat, ch: octet)
    requires q.state.ChunkSize? || (q.state.ChunkSizeStart? && n == q.nread)
    ensures SameStep(OnChunk(q.(nread := n), ch, 1), OnChunk(q, ch, 1), n, q.nread)
  {
    hide AddLengthDigit, Unhex;
    assert q.(nread := q.nread) == q;
  }

  lemma ChunkDataLike(q: Parser, n: nat, ch: octet)
    requires q.state.ChunkData?
    ensures SameStep(OnChunk(q.(nread := n), ch, 1), OnChunk(q, ch, 1), n, q.nread)
  {
    hide AddLengthDigit, Unhex;
  }

  lemma ChunkEndLike(q: Parser, n: nat, ch: octet)
    requires !q.state.ChunkSizeStart? && !q.state.ChunkSize? && !q.state.ChunkData?
    ensures SameStep(OnChunk(q.(nread := n), ch, 1), OnChunk(q, ch, 1), n, q.nread)
  {
    hide AddLengthDigit, Unhex, HasBodyLength;
  }

  lemma StepLike(q: Parser, n: nat, ch: octet)
    requires Counted(q) && Counted(q.(nread := n))
    ensures SameStep(Switch(q.(nread := n), ch, 1), Switch(q, ch, 1), n, q.nread)
  {
    hide OnStart, OnStatusLine, OnMethod, OnUrl, OnRequestLine, OnHeaderFieldStart, OnHeaderField, SameStep;
    hide OnHeaderValueStart, OnHeaderValue, OnHeaderEnd, OnHeadersEnd, OnBody, OnChunk;
    StartLike(q, n, ch);
    if InStatusLine(q.state) {
      StatusLineLike(q, n, ch);
    }
    RequestLike(q, n, ch);
    RequestLineLike(q, n, ch);
    UrlLike(q, n, ch);
    FieldLike(q, n, ch);
    ValueStartLike(q, n, ch);
    ValueLike(q, n, ch);
    HeadersEndLike(q, n, ch);
    BodyLike(q, n, ch);
    ChunkLike(q, n, ch);
  }

  /** What a step leaves the log and the parser with. */
  lemma StepResultLike(skip: SkipBody, q: Parser, r: Parser, log: Log, ch: octet)
    requires Counted(q) && Counted(r) && Like(q, r)
    ensures var s, t := Switch(q, ch, 1), Switch(r, ch, 1);
      && s.then_ == t.then_ && s.call == t.call && s.mark == t.mark
      && Like(s.q, t.q) && s.q.state == t.q.state
      && LogStep(q, s, log, ch) == LogStep(r, t, log, ch)
      && Kept(s) && Kept(t) && (s.then_ == Again ==> Rank(s.q.state) < Rank(q.state))
  {
    hide Switch, Counted, Push, Kept;
    assert q == r.(nread := q.nread);
    StepLike(r, q.nread, ch);
    StepKeeps(q, ch, 1);
    StepKeeps(r, ch, 1);
  }

  lemma AnsweredLike(skip: SkipBody, q: Parser, r: Parser, log: Log, note: Note)
    requires Like(q, r)
    ensures Like(Answered(skip, q, log, note), Answered(skip, r, log, note))
    ensures Valid(q) ==> Valid(Answered(skip, q, log, note))
    ensures Counted(q) ==> Counted(Answered(skip, q, log, note))
    ensures Answered(skip, q, log, note).state == q.state
  {
  }

  lemma {:induction false} FinishLike(skip: SkipBody, q: Parser, r: Parser, log: Log, ch: octet)
    requires Counted(q) && Counted(r) && Like(q, r)
    ensures var x, y := Finish(skip, q, log, ch), Finish(skip, r, log, ch);
      && Like(x.q, y.q) && x.log == y.log && x.Next? == y.Next? && x.Left? == y.Left?
      && (x.Next? ==> Valid(x.q) && Valid(y.q))
    decreases Rank(q.state)
  {
    hide Switch, Counted, Push, LogStep, Like, Valid, Answered, Rank;
    StepResultLike(skip, q, r, log, ch);
    var s, t := Switch(q, ch, 1), Switch(r, ch, 1);
    var log1 := LogStep(q, s, log, ch);
    if s.call.Notify? {
      AnsweredLike(skip, s.q, t.q, log1, s.call.note);
      AnsweredLike(skip, t.q, t.q, log1, s.call.note);
    }
    if s.then_ == Again {
      FinishLike(skip, AfterStep(skip, s, log1), AfterStep(skip, t, log1), log1, ch);
    }
  }

  /** The same run, except that the first may hit the limit on header bytes where the second does not. */
  predicate LikeFed(x: Fed, y: Fed) {
    x.q.errno == HeaderOverflow || (Like(x.q, y.q) && x.log == y.log && x.n == y.n && x.ending == y.ending)
  }

  lemma LikeFedTrans(x: Fed, y: Fed, z: Fed)
    requires LikeFed(x, y) && LikeFed(y, z)
    ensures LikeFed(x, z)
  {
  }

  lemma {:induction false} FeedLike(skip: SkipBody, q: Parser, r: Parser, log: Log, data: seq<octet>)
    requires Valid(q) && Valid(r) && Like(q, r)
    ensures LikeFed(Feed(skip, q, log, data), Feed(skip, r, log, data))
    decreases |data|, 1
  {
    hide Finish;
    if data != [] {
      CountKeeps(q);
      CountKeeps(r);
      if Count(q).errno == Ok {
        ContinueLike(skip, Count(q), Count(r), log, data);
      }
    }
  }

  lemma {:induction false} ContinueLike(skip: SkipBody, q: Parser, r: Parser, log: Log, data: seq<octet>)
    requires Counted(q) && Counted(r) && Like(q, r) && data != []
    ensures LikeFed(Continue(skip, q, log, data), Continue(skip, r, log, data))
    decreases |data|, 0
  {
    hide Finish, Sane;
    FinishLike(skip, q, r, log, data[0]);
    var x, y := Finish(skip, q, log, data[0]), Finish(skip, r, log, data[0]);
    if x.Next? {
      FeedLike(skip, x.q, y.q, x.log, data[1..]);
    }
  }

  /** A byte that is presented again is counted again, and that is all. */
  lemma CountedTwice(skip: SkipBody, q: Parser, log: Log, data: seq<octet>)
    requires Valid(q) && Counted(q) && data != []
    ensures LikeFed(Feed(skip, q, log, data), Continue(skip, q, log, data))
  {
    hide Finish, Sane;
    CountKeeps(q);
    if Count(q).errno == Ok {
      ContinueLike(skip, Count(q), q, log, data);
    }
  }

  // The limit

  /**
   Is the limit on header bytes reached when a byte that a callback does not consume is
   presented, and so counted, again wherever `pauses` says so of what has been told by then?
   */
  predicate Over(skip: SkipBody, pauses: Log -> bool, q: Parser, log: Log, data: seq<octet>)
    decreases |data|, 2 * Rank(q.state) + 1
  {
    data != [] && (Count(q).errno != Ok || OverIn(skip, pauses, Count(q), log, data))
  }

  /** The same from the middle of the first byte. */
  predicate OverIn(skip: SkipBody, pauses: Log -> bool, q: Parser, log: Log, data: seq<octet>)
    requires data != []
    decreases |data|, 2 * Rank(q.state)
  {
    var s := Switch(q, data[0], 1);
    var log1 := LogStep(q, s, log, data[0]);
    var q1 := AfterStep(skip, s, log1);
    match s.then_
    case Advance => Over(skip, pauses, q1, log1, data[1..])
    case Again =>
      AgainDecreases(q, data[0], 1);
      if s.call.NoCall? || !pauses(log1) then OverIn(skip, pauses, q1, log1, data)
      else Over(skip, pauses, q1, log1, data)
    case _ => false
  }

  /** With more header bytes counted, the limit is reached no later. */
  lemma {:induction false} OverMore(skip: SkipBody, pauses: Log -> bool, q: Parser, r: Parser, log: Log,
                                    data: seq<octet>)
    requires Valid(q) && Valid(r) && Like(q, r) && Over(skip, pauses, r, log, data)
    ensures Over(skip, pauses, q, log, data)
    decreases |data|, 2 * Rank(q.state) + 1
  {
    hide OverIn, Sane;
    CountKeeps(q);
    CountKeeps(r);
    if Count(q).errno == Ok {
      OverInMore(skip, pauses, Count(q), Count(r), log, data);
    }
  }

  lemma {:induction false} OverInMore(skip: SkipBody, pauses: Log -> bool, q: Parser, r: Parser, log: Log,
                                      data: seq<octet>)
    requires Counted(q) && Counted(r) && Like(q, r) && data != [] && OverIn(skip, pauses, r, log, data)
    ensures OverIn(skip, pauses, q, log, data)
    decreases |data|, 2 * Rank(q.state)
  {
    hide Switch, Counted, Valid, Push, LogStep, Like, Answered, Rank, Over;
    StepResultLike(skip, q, r, log, data[0]);
    var s, t := Switch(q, data[0], 1), Switch(r, data[0], 1);
    var log1 := LogStep(q, s, log, data[0]);
    var q1, r1 := AfterStep(skip, s, log1), AfterStep(skip, t, log1);
    if s.call.Notify? {
      AnsweredLike(skip, s.q, t.q, log1, s.call.note);
      AnsweredLike(skip, t.q, t.q, log1, s.call.note);
    }
    if s.then_ == Advance {
      OverMore(skip, pauses, q1, r1, log1, data[1..]);
    } else if s.then_ == Again {
      KeptAgain(s);
      KeptAgain(t);
      if s.call.NoCall? || !pauses(log1) {
        OverInMore(skip, pauses, q1, r1, log1, data);
      } else {
        OverMore(skip, pauses, q1, r1, log1, data);
      }
    }
  }

  lemma KeptAgain(s: Step)
    requires Kept(s) && s.then_ == Again
    ensures Counted(s.q) && Valid(s.q)
  {
    hide Sane;
  }

  /** If the limit is reached behind a first part that runs through, it is reached. */
  lemma {:induction false} OverLater(skip: SkipBody, pauses: Log -> bool, q: Parser, log: Log,
                                     a: seq<octet>, b: seq<octet>)
    requires Valid(q) && Feed(skip, q, log, a).ending == Ran
    requires var f := Feed(skip, q, log, a); Over(skip, pauses, f.q, f.log, b)
    ensures Over(skip, pauses, q, log, a + b)
    decreases |a|, 2 * Rank(q.state) + 1
  {
    hide OverIn, Continue, Sane;
    if a == [] {
      assert a + b == b;
    } else {
      CountKeeps(q);
      OverInLater(skip, pauses, Count(q), log, a, b);
      hide Over;
      assert (a + b)[0] == a[0];
    }
  }

  lemma {:induction false} OverInLater(skip: SkipBody, pauses: Log -> bool, q: Parser, log: Log,
                                       a: seq<octet>, b: seq<octet>)
    requires Counted(q) && a != [] && Continue(skip, q, log, a).ending == Ran
    requires var f := Continue(skip, q, log, a); Over(skip, pauses, f.q, f.log, b)
    ensures OverIn(skip, pauses, q, log, a + b)
    decreases |a|, 2 * Rank(q.state)
  {
    hide Switch, Counted, Valid, Push, LogStep, Answered, Rank, Feed, Over;
    var s := Switch(q, a[0], 1);
    var log1 := LogStep(q, s, log, a[0]);
    var q1 := AfterStep(skip, s, log1);
    StepKeeps(q, a[0], 1);
    AfterStepKeeps(skip, s, log1);
    if s.then_ == Advance {
      assert (a + b)[1..] == a[1..] + b;
      OverLater(skip, pauses, q1, log1, a[1..], b);
    } else if s.then_ == Again {
      AgainDecreases(q, a[0], 1);
      OverInLater(skip, pauses, q1, log1, a, b);
      OverPaused(skip, pauses, q1, log1, a + b);
    }
  }

  /** So it is if the byte is counted once more. */
  lemma OverPaused(skip: SkipBody, pauses: Log -> bool, q: Parser, log: Log, data: seq<octet>)
    requires Valid(q) && Counted(q) && data != [] && OverIn(skip, pauses, q, log, data)
    ensures Over(skip, pauses, q, log, data)
  {
    hide OverIn, Sane;
    CountKeeps(q);
    if Count(q).errno == Ok {
      OverInMore(skip, pauses, Count(q), q, log, data);
    }
  }

  /** A byte that a callback does not consume is executed once more, and then is over. */
  lemma KeptIsLast(q: Parser, ch: octet)
    ensures var s := Switch(q, ch, 1);
      s.then_ == Again && !s.call.NoCall? ==> Rank(s.q.state) == 0
  {
    hide OnStart, OnStatusLine, OnMethod, OnUrl, OnRequestLine, OnHeaderFieldStart, OnHeaderField;
    hide OnHeaderValueStart, OnHeaderValue, OnHeaderEnd, OnHeadersEnd, OnBody, OnChunk;
    NeverAgain(q, ch, 1);
    NeverAgainInNames(q, ch);
    AgainInFields(q, ch);
    AgainInValues(q, ch);
    AgainElsewhere(q, ch, 1);
    AgainTellsNothing(q, ch);
  }

  lemma AgainTellsNothing(q: Parser, ch: octet)
    ensures OnHeaderFieldStart(q, ch).then_ == Again ==> OnHeaderFieldStart(q, ch).call.NoCall?
    ensures OnHeaderEnd(q, ch).then_ == Again ==> OnHeaderEnd(q, ch).call.NoCall?
  {
    hide Token;
  }

  /** No step raises the count. */
  lemma StepCounts(q: Parser, ch: octet)
    requires Counted(q)
    ensures Kept(Switch(q, ch, 1)) && Switch(q, ch, 1).q.nread <= q.nread
  {
    hide Switch, Kept, Counted;
    StepKeeps(q, ch, 1);
    assert q.(nread := q.nread) == q;
    StepLike(q, q.nread, ch);
  }

  /** A byte is counted at most twice, so that a caller can tell when the limit is out of reach. */
  lemma {:induction false} OverBound(skip: SkipBody, pauses: Log -> bool, q: Parser, log: Log, data: seq<octet>)
    requires Valid(q) && q.nread + 2 * |data| <= HTTP_MAX_HEADER_SIZE
    ensures !Over(skip, pauses, q, log, data)
    decreases |data|, 2 * Rank(q.state) + 1
  {
    hide OverIn, Sane;
    if data != [] {
      CountKeeps(q);
      OverInBound(skip, pauses, Count(q), log, data);
    }
  }

  lemma {:induction false} OverInBound(skip: SkipBody, pauses: Log -> bool, q: Parser, log: Log, data: seq<octet>)
    requires Counted(q) && data != []
    requires q.nread + 2 * |data| - (if Rank(q.state) == 0 then 2 else 1) <= HTTP_MAX_HEADER_SIZE
    ensures !OverIn(skip, pauses, q, log, data)
    decreases |data|, 2 * Rank(q.state)
  {
    hide Switch, Counted, Valid, Kept, Push, LogStep, Answered, Rank, Over;
    var s := Switch(q, data[0], 1);
    var log1 := LogStep(q, s, log, data[0]);
    var q1 := AfterStep(skip, s, log1);
    StepCounts(q, data[0]);
    AgainDecreases(q, data[0], 1);
    KeptIsLast(q, data[0]);
    AfterStepKeeps(skip, s, log1);
    if s.then_ == Advance {
      OverBound(skip, pauses, q1, log1, data[1..]);
    } else if s.then_ == Again {
      if s.call.NoCall? || !pauses(log1) {
        OverInBound(skip, pauses, q1, log1, data);
      } else {
        CountKeeps(q1);
        OverInBound(skip, pauses, Count(q1), log1, data);
        NotOver(skip, pauses, q1, log1, data);
      }
    }
  }

  lemma AfterStepKeeps(skip: SkipBody, s: Step, log: Log)
    requires Kept(s)
    ensures s.then_ == Advance || s.then_ == Again ==> Valid(AfterStep(skip, s, log))
    ensures s.then_ == Again ==> Counted(AfterStep(skip, s, log))
  {
  }

  lemma NotOver(skip: SkipBody, pauses: Log -> bool, q: Parser, log: Log, data: seq<octet>)
    requires data != [] && Count(q).errno == Ok && !OverIn(skip, pauses, Count(q), log, data)
    ensures !Over(skip, pauses, q, log, data)
  {
    hide OverIn;
  }

  /** The more often bytes are presented again, the sooner the limit is reached. */
  lemma {:induction false} OverOftener(skip: SkipBody, few: Log -> bool, many: Log -> bool, q: Parser, log: Log,
                                       data: seq<octet>)
    requires Valid(q) && Over(skip, few, q, log, data) && forall l :: few(l) ==> many(l)
    ensures Over(skip, many, q, log, data)
    decreases |data|, 2 * Rank(q.state) + 1
  {
    hide OverIn, Sane;
    CountKeeps(q);
    if Count(q).errno == Ok {
      OverInOftener(skip, few, many, Count(q), log, data);
    }
  }

  lemma {:induction false} OverInOftener(skip: SkipBody, few: Log -> bool, many: Log -> bool, q: Parser, log: Log,
                                         data: seq<octet>)
    requires Counted(q) && data != [] && OverIn(skip, few, q, log, data) && forall l :: few(l) ==> many(l)
    ensures OverIn(skip, many, q, log, data)
    decreases |data|, 2 * Rank(q.state)
  {
    hide Switch, Counted, Valid, Kept, Push, LogStep, Answered, Rank, Over;
    var s := Switch(q, data[0], 1);
    var log1 := LogStep(q, s, log, data[0]);
    var q1 := AfterStep(skip, s, log1);
    StepKeeps(q, data[0], 1);
    AfterStepKeeps(skip, s, log1);
    if s.then_ == Advance {
      OverOftener(skip, few, many, q1, log1, data[1..]);
    } else if s.then_ == Again {
      if s.call.NoCall? || !few(log1) {
        OverInOftener(skip, few, many, q1, log1, data);
        OverFromIn(skip, many, q1, log1, data);
      } else {
        OverOftener(skip, few, many, q1, log1, data);
      }
    }
  }

  /** Counted once more, a byte reaches the limit no later. */
  lemma OverFromIn(skip: SkipBody, pauses: Log -> bool, q: Parser, log: Log, data: seq<octet>)
    requires Counted(q) && Valid(q) && data != [] && OverIn(skip, pauses, q, log, data)
    ensures Over(skip, pauses, q, log, data)
  {
    hide OverIn, Sane;
    CountKeeps(q);
    if Count(q).errno == Ok {
      OverInMore(skip, pauses, Count(q), q, log, data);
    }
  }

  /** Without pauses it is the limit that the machine itself reaches. */
  lemma {:induction false} OverNever(skip: SkipBody, pauses: Log -> bool, q: Parser, log: Log, data: seq<octet>)
    requires Valid(q) && forall l :: !pauses(l)
    ensures Over(skip, pauses, q, log, data) <==> Feed(skip, q, log, data).q.errno == HeaderOverflow
    decreases |data|, 2 * Rank(q.state) + 1
  {
    hide OverIn, Continue, Sane;
    CountKeeps(q);
    if data == [] {
      ValidOk(q);
    } else if Count(q).errno == Ok {
      OverInNever(skip, pauses, Count(q), log, data);
    }
  }

  lemma {:induction false} OverInNever(skip: SkipBody, pauses: Log -> bool, q: Parser, log: Log, data: seq<octet>)
    requires Counted(q) && data != [] && forall l :: !pauses(l)
    ensures OverIn(skip, pauses, q, log, data) <==> Continue(skip, q, log, data).q.errno == HeaderOverflow
    decreases |data|, 2 * Rank(q.state)
  {
    hide Switch, Counted, Valid, Push, LogStep, AfterStep, Rank, Over, Feed, Sane;
    var s := Switch(q, data[0], 1);
    var log1 := LogStep(q, s, log, data[0]);
    var q1 := AfterStep(skip, s, log1);
    StepKeeps(q, data[0], 1);
    KeptEnds(s);
    AfterStepKeeps(skip, s, log1);
    if s.then_ == Advance {
      OverNever(skip, pauses, q1, log1, data[1..]);
    } else if s.then_ == Again {
      OverInNever(skip, pauses, q1, log1, data);
    }
  }

  lemma KeptEnds(s: Step)
    requires Kept(s)
    ensures s.then_ != Abort && s.q.errno != HeaderOverflow
  {
    hide Sane;
  }
}

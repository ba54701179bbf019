/** Header lines (section 4.2 of RFC 2616): what the parser makes of a whole line. */
module HttpLines {
  import opened Base
  import opened HttpTypes
  import opened HttpSwitch
  import opened HttpMachine
  import opened HttpReading
  import opened HttpHeaders

  datatype Header = Header(name: seq<octet>, blanks: seq<octet>, value: seq<octet>)

  predicate Blank(ch: octet) {
    ch == ' ' || ch == '\t'
  }

  predicate IsValue(value: seq<octet>) {
    (value != [] ==> !Blank(value[0])) && forall i :: 0 <= i < |value| ==> value[i] != CR && value[i] != LF
  }

  predicate IsHeader(h: Header) {
    IsName(h.name) && (forall i :: 0 <= i < |h.blanks| ==> Blank(h.blanks[i])) && IsValue(h.value)
  }

  /** The headers that the parser acts on. */
  predicate Known(name: seq<octet>) {
    Lower(name) in {CONNECTION, PROXY_CONNECTION, CONTENT_LENGTH, TRANSFER_ENCODING, UPGRADE}
  }

  function Line(h: Header): seq<octet> {
    h.name + [':'] + h.blanks + h.value + CRLF
  }

  function ToldOf(log: Log, h: Header): Log {
    Push(Push(log, DataOf(FieldData, h.name)), DataOf(ValueData, h.value))
  }

  /** Where a header line begins: at the first, or behind another, which a blank would continue. */
  predicate AtLine(q: Parser) {
    q.errno == Ok && (q.state.HeaderFieldStart? || q.state.HeaderValueLws?)
  }

  // The name

  lemma BehindLine(skip: SkipBody, q: Parser, log: Log, ch: octet)
    requires q.state.HeaderValueLws? && !Blank(ch)
    ensures Finish(skip, q, log, ch) == Finish(skip, q.(state := HeaderFieldStart), log, ch)
  {
    assert Switch(q, ch, 1) == Retry(q, HeaderFieldStart);
    hide Switch;
  }

  /** Behind a line whatever does not start with a blank is read as if it were the first. */
  lemma LineAfterLine(skip: SkipBody, q: Parser, log: Log, x: seq<octet>)
    requires q.errno == Ok && q.state.HeaderValueLws? && q.nread < HTTP_MAX_HEADER_SIZE
    requires x != [] && !Blank(x[0])
    ensures Feed(skip, q, log, x) == Feed(skip, q.(state := HeaderFieldStart), log, x)
  {
    hide Finish;
    BehindLine(skip, Count(q), log, x[0]);
  }

  lemma NameNotBlank(name: seq<octet>)
    requires IsName(name)
    ensures !Blank(name[0])
  {
  }

  lemma ColonStep(q: Parser)
    requires q.state == HeaderField
    ensures Switch(q, ':', 1) == Flush(q.(state := HeaderValueStart), FieldData)
  {
  }

  lemma ColonRead(skip: SkipBody, r: Parser, log: Log)
    requires r.state == HeaderField && r.errno == Ok && r.nread < HTTP_MAX_HEADER_SIZE
    ensures Eats(skip, r, log, [':'], r.(state := HeaderValueStart, nread := r.nread + 1), log)
  {
    hide Switch, Eats;
    ColonStep(r.(nread := r.nread + 1));
    EatsByte(skip, r, log, ':', r.(state := HeaderValueStart, nread := r.nread + 1));
  }

  /** The parser behind a name and its colon. */
  function AtValue(q: Parser, h: HeaderState, i: nat, n: nat): Parser {
    q.(state := HeaderValueStart, headerState := h, index := i, nread := n)
  }

  /** The name and its colon: the header state says which of the known headers it is. */
  lemma NameRead(skip: SkipBody, q: Parser, log: Log, name: seq<octet>) returns (h: HeaderState, i: nat)
    requires AtLine(q) && IsName(name) && q.nread + |name| < HTTP_MAX_HEADER_SIZE
    ensures Eats(skip, q, log, name + [':'], AtValue(q, h, i, q.nread + |name| + 1),
                 Push(log, DataOf(FieldData, name)))
    ensures h == ContentLength <==> Lower(name) == CONTENT_LENGTH
    ensures h == TransferEncoding <==> Lower(name) == TRANSFER_ENCODING
    ensures h == HeaderState.Upgrade <==> Lower(name) == UPGRADE
    ensures h == Connection <==> Lower(name) == CONNECTION || Lower(name) == PROXY_CONNECTION
  {
    hide Push, Feed, Lower, Means;
    var q0 := q.(state := HeaderFieldStart);
    var log1 := Push(log, DataOf(FieldData, name));
    NameNotBlank(name);
    hide IsName;
    if q.state.HeaderValueLws? {
      LineAfterLine(skip, q, log, name);
    }
    NameRecognised(skip, q0, log, name);
    var r := Feed(skip, q0, log, name).q;
    ColonRead(skip, r, log1);
    h, i := r.headerState, r.index;
    EatsBoth(skip, q, log, name, r, log1, [':'], r.(state := HeaderValueStart, nread := r.nread + 1), log1);
  }

  lemma BlankStep(q: Parser, ch: octet)
    requires q.state.HeaderValueStart? && Blank(ch)
    ensures Switch(q, ch, 1) == Go(q)
  {
  }

  lemma {:induction false} BlanksRead(skip: SkipBody, q: Parser, log: Log, blanks: seq<octet>)
    requires q.errno == Ok && q.state.HeaderValueStart? && q.nread + |blanks| <= HTTP_MAX_HEADER_SIZE
    requires forall i :: 0 <= i < |blanks| ==> Blank(blanks[i])
    ensures Eats(skip, q, log, blanks, q.(nread := q.nread + |blanks|), log)
    decreases |blanks|
  {
    hide Eats, Switch, Blank;
    if blanks == [] {
      EatsNothing(skip, q, log);
    } else {
      var q1 := q.(nread := q.nread + 1);
      BlankStep(q1, blanks[0]);
      EatsByte(skip, q, log, blanks[0], q1);
      BlanksRead(skip, q1, log, blanks[1..]);
      EatsBoth(skip, q, log, [blanks[0]], q1, log, blanks[1..], q.(nread := q.nread + |blanks|), log);
      assert [blanks[0]] + blanks[1..] == blanks;
    }
  }

  /** Everything in front of the value. */
  lemma BeforeValue(skip: SkipBody, q: Parser, log: Log, name: seq<octet>, blanks: seq<octet>)
    returns (h: HeaderState, i: nat)
    requires AtLine(q) && IsName(name) && forall i :: 0 <= i < |blanks| ==> Blank(blanks[i])
    requires q.nread + |name| + 1 + |blanks| <= HTTP_MAX_HEADER_SIZE
    ensures Eats(skip, q, log, name + [':'] + blanks, AtValue(q, h, i, q.nread + |name| + 1 + |blanks|),
                 Push(log, DataOf(FieldData, name)))
    ensures h == ContentLength <==> Lower(name) == CONTENT_LENGTH
    ensures h == TransferEncoding <==> Lower(name) == TRANSFER_ENCODING
    ensures h == HeaderState.Upgrade <==> Lower(name) == UPGRADE
    ensures h == Connection <==> Lower(name) == CONNECTION || Lower(name) == PROXY_CONNECTION
  {
    hide Eats, Push, IsName, Lower, AtLine;
    AtLineOk(q);
    h, i := NameRead(skip, q, log, name);
    var log1, n := Push(log, DataOf(FieldData, name)), q.nread + |name| + 1;
    var q1, q2 := AtValue(q, h, i, n), AtValue(q, h, i, n + |blanks|);
    BlanksRead(skip, q1, log1, blanks);
    EatsBoth(skip, q, log, name + [':'], q1, log1, blanks, q2, log1);
  }

  lemma AtLineOk(q: Parser)
    requires AtLine(q)
    ensures q.errno == Ok
  {
  }

  // The value and the end of the line

  /** The parser inside a value that means nothing to it. */
  function InValue(q: Parser, n: nat): Parser {
    q.(state := HeaderValue, headerState := General, index := 0, nread := n)
  }

  predicate Meaningless(h: HeaderState) {
    h != ContentLength && h != TransferEncoding && h != HeaderState.Upgrade && h != Connection
  }

  lemma ValueStartStep(q: Parser, ch: octet)
    requires q.state.HeaderValueStart? && Meaningless(q.headerState) && !Blank(ch) && ch != CR && ch != LF
    ensures Switch(q, ch, 1) == Step(InValue(q, q.nread), Some(ValueData), 0, NoCall, Advance)
  {
  }

  lemma ValueStep(q: Parser, ch: octet)
    requires q.state.HeaderValue? && q.headerState == General && ch != CR && ch != LF
    ensures Switch(q, ch, 1) == Go(q)
  {
  }

  lemma {:induction false} ValueRead(skip: SkipBody, q: Parser, log: Log, value: seq<octet>)
    requires q.errno == Ok && q.state.HeaderValueStart? && Meaningless(q.headerState)
    requires value != [] && IsValue(value) && q.nread + |value| <= HTTP_MAX_HEADER_SIZE
    ensures Eats(skip, q, log, value, InValue(q, q.nread + |value|), Push(log, DataOf(ValueData, value)))
    decreases |value|
  {
    hide Eats, Switch, Push, Blank, Meaningless;
    var n := |value| - 1;
    var front, ch := value[..n], value[n];
    assert value == front + [ch];
    if front == [] {
      assert value == [ch];
      ValueStartStep(q.(nread := q.nread + 1), ch);
      EatsData(skip, q, log, ch, ValueData, InValue(q, q.nread + 1));
    } else {
      ValueRead(skip, q, log, front);
      var q1, log1 := InValue(q, q.nread + n), Push(log, DataOf(ValueData, front));
      ValueStep(q1.(nread := q1.nread + 1), ch);
      EatsData(skip, q1, log1, ch, ValueData, InValue(q, q.nread + |value|));
      PushPush(log, ValueData, front, [ch]);
      EatsBoth(skip, q, log, front, q1, log1, [ch], InValue(q, q.nread + |value|),
               Push(log, DataOf(ValueData, value)));
    }
  }

  lemma NoValueStep(q: Parser)
    requires q.state.HeaderValueStart?
    ensures Switch(q, CR, 1)
         == Step(q.(state := HeaderAlmostDone, headerState := General, index := 0), Some(ValueData), 0,
                 DataCall(ValueData, false, true), Advance)
  {
  }

  lemma ValueCrStep(q: Parser)
    requires q.state.HeaderValue?
    ensures Switch(q, CR, 1) == Flush(q.(state := HeaderAlmostDone), ValueData)
  {
  }

  /** What a line leaves in the flags. */
  function Flagged(q: Parser): Flags {
    match q.headerState
    case ConnectionKeepAlive => q.flags.(keepAlive := true)
    case ConnectionClose => q.flags.(close := true)
    case TransferEncodingChunked => q.flags.(chunked := true)
    case _ => q.flags
  }

  lemma LineLfStep(q: Parser)
    requires q.state.HeaderAlmostDone?
    ensures Switch(q, LF, 1) == Go(q.(state := HeaderValueLws, flags := Flagged(q)))
  {
  }

  lemma LineLf(skip: SkipBody, q: Parser, log: Log)
    requires q.errno == Ok && q.state.HeaderAlmostDone? && q.nread < HTTP_MAX_HEADER_SIZE
    ensures Eats(skip, q, log, [LF], q.(state := HeaderValueLws, flags := Flagged(q), nread := q.nread + 1), log)
  {
    hide Eats, Switch;
    LineLfStep(q.(nread := q.nread + 1));
    EatsByte(skip, q, log, LF, q.(state := HeaderValueLws, flags := Flagged(q), nread := q.nread + 1));
  }

  /** The end of a line behind a value. */
  lemma LineEnd(skip: SkipBody, q: Parser, log: Log)
    requires q.errno == Ok && q.state.HeaderValue? && q.nread + 2 <= HTTP_MAX_HEADER_SIZE
    ensures Eats(skip, q, log, CRLF, q.(state := HeaderValueLws, flags := Flagged(q), nread := q.nread + 2), log)
  {
    hide Eats, Switch, Flagged;
    var q1 := q.(state := HeaderAlmostDone, nread := q.nread + 1);
    ValueCrStep(q.(nread := q.nread + 1));
    EatsByte(skip, q, log, CR, q1);
    LineLf(skip, q1, log);
    assert Flagged(q1) == Flagged(q) by {
      FlaggedAlike(q, q1);
    }
    EatsBoth(skip, q, log, [CR], q1, log, [LF],
             q.(state := HeaderValueLws, flags := Flagged(q), nread := q.nread + 2), log);
    assert [CR] + [LF] == CRLF;
  }

  lemma FlaggedAlike(q: Parser, r: Parser)
    requires q.headerState == r.headerState && q.flags == r.flags
    ensures Flagged(q) == Flagged(r)
  {
  }

  /** The end of a line without a value. */
  lemma EmptyLineEnd(skip: SkipBody, q: Parser, log: Log)
    requires q.errno == Ok && q.state.HeaderValueStart? && q.nread + 2 <= HTTP_MAX_HEADER_SIZE
    ensures Eats(skip, q, log, CRLF,
                 q.(state := HeaderValueLws, headerState := General, index := 0, nread := q.nread + 2),
                 Push(log, DataOf(ValueData, [])))
  {
    hide Eats, Switch, Push;
    var q1 := q.(state := HeaderAlmostDone, headerState := General, index := 0, nread := q.nread + 1);
    var log1 := Push(log, DataOf(ValueData, []));
    NoValueStep(q.(nread := q.nread + 1));
    EatsEmpty(skip, q, log, CR, ValueData, q1);
    LineLf(skip, q1, log1);
    EatsBoth(skip, q, log, [CR], q1, log1, [LF], q1.(state := HeaderValueLws, nread := q.nread + 2), log1);
    assert [CR] + [LF] == CRLF;
  }

  /** A value that means nothing, or none at all, and the end of its line. */
  lemma ValueLineRead(skip: SkipBody, q: Parser, log: Log, value: seq<octet>)
    requires q.errno == Ok && q.state.HeaderValueStart? && Meaningless(q.headerState)
    requires IsValue(value) && q.nread + |value| + 2 <= HTTP_MAX_HEADER_SIZE
    ensures Eats(skip, q, log, value + CRLF,
                 q.(state := HeaderValueLws, headerState := General, index := 0, nread := q.nread + |value| + 2),
                 Push(log, DataOf(ValueData, value)))
  {
    hide Eats, Push, IsValue, Meaningless;
    if value == [] {
      EmptyLineEnd(skip, q, log);
      assert [] + CRLF == CRLF;
    } else {
      var q1, log1 := InValue(q, q.nread + |value|), Push(log, DataOf(ValueData, value));
      ValueRead(skip, q, log, value);
      LineEnd(skip, q1, log1);
      EatsBoth(skip, q, log, value, q1, log1, CRLF,
               q.(state := HeaderValueLws, headerState := General, index := 0, nread := q.nread + |value| + 2), log1);
    }
  }

  // Lines

  function AfterLine(q: Parser, h: Header): Parser {
    q.(state := HeaderValueLws, headerState := General, index := 0, nread := q.nread + |Line(h)|)
  }

  /** A header that the parser does not know is told as it is, and leaves no trace in the parser. */
  lemma UnknownRead(skip: SkipBody, q: Parser, log: Log, h: Header)
    requires AtLine(q) && IsHeader(h) && !Known(h.name) && q.nread + |Line(h)| <= HTTP_MAX_HEADER_SIZE
    ensures Eats(skip, q, log, Line(h), AfterLine(q, h), ToldOf(log, h))
  {
    hide Eats, Push, IsValue, IsName, Lower, AtLine;
    AtLineOk(q);
    var s, i := BeforeValue(skip, q, log, h.name, h.blanks);
    var log1 := Push(log, DataOf(FieldData, h.name));
    var q1 := AtValue(q, s, i, q.nread + |h.name| + 1 + |h.blanks|);
    ValueLineRead(skip, q1, log1, h.value);
    EatsBoth(skip, q, log, h.name + [':'] + h.blanks, q1, log1, h.value + CRLF, AfterLine(q, h), ToldOf(log, h));
    assert h.name + [':'] + h.blanks + (h.value + CRLF) == Line(h);
  }

  predicate NoneKnown(hs: seq<Header>) {
    forall h :: h in hs ==> IsHeader(h) && !Known(h.name)
  }

  function Lines(hs: seq<Header>): seq<octet> {
    if hs == [] then [] else Line(hs[0]) + Lines(hs[1..])
  }

  function AllTold(log: Log, hs: seq<Header>): Log
    decreases |hs|
  {
    if hs == [] then log else AllTold(ToldOf(log, hs[0]), hs[1..])
  }

  function AfterLines(q: Parser, hs: seq<Header>): Parser {
    if hs == [] then q
    else q.(state := HeaderValueLws, headerState := General, index := 0, nread := q.nread + |Lines(hs)|)
  }

  /** They leave no trace in the parser but for their number of bytes. */
  lemma AfterLinesCount(q: Parser, hs: seq<Header>)
    ensures var r := AfterLines(q, hs);
      && r == q.(state := r.state, headerState := r.headerState, index := r.index, nread := q.nread + |Lines(hs)|)
  {
  }

  /** Any headers that the parser does not know, one after the other. */
  lemma {:induction false} LinesRead(skip: SkipBody, q: Parser, log: Log, hs: seq<Header>)
    requires AtLine(q) && NoneKnown(hs) && q.nread + |Lines(hs)| <= HTTP_MAX_HEADER_SIZE
    ensures Eats(skip, q, log, Lines(hs), AfterLines(q, hs), AllTold(log, hs)) && AtLine(AfterLines(q, hs))
    decreases |hs|
  {
    hide Eats, Line, ToldOf, IsHeader, Known;
    if hs == [] {
      EatsNothing(skip, q, log);
    } else {
      var h, q1 := hs[0], AfterLine(q, hs[0]);
      assert h in hs;
      UnknownRead(skip, q, log, h);
      LinesRead(skip, q1, ToldOf(log, h), hs[1..]);
      assert AfterLines(q1, hs[1..]) == AfterLines(q, hs);
      EatsBoth(skip, q, log, Line(h), q1, ToldOf(log, h), Lines(hs[1..]), AfterLines(q, hs), AllTold(log, hs));
    }
  }

  /** The CR of the empty line behind them. */
  lemma HeadersCr(skip: SkipBody, q: Parser, log: Log)
    requires AtLine(q) && q.nread < HTTP_MAX_HEADER_SIZE
    ensures Eats(skip, q, log, [CR], q.(state := HeadersAlmostDone, nread := q.nread + 1), log)
  {
    hide Eats, Feed;
    if q.state.HeaderValueLws? {
      assert !Blank(CR);
      LineAfterLine(skip, q, log, [CR]);
    }
    var q0 := q.(state := HeaderFieldStart);
    CrStep(q0.(nread := q.nread + 1));
    hide Switch;
    EatsByte(skip, q0, log, CR, q.(state := HeadersAlmostDone, nread := q.nread + 1));
    SameFeed(skip, q, q0, log, [CR]);
  }

  lemma CrStep(q: Parser)
    requires q.state.HeaderFieldStart?
    ensures Switch(q, CR, 1) == GoTo(q, HeadersAlmostDone)
  {
  }

  lemma SameFeed(skip: SkipBody, q: Parser, r: Parser, log: Log, x: seq<octet>)
    requires Feed(skip, q, log, x) == Feed(skip, r, log, x)
    ensures forall q', log' :: Eats(skip, q, log, x, q', log') == Eats(skip, r, log, x, q', log')
  {
    hide Feed;
  }

  // Transfer-Encoding

  /** The bytes so far are the beginning of "chunked", in any case of letters, with spaces behind it. */
  predicate Hopeful(v: seq<octet>) {
    forall i :: 0 <= i < |v| ==> if i < |CHUNKED| then LowerIs(v[i], CHUNKED[i]) else v[i] == ' '
  }

  predicate IsChunked(value: seq<octet>) {
    |value| >= |CHUNKED| && Hopeful(value)
  }

  /** The header state behind these bytes of a Transfer-Encoding. */
  function HopeOf(v: seq<octet>): HeaderState {
    if v == [] || !Hopeful(v) then General
    else if |v| < |CHUNKED| then MatchingTransferEncodingChunked
    else TransferEncodingChunked
  }

  lemma HopeFirst(q: Parser, ch: octet)
    requires q.state.HeaderValueStart? && q.headerState == TransferEncoding && !Blank(ch) && ch != CR && ch != LF
    ensures Switch(q, ch, 1)
         == Step(q.(state := HeaderValue, index := 0, headerState := HopeOf([ch])), Some(ValueData), 0, NoCall,
                 Advance)
  {
    NameLengths();
    assert CHUNKED[0] == 'c';
    hide LowerIs, CHUNKED;
  }

  lemma HopeMore(v: seq<octet>, ch: octet)
    ensures Hopeful(v + [ch])
        <==> Hopeful(v) && if |v| < |CHUNKED| then LowerIs(ch, CHUNKED[|v|]) else ch == ' '
  {
    hide LowerIs, CHUNKED;
    var more := v + [ch];
    assert more[|v|] == ch;
    if Hopeful(more) {
      forall i | 0 <= i < |v|
        ensures if i < |CHUNKED| then LowerIs(v[i], CHUNKED[i]) else v[i] == ' '
      {
        assert more[i] == v[i];
      }
    }
  }

  lemma HopeNext(q: Parser, v: seq<octet>, ch: octet)
    requires q.state.HeaderValue? && v != [] && q.headerState == HopeOf(v) && ch != CR && ch != LF
    requires q.headerState == MatchingTransferEncodingChunked ==> q.index == |v| - 1
    ensures var s := Switch(q, ch, 1);
      && s == Go(q.(headerState := HopeOf(v + [ch]), index := s.q.index))
      && (HopeOf(v + [ch]) == MatchingTransferEncodingChunked ==> s.q.index == |v|)
  {
    NameLengths();
    HopeMore(v, ch);
    hide LowerIs, CHUNKED, Hopeful;
  }

  /** The parser inside the value of a Transfer-Encoding. */
  function InEncoding(q: Parser, v: seq<octet>, i: nat, n: nat): Parser {
    q.(state := HeaderValue, headerState := HopeOf(v), index := i, nread := n)
  }

  lemma {:induction false} EncodingRead(skip: SkipBody, q: Parser, log: Log, v: seq<octet>) returns (i: nat)
    requires q.errno == Ok && q.state.HeaderValueStart? && q.headerState == TransferEncoding
    requires v != [] && IsValue(v) && q.nread + |v| <= HTTP_MAX_HEADER_SIZE
    ensures Eats(skip, q, log, v, InEncoding(q, v, i, q.nread + |v|), Push(log, DataOf(ValueData, v)))
    ensures HopeOf(v) == MatchingTransferEncodingChunked ==> i == |v| - 1
    decreases |v|
  {
    hide Eats, Switch, Push, Blank, HopeOf;
    var n := |v| - 1;
    var front, ch := v[..n], v[n];
    assert v == front + [ch];
    if front == [] {
      assert v == [ch];
      i := 0;
      HopeFirst(q.(nread := q.nread + 1), ch);
      EatsData(skip, q, log, ch, ValueData, InEncoding(q, v, i, q.nread + 1));
    } else {
      var j := EncodingRead(skip, q, log, front);
      var q1, log1 := InEncoding(q, front, j, q.nread + n), Push(log, DataOf(ValueData, front));
      var r := q1.(nread := q1.nread + 1);
      HopeNext(r, front, ch);
      i := Switch(r, ch, 1).q.index;
      EatsData(skip, q1, log1, ch, ValueData, InEncoding(q, v, i, q.nread + |v|));
      PushPush(log, ValueData, front, [ch]);
      EatsBoth(skip, q, log, front, q1, log1, [ch], InEncoding(q, v, i, q.nread + |v|),
               Push(log, DataOf(ValueData, v)));
    }
  }

  /** The value and the end of its line. */
  lemma EncodingLineRead(skip: SkipBody, q: Parser, log: Log, v: seq<octet>) returns (i: nat)
    requires q.errno == Ok && q.state.HeaderValueStart? && q.headerState == TransferEncoding
    requires IsValue(v) && q.nread + |v| + 2 <= HTTP_MAX_HEADER_SIZE
    ensures Eats(skip, q, log, v + CRLF,
                 q.(state := HeaderValueLws, flags := if IsChunked(v) then q.flags.(chunked := true) else q.flags,
                    headerState := HopeOf(v), index := i, nread := q.nread + |v| + 2),
                 Push(log, DataOf(ValueData, v)))
  {
    hide Eats, Push, IsValue, Hopeful;
    if v == [] {
      i := 0;
      EmptyLineEnd(skip, q, log);
      assert [] + CRLF == CRLF;
    } else {
      i := EncodingRead(skip, q, log, v);
      var q1, log1 := InEncoding(q, v, i, q.nread + |v|), Push(log, DataOf(ValueData, v));
      EncodingFlags(q1, v);
      LineEnd(skip, q1, log1);
      EatsBoth(skip, q, log, v, q1, log1, CRLF,
               q.(state := HeaderValueLws, flags := Flagged(q1), headerState := HopeOf(v), index := i,
                  nread := q.nread + |v| + 2), log1);
    }
  }

  /** What a Transfer-Encoding line leaves. */
  function AfterEncoding(q: Parser, h: Header, i: nat): Parser {
    q.(state := HeaderValueLws, flags := if IsChunked(h.value) then q.flags.(chunked := true) else q.flags,
       headerState := HopeOf(h.value), index := i, nread := q.nread + |Line(h)|)
  }

  /**
   A Transfer-Encoding line: whatever its value, the parser expects chunks because of it
   exactly if the value is "chunked", in any case of letters, with nothing but spaces behind.
   */
  lemma EncodingExact(skip: SkipBody, q: Parser, log: Log, h: Header) returns (i: nat)
    requires AtLine(q) && IsHeader(h) && Lower(h.name) == TRANSFER_ENCODING
    requires q.nread + |Line(h)| <= HTTP_MAX_HEADER_SIZE
    ensures Eats(skip, q, log, Line(h), AfterEncoding(q, h, i), ToldOf(log, h))
  {
    hide Eats, Push, IsValue, IsName, Lower, AtLine, HopeOf, IsChunked;
    AtLineOk(q);
    var s, j := BeforeValue(skip, q, log, h.name, h.blanks);
    var log1 := Push(log, DataOf(FieldData, h.name));
    var q1 := AtValue(q, s, j, q.nread + |h.name| + 1 + |h.blanks|);
    i := EncodingLineRead(skip, q1, log1, h.value);
    EatsBoth(skip, q, log, h.name + [':'] + h.blanks, q1, log1, h.value + CRLF, AfterEncoding(q, h, i),
             ToldOf(log, h));
    assert h.name + [':'] + h.blanks + (h.value + CRLF) == Line(h);
  }

  lemma EncodingFlags(q: Parser, v: seq<octet>)
    requires q.headerState == HopeOf(v)
    ensures Flagged(q) == if IsChunked(v) then q.flags.(chunked := true) else q.flags
  {
    hide Hopeful;
  }
}

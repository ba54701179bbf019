/**
 http_parser_parse_url: one pass over the bytes finds the fields of a URL, a second over the
 authority splits it into user, host and port.
 */
module HttpUrl {
  import opened Base
  import opened HttpTypes
  import opened HttpSwitch

  datatype Field = Schema | Host | Port | Path | Query | Fragment | Userinfo

  datatype Span = Span(off: nat, len: nat) {
    function End(): nat {
      off + len
    }
  }

  /** The fields that are set, and where they are. */
  type Spans = map<Field, Span>

  datatype Url = Url(spans: Spans, port: nat)

  const MAX_URL := 65535
  const MAX_PORT := 65535

  function Grown(spans: Spans, f: Field): Spans
    requires f in spans
  {
    spans[f := Span(spans[f].off, spans[f].len + 1)]
  }

  // The first pass

  /** The field that a state belongs to; delimiters belong to none. */
  function FieldOf(s: State): Option<Field> {
    match s
    case ReqSchema => Some(Schema)
    case ReqServerWithAt => Some(Host)
    case ReqServer => Some(Host)
    case ReqPath => Some(Path)
    case ReqQueryString => Some(Query)
    case ReqFragment => Some(Fragment)
    case _ => None
  }

  predicate Delimiter(s: State) {
    s in {ReqSchemaSlash, ReqSchemaSlashSlash, ReqServerStart, ReqQueryStringStart, ReqFragmentStart}
  }

  datatype Scan = Scan(s: State, last: Option<Field>, foundAt: bool, spans: Spans)

  /** One byte of the first pass; a field begins, goes on, or there is nothing to record. */
  function Turn(sc: Scan, p: nat, ch: octet): Option<Scan>
    requires sc.last.Some? ==> sc.last.value in sc.spans
  {
    var s := UrlChar(sc.s, ch);
    if Delimiter(s) then Some(sc.(s := s))
    else
      match FieldOf(s)
      case None => None
      case Some(f) =>
        var at := sc.foundAt || s == ReqServerWithAt;
        if sc.last == Some(f) then Some(Scan(s, sc.last, at, Grown(sc.spans, f)))
        else Some(Scan(s, Some(f), at, sc.spans[f := Span(p, 1)]))
  }

  function ScanFrom(sc: Scan, buf: seq<octet>, p: nat): (r: Option<Scan>)
    requires p <= |buf| && (sc.last.Some? ==> sc.last.value in sc.spans)
    ensures r.Some? && r.value.last.Some? ==> r.value.last.value in r.value.spans
    decreases |buf| - p
  {
    if p == |buf| then Some(sc)
    else
      match Turn(sc, p, buf[p])
      case None => None
      case Some(next) => ScanFrom(next, buf, p + 1)
  }

  // The second pass

  datatype HostState =
    | HostDead | UserinfoStart | InUserinfo | HostStart | HostV6Start
    | InHost | HostV6 | HostV6End | HostPortStart | HostPort

  /** http_parse_host_char. */
  function HostChar(s: HostState, ch: octet): HostState {
    match s
    case UserinfoStart => UserinfoChar(ch)
    case InUserinfo => UserinfoChar(ch)
    case HostStart => if ch == '[' then HostV6Start else if IsHostChar(ch) then InHost else HostDead
    case InHost => if IsHostChar(ch) then InHost else if ch == ':' then HostPortStart else HostDead
    case HostV6End => if ch == ':' then HostPortStart else HostDead
    case HostV6 => if ch == ']' then HostV6End else V6Char(ch)
    case HostV6Start => V6Char(ch)
    case HostPort => PortChar(ch)
    case HostPortStart => PortChar(ch)
    case HostDead => HostDead
  }

  function UserinfoChar(ch: octet): HostState {
    if ch == '@' then HostStart else if IsUserinfoChar(ch) then InUserinfo else HostDead
  }

  function V6Char(ch: octet): HostState {
    if IsHex(ch) || ch == ':' then HostV6 else HostDead
  }

  function PortChar(ch: octet): HostState {
    if IsNum(ch) then HostPort else HostDead
  }

  datatype HostScan = HostScan(s: HostState, spans: Spans)

  /** The fields must be there that the state says are being read. */
  predicate Reading(h: HostScan) {
    && Host in h.spans
    && (h.s == HostPort ==> Port in h.spans) && (h.s == InUserinfo ==> Userinfo in h.spans)
  }

  function HostTurn(h: HostScan, p: nat, ch: octet): (r: Option<HostScan>)
    requires Reading(h)
    ensures r.Some? ==> Reading(r.value)
  {
    var s := HostChar(h.s, ch);
    match s
    case HostDead => None
    case InHost => Some(HostScan(s, HostGrown(h, s, p)))
    case HostV6 => Some(HostScan(s, HostGrown(h, s, p)))
    case HostPort => Some(HostScan(s, if h.s == s then Grown(h.spans, Port) else h.spans[Port := Span(p, 1)]))
    case InUserinfo => Some(HostScan(s, if h.s == s then Grown(h.spans, Userinfo) else h.spans[Userinfo := Span(p, 1)]))
    case _ => Some(h.(s := s))
  }

  /** A host byte; where the host begins its offset is set, and its length goes on from what it was. */
  function HostGrown(h: HostScan, s: HostState, p: nat): Spans
    requires Host in h.spans
  {
    var host := h.spans[Host];
    h.spans[Host := Span(if h.s == s then host.off else p, host.len + 1)]
  }

  function HostFrom(h: HostScan, buf: seq<octet>, p: nat, end: nat): Option<HostScan>
    requires p <= end <= |buf| && Reading(h)
    decreases end - p
  {
    if p == end then Some(h)
    else
      match HostTurn(h, p, buf[p])
      case None => None
      case Some(next) => HostFrom(next, buf, p + 1, end)
  }

  /** Where the authority may end. */
  predicate HostMayEnd(s: HostState) {
    s in {InHost, HostV6End, HostPort}
  }

  /** http_parse_host; a URL with a scheme and no authority has an empty one, which fails. */
  function ParseHost(buf: seq<octet>, spans: Spans, foundAt: bool): Option<Spans>
    requires Ordered(spans, |buf|)
  {
    if Host !in spans then None
    else
      var h := HostScan(if foundAt then UserinfoStart else HostStart, spans[Host := Span(spans[Host].off, 0)]);
      match HostFrom(h, buf, spans[Host].off, spans[Host].End())
      case None => None
      case Some(h) => if HostMayEnd(h.s) then Some(h.spans) else None
  }

  /** strtoul from a position; it stops at the first byte that is not a digit. */
  function Number(buf: seq<octet>, p: nat, n: nat): nat
    decreases |buf| - p
  {
    if p >= |buf| || !IsNum(buf[p]) then n else Number(buf, p + 1, 10 * n + Digit(buf[p]))
  }

  function FirstScan(isConnect: bool): Scan {
    Scan(if isConnect then ReqServerStart else ReqSpacesBeforeUrl, None, false, map[])
  }

  /** http_parser_parse_url on a zeroed result. */
  function ParseUrl(buf: seq<octet>, isConnect: bool): Option<Url> {
    match ScanFrom(FirstScan(isConnect), buf, 0)
    case None => None
    case Some(sc) =>
      ScanKeeps(FirstScan(isConnect), buf, 0);
      match if Schema in sc.spans || Host in sc.spans then ParseHost(buf, sc.spans, sc.foundAt) else Some(sc.spans)
      case None => None
      case Some(spans) => Finish(buf, isConnect, spans)
  }

  /** The last tests: what CONNECT allows, and the value of the port. */
  function Finish(buf: seq<octet>, isConnect: bool, spans: Spans): Option<Url> {
    if isConnect && spans.Keys != {Host, Port} then None
    else if Port !in spans then Some(Url(spans, 0))
    else
      var v := Number(buf, spans[Port].off, 0);
      if v > MAX_PORT then None else Some(Url(spans, v))
  }

  // Where the fields are

  /** States in the order in which a URL goes through them. */
  function Rank(s: State): nat {
    match s
    case ReqSpacesBeforeUrl => 0
    case ReqSchema => 2
    case ReqSchemaSlash => 3
    case ReqSchemaSlashSlash => 3
    case ReqServerStart => 3
    case ReqServer => 4
    case ReqServerWithAt => 4
    case ReqPath => 6
    case ReqQueryStringStart => 7
    case ReqQueryString => 8
    case ReqFragmentStart => 9
    case ReqFragment => 10
    case _ => 11
  }

  /** The order of the fields in a URL. */
  function Place(f: Field): nat {
    match f
    case Schema => 2
    case Userinfo => 3
    case Host => 4
    case Port => 5
    case Path => 6
    case Query => 8
    case Fragment => 10
  }

  /** No byte leads back to an earlier part of the URL. */
  lemma UrlCharClimbs(s: State, ch: octet)
    requires Rank(s) < 11 && UrlChar(s, ch) != Dead
    ensures Rank(s) <= Rank(UrlChar(s, ch)) < 11
    ensures Delimiter(UrlChar(s, ch)) || FieldOf(UrlChar(s, ch)).Some?
    ensures FieldOf(UrlChar(s, ch)).Some? ==> Place(FieldOf(UrlChar(s, ch)).value) == Rank(UrlChar(s, ch))
    ensures FieldOf(UrlChar(s, ch)).Some? ==> FieldOf(UrlChar(s, ch)).value in {Schema, Host, Path, Query, Fragment}
    ensures Delimiter(UrlChar(s, ch)) ==> Rank(UrlChar(s, ch)) % 2 == 1
  {
  }

  /** The fields lie in the buffer, each behind those that come before it in a URL. */
  ghost predicate Ordered(spans: Spans, end: nat) {
    && (forall f :: f in spans ==> spans[f].len > 0 && spans[f].End() <= end)
    && forall f, g :: f in spans && g in spans && Place(f) < Place(g) ==> spans[f].End() <= spans[g].off
  }

  /** What the first pass keeps. */
  ghost predicate Scanned(sc: Scan, p: nat) {
    && Rank(sc.s) < 11 && Ordered(sc.spans, p)
    && (sc.last.Some? ==> sc.last.value in sc.spans && Place(sc.last.value) <= Rank(sc.s))
    && (forall f :: f in sc.spans ==>
          f in {Schema, Host, Path, Query, Fragment} && sc.last.Some? && Place(f) <= Place(sc.last.value))
    && (sc.last.Some? && Place(sc.last.value) == Rank(sc.s) ==> sc.spans[sc.last.value].End() == p)
  }

  lemma TurnKeeps(sc: Scan, p: nat, ch: octet)
    requires Scanned(sc, p)
    ensures Turn(sc, p, ch).Some? ==> Scanned(Turn(sc, p, ch).value, p + 1)
  {
    var s := UrlChar(sc.s, ch);
    if s != Dead {
      assert Rank(sc.s) < 11;
      UrlCharClimbs(sc.s, ch);
      hide UrlChar, Rank, FieldOf, Delimiter, Place, Scanned, Grown;
      if Delimiter(s) {
        DelimiterKeeps(sc, p, s);
      } else {
        FieldKeeps(sc, p, s, FieldOf(s).value, sc.foundAt || s == ReqServerWithAt);
      }
    }
  }

  lemma DelimiterKeeps(sc: Scan, p: nat, s: State)
    requires Scanned(sc, p) && Rank(sc.s) <= Rank(s) < 11 && Rank(s) % 2 == 1
    ensures Scanned(sc.(s := s), p + 1)
  {
    hide Rank;
  }

  lemma FieldKeeps(sc: Scan, p: nat, s: State, f: Field, at: bool)
    requires Scanned(sc, p) && Rank(sc.s) <= Rank(s) < 11 && Place(f) == Rank(s)
    requires f in {Schema, Host, Path, Query, Fragment}
    ensures sc.last.Some? ==> sc.last.value in sc.spans
    ensures Scanned(Scan(s, Some(f), at,
              if sc.last == Some(f) then Grown(sc.spans, f) else sc.spans[f := Span(p, 1)]), p + 1)
  {
    hide Rank, Place, Ordered;
    PlaceOnly(f);
    if sc.last == Some(f) {
      GrowOrdered(sc.spans, f, p);
    } else {
      assert f !in sc.spans;
      BeginOrdered(sc.spans, f, p);
    }
  }

  lemma PlaceOnly(f: Field)
    ensures forall g :: Place(g) == Place(f) ==> g == f
  {
  }

  /** The field that reaches up to here gets a byte more. */
  lemma GrowOrdered(spans: Spans, f: Field, p: nat)
    requires Ordered(spans, p) && f in spans && spans[f].End() == p
    requires forall g :: g in spans ==> Place(g) <= Place(f)
    ensures Ordered(Grown(spans, f), p + 1)
  {
    hide Place;
  }

  /** A field begins behind all others. */
  lemma BeginOrdered(spans: Spans, f: Field, p: nat)
    requires Ordered(spans, p) && f !in spans
    requires forall g :: g in spans ==> Place(g) <= Place(f)
    ensures Ordered(spans[f := Span(p, 1)], p + 1)
  {
    hide Place;
  }

  lemma {:induction false} ScanKeeps(sc: Scan, buf: seq<octet>, p: nat)
    requires p <= |buf| && Scanned(sc, p)
    ensures ScanFrom(sc, buf, p).Some? ==> Scanned(ScanFrom(sc, buf, p).value, |buf|)
    decreases |buf| - p
  {
    if p >= |buf| {
    } else {
      TurnKeeps(sc, p, buf[p]);
      hide Scanned, Turn;
      match Turn(sc, p, buf[p])
      case None =>
      case Some(next) => ScanKeeps(next, buf, p + 1);
    }
  }

  /** What the second pass keeps; from `start` to `end` is the authority. */
  ghost predicate HostScanned(h: HostScan, spans0: Spans, start: nat, p: nat) {
    && Reading(h) && h.s != HostDead && start <= p && Host in spans0 && Userinfo !in spans0 && Port !in spans0
    && (forall f :: f in spans0 && f != Host ==> f in h.spans && h.spans[f] == spans0[f])
    && (forall f :: f in h.spans ==> f in spans0 || f in {Userinfo, Port})
    && (Userinfo in h.spans ==>
        h.spans[Userinfo].len > 0 && start <= h.spans[Userinfo].off && h.spans[Userinfo].End() <= p)
    && (h.s in {UserinfoStart, InUserinfo, HostStart, HostV6Start} ==> h.spans[Host].len == 0 && Port !in h.spans)
    && (h.s == UserinfoStart ==> Userinfo !in h.spans)
    && (h.s == InUserinfo ==> h.spans[Userinfo].End() == p)
    && (h.s in {InHost, HostV6} ==> h.spans[Host].End() == p)
    && (h.s in {InHost, HostV6, HostV6End, HostPortStart, HostPort} ==>
          && h.spans[Host].len > 0 && start <= h.spans[Host].off && h.spans[Host].End() <= p
          && (Userinfo in h.spans ==> h.spans[Userinfo].End() <= h.spans[Host].off))
    && (h.s in {InHost, HostV6, HostV6End, HostPortStart} ==> Port !in h.spans)
    && (h.s == HostPort ==>
        h.spans[Port].len > 0 && h.spans[Port].End() == p && h.spans[Host].End() <= h.spans[Port].off)
  }

  lemma HostTurnKeeps(h: HostScan, spans0: Spans, start: nat, p: nat, ch: octet)
    requires HostScanned(h, spans0, start, p)
    ensures HostTurn(h, p, ch).Some? ==> HostScanned(HostTurn(h, p, ch).value, spans0, start, p + 1)
  {
    hide IsHostChar, IsUserinfoChar, IsHex, IsNum;
    HostCharLeads(h.s, ch);
    hide HostChar;
  }

  /** From where each state of the second pass is reached. */
  lemma HostCharLeads(s: HostState, ch: octet)
    ensures match HostChar(s, ch)
            case HostDead => true
            case UserinfoStart => false
            case InUserinfo => s in {UserinfoStart, InUserinfo}
            case HostStart => s in {UserinfoStart, InUserinfo}
            case HostV6Start => s == HostStart
            case InHost => s in {HostStart, InHost}
            case HostV6 => s in {HostV6Start, HostV6}
            case HostV6End => s == HostV6
            case HostPortStart => s in {InHost, HostV6End}
            case HostPort => s in {HostPortStart, HostPort}
  {
  }

  lemma {:induction false} HostKeeps(h: HostScan, spans0: Spans, start: nat, buf: seq<octet>, p: nat, end: nat)
    requires p <= end <= |buf| && HostScanned(h, spans0, start, p)
    ensures HostFrom(h, buf, p, end).Some? ==> HostScanned(HostFrom(h, buf, p, end).value, spans0, start, end)
    decreases end - p
  {
    if p >= end {
    } else {
      HostTurnKeeps(h, spans0, start, p, buf[p]);
      hide HostScanned, HostTurn;
      match HostTurn(h, p, buf[p])
      case None =>
      case Some(next) => HostKeeps(next, spans0, start, buf, p + 1, end);
    }
  }

  /** Splitting the authority keeps the fields in order. */
  lemma ParseHostKeeps(buf: seq<octet>, spans: Spans, foundAt: bool)
    requires Ordered(spans, |buf|) && Userinfo !in spans && Port !in spans
    ensures ParseHost(buf, spans, foundAt).Some? ==>
              Host in ParseHost(buf, spans, foundAt).value && Ordered(ParseHost(buf, spans, foundAt).value, |buf|)
  {
    if Host in spans {
      var start, end := spans[Host].off, spans[Host].End();
      var h := HostScan(if foundAt then UserinfoStart else HostStart, spans[Host := Span(start, 0)]);
      assert end <= |buf|;
      hide Ordered;
      SplitKeeps(h, spans, start, buf, end);
      hide HostFrom, HostMayEnd;
    }
  }

  lemma SplitKeeps(h: HostScan, spans: Spans, start: nat, buf: seq<octet>, end: nat)
    requires Ordered(spans, |buf|) && Userinfo !in spans && Port !in spans
    requires Host in spans && start <= end <= |buf| && spans[Host] == Span(start, end - start)
    requires h.s in {UserinfoStart, HostStart} && h.spans == spans[Host := Span(start, 0)] && Reading(h)
    ensures var r := HostFrom(h, buf, start, end);
      r.Some? && HostMayEnd(r.value.s) ==> Host in r.value.spans && Ordered(r.value.spans, |buf|)
  {
    hide HostFrom, Place, Ordered, HostScanned, HostMayEnd;
    HostStarts(h, spans, start);
    HostKeeps(h, spans, start, buf, start, end);
    var r := HostFrom(h, buf, start, end);
    if r.Some? && HostMayEnd(r.value.s) {
      SplitOrdered(r.value, spans, start, end, |buf|);
    }
  }

  lemma HostStarts(h: HostScan, spans: Spans, start: nat)
    requires Host in spans && Userinfo !in spans && Port !in spans
    requires h.s in {UserinfoStart, HostStart} && h.spans == spans[Host := Span(start, 0)]
    ensures HostScanned(h, spans, start, start)
  {
  }

  /** The order of the parts of the authority. */
  lemma PartsOrdered(h: HostScan, spans: Spans, start: nat, end: nat)
    requires HostScanned(h, spans, start, end) && HostMayEnd(h.s)
    ensures Host in h.spans && h.spans[Host].len > 0 && start <= h.spans[Host].off && h.spans[Host].End() <= end
    ensures Userinfo in h.spans ==>
              h.spans[Userinfo].len > 0 && start <= h.spans[Userinfo].off
                && h.spans[Userinfo].End() <= h.spans[Host].off
    ensures Port in h.spans ==>
              h.spans[Port].len > 0 && h.spans[Host].End() <= h.spans[Port].off && h.spans[Port].End() <= end
    ensures forall f :: f in h.spans && !InAuthority(f) ==> f in spans && h.spans[f] == spans[f]
  {
  }

  predicate InAuthority(f: Field) {
    f == Userinfo || f == Host || f == Port
  }

  /** The parts of the authority lie inside it, in order, and all other fields are as they were. */
  ghost predicate SplitInto(split: Spans, spans: Spans) {
    && Host in spans && Host in split && split[Host].len > 0
    && spans[Host].off <= split[Host].off && split[Host].End() <= spans[Host].End()
    && (Userinfo in split ==>
          split[Userinfo].len > 0 && spans[Host].off <= split[Userinfo].off && split[Userinfo].End() <= split[Host].off)
    && (Port in split ==>
          split[Port].len > 0 && split[Host].End() <= split[Port].off && split[Port].End() <= spans[Host].End())
    && (forall f :: f in split && !InAuthority(f) ==> f in spans && split[f] == spans[f])
  }

  /** The parts of the authority take its place among the fields. */
  lemma SplitOrdered(h: HostScan, spans: Spans, start: nat, end: nat, most: nat)
    requires Ordered(spans, most) && HostScanned(h, spans, start, end) && HostMayEnd(h.s)
    requires Host in spans && start <= end <= most && spans[Host] == Span(start, end - start)
    ensures Host in h.spans && Ordered(h.spans, most)
  {
    hide Ordered, HostMayEnd;
    PartsOrdered(h, spans, start, end);
    hide HostScanned;
    assert SplitInto(h.spans, spans);
    hide SplitInto;
    MergeOrdered(h.spans, spans, most);
  }

  lemma MergeOrdered(split: Spans, spans: Spans, most: nat)
    requires Ordered(spans, most) && SplitInto(split, spans)
    ensures Host in split && Ordered(split, most)
  {
    SpansFit(spans, most);
    assert forall f :: f in split ==> split[f].len > 0 && split[f].End() <= most;
    hide Ordered, SplitInto;
    forall f, g | f in split && g in split && Place(f) < Place(g)
      ensures split[f].End() <= split[g].off
    {
      MergedPair(split, spans, most, f, g);
    }
    OrderedIf(split, most);
  }

  lemma MergedPair(split: Spans, spans: Spans, most: nat, f: Field, g: Field)
    requires Ordered(spans, most) && SplitInto(split, spans)
    requires f in split && g in split && Place(f) < Place(g)
    ensures split[f].End() <= split[g].off
  {
    hide Ordered;
    if InAuthority(f) && InAuthority(g) {
      AuthorityInOrder(split, f, g);
    } else {
      InOrder(split, spans, most, f, g);
    }
  }

  lemma SpansFit(spans: Spans, most: nat)
    requires Ordered(spans, most)
    ensures forall f :: f in spans ==> spans[f].len > 0 && spans[f].End() <= most
  {
    hide Place;
  }

  lemma OrderedIf(spans: Spans, most: nat)
    requires forall f :: f in spans ==> spans[f].len > 0 && spans[f].End() <= most
    requires forall f, g :: f in spans && g in spans && Place(f) < Place(g) ==> spans[f].End() <= spans[g].off
    ensures Ordered(spans, most)
  {
    hide Place;
  }

  lemma AuthorityInOrder(split: Spans, f: Field, g: Field)
    requires f in split && g in split && InAuthority(f) && InAuthority(g) && Place(f) < Place(g)
    requires Host in split && (Userinfo in split ==> split[Userinfo].End() <= split[Host].off)
    requires Port in split ==> split[Host].End() <= split[Port].off
    ensures split[f].End() <= split[g].off
  {
  }

  /** A field of the authority and one outside it, or two outside it. */
  lemma InOrder(split: Spans, spans: Spans, most: nat, f: Field, g: Field)
    requires Ordered(spans, most) && Host in spans && f in split && g in split && Place(f) < Place(g)
    requires !InAuthority(f) || !InAuthority(g)
    requires if InAuthority(f) then split[f].End() <= spans[Host].End() else f in spans && split[f] == spans[f]
    requires if InAuthority(g) then spans[Host].off <= split[g].off else g in spans && split[g] == spans[g]
    ensures split[f].End() <= split[g].off
  {
    if InAuthority(f) {
      assert Place(Host) < Place(g);
    } else if InAuthority(g) {
      assert Place(f) < Place(Host);
    }
    hide Place;
  }

  /**
   Whatever the bytes, the fields of a URL that is accepted are not empty, lie in the buffer,
   and follow each other in the order scheme, user, host, port, path, query, fragment.
   */
  lemma AcceptedIsOrdered(buf: seq<octet>, isConnect: bool)
    ensures ParseUrl(buf, isConnect).Some? ==> Ordered(ParseUrl(buf, isConnect).value.spans, |buf|)
    ensures ParseUrl(buf, isConnect).Some? ==> ParseUrl(buf, isConnect).value.port <= MAX_PORT
    ensures ParseUrl(buf, isConnect).Some? && isConnect ==> ParseUrl(buf, isConnect).value.spans.Keys == {Host, Port}
    ensures ParseUrl(buf, isConnect).Some? && Schema in ParseUrl(buf, isConnect).value.spans ==>
              Host in ParseUrl(buf, isConnect).value.spans
  {
    var sc0 := FirstScan(isConnect);
    ScanKeeps(sc0, buf, 0);
    hide ScanFrom, ParseHost, Finish, Scanned, Ordered;
    match ScanFrom(sc0, buf, 0)
    case None =>
    case Some(sc) =>
      ScannedGives(sc, |buf|);
      ParseHostKeeps(buf, sc.spans, sc.foundAt);
      match if Schema in sc.spans || Host in sc.spans then ParseHost(buf, sc.spans, sc.foundAt) else Some(sc.spans) {
        case None =>
        case Some(spans) => FinishKeeps(buf, isConnect, spans);
      }
  }

  lemma FinishKeeps(buf: seq<octet>, isConnect: bool, spans: Spans)
    requires Ordered(spans, |buf|)
    ensures var r := Finish(buf, isConnect, spans);
      r.Some? ==> r.value.spans == spans && r.value.port <= MAX_PORT && (isConnect ==> spans.Keys == {Host, Port})
  {
    hide Number, Ordered;
  }

  lemma ScannedGives(sc: Scan, p: nat)
    requires Scanned(sc, p)
    ensures Ordered(sc.spans, p) && Userinfo !in sc.spans && Port !in sc.spans
  {
  }

  // The parser

  /** struct http_parser_url, zeroed. */
  class HttpParserUrl {
    var spans: Spans
    var port: nat

    constructor ()
      ensures spans == map[] && port == 0
    {
      spans, port := map[], 0;
    }

    /** One byte of the authority: the field it belongs to begins or grows. */
    method HostByte(s: HostState, p: nat, ch: octet) returns (next: HostState)
      requires Reading(HostScan(s, spans))
      modifies `spans
      ensures next == HostChar(s, ch)
      ensures next == HostDead ==> HostTurn(HostScan(s, old(spans)), p, ch) == None
      ensures next != HostDead ==> HostTurn(HostScan(s, old(spans)), p, ch) == Some(HostScan(next, spans))
    {
      hide HostChar;
      next := HostChar(s, ch);
      match next {
        case InHost =>
          spans := spans[Host := Span(if s != InHost then p else spans[Host].off, spans[Host].len + 1)];
        case HostV6 =>
          spans := spans[Host := Span(if s != HostV6 then p else spans[Host].off, spans[Host].len + 1)];
        case HostPort =>
          if s != HostPort {
            spans := spans[Port := Span(p, 0)];
          }
          spans := spans[Port := Span(spans[Port].off, spans[Port].len + 1)];
          assert s != HostPort ==> spans == old(spans)[Port := Span(p, 1)];
        case InUserinfo =>
          if s != InUserinfo {
            spans := spans[Userinfo := Span(p, 0)];
          }
          spans := spans[Userinfo := Span(spans[Userinfo].off, spans[Userinfo].len + 1)];
          assert s != InUserinfo ==> spans == old(spans)[Userinfo := Span(p, 1)];
        case _ =>
      }
    }

    /** The loop over the authority. */
    method HostLoop(s0: HostState, buf: seq<octet>, start: nat, end: nat) returns (s: HostState)
      requires start <= end <= |buf| && Reading(HostScan(s0, spans)) && s0 != HostDead
      modifies `spans
      ensures s == HostDead ==> HostFrom(HostScan(s0, old(spans)), buf, start, end) == None
      ensures s != HostDead ==> HostFrom(HostScan(s0, old(spans)), buf, start, end) == Some(HostScan(s, spans))
    {
      s := s0;
      var p := start;
      hide HostChar, HostTurn;
      while p < end
        invariant start <= p <= end && Reading(HostScan(s, spans)) && s != HostDead
        invariant HostFrom(HostScan(s, spans), buf, p, end) == HostFrom(HostScan(s0, old(spans)), buf, start, end)
      {
        s := HostByte(s, p, buf[p]);
        if s == HostDead {
          return;
        }
        p := p + 1;
      }
    }

    /** http_parse_host. */
    method HttpParseHost(buf: seq<octet>, foundAt: bool) returns (ok: bool)
      requires Ordered(spans, |buf|)
      modifies `spans
      ensures ok == ParseHost(buf, old(spans), foundAt).Some?
      ensures ok ==> spans == ParseHost(buf, old(spans), foundAt).value
    {
      if Host !in spans {
        return false;
      }
      var p, end := spans[Host].off, spans[Host].End();
      assert end <= |buf|;
      hide Ordered, HostFrom;
      spans := spans[Host := Span(p, 0)];
      var s := HostLoop(if foundAt then UserinfoStart else HostStart, buf, p, end);
      ok := s != HostDead && HostMayEnd(s);
    }

    /** strtoul on the digits of the port. */
    method PortValue(buf: seq<octet>, off: nat) returns (v: nat)
      ensures v == Number(buf, off, 0)
    {
      v := 0;
      var p := off;
      while p < |buf| && IsNum(buf[p])
        invariant off <= p && Number(buf, p, v) == Number(buf, off, 0)
      {
        v := 10 * v + Digit(buf[p]);
        p := p + 1;
      }
    }

    /** The loop over the whole URL. */
    method ScanFields(buf: seq<octet>, isConnect: bool) returns (ok: bool, foundAt: bool)
      requires spans == map[]
      modifies `spans
      ensures ok == ScanFrom(FirstScan(isConnect), buf, 0).Some?
      ensures ok ==> var sc := ScanFrom(FirstScan(isConnect), buf, 0).value; sc.spans == spans && sc.foundAt == foundAt
    {
      var s := if isConnect then ReqServerStart else ReqSpacesBeforeUrl;
      var last: Option<Field>, p := None, 0;
      ok, foundAt := false, false;
      hide UrlChar;
      while p < |buf|
        invariant 0 <= p <= |buf| && (last.Some? ==> last.value in spans)
        invariant ScanFrom(Scan(s, last, foundAt, spans), buf, p) == ScanFrom(FirstScan(isConnect), buf, 0)
      {
        ghost var sc := Scan(s, last, foundAt, spans);
        s := UrlChar(s, buf[p]);
        if Delimiter(s) {
          p := p + 1;
          continue;
        }
        var field := FieldOf(s);
        if s == Dead || field.None? {
          return;
        }
        if s == ReqServerWithAt {
          foundAt := true;
        }
        var uf := field.value;
        if last == Some(uf) {
          spans := spans[uf := Span(spans[uf].off, spans[uf].len + 1)];
        } else {
          spans := spans[uf := Span(p, 1)];
          last := Some(uf);
        }
        assert Turn(sc, p, buf[p]) == Some(Scan(s, last, foundAt, spans));
        p := p + 1;
      }
      ok := true;
    }

    /** The fields of a URL, and the value of its port. */
    method HttpParserParseUrl(buf: seq<octet>, isConnect: bool) returns (ok: bool)
      requires |buf| <= MAX_URL && spans == map[]
      modifies this
      ensures ok == ParseUrl(buf, isConnect).Some?
      ensures ok ==> ParseUrl(buf, isConnect) == Some(Url(spans, port))
    {
      hide ScanFrom, Ordered, ParseHost, Number, Scanned;
      FirstScanned(isConnect);
      ScanKeeps(FirstScan(isConnect), buf, 0);
      port := 0;
      var foundAt;
      ok, foundAt := ScanFields(buf, isConnect);
      if !ok {
        return;
      }
      ScannedGives(ScanFrom(FirstScan(isConnect), buf, 0).value, |buf|);
      if Schema in spans || Host in spans {
        ok := HttpParseHost(buf, foundAt);
        if !ok {
          return;
        }
      }
      if isConnect && spans.Keys != {Host, Port} {
        return false;
      }
      if Port in spans {
        var v := PortValue(buf, spans[Port].off);
        if v > MAX_PORT {
          return false;
        }
        port := v;
      }
      return true;
    }
  }

  lemma FirstScanned(isConnect: bool)
    ensures Scanned(FirstScan(isConnect), 0)
  {
  }
}

/**
 The second half of the URL round trip: the authority is split into user, host and port, and
 all fields together are exactly the parts.
 */
module HttpUrlHost {
  import opened Base
  import opened HttpTypes
  import opened HttpUrl
  import opened HttpUrlTrip

  /** A text whose first byte leads from one state to another, and whose others stay there. */
  ghost predicate Leads(text: Text, from: HostState, s: HostState) {
    && text != [] && HostChar(from, text[0]) == s
    && forall k :: 0 < k < |text| ==> HostChar(s, text[k]) == s
  }

  predicate Records(s: HostState, f: Field) {
    (s == InUserinfo && f == Userinfo) || (s in {InHost, HostV6} && f == Host) || (s == HostPort && f == Port)
  }

  lemma {:induction false} HostRun(h: HostScan, buf: Text, p: nat, q: nat, end: nat, f: Field)
    requires p <= q <= end <= |buf| && Reading(h) && Records(h.s, f)
    requires forall k :: p <= k < q ==> HostChar(h.s, buf[k]) == h.s
    ensures f in h.spans
    ensures HostFrom(h, buf, p, end)
         == HostFrom(h.(spans := h.spans[f := Span(h.spans[f].off, h.spans[f].len + (q - p))]), buf, q, end)
    decreases q - p
  {
    if p == q {
      assert h.spans[f := Span(h.spans[f].off, h.spans[f].len + 0)] == h.spans;
    } else {
      hide HostChar, HostTurn, Records, HostFrom, Reading;
      var next := h.(spans := Grown(h.spans, f));
      HostGrows(h, buf, p, end, f);
      HostRun(next, buf, p + 1, q, end, f);
      PutTwice(h.spans, f, next.spans[f], Span(h.spans[f].off, h.spans[f].len + (q - p)));
    }
  }

  lemma HostGrows(h: HostScan, buf: Text, p: nat, end: nat, f: Field)
    requires p < end <= |buf| && Reading(h) && Records(h.s, f) && HostChar(h.s, buf[p]) == h.s
    ensures f in h.spans && Reading(h.(spans := Grown(h.spans, f)))
    ensures HostFrom(h, buf, p, end) == HostFrom(h.(spans := Grown(h.spans, f)), buf, p + 1, end)
  {
    assert HostTurn(h, p, buf[p]) == Some(h.(spans := Grown(h.spans, f)));
    hide HostChar, HostTurn;
  }

  /** A part of the authority from its first byte to its last. */
  lemma HostText(h: HostScan, buf: Text, p: nat, end: nat, text: Text, s: HostState, f: Field)
    requires Has(buf, p, text) && p + |text| <= end <= |buf| && Reading(h) && Records(s, f)
    requires Leads(text, h.s, s) && h.s != s && (f == Host ==> h.spans[Host].len == 0)
    ensures Reading(HostScan(s, h.spans[f := Span(p, |text|)]))
    ensures HostFrom(h, buf, p, end) == HostFrom(HostScan(s, h.spans[f := Span(p, |text|)]), buf, p + |text|, end)
  {
    hide HostChar, HostTurn, HostFrom, Records;
    var next := HostScan(s, h.spans[f := Span(p, 1)]);
    HostBegins(h, buf, p, end, s, f);
    HostRun(next, buf, p + 1, p + |text|, end, f);
    PutTwice(h.spans, f, Span(p, 1), Span(p, |text|));
  }

  lemma HostBegins(h: HostScan, buf: Text, p: nat, end: nat, s: HostState, f: Field)
    requires p < end <= |buf| && Reading(h) && Records(s, f) && HostChar(h.s, buf[p]) == s
    requires h.s != s && (f == Host ==> h.spans[Host].len == 0)
    ensures Reading(HostScan(s, h.spans[f := Span(p, 1)]))
    ensures forall n: nat :: Reading(HostScan(s, h.spans[f := Span(p, n)]))
    ensures HostFrom(h, buf, p, end) == HostFrom(HostScan(s, h.spans[f := Span(p, 1)]), buf, p + 1, end)
  {
    hide HostChar;
    assert HostTurn(h, p, buf[p]) == Some(HostScan(s, h.spans[f := Span(p, 1)]));
  }

  /** A byte between two parts. */
  lemma HostSkip(h: HostScan, buf: Text, p: nat, end: nat, mark: Text, s: HostState)
    requires Has(buf, p, mark) && |mark| == 1 && p + 1 <= end <= |buf| && Reading(h)
    requires HostChar(h.s, mark[0]) == s && s in {HostStart, HostV6Start, HostV6End, HostPortStart}
    ensures Reading(h.(s := s)) && HostFrom(h, buf, p, end) == HostFrom(h.(s := s), buf, p + 1, end)
  {
    hide HostChar;
    assert buf[p] == mark[0];
  }

  lemma UserinfoLeads(text: Text)
    requires text != [] && forall k :: 0 <= k < |text| ==> IsUserinfoChar(text[k])
    ensures Leads(text, UserinfoStart, InUserinfo)
  {
  }

  lemma NameLeads(name: Text)
    requires name != [] && forall k :: 0 <= k < |name| ==> IsHostChar(name[k])
    ensures Leads(name, HostStart, InHost)
  {
  }

  lemma DigitsLead(digits: Text)
    requires digits != [] && forall k :: 0 <= k < |digits| ==> IsHex(digits[k]) || digits[k] == ':'
    ensures Leads(digits, HostV6Start, HostV6)
  {
  }

  lemma PortLeads(port: Text)
    requires port != [] && forall k :: 0 <= k < |port| ==> IsNum(port[k])
    ensures Leads(port, HostPortStart, HostPort)
  {
  }

  // The authority

  lemma HostUser(h: HostScan, buf: Text, p: nat, end: nat, user: Text)
    requires Has(buf, p, user + "@") && p + |user| + 1 <= end <= |buf| && Reading(h) && h.s == UserinfoStart
    requires Leads(user, UserinfoStart, InUserinfo)
    ensures Reading(HostScan(HostStart, h.spans[Userinfo := Span(p, |user|)]))
    ensures HostFrom(h, buf, p, end)
         == HostFrom(HostScan(HostStart, h.spans[Userinfo := Span(p, |user|)]), buf, p + |user| + 1, end)
  {
    assert HostChar(InUserinfo, '@') == HostStart;
    hide HostChar, HostFrom, Leads, Has;
    HasParts(buf, p, user, "@");
    HostText(h, buf, p, end, user, InUserinfo, Userinfo);
    HostSkip(HostScan(InUserinfo, h.spans[Userinfo := Span(p, |user|)]), buf, p + |user|, end, "@", HostStart);
  }

  /** The state behind the host. */
  function HostEnd(a: Address): HostState {
    if a.V6? then HostV6End else InHost
  }

  ghost predicate AddressLeads(a: Address) {
    match a
    case Named(name) => Leads(name, HostStart, InHost)
    case V6(digits) => Leads(digits, HostV6Start, HostV6)
  }

  lemma HostV6Address(h: HostScan, buf: Text, p: nat, end: nat, digits: Text)
    requires Has(buf, p, "[" + digits + "]") && p + |digits| + 2 <= end <= |buf| && Reading(h) && h.s == HostStart
    requires h.spans[Host].len == 0 && Leads(digits, HostV6Start, HostV6)
    ensures Reading(HostScan(HostV6End, h.spans[Host := Span(p + 1, |digits|)]))
    ensures HostFrom(h, buf, p, end)
         == HostFrom(HostScan(HostV6End, h.spans[Host := Span(p + 1, |digits|)]), buf, p + |digits| + 2, end)
  {
    hide HostChar, HostFrom, Leads, Has;
    Brackets();
    HasParts(buf, p, "[" + digits, "]");
    HasParts(buf, p, "[", digits);
    HostSkip(h, buf, p, end, "[", HostV6Start);
    HostText(h.(s := HostV6Start), buf, p + 1, end, digits, HostV6, Host);
    HostSkip(HostScan(HostV6, h.spans[Host := Span(p + 1, |digits|)]), buf, p + 1 + |digits|, end, "]", HostV6End);
  }

  lemma Brackets()
    ensures HostChar(HostStart, '[') == HostV6Start && HostChar(HostV6, ']') == HostV6End
  {
  }

  lemma HostAddress(h: HostScan, buf: Text, p: nat, end: nat, a: Address)
    requires Has(buf, p, AddressText(a)) && p + |AddressText(a)| <= end <= |buf| && Reading(h) && h.s == HostStart
    requires h.spans[Host].len == 0 && AddressLeads(a)
    ensures var off := p + if a.V6? then 1 else 0;
      var len := if a.V6? then |a.digits| else |a.name|;
      && Reading(HostScan(HostEnd(a), h.spans[Host := Span(off, len)]))
      && HostFrom(h, buf, p, end)
         == HostFrom(HostScan(HostEnd(a), h.spans[Host := Span(off, len)]), buf, p + |AddressText(a)|, end)
  {
    hide HostChar, HostFrom, Leads, Has;
    match a
    case Named(name) => HostText(h, buf, p, end, name, InHost, Host);
    case V6(digits) => HostV6Address(h, buf, p, end, digits);
  }

  lemma HostPortPart(h: HostScan, buf: Text, p: nat, port: Text)
    requires Has(buf, p, After(":", port)) && Reading(h) && h.s in {InHost, HostV6End}
    requires port != [] ==> Leads(port, HostPortStart, HostPort)
    ensures var end := p + |After(":", port)|;
      && end <= |buf|
      && HostFrom(h, buf, p, end) == Some(HostScan(if port == [] then h.s else HostPort,
        Placed(h.spans, Port, p + 1, port)))
  {
    assert HostChar(InHost, ':') == HostChar(HostV6End, ':') == HostPortStart;
    var end := p + |After(":", port)|;
    if port != [] {
      hide HostChar, Leads, Has, HostFrom;
      HasFits(buf, p, ":" + port);
      HasParts(buf, p, ":", port);
      HostSkip(h, buf, p, end, ":", HostPortStart);
      HostText(h.(s := HostPortStart), buf, p + 1, end, port, HostPort, Port);
      HostStops(HostScan(HostPort, h.spans[Port := Span(p + 1, |port|)]), buf, end);
    }
  }

  lemma HostStops(h: HostScan, buf: Text, end: nat)
    requires end <= |buf| && Reading(h)
    ensures HostFrom(h, buf, end, end) == Some(h)
  {
  }

  /** The second pass over user, host and port. */
  lemma HostAll(spans: Spans, buf: Text, a: nat, user: Text, host: Address, port: Text)
    requires Has(buf, a, Before(user, "@") + AddressText(host) + After(":", port))
    requires Host in spans && Userinfo !in spans && Port !in spans && spans[Host].len == 0
    requires user != [] ==> Leads(user, UserinfoStart, InUserinfo)
    requires AddressLeads(host) && (port != [] ==> Leads(port, HostPortStart, HostPort))
    ensures var at := a + |Before(user, "@")|;
      var p := at + |AddressText(host)|;
      var end := p + |After(":", port)|;
      var placed := Placed(spans, Userinfo, a, user)[Host := Span(at + (if host.V6? then 1 else 0),
                                                                  if host.V6? then |host.digits| else |host.name|)];
      && end <= |buf|
      && HostFrom(HostScan(if user != [] then UserinfoStart else HostStart, spans), buf, a, end)
         == Some(HostScan(if port == [] then HostEnd(host) else HostPort, Placed(placed, Port, p + 1, port)))
  {
    hide Leads, Has, HostFrom, AddressText, After, AddressLeads;
    var front := Before(user, "@");
    var at := a + |front|;
    var p := at + |AddressText(host)|;
    var end := p + |After(":", port)|;
    HasFits(buf, a, front + AddressText(host) + After(":", port));
    HasParts(buf, a, front + AddressText(host), After(":", port));
    HasParts(buf, a, front, AddressText(host));
    var h := HostScan(if user != [] then UserinfoStart else HostStart, spans);
    if user != [] {
      HostUser(h, buf, a, end, user);
    }
    var h1 := HostScan(HostStart, Placed(spans, Userinfo, a, user));
    assert HostFrom(h, buf, a, end) == HostFrom(h1, buf, at, end);
    HostAddress(h1, buf, at, end, host);
    var placed := h1.spans[Host := Span(at + (if host.V6? then 1 else 0), if host.V6? then |host.digits|
      else |host.name|)];
    HostPortPart(HostScan(HostEnd(host), placed), buf, p, port);
  }

  // The port

  /** The number that some digits stand for. */
  function DecimalValue(text: Text): nat {
    Number(text, 0, 0)
  }

  lemma {:induction false} NumberIs(buf: Text, p: nat, text: Text, i: nat, n: nat)
    requires Has(buf, p, text) && i <= |text| && forall k :: 0 <= k < |text| ==> IsNum(text[k])
    requires p + |text| == |buf| || !IsNum(buf[p + |text|])
    ensures Number(buf, p + i, n) == Number(text, i, n)
    decreases |text| - i
  {
    if i >= |text| {
    } else {
      assert buf[p + i] == text[i];
      NumberIs(buf, p, text, i + 1, 10 * n + Digit(text[i]));
    }
  }

  /** Behind the authority of a legal URL there is no digit. */
  lemma NoDigitBehind(buf: Text, u: Parts)
    requires LaidOut(buf, u) && (u.path != [] ==> u.path[0] == '/')
    ensures PathAt(u) == |buf| || (PathAt(u) < |buf| && !IsNum(buf[PathAt(u)]))
  {
    hide Authority, PathAt;
    var p := PathAt(u);
    if u.path != [] {
      assert buf[p] == u.path[0];
    } else if u.query != [] {
      assert After("?", u.query)[0] == '?';
    } else if u.fragment != [] {
      assert After("#", u.fragment)[0] == '#';
    }
  }

  // The fields

  function FieldAt(spans: Spans, f: Field): Option<Span> {
    if f in spans then Some(spans[f]) else None
  }

  lemma PlacedAt(spans: Spans, f: Field, off: nat, text: Text, g: Field)
    ensures FieldAt(Placed(spans, f, off, text), g)
         == if g == f && text != [] then Some(Span(off, |text|)) else FieldAt(spans, g)
  {
  }

  /** The fields of the two passes together are those of the parts. */
  lemma FieldsMeet(u: Parts, tail: Spans, got: Spans)
    requires tail == TailSpans(u, BehindAuthority(u).spans)
    requires got == Placed(Placed(tail[Host := Span(AuthorityAt(u), 0)], Userinfo, AuthorityAt(u), u.userinfo)
                             [Host := Span(HostAt(u), HostLen(u))], Port, PortAt(u), u.port)
    ensures got == Expected(u)
  {
    hide PathAt, QueryAt, FragmentAt, HostAt, HostLen, PortAt, AuthorityAt, Authority;
    forall g
      ensures FieldAt(got, g) == FieldAt(Expected(u), g)
    {
      FieldMeets(u, tail, got, g);
    }
    assert forall g :: g in got <==> FieldAt(got, g).Some?;
    assert forall g :: g in Expected(u) <==> FieldAt(Expected(u), g).Some?;
  }

  lemma FieldMeets(u: Parts, tail: Spans, got: Spans, g: Field)
    requires tail == TailSpans(u, BehindAuthority(u).spans)
    requires got == Placed(Placed(tail[Host := Span(AuthorityAt(u), 0)], Userinfo, AuthorityAt(u), u.userinfo)
                             [Host := Span(HostAt(u), HostLen(u))], Port, PortAt(u), u.port)
    ensures FieldAt(got, g) == FieldAt(Expected(u), g)
  {
    hide PathAt, QueryAt, FragmentAt, HostAt, HostLen, PortAt, AuthorityAt, Authority, Placed;
    var a := AuthorityAt(u);
    var base := tail[Host := Span(a, 0)];
    var user := Placed(base, Userinfo, a, u.userinfo);
    PlacedAt(base, Userinfo, a, u.userinfo, g);
    PlacedAt(user[Host := Span(HostAt(u), HostLen(u))], Port, PortAt(u), u.port, g);
    TailAt(u, BehindAuthority(u).spans, g);
    var m := map[Schema := Span(0, |u.scheme|), Host := Span(HostAt(u), HostLen(u))];
    PlacedAt(m, Userinfo, a, u.userinfo, g);
    PlacedAt(Placed(m, Userinfo, a, u.userinfo), Port, PortAt(u), u.port, g);
    TailAt(u, Placed(Placed(m, Userinfo, a, u.userinfo), Port, PortAt(u), u.port), g);
    hide TailSpans;
  }

  lemma TailAt(u: Parts, spans: Spans, g: Field)
    ensures FieldAt(TailSpans(u, spans), g)
         == if g == Fragment && u.fragment != [] then Some(Span(FragmentAt(u), |u.fragment|))
            else if g == Query && u.query != [] then Some(Span(QueryAt(u), |u.query|))
            else if g == Path && u.path != [] then Some(Span(PathAt(u), |u.path|))
            else FieldAt(spans, g)
  {
    hide PathAt, QueryAt, FragmentAt;
  }

  // The round trip

  lemma AllLead(u: Parts)
    requires Legal(u)
    ensures u.userinfo != [] ==> Leads(u.userinfo, UserinfoStart, InUserinfo)
    ensures AddressLeads(u.host) && (u.port != [] ==> Leads(u.port, HostPortStart, HostPort))
  {
    hide IsUserinfoChar, IsHostChar, IsHex, IsNum, IsUrlChar, IsAlpha, Leads;
    if u.userinfo != [] {
      UserinfoLeads(u.userinfo);
    }
    match u.host
    case Named(name) =>
      NameLeads(name);
      if u.port != [] {
        PortLeads(u.port);
      }
    case V6(digits) =>
      DigitsLead(digits);
      if u.port != [] {
        PortLeads(u.port);
      }
  }

  /** What the first pass has recorded of the authority. */
  lemma TailHost(u: Parts, tail: Spans)
    requires tail == TailSpans(u, BehindAuthority(u).spans)
    ensures Host in tail && tail[Host] == Span(AuthorityAt(u), |Authority(u)|) && Userinfo !in tail && Port !in tail
    ensures Schema in tail
  {
    hide TailSpans, AuthorityAt, Authority;
    TailAt(u, BehindAuthority(u).spans, Host);
    TailAt(u, BehindAuthority(u).spans, Userinfo);
    TailAt(u, BehindAuthority(u).spans, Port);
    TailAt(u, BehindAuthority(u).spans, Schema);
  }

  lemma AuthorityHas(buf: Text, u: Parts)
    requires LaidOut(buf, u)
    ensures Has(buf, AuthorityAt(u), Before(u.userinfo, "@") + AddressText(u.host) + After(":", u.port))
  {
    hide Has, AuthorityAt, PathAt, FragmentAt, Before, AddressText, After;
  }

  lemma AfterLength(mark: Text, text: Text)
    ensures |After(mark, text)| == if text == [] then 0 else |mark| + |text|
  {
  }

  /** Where host and port are in the authority. */
  lemma AuthorityLengths(u: Parts)
    ensures |Authority(u)| == |Before(u.userinfo, "@")| + |AddressText(u.host)| + |After(":", u.port)|
    ensures HostAt(u) == AuthorityAt(u) + |Before(u.userinfo, "@")| + if u.host.V6? then 1 else 0
    ensures u.port != [] ==> PortAt(u) == AuthorityAt(u) + |Before(u.userinfo, "@")| + |AddressText(u.host)| + 1
  {
    AfterLength(":", u.port);
    hide AddressText, Before, After, AuthorityAt;
  }

  lemma AuthorityLaidOut(buf: Text, u: Parts)
    requires LaidOut(buf, u)
    ensures Has(buf, AuthorityAt(u), Before(u.userinfo, "@") + AddressText(u.host) + After(":", u.port))
    ensures AuthorityAt(u) + |Authority(u)| <= |buf|
    ensures |Authority(u)| == |Before(u.userinfo, "@")| + |AddressText(u.host)| + |After(":", u.port)|
    ensures HostAt(u) == AuthorityAt(u) + |Before(u.userinfo, "@")| + if u.host.V6? then 1 else 0
    ensures u.port != [] ==> PortAt(u) == AuthorityAt(u) + |Before(u.userinfo, "@")| + |AddressText(u.host)| + 1
    ensures u.port != [] ==> Has(buf, PortAt(u), u.port)
  {
    hide LaidOut, Has, AddressText, Before, Authority, AuthorityAt, PortAt, HostAt;
    AuthorityHas(buf, u);
    AuthorityLengths(u);
    var front := Before(u.userinfo, "@") + AddressText(u.host);
    HasFits(buf, AuthorityAt(u), front + After(":", u.port));
    HasParts(buf, AuthorityAt(u), front, After(":", u.port));
    if u.port != [] {
      HasParts(buf, AuthorityAt(u) + |front|, ":", u.port);
    }
  }

  lemma SecondPass(buf: Text, u: Parts, tail: Spans)
    requires LaidOut(buf, u) && Legal(u) && Ordered(tail, |buf|)
    requires tail == TailSpans(u, BehindAuthority(u).spans)
    ensures ParseHost(buf, tail, u.userinfo != []) == Some(Expected(u))
  {
    hide LaidOut, Legal, Ordered, TailSpans, BehindAuthority, Expected, Has, HostFrom, Leads, AddressLeads;
    hide AuthorityAt, Authority, AddressText, After, Before, PathAt, HostAt, PortAt;
    AllLead(u);
    AuthorityLaidOut(buf, u);
    TailHost(u, tail);
    var base := tail[Host := Span(AuthorityAt(u), 0)];
    HostAll(base, buf, AuthorityAt(u), u.userinfo, u.host, u.port);
    var split := Placed(base, Userinfo, AuthorityAt(u), u.userinfo)[Host := Span(HostAt(u), HostLen(u))];
    FieldsMeet(u, tail, Placed(split, Port, PortAt(u), u.port));
  }

  /** The port is set exactly if it is there. */
  lemma PortPlaced(u: Parts)
    ensures FieldAt(Expected(u), Port) == if u.port == [] then None else Some(Span(PortAt(u), |u.port|))
  {
    hide PathAt, HostAt, PortAt, AuthorityAt, Authority, TailSpans, Placed;
    var m := map[Schema := Span(0, |u.scheme|), Host := Span(HostAt(u), HostLen(u))];
    var user := Placed(m, Userinfo, AuthorityAt(u), u.userinfo);
    PlacedAt(m, Userinfo, AuthorityAt(u), u.userinfo, Port);
    PlacedAt(user, Port, PortAt(u), u.port, Port);
    TailAt(u, Placed(user, Port, PortAt(u), u.port), Port);
  }

  lemma LegalPort(u: Parts)
    requires Legal(u)
    ensures (forall k :: 0 <= k < |u.port| ==> IsNum(u.port[k])) && (u.path != [] ==> u.path[0] == '/')
  {
    hide IsNum, IsAlpha, IsUserinfoChar, IsUrlChar, LegalAddress;
  }

  /** Reading digits at the port's position gives its value. */
  lemma PortNumber(buf: Text, u: Parts)
    requires LaidOut(buf, u) && Legal(u) && u.port != []
    ensures Number(buf, PortAt(u), 0) == DecimalValue(u.port)
  {
    hide LaidOut, Legal, Has, IsNum, Number, Authority, AuthorityAt, AddressText, Before, After;
    LegalPort(u);
    NoDigitBehind(buf, u);
    AuthorityLaidOut(buf, u);
    NumberIs(buf, PortAt(u), u.port, 0, 0);
  }

  lemma NoPort()
    ensures DecimalValue([]) == 0
  {
  }

  /** The last step of a parse that has found the parts. */
  lemma PortIs(buf: Text, u: Parts)
    requires LaidOut(buf, u) && Legal(u)
    ensures Finish(buf, false, Expected(u))
         == if DecimalValue(u.port) > MAX_PORT then None else Some(Url(Expected(u), DecimalValue(u.port)))
  {
    hide LaidOut, Legal, Number, Expected, DecimalValue, PortAt;
    PortPlaced(u);
    NoPort();
    if u.port != [] {
      PortNumber(buf, u);
    }
  }

  /**
   The round trip: the URL rendered from legal parts is taken apart into exactly those parts.
   It is refused exactly if its port is too large a number, or if its fragment stands
   directly behind the authority.
   */
  lemma UrlRoundTrip(u: Parts)
    requires Legal(u)
    ensures ParseUrl(Render(u), false)
         == if DecimalValue(u.port) > MAX_PORT || !Separated(u) then None
            else Some(Url(Expected(u), DecimalValue(u.port)))
  {
    hide Legal, LaidOut, Passable, Render, ScanFrom, ParseHost, Expected, DecimalValue, TailSpans, BehindAuthority;
    hide Ordered, Scanned, Finish, Separated, FirstScan;
    var buf := Render(u);
    Layout(u);
    PartsStay(u);
    if Separated(u) {
      ScanAll(buf, u);
      FirstScanned(false);
      ScanKeeps(FirstScan(false), buf, 0);
      var sc := ScanFrom(FirstScan(false), buf, 0).value;
      ScannedGives(sc, |buf|);
      TailHost(u, sc.spans);
      SecondPass(buf, u, sc.spans);
      PortIs(buf, u);
    } else {
      ScanStops(buf, u);
    }
  }

  /** The text of a field in the buffer. */
  function Slice(buf: Text, span: Span): Text
    requires span.End() <= |buf|
  {
    buf[span.off..span.End()]
  }

  function PartOf(u: Parts, f: Field): Text {
    match f
    case Schema => u.scheme
    case Userinfo => u.userinfo
    case Host => if u.host.V6? then u.host.digits else u.host.name
    case Port => u.port
    case Path => u.path
    case Query => u.query
    case Fragment => u.fragment
  }

  function PartAt(u: Parts, f: Field): nat {
    match f
    case Schema => 0
    case Userinfo => AuthorityAt(u)
    case Host => HostAt(u)
    case Port => if u.port == [] then 0 else PortAt(u)
    case Path => PathAt(u)
    case Query => QueryAt(u)
    case Fragment => FragmentAt(u)
  }

  lemma ExpectedAt(u: Parts, g: Field)
    requires u.scheme != [] && HostLen(u) > 0
    ensures FieldAt(Expected(u), g)
         == if PartOf(u, g) == [] then None else Some(Span(PartAt(u, g), |PartOf(u, g)|))
  {
    hide PathAt, HostAt, PortAt, AuthorityAt, QueryAt, FragmentAt, TailSpans, Placed;
    var m := map[Schema := Span(0, |u.scheme|), Host := Span(HostAt(u), HostLen(u))];
    var user := Placed(m, Userinfo, AuthorityAt(u), u.userinfo);
    PlacedAt(m, Userinfo, AuthorityAt(u), u.userinfo, g);
    PlacedAt(user, Port, PortAt(u), u.port, g);
    TailAt(u, Placed(user, Port, PortAt(u), u.port), g);
  }

  lemma OthersLaidOut(buf: Text, u: Parts)
    requires LaidOut(buf, u)
    ensures Has(buf, 0, u.scheme) && Has(buf, PathAt(u), u.path)
    ensures QueryAt(u) > 0 && Has(buf, QueryAt(u) - 1, After("?", u.query))
    ensures FragmentAt(u) > 0 && Has(buf, FragmentAt(u) - 1, After("#", u.fragment))
  {
    hide Has, Authority, After, AuthorityAt, PathAt;
  }

  lemma PartLaidOut(buf: Text, u: Parts, f: Field)
    requires LaidOut(buf, u) && PartOf(u, f) != []
    ensures Has(buf, PartAt(u, f), PartOf(u, f))
  {
    hide LaidOut, Has, PathAt, QueryAt, FragmentAt, HostAt, PortAt, AuthorityAt;
    UserLaidOut(buf, u);
    OthersLaidOut(buf, u);
    match f
    case Query => HasParts(buf, QueryAt(u) - 1, "?", u.query);
    case Fragment => HasParts(buf, FragmentAt(u) - 1, "#", u.fragment);
    case _ =>
  }

  lemma UserLaidOut(buf: Text, u: Parts)
    requires LaidOut(buf, u)
    ensures u.userinfo != [] ==> Has(buf, AuthorityAt(u), u.userinfo)
    ensures Has(buf, HostAt(u), if u.host.V6? then u.host.digits else u.host.name)
    ensures u.port != [] ==> Has(buf, PortAt(u), u.port)
  {
    hide LaidOut, Has, Authority, AddressText, AuthorityAt, After;
    AuthorityLaidOut(buf, u);
    var a, user, host := AuthorityAt(u), Before(u.userinfo, "@"), AddressText(u.host);
    HasParts(buf, a, user + host, After(":", u.port));
    HasParts(buf, a, user, host);
    if u.userinfo != [] {
      HasParts(buf, a, u.userinfo, "@");
    }
    AddressLaidOut(buf, a + |user|, u.host);
  }

  lemma AddressLaidOut(buf: Text, p: nat, a: Address)
    requires Has(buf, p, AddressText(a))
    ensures match a
            case Named(name) => Has(buf, p, name)
            case V6(digits) => Has(buf, p + 1, digits)
  {
    match a
    case Named(name) =>
    case V6(digits) =>
      HasParts(buf, p, "[" + digits, "]");
      HasParts(buf, p, "[", digits);
  }

  lemma NeverEmpty(u: Parts)
    requires Legal(u)
    ensures u.scheme != [] && HostLen(u) > 0
  {
  }

  /** The fields that the round trip gives are the parts themselves, byte for byte. */
  lemma FieldsAreParts(u: Parts, f: Field)
    requires Legal(u)
    ensures f in Expected(u) <==> PartOf(u, f) != []
    ensures f in Expected(u) ==>
              Expected(u)[f].End() <= |Render(u)| && Slice(Render(u), Expected(u)[f]) == PartOf(u, f)
  {
    hide Legal, LaidOut, Render, Expected, PartAt, HostLen, PartOf;
    NeverEmpty(u);
    ExpectedAt(u, f);
    Layout(u);
    if PartOf(u, f) != [] {
      PartLaidOut(Render(u), u, f);
      assert Render(u)[PartAt(u, f)..PartAt(u, f) + |PartOf(u, f)|] == PartOf(u, f);
    }
  }
}

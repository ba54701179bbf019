/**
 The URL round trip: a URL put together from legal parts is taken apart into exactly those
 parts again.
 */
module HttpUrlTrip {
  import opened Base
  import opened HttpTypes
  import opened HttpSwitch
  import opened HttpUrl

  type Text = seq<octet>

  datatype Address = Named(name: Text) | V6(digits: Text)

  /** The parts of a URL; a part that is empty is not there. */
  datatype Parts = Parts(scheme: Text, userinfo: Text, host: Address, port: Text, path: Text, query: Text,
    fragment: Text)

  predicate LegalAddress(a: Address) {
    match a
    case Named(name) => name != [] && forall k :: 0 <= k < |name| ==> IsHostChar(name[k])
    case V6(digits) => digits != [] && forall k :: 0 <= k < |digits| ==> IsHex(digits[k]) || digits[k] == ':'
  }

  predicate Legal(u: Parts) {
    && u.scheme != [] && (forall k :: 0 <= k < |u.scheme| ==> IsAlpha(u.scheme[k]))
    && (forall k :: 0 <= k < |u.userinfo| ==> IsUserinfoChar(u.userinfo[k]))
    && LegalAddress(u.host)
    && (forall k :: 0 <= k < |u.port| ==> IsNum(u.port[k]))
    && (u.path == [] || u.path[0] == '/') && (forall k :: 0 <= k < |u.path| ==> IsUrlChar(u.path[k]))
    && (forall k :: 0 <= k < |u.query| ==> IsUrlChar(u.query[k]) || u.query[k] == '?')
    && (forall k :: 0 <= k < |u.fragment| ==> IsUrlChar(u.fragment[k]) || u.fragment[k] == '?')
  }

  /** No fragment stands directly behind the authority. */
  predicate Separated(u: Parts) {
    u.fragment == [] || u.path != [] || u.query != []
  }

  function AddressText(a: Address): Text {
    match a
    case Named(name) => name
    case V6(digits) => "[" + digits + "]"
  }

  function Before(text: Text, mark: Text): Text {
    if text == [] then [] else text + mark
  }

  function After(mark: Text, text: Text): Text {
    if text == [] then [] else mark + text
  }

  function Authority(u: Parts): Text {
    Before(u.userinfo, "@") + AddressText(u.host) + After(":", u.port)
  }

  function Render(u: Parts): Text {
    u.scheme + "://" + Authority(u) + u.path + After("?", u.query) + After("#", u.fragment)
  }

  /** Where each part is in the rendered URL. */
  function AuthorityAt(u: Parts): nat {
    |u.scheme| + 3
  }

  function HostAt(u: Parts): nat {
    AuthorityAt(u) + |Before(u.userinfo, "@")| + if u.host.V6? then 1 else 0
  }

  function HostLen(u: Parts): nat {
    match u.host
    case Named(name) => |name|
    case V6(digits) => |digits|
  }

  function PathAt(u: Parts): nat {
    AuthorityAt(u) + |Authority(u)|
  }

  function PortAt(u: Parts): nat {
    PathAt(u) - |u.port|
  }

  function QueryAt(u: Parts): nat {
    PathAt(u) + |u.path| + 1
  }

  function FragmentAt(u: Parts): nat {
    PathAt(u) + |u.path| + |After("?", u.query)| + 1
  }

  function Placed(spans: Spans, f: Field, off: nat, text: Text): Spans {
    if text == [] then spans else spans[f := Span(off, |text|)]
  }

  /** The fields that the first pass finds behind the authority. */
  function TailSpans(u: Parts, spans: Spans): Spans {
    Placed(Placed(Placed(spans, Path, PathAt(u), u.path), Query, QueryAt(u), u.query), Fragment, FragmentAt(u),
      u.fragment)
  }

  /** All fields. */
  function Expected(u: Parts): Spans {
    var spans := map[Schema := Span(0, |u.scheme|), Host := Span(HostAt(u), HostLen(u))];
    TailSpans(u, Placed(Placed(spans, Userinfo, AuthorityAt(u), u.userinfo), Port, PortAt(u), u.port))
  }

  // The first pass

  lemma {:induction false} ScanRun(sc: Scan, buf: Text, p: nat, q: nat, f: Field)
    requires p <= q <= |buf| && sc.last == Some(f) && f in sc.spans && FieldOf(sc.s) == Some(f)
    requires sc.s != ReqServerWithAt && forall k :: p <= k < q ==> UrlChar(sc.s, buf[k]) == sc.s
    ensures ScanFrom(sc, buf, p)
         == ScanFrom(sc.(spans := sc.spans[f := Span(sc.spans[f].off, sc.spans[f].len + (q - p))]), buf, q)
    decreases q - p
  {
    hide Turn, UrlChar, FieldOf;
    if p == q {
      assert sc.spans[f := Span(sc.spans[f].off, sc.spans[f].len + 0)] == sc.spans;
    } else {
      var next := sc.(spans := Grown(sc.spans, f));
      GrowTurn(sc, p, buf[p], sc.s, f);
      ScanRun(next, buf, p + 1, q, f);
      assert next.spans[f := Span(next.spans[f].off, next.spans[f].len + (q - p - 1))]
          == sc.spans[f := Span(sc.spans[f].off, sc.spans[f].len + (q - p))];
    }
  }

  lemma ScanOn(sc: Scan, buf: Text, p: nat, next: Scan)
    requires p < |buf| && (sc.last.Some? ==> sc.last.value in sc.spans) && Turn(sc, p, buf[p]) == Some(next)
    requires next.last.Some? ==> next.last.value in next.spans
    ensures ScanFrom(sc, buf, p) == ScanFrom(next, buf, p + 1)
  {
    hide Turn;
  }

  /** A field from its first byte to its last. */
  lemma ScanField(sc: Scan, buf: Text, p: nat, q: nat, s: State, f: Field)
    requires p < q <= |buf| && sc.last != Some(f) && (sc.last.Some? ==> sc.last.value in sc.spans)
    requires UrlChar(sc.s, buf[p]) == s && FieldOf(s) == Some(f) && s != ReqServerWithAt
    requires forall k :: p < k < q ==> UrlChar(s, buf[k]) == s
    ensures ScanFrom(sc, buf, p) == ScanFrom(Scan(s, Some(f), sc.foundAt, sc.spans[f := Span(p, q - p)]), buf, q)
  {
    hide UrlChar, ScanFrom, FieldOf, Turn;
    var next := Scan(s, Some(f), sc.foundAt, sc.spans[f := Span(p, 1)]);
    BeginTurn(sc, p, buf[p], s, f);
    ScanOn(sc, buf, p, next);
    ScanRun(next, buf, p + 1, q, f);
    PutTwice(sc.spans, f, Span(p, 1), Span(p, q - p));
  }

  lemma BeginTurn(sc: Scan, p: nat, ch: octet, s: State, f: Field)
    requires UrlChar(sc.s, ch) == s && sc.last != Some(f) && (sc.last.Some? ==> sc.last.value in sc.spans)
    requires FieldOf(s) == Some(f) && s != ReqServerWithAt
    ensures Turn(sc, p, ch) == Some(Scan(s, Some(f), sc.foundAt, sc.spans[f := Span(p, 1)]))
  {
    hide UrlChar;
  }

  lemma PutTwice(spans: Spans, f: Field, a: Span, b: Span)
    ensures spans[f := a][f := b] == spans[f := b]
  {
  }

  /** A byte between two fields. */
  lemma ScanSkip(sc: Scan, buf: Text, p: nat, s: State)
    requires p < |buf| && (sc.last.Some? ==> sc.last.value in sc.spans)
    requires UrlChar(sc.s, buf[p]) == s && Delimiter(s)
    ensures ScanFrom(sc, buf, p) == ScanFrom(sc.(s := s), buf, p + 1)
  {
    hide UrlChar;
  }

  /** A part of the buffer, byte by byte. */
  ghost predicate Has(buf: Text, p: nat, text: Text) {
    p + |text| <= |buf| && forall k :: p <= k < p + |text| ==> buf[k] == text[k - p]
  }

  /** Where the parts are. */
  ghost predicate LaidOut(buf: Text, u: Parts) {
    && Has(buf, 0, u.scheme) && Has(buf, |u.scheme|, "://") && Has(buf, AuthorityAt(u), Authority(u))
    && Has(buf, PathAt(u), u.path) && Has(buf, PathAt(u) + |u.path|, After("?", u.query))
    && Has(buf, FragmentAt(u) - 1, After("#", u.fragment))
    && |buf| == FragmentAt(u) - 1 + |After("#", u.fragment)|
  }

  lemma Layout(u: Parts)
    ensures LaidOut(Render(u), u)
  {
    hide Authority, After;
  }

  /** A text whose first byte leads from one state to another, and whose others stay there. */
  ghost predicate Stays(text: Text, from: State, s: State) {
    && text != [] && UrlChar(from, text[0]) == s
    && forall k :: 0 < k < |text| ==> UrlChar(s, text[k]) == s
  }

  lemma ScanText(sc: Scan, buf: Text, p: nat, text: Text, s: State, f: Field)
    requires Has(buf, p, text) && Stays(text, sc.s, s)
    requires sc.last != Some(f) && (sc.last.Some? ==> sc.last.value in sc.spans)
    requires FieldOf(s) == Some(f) && s != ReqServerWithAt
    ensures ScanFrom(sc, buf, p)
         == ScanFrom(Scan(s, Some(f), sc.foundAt, sc.spans[f := Span(p, |text|)]), buf, p + |text|)
  {
    hide UrlChar;
    ScanField(sc, buf, p, p + |text|, s, f);
  }

  lemma ScanSlashes(sc: Scan, buf: Text, n: nat)
    requires sc.s == ReqSchema && Has(buf, n, "://") && (sc.last.Some? ==> sc.last.value in sc.spans)
    ensures ScanFrom(sc, buf, n) == ScanFrom(sc.(s := ReqServerStart), buf, n + 3)
  {
    assert buf[n] == "://"[0] && buf[n + 1] == "://"[1] && buf[n + 2] == "://"[2];
    assert UrlChar(ReqSchema, ':') == ReqSchemaSlash;
    assert UrlChar(ReqSchemaSlash, '/') == ReqSchemaSlashSlash;
    assert UrlChar(ReqSchemaSlashSlash, '/') == ReqServerStart;
    hide UrlChar, ScanFrom, Has;
    ScanSkip(sc, buf, n, ReqSchemaSlash);
    ScanSkip(sc.(s := ReqSchemaSlash), buf, n + 1, ReqSchemaSlashSlash);
    ScanSkip(sc.(s := ReqSchemaSlashSlash), buf, n + 2, ReqServerStart);
  }

  // Which bytes stay in which field

  predicate ServerByte(ch: octet) {
    IsUserinfoChar(ch) || ch == '[' || ch == ']'
  }

  lemma ServerByteStays(ch: octet)
    requires ServerByte(ch)
    ensures UrlChar(ReqServerStart, ch) == UrlChar(ReqServer, ch) == UrlChar(ReqServerWithAt, ch) == ReqServer
  {
  }

  lemma ServerStays(text: Text)
    requires text != [] && forall k :: 0 <= k < |text| ==> ServerByte(text[k])
    ensures Stays(text, ReqServerStart, ReqServer) && Stays(text, ReqServerWithAt, ReqServer)
  {
    hide UrlChar, ServerByte;
    forall k | 0 <= k < |text|
      ensures UrlChar(ReqServerStart, text[k]) == UrlChar(ReqServer, text[k]) == UrlChar(ReqServerWithAt, text[k])
        == ReqServer
    {
      ServerByteStays(text[k]);
    }
  }

  lemma HostBytes(a: Address)
    requires LegalAddress(a)
    ensures AddressText(a) != [] && forall k :: 0 <= k < |AddressText(a)| ==> ServerByte(AddressText(a)[k])
  {
  }

  lemma PortBytes(port: Text)
    requires forall k :: 0 <= k < |port| ==> IsNum(port[k])
    ensures forall k :: 0 <= k < |After(":", port)| ==> ServerByte(After(":", port)[k])
  {
  }

  lemma PathByteStays(ch: octet)
    requires IsUrlChar(ch)
    ensures UrlChar(ReqPath, ch) == ReqPath
  {
  }

  lemma QueryByteStays(ch: octet)
    requires IsUrlChar(ch) || ch == '?'
    ensures UrlChar(ReqQueryStringStart, ch) == UrlChar(ReqQueryString, ch) == ReqQueryString
  {
  }

  lemma FragmentByteStays(ch: octet)
    requires IsUrlChar(ch) || ch == '?'
    ensures UrlChar(ReqFragmentStart, ch) == UrlChar(ReqFragment, ch) == ReqFragment
  {
  }

  /** Every part of a legal URL stays in its field. */
  lemma PartsStay(u: Parts)
    requires Legal(u)
    ensures Passable(u)
  {
    SchemeStays(u.scheme);
    UserinfoBytes(u.userinfo);
    HostBytes(u.host);
    PortBytes(u.port);
    hide UrlChar, ServerByte, AddressText, After, IsUserinfoChar, IsUrlChar, IsAlpha, IsNum, LegalAddress, Stays;
    ServerStays(AddressText(u.host) + After(":", u.port));
    if u.userinfo != [] {
      ServerStays(u.userinfo);
    }
    TailStays(u.path, u.query, u.fragment);
  }

  lemma UserinfoBytes(text: Text)
    requires forall k :: 0 <= k < |text| ==> IsUserinfoChar(text[k])
    ensures forall k :: 0 <= k < |text| ==> ServerByte(text[k])
  {
  }

  lemma SchemeStays(scheme: Text)
    requires scheme != [] && forall k :: 0 <= k < |scheme| ==> IsAlpha(scheme[k])
    ensures Stays(scheme, ReqSpacesBeforeUrl, ReqSchema)
  {
  }

  lemma TailStays(path: Text, query: Text, fragment: Text)
    requires (path == [] || path[0] == '/') && (forall k :: 0 <= k < |path| ==> IsUrlChar(path[k]))
    requires forall k :: 0 <= k < |query| ==> IsUrlChar(query[k]) || query[k] == '?'
    requires forall k :: 0 <= k < |fragment| ==> IsUrlChar(fragment[k]) || fragment[k] == '?'
    ensures path != [] ==> Stays(path, ReqServer, ReqPath)
    ensures query != [] ==> Stays(query, ReqQueryStringStart, ReqQueryString)
    ensures fragment != [] ==> Stays(fragment, ReqFragmentStart, ReqFragment)
  {
    assert UrlChar(ReqServer, '/') == ReqPath;
    hide UrlChar, IsUrlChar;
    forall ch: octet | IsUrlChar(ch)
      ensures UrlChar(ReqPath, ch) == ReqPath
    {
      PathByteStays(ch);
    }
    forall ch: octet | IsUrlChar(ch) || ch == '?'
      ensures UrlChar(ReqQueryStringStart, ch) == UrlChar(ReqQueryString, ch) == ReqQueryString
    {
      QueryByteStays(ch);
    }
    forall ch: octet | IsUrlChar(ch) || ch == '?'
      ensures UrlChar(ReqFragmentStart, ch) == UrlChar(ReqFragment, ch) == ReqFragment
    {
      FragmentByteStays(ch);
    }
  }

  // The first pass over the parts

  /** A text that goes on with the field it stands behind. */
  lemma ScanMore(sc: Scan, buf: Text, p: nat, text: Text, s: State, f: Field)
    requires Has(buf, p, text) && Stays(text, sc.s, s)
    requires sc.last == Some(f) && f in sc.spans && FieldOf(s) == Some(f) && s != ReqServerWithAt
    ensures ScanFrom(sc, buf, p)
         == ScanFrom(sc.(s := s, spans := sc.spans[f := Span(sc.spans[f].off, sc.spans[f].len + |text|)]), buf,
           p + |text|)
  {
    hide UrlChar, ScanFrom, FieldOf;
    var next := sc.(s := s, spans := Grown(sc.spans, f));
    GrowTurn(sc, p, buf[p], s, f);
    ScanOn(sc, buf, p, next);
    ScanRun(next, buf, p + 1, p + |text|, f);
    assert next.spans[f := Span(next.spans[f].off, next.spans[f].len + (|text| - 1))]
        == sc.spans[f := Span(sc.spans[f].off, sc.spans[f].len + |text|)];
  }

  lemma GrowTurn(sc: Scan, p: nat, ch: octet, s: State, f: Field)
    requires UrlChar(sc.s, ch) == s && sc.last == Some(f) && f in sc.spans && FieldOf(s) == Some(f)
    requires s != ReqServerWithAt
    ensures Turn(sc, p, ch) == Some(sc.(s := s, spans := Grown(sc.spans, f)))
  {
    hide UrlChar;
  }

  lemma HasParts(buf: Text, p: nat, a: Text, b: Text)
    requires Has(buf, p, a + b)
    ensures Has(buf, p, a) && Has(buf, p + |a|, b)
  {
  }

  lemma UserField()
    ensures FieldOf(ReqServer) == Some(Host)
  {
  }

  lemma HasUser(buf: Text, a: nat, user: Text, rest: Text)
    requires Has(buf, a, user + "@" + rest)
    ensures Has(buf, a, user) && Has(buf, a + |user|, "@") && Has(buf, a + |user| + 1, rest)
  {
    hide Has;
    HasParts(buf, a, user + "@", rest);
    HasParts(buf, a, user, "@");
  }

  /** The user, and the byte that ends it. */
  lemma ScanUser(sc: Scan, buf: Text, a: nat, user: Text, rest: Text)
    requires sc.s == ReqServerStart && sc.last == Some(Schema) && Schema in sc.spans
    requires Stays(user, ReqServerStart, ReqServer) && Has(buf, a, user + "@" + rest)
    ensures Has(buf, a + |user| + 1, rest)
    ensures ScanFrom(sc, buf, a)
         == ScanFrom(Scan(ReqServerWithAt, Some(Host), true, sc.spans[Host := Span(a, |user| + 1)]), buf,
           a + |user| + 1)
  {
    hide Stays, Has, ScanFrom, FieldOf, UrlChar, Delimiter;
    UserField();
    HasUser(buf, a, user, rest);
    ScanText(sc, buf, a, user, ReqServer, Host);
    var sc1 := Scan(ReqServer, Some(Host), sc.foundAt, sc.spans[Host := Span(a, |user|)]);
    ScanAt(sc1, buf, a + |user|);
    assert Grown(sc1.spans, Host) == sc.spans[Host := Span(a, |user| + 1)];
  }

  lemma AuthorityIs(u: Parts)
    ensures var text := AddressText(u.host) + After(":", u.port);
      && Authority(u) == (if u.userinfo == [] then text else u.userinfo + "@" + text)
      && |Authority(u)| == |Before(u.userinfo, "@")| + |text|
  {
    hide AddressText, After;
  }

  lemma HasFits(buf: Text, p: nat, text: Text)
    ensures Has(buf, p, text) ==> p + |text| <= |buf|
  {
  }

  /** The authority, with a user or without. */
  lemma ScanAuthority(sc: Scan, buf: Text, a: nat, user: Text, text: Text)
    requires sc.s == ReqServerStart && sc.last == Some(Schema) && Schema in sc.spans && Host !in sc.spans && !sc.foundAt
    requires user != [] ==> Stays(user, ReqServerStart, ReqServer) && Has(buf, a, user + "@" + text)
    requires user == [] ==> Has(buf, a, text)
    requires Stays(text, ReqServerStart, ReqServer) && Stays(text, ReqServerWithAt, ReqServer)
    ensures var n := |Before(user, "@")| + |text|;
      && a + n <= |buf|
      && ScanFrom(sc, buf, a)
         == ScanFrom(Scan(ReqServer, Some(Host), user != [], sc.spans[Host := Span(a, n)]), buf, a + n)
  {
    hide Stays, Has, ScanFrom;
    HasFits(buf, a, text);
    if user == [] {
      ScanText(sc, buf, a, text, ReqServer, Host);
    } else {
      HasFits(buf, a, user + "@" + text);
      var spans := sc.spans[Host := Span(a, |user| + 1)];
      ScanUser(sc, buf, a, user, text);
      ScanMore(Scan(ReqServerWithAt, Some(Host), true, spans), buf, a + |user| + 1, text, ReqServer, Host);
      assert spans[Host := Span(a, |user| + 1 + |text|)] == sc.spans[Host := Span(a, |user| + 1 + |text|)];
    }
  }

  lemma ScanAt(sc: Scan, buf: Text, p: nat)
    requires sc.s == ReqServer && sc.last == Some(Host) && Host in sc.spans && Has(buf, p, "@")
    ensures ScanFrom(sc, buf, p)
         == ScanFrom(Scan(ReqServerWithAt, Some(Host), true, Grown(sc.spans, Host)), buf, p + 1)
  {
    assert buf[p] == "@"[0];
  }

  lemma HasOne(buf: Text, p: nat, ch: octet)
    requires Has(buf, p, [ch])
    ensures p < |buf| && buf[p] == ch
  {
  }

  /** A part behind its mark. */
  lemma ScanMarked(sc: Scan, buf: Text, p: nat, mark: octet, text: Text, start: State, s: State, f: Field)
    requires Has(buf, p, [mark] + text) && (sc.last.Some? ==> sc.last.value in sc.spans) && sc.last != Some(f)
    requires UrlChar(sc.s, mark) == start && Delimiter(start) && Stays(text, start, s)
    requires FieldOf(s) == Some(f) && s != ReqServerWithAt
    ensures ScanFrom(sc, buf, p)
         == ScanFrom(Scan(s, Some(f), sc.foundAt, sc.spans[f := Span(p + 1, |text|)]), buf, p + 1 + |text|)
  {
    hide UrlChar, Stays, Has, ScanFrom, FieldOf, Delimiter;
    HasParts(buf, p, [mark], text);
    HasOne(buf, p, mark);
    ScanSkip(sc, buf, p, start);
    ScanText(sc.(s := start), buf, p + 1, text, s, f);
  }

  /** The scan behind a part, if it is there. */
  function Behind(sc: Scan, p: nat, text: Text, s: State, f: Field): Scan {
    if text == [] then sc else Scan(s, Some(f), sc.foundAt, sc.spans[f := Span(p, |text|)])
  }

  lemma ScanPath(sc: Scan, buf: Text, p: nat, path: Text)
    requires sc.s == ReqServer && sc.last == Some(Host) && Host in sc.spans && Has(buf, p, path)
    requires path != [] ==> Stays(path, ReqServer, ReqPath)
    ensures p + |path| <= |buf|
    ensures ScanFrom(sc, buf, p) == ScanFrom(Behind(sc, p, path, ReqPath, Path), buf, p + |path|)
  {
    HasFits(buf, p, path);
    hide Stays, Has;
    if path != [] {
      ScanText(sc, buf, p, path, ReqPath, Path);
    }
  }

  lemma AfterIs(mark: Text, text: Text)
    ensures text == [] ==> After(mark, text) == []
    ensures text != [] ==> After(mark, text) == mark + text
  {
  }

  lemma ScanQuery(sc: Scan, buf: Text, p: nat, query: Text)
    requires Has(buf, p, After("?", query))
    requires sc.last.Some? && sc.last.value in sc.spans && sc.last != Some(Query)
    requires query != [] ==>
      Stays(query, ReqQueryStringStart, ReqQueryString) && (sc.s == ReqServer || sc.s == ReqPath)
    ensures p + |After("?", query)| <= |buf|
    ensures ScanFrom(sc, buf, p)
         == ScanFrom(Behind(sc, p + 1, query, ReqQueryString, Query), buf, p + |After("?", query)|)
  {
    hide UrlChar, Stays, Has, ScanFrom, After, Delimiter, FieldOf;
    HasFits(buf, p, After("?", query));
    AfterIs("?", query);
    if query != [] {
      Marks();
      ScanMarked(sc, buf, p, '?', query, ReqQueryStringStart, ReqQueryString, Query);
    }
  }

  lemma ScanHash(sc: Scan, buf: Text, p: nat, fragment: Text)
    requires Has(buf, p, After("#", fragment))
    requires sc.last.Some? && sc.last.value in sc.spans && sc.last != Some(Fragment)
    requires fragment != [] ==>
      Stays(fragment, ReqFragmentStart, ReqFragment) && (sc.s == ReqPath || sc.s == ReqQueryString)
    ensures p + |After("#", fragment)| <= |buf|
    ensures ScanFrom(sc, buf, p)
         == ScanFrom(Behind(sc, p + 1, fragment, ReqFragment, Fragment), buf, p + |After("#", fragment)|)
  {
    hide UrlChar, Stays, Has, ScanFrom, After, Delimiter, FieldOf;
    HasFits(buf, p, After("#", fragment));
    AfterIs("#", fragment);
    if fragment != [] {
      Marks();
      ScanMarked(sc, buf, p, '#', fragment, ReqFragmentStart, ReqFragment, Fragment);
    }
  }

  /** Query and fragment. */
  lemma ScanMarks(sc: Scan, buf: Text, q: nat, query: Text, fragment: Text)
    requires (sc.s == ReqServer || sc.s == ReqPath) && (sc.last == Some(Host) || sc.last == Some(Path))
      && sc.last.value in sc.spans
    requires Has(buf, q, After("?", query)) && Has(buf, q + |After("?", query)|, After("#", fragment))
    requires query != [] ==> Stays(query, ReqQueryStringStart, ReqQueryString)
    requires fragment != [] ==> Stays(fragment, ReqFragmentStart, ReqFragment) && (sc.s == ReqPath || query != [])
    ensures var f := q + |After("?", query)|;
      && q <= |buf| && f + |After("#", fragment)| <= |buf|
      && ScanFrom(sc, buf, q)
         == ScanFrom(Behind(Behind(sc, q + 1, query, ReqQueryString, Query), f + 1, fragment, ReqFragment, Fragment),
                     buf, f + |After("#", fragment)|)
  {
    hide UrlChar, Stays, Has, ScanFrom, After, Delimiter, FieldOf, Behind, Placed;
    var sc2 := Behind(sc, q + 1, query, ReqQueryString, Query);
    BehindIs(sc, q + 1, query, ReqQueryString, Query);
    ScanQuery(sc, buf, q, query);
    ScanHash(sc2, buf, q + |After("?", query)|, fragment);
  }

  lemma ScanTail(sc: Scan, buf: Text, p: nat, path: Text, query: Text, fragment: Text)
    requires sc.s == ReqServer && sc.last == Some(Host) && Host in sc.spans
    requires Has(buf, p, path) && Has(buf, p + |path|, After("?", query))
    requires Has(buf, p + |path| + |After("?", query)|, After("#", fragment))
    requires |buf| == p + |path| + |After("?", query)| + |After("#", fragment)|
    requires path != [] ==> Stays(path, ReqServer, ReqPath)
    requires query != [] ==> Stays(query, ReqQueryStringStart, ReqQueryString)
    requires fragment != [] ==> Stays(fragment, ReqFragmentStart, ReqFragment) && (path != [] || query != [])
    ensures var r := ScanFrom(sc, buf, p);
      var q := p + |path|;
      var f := q + |After("?", query)|;
      && r.Some? && r.value.foundAt == sc.foundAt
      && r.value.spans == Placed(Placed(Placed(sc.spans, Path, p, path), Query, q + 1, query), Fragment, f + 1,
        fragment)
  {
    hide Stays, Has, ScanFrom, After, Behind, Placed;
    var q := p + |path|;
    var f := q + |After("?", query)|;
    ScanPath(sc, buf, p, path);
    BehindIs(sc, p, path, ReqPath, Path);
    var sc1 := Behind(sc, p, path, ReqPath, Path);
    ScanMarks(sc1, buf, q, query, fragment);
    BehindIs(sc1, q + 1, query, ReqQueryString, Query);
    var sc2 := Behind(sc1, q + 1, query, ReqQueryString, Query);
    BehindIs(sc2, f + 1, fragment, ReqFragment, Fragment);
    ScanEnd(Behind(sc2, f + 1, fragment, ReqFragment, Fragment), buf);
  }

  lemma BehindIs(sc: Scan, p: nat, text: Text, s: State, f: Field)
    requires sc.last.Some? && sc.last.value in sc.spans
    ensures var next := Behind(sc, p, text, s, f);
      && next.spans == Placed(sc.spans, f, p, text) && next.foundAt == sc.foundAt
      && next.last.Some? && next.last.value in next.spans
      && next.s == (if text == [] then sc.s else s) && next.last == (if text == [] then sc.last else Some(f))
  {
  }

  /** The bytes in front of query and fragment, and the states they lead to. */
  lemma Marks()
    ensures UrlChar(ReqServer, '?') == UrlChar(ReqPath, '?') == ReqQueryStringStart
    ensures UrlChar(ReqPath, '#') == UrlChar(ReqQueryString, '#') == ReqFragmentStart
    ensures Delimiter(ReqQueryStringStart) && Delimiter(ReqFragmentStart)
    ensures FieldOf(ReqQueryString) == Some(Query) && FieldOf(ReqFragment) == Some(Fragment)
  {
  }

  lemma ScanEnd(sc: Scan, buf: Text)
    requires sc.last.Some? ==> sc.last.value in sc.spans
    ensures ScanFrom(sc, buf, |buf|) == Some(sc)
  {
  }

  /** The parts are legal, as far as the first pass sees it. */
  ghost predicate Passable(u: Parts) {
    && Stays(u.scheme, ReqSpacesBeforeUrl, ReqSchema)
    && (u.userinfo != [] ==> Stays(u.userinfo, ReqServerStart, ReqServer))
    && Stays(AddressText(u.host) + After(":", u.port), ReqServerStart, ReqServer)
    && Stays(AddressText(u.host) + After(":", u.port), ReqServerWithAt, ReqServer)
    && (u.path != [] ==> Stays(u.path, ReqServer, ReqPath))
    && (u.query != [] ==> Stays(u.query, ReqQueryStringStart, ReqQueryString))
    && (u.fragment != [] ==> Stays(u.fragment, ReqFragmentStart, ReqFragment))
  }

  /** The scan behind the authority. */
  function BehindAuthority(u: Parts): Scan {
    Scan(ReqServer, Some(Host), u.userinfo != [],
         map[Schema := Span(0, |u.scheme|)][Host := Span(AuthorityAt(u), |Authority(u)|)])
  }

  lemma HeadLaidOut(buf: Text, u: Parts)
    requires LaidOut(buf, u) && Passable(u)
    ensures Has(buf, 0, u.scheme) && Has(buf, |u.scheme|, "://")
    ensures Stays(u.scheme, ReqSpacesBeforeUrl, ReqSchema)
    ensures var text := AddressText(u.host) + After(":", u.port);
      && Stays(text, ReqServerStart, ReqServer) && Stays(text, ReqServerWithAt, ReqServer)
      && (u.userinfo == [] ==> Has(buf, AuthorityAt(u), text))
      && (u.userinfo != [] ==>
            Stays(u.userinfo, ReqServerStart, ReqServer) && Has(buf, AuthorityAt(u), u.userinfo + "@" + text))
  {
    AuthorityIs(u);
    hide Stays, Has, After, AddressText, Authority, Before;
  }

  lemma TailLaidOut(buf: Text, u: Parts)
    requires LaidOut(buf, u) && Passable(u) && Separated(u)
    ensures var q := PathAt(u) + |u.path|;
      && Has(buf, PathAt(u), u.path) && Has(buf, q, After("?", u.query))
      && Has(buf, q + |After("?", u.query)|, After("#", u.fragment))
      && |buf| == q + |After("?", u.query)| + |After("#", u.fragment)|
      && FragmentAt(u) == q + |After("?", u.query)| + 1
    ensures u.path != [] ==> Stays(u.path, ReqServer, ReqPath)
    ensures u.query != [] ==> Stays(u.query, ReqQueryStringStart, ReqQueryString)
    ensures u.fragment != [] ==> Stays(u.fragment, ReqFragmentStart, ReqFragment) && (u.path != [] || u.query != [])
  {
    hide Stays, Has, After, AddressText, Authority, Before;
  }

  lemma ScanScheme(buf: Text, scheme: Text)
    requires Has(buf, 0, scheme) && Has(buf, |scheme|, "://") && Stays(scheme, ReqSpacesBeforeUrl, ReqSchema)
    ensures |scheme| + 3 <= |buf|
    ensures ScanFrom(FirstScan(false), buf, 0)
         == ScanFrom(Scan(ReqServerStart, Some(Schema), false, map[Schema := Span(0, |scheme|)]), buf, |scheme| + 3)
  {
    HasFits(buf, |scheme|, "://");
    hide Stays, ScanFrom, Has;
    var spans := map[Schema := Span(0, |scheme|)];
    ScanText(FirstScan(false), buf, 0, scheme, ReqSchema, Schema);
    assert map[][Schema := Span(0, |scheme|)] == spans;
    ScanSlashes(Scan(ReqSchema, Some(Schema), false, spans), buf, |scheme|);
  }

  lemma ScanHead(buf: Text, u: Parts)
    requires LaidOut(buf, u) && Passable(u)
    ensures PathAt(u) <= |buf| && ScanFrom(FirstScan(false), buf, 0) == ScanFrom(BehindAuthority(u), buf, PathAt(u))
  {
    hide LaidOut, Passable, Stays, ScanFrom, Has, After, AddressText, Before, Authority, FirstScan;
    var spans := map[Schema := Span(0, |u.scheme|)];
    HeadLaidOut(buf, u);
    AuthorityIs(u);
    ScanScheme(buf, u.scheme);
    ScanAuthority(Scan(ReqServerStart, Some(Schema), false, spans), buf, AuthorityAt(u), u.userinfo,
                  AddressText(u.host) + After(":", u.port));
  }

  /** The first pass finds scheme, authority, path, query and fragment. */
  lemma ScanAll(buf: Text, u: Parts)
    requires LaidOut(buf, u) && Passable(u) && Separated(u)
    ensures var r := ScanFrom(FirstScan(false), buf, 0);
      && r.Some? && r.value.spans == TailSpans(u, BehindAuthority(u).spans) && r.value.foundAt == (u.userinfo != [])
  {
    hide LaidOut, Passable, Stays, ScanFrom, Has, After, AddressText, Before, Authority, Placed, FragmentAt, PathAt;
    ScanHead(buf, u);
    TailLaidOut(buf, u);
    ScanTail(BehindAuthority(u), buf, PathAt(u), u.path, u.query, u.fragment);
  }

  lemma HashStops(sc: Scan, buf: Text, p: nat)
    requires sc.s == ReqServer && p < |buf| && buf[p] == '#' && (sc.last.Some? ==> sc.last.value in sc.spans)
    ensures ScanFrom(sc, buf, p) == None
  {
    assert UrlChar(ReqServer, '#') == Dead;
    hide UrlChar;
  }

  /** A fragment directly behind the authority stops the first pass. */
  lemma ScanStops(buf: Text, u: Parts)
    requires LaidOut(buf, u) && Passable(u) && !Separated(u)
    ensures ScanFrom(FirstScan(false), buf, 0) == None
  {
    HashBehind(buf, u);
    hide LaidOut, Passable, ScanFrom, FirstScan, PathAt;
    ScanHead(buf, u);
    HashStops(BehindAuthority(u), buf, PathAt(u));
  }

  lemma HashBehind(buf: Text, u: Parts)
    requires LaidOut(buf, u) && !Separated(u)
    ensures PathAt(u) < |buf| && buf[PathAt(u)] == '#'
  {
    hide Authority;
    assert After("#", u.fragment)[0] == '#';
  }
}

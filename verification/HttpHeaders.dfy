/** What the header matchers mean. */
module HttpHeaders {
  import opened Base
  import opened HttpTypes
  import opened HttpSwitch
  import opened HttpMachine
  import opened HttpReading

  // Header names

  /** The characters of a header name, in lower case. */
  function Lower(name: seq<octet>): string {
    seq(|name|, i requires 0 <= i < |name| => Token(name[i]))
  }

  predicate IsName(name: seq<octet>) {
    name != [] && forall i :: 0 <= i < |name| ==> Token(name[i]) != '\0'
  }

  /** t is the beginning of a name. */
  predicate Begins(t: string, full: string) {
    t <= full
  }

  predicate BeginsNothing(t: string) {
    && !Begins(t, CONNECTION) && !Begins(t, PROXY_CONNECTION) && !Begins(t, CONTENT_LENGTH)
    && !Begins(t, TRANSFER_ENCODING) && !Begins(t, UPGRADE)
  }

  /** Where a matcher for `full` stands after the lower-cased name t. */
  predicate Matching(q: Parser, t: string, full: string) {
    q.index == |t| - 1 && |t| < |full| && Begins(t, full)
  }

  /** What the header state means: how much of which header name has been read. */
  predicate Means(q: Parser, t: string) {
    match q.headerState
    case C => q.index == 0 && t == "c"
    case CO => q.index == 1 && t == "co"
    case CON => q.index == 2 && t == "con"
    case MatchingConnection => Matching(q, t, CONNECTION) && |t| > 3
    case MatchingProxyConnection => Matching(q, t, PROXY_CONNECTION)
    case MatchingContentLength => Matching(q, t, CONTENT_LENGTH) && |t| > 3
    case MatchingTransferEncoding => Matching(q, t, TRANSFER_ENCODING)
    case MatchingUpgrade => Matching(q, t, UPGRADE)
    case Connection => t == CONNECTION || t == PROXY_CONNECTION
    case ContentLength => t == CONTENT_LENGTH
    case TransferEncoding => t == TRANSFER_ENCODING
    case Upgrade => t == UPGRADE
    case General => BeginsNothing(t)
    case _ => false
  }

  lemma BeginsStep(t: string, c: char, full: string)
    ensures Begins(t + [c], full) <==> Begins(t, full) && |t| < |full| && full[|t|] == c
  {
    if t <= full && |t| < |full| {
      assert full[..|t| + 1] == t + [full[|t|]];
    }
    if t + [c] <= full {
      assert (t + [c])[|t|] == full[|t|];
    }
  }

  /** No name begins like two of the five but for the three letters of connection and content-length. */
  lemma BeginsOne(t: string)
    requires |t| > 0
    ensures Begins(t, CONNECTION) && Begins(t, CONTENT_LENGTH) ==> |t| <= 3
    ensures Begins(t, CONNECTION) || Begins(t, CONTENT_LENGTH) ==> t[0] == 'c'
    ensures Begins(t, PROXY_CONNECTION) ==> t[0] == 'p'
    ensures Begins(t, TRANSFER_ENCODING) ==> t[0] == 't'
    ensures Begins(t, UPGRADE) ==> t[0] == 'u'
  {
    assert CONNECTION[3] != CONTENT_LENGTH[3];
  }

  /** One more character of a name that is being matched. */
  lemma MatchMeans(q: Parser, t: string, c: char, full: string, found: HeaderState)
    requires Matching(q, t, full) && |t| > 0
    ensures var r := MatchField(q, c, full, found);
      && r.index == |t|
      && r.headerState == (if !Begins(t + [c], full) then General
                           else if |t| + 1 == |full| then found else q.headerState)
    ensures Begins(t + [c], full) && |t| + 1 == |full| ==> t + [c] == full
  {
    BeginsStep(t, c, full);
  }

  /** A full name with one more character begins no name, nor does a name that began none. */
  lemma Overlong(t: string, c: char)
    requires t in {CONNECTION, PROXY_CONNECTION, CONTENT_LENGTH, TRANSFER_ENCODING, UPGRADE} || BeginsNothing(t)
    ensures BeginsNothing(t + [c])
  {
    BeginsStep(t, c, CONNECTION);
    BeginsStep(t, c, PROXY_CONNECTION);
    BeginsStep(t, c, CONTENT_LENGTH);
    BeginsStep(t, c, TRANSFER_ENCODING);
    BeginsStep(t, c, UPGRADE);
    if |t| > 0 {
      BeginsOne(t);
    }
    NameLengths();
  }

  /** The three letters that two names share. */
  lemma SharedLetters(t: string, c: char)
    requires t == "c" || t == "co" || t == "con"
    ensures var next := if t == "c" then 'o' else 'n';
      c != next && !(t == "con" && c == 't') ==> BeginsNothing(t + [c])
    ensures t == "con" ==> Begins(t + ['n'], CONNECTION) && Begins(t + ['t'], CONTENT_LENGTH)
  {
    BeginsStep(t, c, CONNECTION);
    BeginsStep(t, c, CONTENT_LENGTH);
    BeginsStep(t, 'n', CONNECTION);
    BeginsStep(t, 't', CONTENT_LENGTH);
    BeginsOne(t + [c]);
    assert Begins("con", CONNECTION) && Begins("con", CONTENT_LENGTH);
  }

  /** A name whose match fails begins nothing else either. */
  lemma NoOther(t: string, c: char, full: string)
    requires full in {CONNECTION, PROXY_CONNECTION, CONTENT_LENGTH, TRANSFER_ENCODING, UPGRADE}
    requires |t| > 0 && Begins(t, full) && !Begins(t + [c], full)
    requires full == CONNECTION || full == CONTENT_LENGTH ==> |t| > 3
    ensures BeginsNothing(t + [c])
  {
    BeginsStep(t, c, CONNECTION);
    BeginsStep(t, c, PROXY_CONNECTION);
    BeginsStep(t, c, CONTENT_LENGTH);
    BeginsStep(t, c, TRANSFER_ENCODING);
    BeginsStep(t, c, UPGRADE);
    BeginsOne(t);
  }

  /** A character of a name keeps the meaning of the header state. */
  lemma FieldCharMeans(q: Parser, t: string, ch: octet, c: char)
    requires |t| > 0 && Means(q, t) && ch != ' '
    ensures Means(FieldChar(q, ch, c).q, t + [c])
  {
    NameLengths();
    hide CONNECTION, PROXY_CONNECTION, CONTENT_LENGTH, TRANSFER_ENCODING, UPGRADE, Begins, BeginsNothing, MatchField;
    match q.headerState {
      case C => SharedLetters(t, c);
      case CO => SharedLetters(t, c);
      case CON => SharedLetters(t, c);
      case MatchingConnection => MatchedMeans(q, t, c, CONNECTION, Connection);
      case MatchingProxyConnection => MatchedMeans(q, t, c, PROXY_CONNECTION, Connection);
      case MatchingContentLength => MatchedMeans(q, t, c, CONTENT_LENGTH, ContentLength);
      case MatchingTransferEncoding => MatchedMeans(q, t, c, TRANSFER_ENCODING, TransferEncoding);
      case MatchingUpgrade => MatchedMeans(q, t, c, UPGRADE, HeaderState.Upgrade);
      case _ => Overlong(t, c);
    }
  }

  lemma MatchedMeans(q: Parser, t: string, c: char, full: string, found: HeaderState)
    requires full in {CONNECTION, PROXY_CONNECTION, CONTENT_LENGTH, TRANSFER_ENCODING, UPGRADE}
    requires |t| > 0 && Matching(q, t, full) && (full == CONNECTION || full == CONTENT_LENGTH ==> |t| > 3)
    ensures var r := MatchField(q, c, full, found);
      && r.index == |t|
      && (if !Begins(t + [c], full) then r.headerState == General && BeginsNothing(t + [c])
          else if |t| + 1 == |full| then r.headerState == found && t + [c] == full
          else r.headerState == q.headerState)
  {
    MatchMeans(q, t, c, full, found);
    if !Begins(t + [c], full) {
      NoOther(t, c, full);
    }
  }

  lemma FirstLetter(q: Parser, ch: octet)
    requires q.state.HeaderFieldStart? && Token(ch) != '\0'
    ensures var s := Switch(q, ch, 1);
      && s == Step(q.(index := 0, state := HeaderField, headerState := s.q.headerState), Some(FieldData), 0, NoCall,
        Advance)
      && Means(s.q, [Token(ch)])
  {
    var c := Token(ch);
    assert c == 'c' ==> [c] == "c";
    BeginsOne([c]);
    NameLengths();
    assert CONNECTION[0] == 'c' && PROXY_CONNECTION[0] == 'p' && TRANSFER_ENCODING[0] == 't' && UPGRADE[0] == 'u';
    hide Token, CONNECTION, PROXY_CONNECTION, CONTENT_LENGTH, TRANSFER_ENCODING, UPGRADE;
  }

  lemma NextLetter(q: Parser, t: string, ch: octet)
    requires q.state.HeaderField? && |t| > 0 && Means(q, t) && Token(ch) != '\0'
    ensures var s := Switch(q, ch, 1);
      && s == Step(q.(index := s.q.index, headerState := s.q.headerState), None, 0, NoCall, Advance)
      && Means(s.q, t + [Token(ch)])
  {
    FieldCharMeans(q, t, ch, Token(ch));
    NextLetterStep(q, t, ch);
    hide Switch, Means, Token, FieldChar;
  }

  lemma MeansOk(q: Parser, t: string)
    requires |t| > 0 && Means(q, t)
    ensures FieldStateOk(q.headerState, q.index)
  {
    NameLengths();
    hide Begins, BeginsNothing, CONNECTION, PROXY_CONNECTION, CONTENT_LENGTH, TRANSFER_ENCODING, UPGRADE;
  }

  lemma NextLetterStep(q: Parser, t: string, ch: octet)
    requires q.state.HeaderField? && |t| > 0 && Means(q, t) && Token(ch) != '\0'
    ensures var s := Switch(q, ch, 1);
      s == FieldChar(q, ch, Token(ch)) && s == Go(s.q) && s.q == q.(index := s.q.index, headerState := s.q.headerState)
  {
    MeansOk(q, t);
    FieldCharStays(q, ch, Token(ch));
    hide Means, FieldChar, Token, FieldStateOk;
  }

  /** The machine has read a header name, told it to the application, and knows what it is. */
  ghost predicate HasRead(skip: SkipBody, q: Parser, log: Log, name: seq<octet>, r: Parser) {
    && Eats(skip, q, log, name, r, Push(log, DataOf(FieldData, name)))
    && r == q.(state := HeaderField, headerState := r.headerState, index := r.index, nread := q.nread + |name|)
    && Means(r, Lower(name))
  }

  lemma FirstRead(skip: SkipBody, q: Parser, log: Log, ch: octet)
    requires q.errno == Ok && q.state.HeaderFieldStart? && Token(ch) != '\0' && q.nread < HTTP_MAX_HEADER_SIZE
    ensures HasRead(skip, q, log, [ch], Switch(q.(nread := q.nread + 1), ch, 1).q)
  {
    hide Push, Eats, Means, Switch;
    var q1 := q.(nread := q.nread + 1);
    FirstLetter(q1, ch);
    EatsData(skip, q, log, ch, FieldData, Switch(q1, ch, 1).q);
    assert Lower([ch]) == [Token(ch)];
  }

  lemma NextRead(skip: SkipBody, q: Parser, log: Log, front: seq<octet>, r: Parser, ch: octet)
    requires HasRead(skip, q, log, front, r) && front != []
    requires Token(ch) != '\0' && q.errno == Ok && r.nread < HTTP_MAX_HEADER_SIZE
    ensures HasRead(skip, q, log, front + [ch], Switch(r.(nread := r.nread + 1), ch, 1).q)
  {
    hide Push, Eats, Means, Switch;
    var r1 := r.(nread := r.nread + 1);
    var r2 := Switch(r1, ch, 1).q;
    var log1 := Push(log, DataOf(FieldData, front));
    MeansUncounted(r, Lower(front));
    NextLetter(r1, Lower(front), ch);
    EatsData(skip, r, log1, ch, FieldData, r2);
    PushPush(log, FieldData, front, [ch]);
    EatsBoth(skip, q, log, front, r, log1, [ch], r2, Push(log, DataOf(FieldData, front + [ch])));
    assert Lower(front + [ch]) == Lower(front) + [Token(ch)];
  }

  /**
   A header name is recognised for what it is: after any name, read a character at a
   time, the header state is that of a header with a meaning exactly if the name is that
   header's, in any case of letters, and the name is what the application is told.
   */
  lemma {:induction false} NameRecognised(skip: SkipBody, q: Parser, log: Log, name: seq<octet>)
    requires q.errno == Ok && q.state.HeaderFieldStart? && IsName(name)
    requires q.nread + |name| <= HTTP_MAX_HEADER_SIZE
    ensures var r := Feed(skip, q, log, name).q;
      && HasRead(skip, q, log, name, r)
      && (r.headerState == ContentLength <==> Lower(name) == CONTENT_LENGTH)
      && (r.headerState == TransferEncoding <==> Lower(name) == TRANSFER_ENCODING)
      && (r.headerState == HeaderState.Upgrade <==> Lower(name) == UPGRADE)
      && (r.headerState == Connection <==> Lower(name) == CONNECTION || Lower(name) == PROXY_CONNECTION)
  {
    var r := NameReader(skip, q, log, name);
    assert Eats(skip, q, log, name, r, Push(log, DataOf(FieldData, name)));
    assert Feed(skip, q, log, name).q == r by {
      hide Feed;
    }
    hide Feed, Means, Lower, Push;
    LowerLength(name);
    HeaderIsKnown(r, Lower(name));
  }

  lemma {:induction false} NameReader(skip: SkipBody, q: Parser, log: Log, name: seq<octet>) returns (r: Parser)
    requires q.errno == Ok && q.state.HeaderFieldStart? && IsName(name)
    requires q.nread + |name| <= HTTP_MAX_HEADER_SIZE
    ensures HasRead(skip, q, log, name, r) && r.nread == q.nread + |name|
    decreases |name|
  {
    var n := |name| - 1;
    var front, ch := name[..n], name[n];
    assert name == front + [ch];
    if front == [] {
      assert name == [ch];
      hide Switch, Means, Eats, Lower, Push;
      FirstRead(skip, q, log, ch);
      r := Switch(q.(nread := q.nread + 1), ch, 1).q;
    } else {
      hide Switch, Means, Eats, Lower, Push;
      var r0 := NameReader(skip, q, log, front);
      NextRead(skip, q, log, front, r0, ch);
      r := Switch(r0.(nread := r0.nread + 1), ch, 1).q;
    }
  }

  lemma LowerLength(name: seq<octet>)
    ensures |Lower(name)| == |name|
  {
  }

  lemma MeansUncounted(q: Parser, t: string)
    ensures Means(q.(nread := q.nread + 1), t) == Means(q, t)
  {
    hide Begins, BeginsNothing;
  }

  /** So the four headers that the parser acts on are told apart from all others. */
  lemma HeaderIsKnown(q: Parser, t: string)
    requires |t| > 0 && Means(q, t)
    ensures q.headerState == ContentLength <==> t == CONTENT_LENGTH
    ensures q.headerState == TransferEncoding <==> t == TRANSFER_ENCODING
    ensures q.headerState == HeaderState.Upgrade <==> t == UPGRADE
    ensures q.headerState == Connection <==> t == CONNECTION || t == PROXY_CONNECTION
  {
    BeginsOne(t);
    NameLengths();
    BeginsItself(CONNECTION);
    BeginsItself(PROXY_CONNECTION);
    BeginsItself(CONTENT_LENGTH);
    BeginsItself(TRANSFER_ENCODING);
    BeginsItself(UPGRADE);
    assert CONNECTION[0] == CONTENT_LENGTH[0] == 'c' && PROXY_CONNECTION[0] == 'p';
    assert TRANSFER_ENCODING[0] == 't' && UPGRADE[0] == 'u';
    hide Begins, CONNECTION, PROXY_CONNECTION, CONTENT_LENGTH, TRANSFER_ENCODING, UPGRADE;
  }

  lemma BeginsItself(full: string)
    ensures Begins(full, full)
  {
  }
}

/**
 http_parser_execute: the loop over a buffer, with its marks, its bulk copies of body
 data, its callbacks, and the ways out of it. It computes what the byte machine of
 HttpMachine computes, wherever the buffers begin and end and wherever it is paused.
 */
module HttpExecute {
  import opened Base
  import opened HttpTypes
  import opened HttpSwitch
  import opened HttpMachine
  import opened HttpShape
  import opened HttpCount

  /** A callback returns 0, pauses the parser, or returns an error. */
  datatype Reply = Zero | Pause | Error

  /**
   The application. Whether it skips the body of a message may depend on all it has been
   told, with adjacent data of one kind joined; when it pauses or fails may depend on
   anything. Callbacks do not write parser fields otherwise.
   */
  datatype Callbacks = Callbacks(skipBody: SkipBody, reply: seq<Event> -> Reply)

  /** An application that never pauses the parser and never fails. */
  ghost predicate Quiet(cb: Callbacks) {
    forall trace :: cb.reply(trace) == Zero
  }

  /** An application that never fails, but may pause the parser at any callback. */
  ghost predicate Harmless(cb: Callbacks) {
    forall trace :: cb.reply(trace) != Error
  }

  /** An application that pauses the parser only where `pauses` says so of what it has been told. */
  ghost predicate PausesWithin(cb: Callbacks, pauses: Log -> bool) {
    forall trace :: cb.reply(trace) == Pause ==> pauses(Join(trace))
  }

  /** It pauses the parser exactly there. */
  ghost predicate PausesBy(cb: Callbacks, pauses: Log -> bool) {
    forall trace :: cb.reply(trace) == Pause <==> pauses(Join(trace))
  }

  /** A mark into the buffer: where data of a kind began. */
  datatype Mark = Mark(k: DataKind, at: nat)

  function AsMap(m: Option<Mark>): map<DataKind, nat> {
    match m case None => map[] case Some(Mark(k, at)) => map[k := at]
  }

  /** What the callbacks will have been told once the marked data are flushed. */
  function Due(log: Log, m: Option<Mark>, data: seq<octet>, i: nat): Log
    requires i <= |data|
  {
    if m.Some? && m.value.at < i then Push(log, DataOf(m.value.k, data[m.value.at..i])) else log
  }

  /** At most one mark is set, and only the one the state calls for. */
  ghost predicate MarkOk(s: State, m: Option<Mark>, i: nat, len: nat) {
    if Carry(s).Some? then m.Some? && m.value.k == Carry(s).value && m.value.at <= i
    else if s.ChunkDataAlmostDone? then m.None? || (m.value.k == BodyData && m.value.at < i)
    else if Bulk(s) then m.None? || (i == len && m.value.k == BodyData && m.value.at < i)
    else m.None?
  }

  /** In the middle of data, data of that kind were the last thing told. */
  ghost predicate LogOk(s: State, log: Log) {
    Carry(s).Some? ==> EndsWith(log, Carry(s).value)
  }

  /** What the parser does not see: where the application will pause it, and the bytes behind the buffer. */
  datatype Ahead = Ahead(pauses: Log -> bool, more: seq<octet>)

  /**
   What a run over a buffer is held against: the run of the machine over it, and whether the
   limit on header bytes is reached in it or behind it when bytes are presented again; that
   is exact if it is known where exactly the application pauses.
   */
  datatype Aim = Aim(run: Fed, over: bool, exact: bool, ahead: Ahead)

  ghost function Target(cb: Callbacks, q: Parser, log: Log, data: seq<octet>, ahead: Ahead): Aim {
    Aim(Feed(cb.skipBody, q, log, data), Over(cb.skipBody, ahead.pauses, q, log, data + ahead.more),
        PausesBy(cb, ahead.pauses), ahead)
  }

  lemma Slices(a: seq<octet>, b: seq<octet>, t: nat)
    requires t <= |a|
    ensures (a + b)[t..] == a[t..] + b && (a + b)[..t] == a[..t] && (a != [] ==> (a + b)[0] == a[0])
  {
  }

  /** The limit is reached from here on only if it was to be reached, and if that is exact, then if and only if. */
  ghost predicate Covers(f: Aim, over: bool) {
    (over ==> f.over) && (f.exact && f.over ==> over)
  }

  /** What the machine does from here on, at position i, is the rest of the run. */
  ghost predicate Onward(skip: SkipBody, f: Aim, q: Parser, log: Log, data: seq<octet>, i: nat) {
    && i <= |data|
    && f.run == Shift(Feed(skip, q, log, data[i..]), i)
    && Covers(f, Over(skip, f.ahead.pauses, q, log, data[i..] + f.ahead.more))
  }

  /** The same in the middle of byte i. */
  ghost predicate Midway(skip: SkipBody, f: Aim, q: Parser, log: Log, data: seq<octet>, i: nat) {
    && i < |data|
    && f.run == Shift(Continue(skip, q, log, data[i..]), i)
    && Covers(f, OverIn(skip, f.ahead.pauses, q, log, data[i..] + f.ahead.more))
  }

  /** The same behind a callback that does not consume byte i. */
  ghost predicate Held(skip: SkipBody, f: Aim, q: Parser, log: Log, data: seq<octet>, i: nat) {
    && i < |data|
    && f.run == Shift(Continue(skip, q, log, data[i..]), i)
    && (if f.ahead.pauses(log) then Covers(f, Over(skip, f.ahead.pauses, q, log, data[i..] + f.ahead.more))
        else Covers(f, OverIn(skip, f.ahead.pauses, q, log, data[i..] + f.ahead.more)))
  }

  lemma CountOnward(skip: SkipBody, f: Aim, q: Parser, log: Log, data: seq<octet>, i: nat)
    requires Onward(skip, f, q, log, data, i) && i < |data|
    ensures if Count(q).errno == Ok then Midway(skip, f, Count(q), log, data, i)
            else f.run == Fed(Count(q), log, i, Broken) && Covers(f, true)
  {
    hide Continue, OverIn, Covers;
  }

  /** Without a pause the byte is not counted again, which can only put the limit off. */
  lemma NotPaused(skip: SkipBody, f: Aim, q: Parser, log: Log, data: seq<octet>, i: nat)
    requires Held(skip, f, q, log, data, i) && Counted(q) && Valid(q) && (f.exact ==> !f.ahead.pauses(log))
    ensures Midway(skip, f, q, log, data, i)
  {
    hide Continue, Over, OverIn, Counted, Valid;
    var rest := data[i..] + f.ahead.more;
    if f.ahead.pauses(log) && OverIn(skip, f.ahead.pauses, q, log, rest) {
      OverFromIn(skip, f.ahead.pauses, q, log, rest);
    }
  }

  lemma Uncounted(skip: SkipBody, q: Parser, log: Log, data: seq<octet>, h: Ahead)
    requires data != [] && q.errno == Ok && !ParsingHeader(q.state)
    ensures Feed(skip, q, log, data) == Continue(skip, q, log, data)
    ensures Over(skip, h.pauses, q, log, data + h.more) == OverIn(skip, h.pauses, q, log, data + h.more)
  {
    hide Continue, OverIn;
    assert Count(q) == q;
  }

  /** Where bytes are not counted, a pause makes no difference. */
  lemma HeldAnyway(skip: SkipBody, f: Aim, q: Parser, log: Log, data: seq<octet>, i: nat)
    requires Midway(skip, f, q, log, data, i) && q.errno == Ok && !ParsingHeader(q.state)
    ensures Held(skip, f, q, log, data, i)
  {
    hide Continue, OverIn, Over;
    Uncounted(skip, q, log, data[i..], f.ahead);
  }

  /** s is what the switch does with a byte when `left` bytes are left in the buffer. */
  ghost predicate Switched(q: Parser, ch: octet, left: int, s: Step) {
    left > 0 && s == Switch(q, ch, left)
  }

  lemma SwitchedFacts(q: Parser, ch: octet, left: int, s: Step)
    requires Switched(q, ch, left, s) && Counted(q) && !Bulk(q.state)
    ensures Shape(q, s) && Kept(s) && s == Switch(q, ch, 1)
  {
    hide Switch, Shape, Kept, Counted;
    StepShape(q, ch, left);
    StepKeeps(q, ch, left);
  }

  lemma KeptGoes(s: Step)
    requires Kept(s)
    ensures s.then_ != Abort && (s.then_ == Fail <==> s.q.errno != Ok) && OfSwitch(s.q.errno)
    ensures s.then_ == Advance || s.then_ == Leave ==> Valid(s.q)
    ensures s.then_ == Again ==> Counted(s.q) && Valid(s.q)
  {
    hide Sane;
  }

  /** A byte that is not taken in bulk. */
  lemma ByteOnward(skip: SkipBody, f: Aim, q: Parser, log: Log, data: seq<octet>, i: nat, s: Step)
    requires Midway(skip, f, q, log, data, i) && i < |data| && s == Switch(q, data[i], 1)
    ensures var log1 := LogStep(q, s, log, data[i]);
      var q1 := AfterStep(skip, s, log1);
      match s.then_
      case Advance => Onward(skip, f, q1, log1, data, i + 1)
      case Again => if s.call.NoCall? then Midway(skip, f, q1, log1, data, i) else Held(skip, f, q1, log1, data, i)
      case Leave => f.run == Fed(q1, log1, i + 1, Stopped) && Covers(f, false)
      case Fail => f.run == Fed(q1, log1, i, Broken) && Covers(f, false)
      case Abort => true
  {
    hide Switch, LogStep, AfterStep, Feed, Over, Covers;
    Slices(data[i..], f.ahead.more, 1);
    assert data[i..][1..] == data[i + 1..];
  }

  lemma DueOneMore(log: Log, m: Mark, data: seq<octet>, i: nat)
    requires m.at <= i < |data|
    ensures Due(log, Some(m), data, i + 1) == Push(Due(log, Some(m), data, i), DataOf(m.k, [data[i]]))
    ensures EndsWith(Due(log, Some(m), data, i + 1), m.k)
  {
    PushEnds(log, m.k, data[m.at..i + 1]);
    if m.at < i {
      assert data[m.at..i + 1] == data[m.at..i] + [data[i]];
      PushPush(log, m.k, data[m.at..i], [data[i]]);
    } else {
      assert data[m.at..i + 1] == [data[i]];
    }
  }

  lemma PushEnds(log: Log, k: DataKind, bytes: seq<octet>)
    ensures EndsWith(Push(log, DataOf(k, bytes)), k)
  {
  }

  /** The mark after a step has set its own. */
  function Marked(m: Option<Mark>, s: Step, i: nat): Option<Mark> {
    if s.mark.Some? then Some(Mark(s.mark.value, i)) else m
  }

  /** A byte without a callback belongs to the marked data, if there are any. */
  lemma MarksQuiet(q: Parser, s: Step, log: Log, m: Option<Mark>, data: seq<octet>, i: nat)
    requires i < |data| && Shape(q, s) && s.call.NoCall? && s.then_ == Advance
    requires MarkOk(q.state, m, i, |data|) && !Bulk(q.state)
    ensures var due := LogStep(q, s, Due(log, m, data, i), data[i]);
      && MarkOk(s.q.state, Marked(m, s, i), i + 1, |data|)
      && due == Due(log, Marked(m, s, i), data, i + 1)
      && LogOk(s.q.state, due)
  {
    var m1 := Marked(m, s, i);
    if m1.Some? {
      hide Push;
      DueOneMore(log, m1.value, data, i);
    }
  }

  /** Executing a byte again, nothing is marked. */
  lemma MarksAgain(q: Parser, s: Step, log: Log, m: Option<Mark>, data: seq<octet>, i: nat)
    requires i < |data| && Shape(q, s) && s.call.NoCall? && s.then_ == Again
    requires MarkOk(q.state, m, i, |data|) && !Bulk(q.state)
    ensures Marked(m, s, i) == m == None && MarkOk(s.q.state, None, i, |data|) && LogOk(s.q.state, log)
    ensures LogStep(q, s, Due(log, m, data, i), data[i]) == log
  {
  }

  /** A data callback tells what is marked, and clears the mark. */
  lemma MarksFlushed(q: Parser, s: Step, log: Log, m: Option<Mark>, data: seq<octet>, i: nat)
    requires i < |data| && Shape(q, s) && s.call.DataCall?
    requires MarkOk(q.state, m, i, |data|) && !Bulk(q.state) && LogOk(q.state, Due(log, m, data, i))
    ensures var due := LogStep(q, s, Due(log, m, data, i), data[i]);
      var m1 := Marked(m, s, i);
      && (if m1.Some? then m1.value.k == s.call.k && m1.value.at <= i
                           && due == Push(log, DataOf(s.call.k, data[m1.value.at..i]))
          else due == log && s.call.eats)
      && MarkOk(s.q.state, None, i, |data|) && LogOk(s.q.state, due)
  {
    hide Push;
    assert data[i..i] == [];
    if s.mark.None? && m.Some? && m.value.at == i {
      PushNothing(log, m.value.k);
    }
  }

  /** A notification comes when nothing is marked. */
  lemma MarksNotified(q: Parser, s: Step, log: Log, m: Option<Mark>, data: seq<octet>, i: nat)
    requires i < |data| && Shape(q, s) && s.call.Notify?
    requires MarkOk(q.state, m, i, |data|) && !Bulk(q.state)
    ensures Marked(m, s, i) == m == None
    ensures LogStep(q, s, Due(log, m, data, i), data[i]) == Push(log, NoteOf(s.call.note))
    ensures MarkOk(s.q.state, None, i, |data|) && Carry(s.q.state).None?
  {
  }

  // Bulk copies

  /** Body bytes as the machine logs them: nothing at all for no byte. */
  function PushBody(log: Log, bytes: seq<octet>): Log {
    if bytes == [] then log else Push(log, DataOf(BodyData, bytes))
  }

  /** The parser after t bytes of a body that are not its last. */
  function Shortened(q: Parser, t: nat): Parser
    requires !q.state.BodyIdentityEof? ==> t <= q.contentLength
  {
    if q.state.BodyIdentityEof? then q else q.(contentLength := q.contentLength - t)
  }

  /** The machine gets from one configuration to another by eating t bytes. */
  ghost predicate Leads(skip: SkipBody, q: Parser, log: Log, data: seq<octet>, h: Ahead,
                        t: nat, q': Parser, log': Log) {
    && t <= |data|
    && Feed(skip, q, log, data) == Shift(Feed(skip, q', log', data[t..]), t)
    && Over(skip, h.pauses, q, log, data + h.more) == Over(skip, h.pauses, q', log', data[t..] + h.more)
  }

  /** It gets to the middle of the first byte. */
  ghost predicate LeadsInto(skip: SkipBody, q: Parser, log: Log, data: seq<octet>, h: Ahead,
                            q': Parser, log': Log) {
    && data != []
    && Feed(skip, q, log, data) == Continue(skip, q', log', data)
    && Over(skip, h.pauses, q, log, data + h.more) == OverIn(skip, h.pauses, q', log', data + h.more)
  }

  lemma LeadsTwice(skip: SkipBody, q: Parser, log: Log, data: seq<octet>, h: Ahead,
                   t: nat, q1: Parser, log1: Log, u: nat, q2: Parser, log2: Log)
    requires Leads(skip, q, log, data, h, t, q1, log1)
    requires t <= |data| && Leads(skip, q1, log1, data[t..], h, u, q2, log2)
    ensures Leads(skip, q, log, data, h, t + u, q2, log2)
  {
    hide Feed, Over;
    assert data[t..][u..] == data[t + u..];
  }

  lemma LeadsOnward(skip: SkipBody, f: Aim, q: Parser, log: Log, data: seq<octet>, i: nat, t: nat, q': Parser,
                    log': Log)
    requires Onward(skip, f, q, log, data, i) && i <= |data| && Leads(skip, q, log, data[i..], f.ahead, t, q', log')
    ensures Onward(skip, f, q', log', data, i + t)
  {
    hide Feed, Over, Covers;
    assert data[i..][t..] == data[i + t..];
  }

  lemma LeadsMidway(skip: SkipBody, f: Aim, q: Parser, log: Log, data: seq<octet>, i: nat, q': Parser, log': Log)
    requires Onward(skip, f, q, log, data, i) && i <= |data| && LeadsInto(skip, q, log, data[i..], f.ahead, q', log')
    ensures Midway(skip, f, q', log', data, i)
  {
    hide Feed, Continue, Over, OverIn, Covers;
  }

  /** A byte that is not counted and is consumed at once. */
  lemma OneStep(skip: SkipBody, q: Parser, log: Log, data: seq<octet>, h: Ahead, s: Step)
    requires data != [] && q.errno == Ok && !ParsingHeader(q.state)
    requires s == Switch(q, data[0], 1) && s.then_ == Advance
    ensures var log1 := LogStep(q, s, log, data[0]); Leads(skip, q, log, data, h, 1, AfterStep(skip, s, log1), log1)
  {
    hide Switch, LogStep, AfterStep, Feed, Over;
    Uncounted(skip, q, log, data, h);
    Slices(data, h.more, 1);
    var log1 := LogStep(q, s, log, data[0]);
    assert Finish(skip, q, log, data[0]) == Next(AfterStep(skip, s, log1), log1);
  }

  lemma BodyStep(q: Parser, ch: octet)
    requires Bulk(q.state) && (q.state.ChunkData? ==> q.flags.chunked)
    requires q.state.BodyIdentityEof? || 1 < q.contentLength < NO_LENGTH
    ensures Switch(q, ch, 1) == Step(Shortened(q, 1), Some(BodyData), 0, NoCall, Advance)
  {
  }

  lemma BodyByte(skip: SkipBody, q: Parser, log: Log, data: seq<octet>, h: Ahead)
    requires q.errno == Ok && Bulk(q.state) && data != []
    requires q.state.BodyIdentityEof? || 1 < q.contentLength < NO_LENGTH
    requires q.state.ChunkData? ==> q.flags.chunked
    ensures Leads(skip, q, log, data, h, 1, Shortened(q, 1), PushBody(log, [data[0]]))
  {
    hide Leads, Switch, Push;
    BodyStep(q, data[0]);
    OneStep(skip, q, log, data, h, Switch(q, data[0], 1));
  }

  lemma ShortenedTwice(q: Parser, t: nat, u: nat)
    requires q.state.BodyIdentityEof? || t + u <= q.contentLength
    ensures Shortened(Shortened(q, t), u) == Shortened(q, t + u)
  {
  }

  lemma PushBodyTwice(log: Log, x: seq<octet>, y: seq<octet>)
    ensures PushBody(PushBody(log, x), y) == PushBody(log, x + y)
  {
    hide Push;
    if x == [] {
      assert x + y == y;
    } else if y == [] {
      assert x + y == x;
    } else {
      PushPush(log, BodyData, x, y);
    }
  }

  lemma LeadsNowhere(skip: SkipBody, q: Parser, log: Log, data: seq<octet>, h: Ahead)
    ensures Leads(skip, q, log, data, h, 0, Shortened(q, 0), PushBody(log, data[..0]))
  {
    hide Feed, Over;
    assert data[..0] == [] && data[0..] == data;
  }

  /** Inside a body, t bytes that are not its last have the effect of one copy. */
  lemma {:induction false} BodyRun(skip: SkipBody, q: Parser, log: Log, data: seq<octet>, h: Ahead, t: nat)
    requires q.errno == Ok && Bulk(q.state) && t <= |data|
    requires q.state.BodyIdentityEof? || t < q.contentLength < NO_LENGTH
    requires q.state.ChunkData? ==> q.flags.chunked
    ensures Leads(skip, q, log, data, h, t, Shortened(q, t), PushBody(log, data[..t]))
    decreases t
  {
    hide Leads, PushBody;
    if t == 0 {
      LeadsNowhere(skip, q, log, data, h);
    } else {
      BodyByte(skip, q, log, data, h);
      ShortenedTwice(q, 1, t - 1);
      PushBodyTwice(log, [data[0]], data[1..][..t - 1]);
      assert data[..t] == [data[0]] + data[1..][..t - 1];
      BodyRun(skip, Shortened(q, 1), PushBody(log, [data[0]]), data[1..], h, t - 1);
      LeadsTwice(skip, q, log, data, h, 1, Shortened(q, 1), PushBody(log, [data[0]]),
                 t - 1, Shortened(q, t), PushBody(log, data[..t]));
    }
  }

  /** The parser after a whole body; in the identity case the last byte is presented again. */
  function Emptied(q: Parser): Parser {
    q.(contentLength := 0, state := if q.state.BodyIdentity? then MessageDone else ChunkDataAlmostDone)
  }

  lemma LastChunkStep(q: Parser, ch: octet)
    requires q.contentLength == 1 && q.state.ChunkData? && q.flags.chunked
    ensures Switch(q, ch, 1) == Step(Emptied(q), Some(BodyData), 0, NoCall, Advance)
  {
  }

  lemma LastChunkByte(skip: SkipBody, q: Parser, log: Log, data: seq<octet>, h: Ahead)
    requires q.errno == Ok && q.contentLength == 1 && data != []
    requires q.state.ChunkData? && q.flags.chunked
    ensures Leads(skip, q, log, data, h, 1, Emptied(q), PushBody(log, [data[0]]))
  {
    hide Leads, Switch, Push;
    LastChunkStep(q, data[0]);
    OneStep(skip, q, log, data, h, Switch(q, data[0], 1));
  }

  lemma LastIdentityStep(q: Parser, ch: octet)
    requires q.contentLength == 1 && q.state.BodyIdentity?
    ensures Switch(q, ch, 1) == Step(Emptied(q), Some(BodyData), 0, DataCall(BodyData, true, false), Again)
  {
  }

  lemma FinishLastIdentity(skip: SkipBody, q: Parser, log: Log, ch: octet)
    requires q.contentLength == 1 && q.state.BodyIdentity?
    ensures Finish(skip, q, log, ch) == Finish(skip, Emptied(q), PushBody(log, [ch]), ch)
  {
    hide Switch, Push;
    LastIdentityStep(q, ch);
  }

  lemma OverLastIdentity(skip: SkipBody, q: Parser, log: Log, data: seq<octet>, h: Ahead)
    requires q.errno == Ok && q.contentLength == 1 && data != []
    requires q.state.BodyIdentity?
    ensures Over(skip, h.pauses, q, log, data + h.more)
         == OverIn(skip, h.pauses, Emptied(q), PushBody(log, [data[0]]), data + h.more)
  {
    hide Switch, Push, Over;
    var q1, log1 := Emptied(q), PushBody(log, [data[0]]);
    Uncounted(skip, q, log, data, h);
    Uncounted(skip, q1, log1, data, h);
    LastIdentityStep(q, data[0]);
    Slices(data, h.more, 0);
    var rest := data + h.more;
    assert OverIn(skip, h.pauses, q, log, rest)
        == if h.pauses(log1) then Over(skip, h.pauses, q1, log1, rest) else OverIn(skip, h.pauses, q1, log1, rest);
  }

  lemma LastIdentityByte(skip: SkipBody, q: Parser, log: Log, data: seq<octet>, h: Ahead)
    requires q.errno == Ok && q.contentLength == 1 && data != []
    requires q.state.BodyIdentity?
    ensures LeadsInto(skip, q, log, data, h, Emptied(q), PushBody(log, [data[0]]))
  {
    hide Finish, Switch, PushBody, Feed, Over, OverIn;
    Uncounted(skip, q, log, data, h);
    FinishLastIdentity(skip, q, log, data[0]);
    assert Continue(skip, q, log, data) == Continue(skip, Emptied(q), PushBody(log, [data[0]]), data);
    OverLastIdentity(skip, q, log, data, h);
  }

  /** A body that the buffer holds to its end. */
  lemma WholeBody(skip: SkipBody, f: Aim, q: Parser, log: Log, data: seq<octet>, i: nat)
    requires q.errno == Ok && HasBodyLength(q)
    requires q.state.BodyIdentity? || (q.state.ChunkData? && q.flags.chunked)
    requires i + q.contentLength <= |data| && Onward(skip, f, q, log, data, i)
    ensures var j := i + q.contentLength;
      var due := PushBody(log, data[i..j]);
      if q.state.BodyIdentity? then Midway(skip, f, Emptied(q), due, data, j - 1)
      else Onward(skip, f, Emptied(q), due, data, j)
  {
    hide Onward, Midway, Leads, LeadsInto, PushBody;
    var t := q.contentLength - 1;
    var j := i + t;
    var q1 := q.(contentLength := 1);
    BodyRun(skip, q, log, data[i..], f.ahead, t);
    assert data[i..][..t] == data[i..j];
    LeadsOnward(skip, f, q, log, data, i, t, q1, PushBody(log, data[i..j]));
    PushBodyTwice(log, data[i..j], [data[j]]);
    assert data[i..j] + [data[j]] == data[i..j + 1] && data[j..][0] == data[j];
    if q.state.BodyIdentity? {
      LastIdentityByte(skip, q1, PushBody(log, data[i..j]), data[j..], f.ahead);
      LeadsMidway(skip, f, q1, PushBody(log, data[i..j]), data, j, Emptied(q), PushBody(log, data[i..j + 1]));
    } else {
      LastChunkByte(skip, q1, PushBody(log, data[i..j]), data[j..], f.ahead);
      LeadsOnward(skip, f, q1, PushBody(log, data[i..j]), data, j, 1, Emptied(q), PushBody(log, data[i..j + 1]));
    }
  }

  lemma MessageDoneStep(q: Parser, ch: octet)
    requires q.state.MessageDone?
    ensures Switch(q, ch, 1) == Told(q.(state := NewMessage(q)), MessageComplete)
  {
    hide NewMessage;
  }

  lemma AfterComplete(skip: SkipBody, q: Parser, log: Log)
    ensures AfterStep(skip, Told(q, MessageComplete), log) == q
    ensures Push(log, NoteOf(MessageComplete)) == log + [NoteOf(MessageComplete)]
  {
  }

  /**
   The last byte of a body with a length is presented twice, but its message ends once,
   behind all of the body.
   */
  lemma BodyEndsMessage(skip: SkipBody, f: Aim, q: Parser, log: Log, data: seq<octet>, i: nat)
    requires q.errno == Ok && HasBodyLength(q) && q.state.BodyIdentity?
    requires i + q.contentLength <= |data| && Onward(skip, f, q, log, data, i)
    ensures var j := i + q.contentLength;
      Onward(skip, f, Emptied(q).(state := NewMessage(Emptied(q))),
             PushBody(log, data[i..j]) + [NoteOf(MessageComplete)], data, j)
  {
    hide Onward, Midway, PushBody, NewMessage, Switch, AfterStep, Push;
    var j, done := i + q.contentLength, Emptied(q);
    var due := PushBody(log, data[i..j]);
    WholeBody(skip, f, q, log, data, i);
    MessageDoneStep(done, data[j - 1]);
    AfterComplete(skip, done.(state := NewMessage(done)), due);
    AfterComplete(skip, done.(state := NewMessage(done)), due + [NoteOf(MessageComplete)]);
    ByteOnward(skip, f, done, due, data, j - 1, Switch(done, data[j - 1], 1));
  }

  /** A body that goes on after the buffer. */
  lemma PartOfBody(skip: SkipBody, f: Aim, q: Parser, log: Log, data: seq<octet>, i: nat)
    requires q.errno == Ok && Bulk(q.state) && Onward(skip, f, q, log, data, i)
    requires i <= |data|
    requires q.state.BodyIdentityEof? || |data| - i < q.contentLength < NO_LENGTH
    requires q.state.ChunkData? ==> q.flags.chunked
    ensures Onward(skip, f, Shortened(q, |data| - i), PushBody(log, data[i..]), data, |data|)
  {
    hide Onward, Leads, PushBody;
    BodyRun(skip, q, log, data[i..], f.ahead, |data| - i);
    assert data[i..][..|data| - i] == data[i..];
    LeadsOnward(skip, f, q, log, data, i, |data| - i, Shortened(q, |data| - i), PushBody(log, data[i..]));
  }

  // One turn of the loop

  /** Between two bytes: what has been told and what is marked are what the machine has logged. */
  ghost predicate Between(skip: SkipBody, f: Aim, q: Parser, log: Log, m: Option<Mark>, data: seq<octet>, i: nat) {
    && i <= |data| && Valid(q)
    && MarkOk(q.state, m, i, |data|) && LogOk(q.state, Due(log, m, data, i))
    && Onward(skip, f, q, Due(log, m, data, i), data, i)
  }

  /** The same while byte i is executed. */
  ghost predicate Within(skip: SkipBody, f: Aim, q: Parser, log: Log, m: Option<Mark>, data: seq<octet>, i: nat) {
    && i < |data| && Counted(q)
    && MarkOk(q.state, m, i, |data|) && LogOk(q.state, Due(log, m, data, i))
    && Midway(skip, f, q, Due(log, m, data, i), data, i)
  }

  /** The same behind a callback that does not consume it. */
  ghost predicate Awaiting(skip: SkipBody, f: Aim, q: Parser, log: Log, data: seq<octet>, i: nat) {
    && i < |data| && Counted(q) && Valid(q)
    && MarkOk(q.state, None, i, |data|) && LogOk(q.state, log)
    && Held(skip, f, q, log, data, i)
  }

  lemma GoOn(skip: SkipBody, f: Aim, q: Parser, log: Log, data: seq<octet>, i: nat)
    requires Awaiting(skip, f, q, log, data, i) && (f.exact ==> !f.ahead.pauses(log))
    ensures Within(skip, f, q, log, None, data, i)
  {
    hide Held, Midway, Counted, Valid;
    NotPaused(skip, f, q, log, data, i);
  }

  /** The byte is counted. */
  lemma Enter(skip: SkipBody, f: Aim, q: Parser, log: Log, m: Option<Mark>, data: seq<octet>, i: nat)
    requires Between(skip, f, q, log, m, data, i) && i < |data|
    ensures (Count(q).errno == Ok || Count(q).errno == HeaderOverflow) && Count(q).state == q.state
    ensures if Count(q).errno == Ok then Within(skip, f, Count(q), log, m, data, i)
            else f.run == Fed(Count(q), Due(log, m, data, i), i, Broken) && Covers(f, true)
  {
    hide Valid, Counted, Onward, Midway, Due, LogOk, MarkOk;
    CountOnward(skip, f, q, Due(log, m, data, i), data, i);
    CountKeeps(q);
    assert q.errno == Ok && Count(q).state == q.state by {
      ValidOk(q);
    }
  }

  /** Where a step leads that tells nothing. */
  ghost predicate LedOn(skip: SkipBody, f: Aim, s: Step, q1: Parser, log1: Log, m1: Option<Mark>, data: seq<octet>,
                        j: nat) {
    match s.then_
    case Advance => Between(skip, f, q1, log1, m1, data, j + 1)
    case Again =>
      && m1.None? && Valid(q1)
      && (if s.call.NoCall? then Within(skip, f, q1, log1, None, data, j) else Awaiting(skip, f, q1, log1, data, j))
    case Leave => f.run == Fed(q1, log1, j + 1, Stopped) && Covers(f, false) && Valid(q1) && Carry(q1.state).None?
    case _ => false
  }

  /** What the marked data are when a callback flushes them, and the log then. */
  function Flushed(log: Log, k: DataKind, m: Option<Mark>, data: seq<octet>, end: nat): Log
    requires end <= |data|
  {
    if m.Some? && m.value.at <= end then Push(log, DataOf(k, data[m.value.at..end])) else log
  }

  /** What the callback of a step tells, and the log then. */
  function CallLog(log: Log, s: Step, m: Option<Mark>, data: seq<octet>, j: nat): Log
    requires j < |data|
  {
    match s.call
    case NoCall => log
    case DataCall(k, whole, _) => Flushed(log, k, m, data, if whole then j + 1 else j)
    case Notify(note, _) => Push(log, NoteOf(note))
  }

  /** The marks that a callback finds, and those it leaves. */
  predicate CallOk(s: Step, m: Option<Mark>, j: nat) {
    match s.call
    case NoCall => true
    case DataCall(k, whole, eats) =>
      (m.Some? ==> m.value.k == k && m.value.at <= if whole then j + 1 else j) && (!eats ==> m.Some?)
    case Notify(_, _) => m.None?
  }

  function AfterCall(m: Option<Mark>, s: Step): Option<Mark> {
    if s.call.NoCall? then m else None
  }

  /** Where a callback may stop the parser, and where the parser leaves by itself. */
  predicate WaysOut(s: Step) {
    && (s.call.NoCall? ==> s.then_ != Leave)
    && (!s.call.NoCall? ==> (s.call.eats <==> s.then_ != Again))
    && (s.then_ == Leave <==> s.call.Notify? && s.call.note == MessageComplete && s.q.upgrade)
  }

  /** The contract of one turn: every way on from it keeps the run on the machine's track. */
  ghost predicate TurnOk(skip: SkipBody, f: Aim, q: Parser, s: Step, log: Log, m: Option<Mark>, data: seq<octet>,
                         i: nat)
    requires i < |data|
  {
    var j := i + s.skip;
    var m1 := Marked(m, s, i);
    && j < |data|
    && (s.mark.Some? ==> m.None?)
    && (if s.then_ == Fail then
          && s.call.NoCall? && s.q.errno != Ok && OfSwitch(s.q.errno)
          && f.run == Fed(s.q, Due(log, m, data, i), i, Broken) && Covers(f, false)
        else
          var log1 := CallLog(log, s, m1, data, j);
          && s.q.errno == Ok && CallOk(s, m1, j) && WaysOut(s)
          && LedOn(skip, f, s, AfterStep(skip, s, log1), log1, AfterCall(m1, s), data, j))
  }

  lemma AnsweredKeeps(skip: SkipBody, q: Parser, log: Log, note: Note)
    ensures Valid(q) ==> Valid(Answered(skip, q, log, note))
    ensures Counted(q) ==> Counted(Answered(skip, q, log, note))
    ensures var r := Answered(skip, q, log, note); r.state == q.state && r.errno == q.errno && r.upgrade == q.upgrade
  {
  }

  /** The parser leaves at the end of a message exactly if that asked for an upgrade. */
  lemma LeaveIsUpgrade(q: Parser, ch: octet, left: int, s: Step)
    requires Switched(q, ch, left, s) && Counted(q) && Shape(q, s)
    requires s.call.Notify? && s.call.note == MessageComplete
    ensures s.then_ == Leave <==> s.q.upgrade
  {
    assert q.state.HeadersAlmostDone? || q.state.HeadersDone? || q.state.MessageDone?;
    hide NewMessage, MessageNeedsEof, Shape;
  }

  /** A turn on a byte that is not taken in bulk. */
  lemma TurnByte(skip: SkipBody, f: Aim, q: Parser, s: Step, log: Log, m: Option<Mark>, data: seq<octet>, i: nat)
    requires Within(skip, f, q, log, m, data, i) && !Bulk(q.state)
    requires i < |data| && Switched(q, data[i], |data| - i, s)
    ensures TurnOk(skip, f, q, s, log, m, data, i)
  {
    hide Switched, Switch, Valid, Counted, Onward, Midway, Held, Kept, Covers;
    SwitchedFacts(q, data[i], |data| - i, s);
    KeptGoes(s);
    ByteOnward(skip, f, q, Due(log, m, data, i), data, i, s);
    match s.call {
      case NoCall =>
        if s.then_ == Advance {
          MarksQuiet(q, s, log, m, data, i);
        } else if s.then_ == Again {
          MarksAgain(q, s, log, m, data, i);
        }
      case DataCall(k, whole, eats) =>
        MarksFlushed(q, s, log, m, data, i);
      case Notify(note, eats) =>
        MarksNotified(q, s, log, m, data, i);
        if note == MessageComplete {
          LeaveIsUpgrade(q, data[i], |data| - i, s);
        }
        AnsweredKeeps(skip, s.q, Push(log, NoteOf(note)), note);
    }
  }

  /** The copy the switch makes in a body. */
  lemma BulkStep(q: Parser, ch: octet, left: int, s: Step)
    requires Switched(q, ch, left, s) && Counted(q) && Bulk(q.state)
    ensures q.errno == Ok && (q.state.ChunkData? ==> q.flags.chunked)
    ensures !q.state.BodyIdentityEof? ==> HasBodyLength(q)
    ensures if q.state.BodyIdentityEof? || left < q.contentLength
            then s == Step(Shortened(q, left), Some(BodyData), left - 1, NoCall, Advance)
            else if q.state.BodyIdentity?
            then s == Step(Emptied(q), Some(BodyData), q.contentLength - 1, DataCall(BodyData, true, false), Again)
            else s == Step(Emptied(q), Some(BodyData), q.contentLength - 1, NoCall, Advance)
  {
  }

  /** Nothing is marked where a body goes on in a buffer, and body bytes are not counted. */
  lemma BulkUnmarked(skip: SkipBody, f: Aim, q: Parser, log: Log, m: Option<Mark>, data: seq<octet>, i: nat)
    requires Within(skip, f, q, log, m, data, i) && Bulk(q.state)
    ensures m.None? && Counted(q) && Onward(skip, f, q, log, data, i)
  {
    hide Continue, OverIn, Covers, Feed, Over;
    Uncounted(skip, q, log, data[i..], f.ahead);
  }

  lemma TurnPart(skip: SkipBody, f: Aim, q: Parser, log: Log, data: seq<octet>, i: nat)
    requires i < |data| && Onward(skip, f, q, log, data, i) && Bulk(q.state) && q.errno == Ok
    requires q.state.BodyIdentityEof? || |data| - i < q.contentLength < NO_LENGTH
    requires q.state.ChunkData? ==> q.flags.chunked
    requires Valid(Shortened(q, |data| - i))
    ensures Between(skip, f, Shortened(q, |data| - i), log, Some(Mark(BodyData, i)), data, |data|)
  {
    hide Onward, Push, Valid;
    PartOfBody(skip, f, q, log, data, i);
    assert data[i..] == data[i..|data|];
  }

  lemma TurnWhole(skip: SkipBody, f: Aim, q: Parser, log: Log, data: seq<octet>, i: nat)
    requires i < |data| && Onward(skip, f, q, log, data, i) && q.errno == Ok && HasBodyLength(q)
    requires q.state.BodyIdentity? || (q.state.ChunkData? && q.flags.chunked)
    requires q.contentLength <= |data| - i
    ensures var j := i + q.contentLength - 1;
      if q.state.BodyIdentity? then
        Counted(Emptied(q)) && Valid(Emptied(q)) ==>
          Awaiting(skip, f, Emptied(q), Push(log, DataOf(BodyData, data[i..j + 1])), data, j)
      else
        Valid(Emptied(q)) ==> Between(skip, f, Emptied(q), log, Some(Mark(BodyData, i)), data, j + 1)
  {
    hide Onward, Midway, Held, Push, Valid, Counted;
    WholeBody(skip, f, q, log, data, i);
    if q.state.BodyIdentity? {
      var j := i + q.contentLength;
      assert data[i..j] != [];
      HeldAnyway(skip, f, Emptied(q), Push(log, DataOf(BodyData, data[i..j])), data, j - 1);
    }
  }

  /** A turn in a body. */
  lemma TurnBulk(skip: SkipBody, f: Aim, q: Parser, s: Step, log: Log, m: Option<Mark>, data: seq<octet>, i: nat)
    requires Within(skip, f, q, log, m, data, i) && Bulk(q.state)
    requires i < |data| && Switched(q, data[i], |data| - i, s)
    ensures TurnOk(skip, f, q, s, log, m, data, i)
  {
    hide Switched, Onward, Kept, Counted, Within, TurnOk;
    var left := |data| - i;
    BulkUnmarked(skip, f, q, log, m, data, i);
    BulkKept(q, data[i], left, s);
    BulkStep(q, data[i], left, s);
    KeptGoes(s);
    if q.state.BodyIdentityEof? || left < q.contentLength {
      TurnBulkPart(skip, f, q, s, log, data, i);
    } else {
      TurnBulkWhole(skip, f, q, s, log, data, i);
    }
  }

  lemma TurnBulkPart(skip: SkipBody, f: Aim, q: Parser, s: Step, log: Log, data: seq<octet>, i: nat)
    requires i < |data| && Onward(skip, f, q, log, data, i) && Bulk(q.state) && q.errno == Ok
    requires q.state.BodyIdentityEof? || |data| - i < q.contentLength < NO_LENGTH
    requires q.state.ChunkData? ==> q.flags.chunked
    requires s == Step(Shortened(q, |data| - i), Some(BodyData), |data| - i - 1, NoCall, Advance) && Valid(s.q)
    ensures TurnOk(skip, f, q, s, log, None, data, i)
  {
    hide Onward, Valid, Between, Covers, Due;
    TurnPart(skip, f, q, log, data, i);
  }

  lemma TurnBulkWhole(skip: SkipBody, f: Aim, q: Parser, s: Step, log: Log, data: seq<octet>, i: nat)
    requires i < |data| && Onward(skip, f, q, log, data, i) && q.errno == Ok && HasBodyLength(q)
    requires q.state.BodyIdentity? || (q.state.ChunkData? && q.flags.chunked)
    requires q.contentLength <= |data| - i
    requires s == Step(Emptied(q), Some(BodyData), q.contentLength - 1,
                       if q.state.BodyIdentity? then DataCall(BodyData, true, false) else NoCall,
                       if q.state.BodyIdentity? then Again else Advance)
    requires Valid(s.q) && (s.then_ == Again ==> Counted(s.q))
    ensures TurnOk(skip, f, q, s, log, None, data, i)
  {
    hide Onward, Push, Counted, Valid, Between, Awaiting, Within, Covers, Due;
    TurnWhole(skip, f, q, log, data, i);
  }

  lemma BulkKept(q: Parser, ch: octet, left: int, s: Step)
    requires Switched(q, ch, left, s) && Counted(q)
    ensures Kept(s)
  {
    hide Switch, Kept, Counted;
    StepKeeps(q, ch, left);
  }

  lemma TurnFacts(skip: SkipBody, f: Aim, q: Parser, s: Step, log: Log, m: Option<Mark>, data: seq<octet>, i: nat)
    requires i < |data| && Within(skip, f, q, log, m, data, i)
    requires s == Switch(q, data[i], |data| - i)
    ensures TurnOk(skip, f, q, s, log, m, data, i)
    ensures s.then_ == Again ==> Rank(s.q.state) < Rank(q.state)
    ensures q.errno == Ok && s.then_ != Abort
  {
    hide Switch, TurnOk, Counted, Kept, Midway, Due, LogOk, MarkOk, Rank;
    assert Switched(q, data[i], |data| - i, s);
    StepKeeps(q, data[i], |data| - i);
    KeptGoes(s);
    CountedOk(q);
    if Bulk(q.state) {
      TurnBulk(skip, f, q, s, log, m, data, i);
    } else {
      TurnByte(skip, f, q, s, log, m, data, i);
    }
  }

  lemma CountedOk(q: Parser)
    requires Counted(q)
    ensures q.errno == Ok
  {
  }

  // The parser object

  /** How http_parser_execute returned. */
  datatype How =
    | Ended(ending: Ending)    // as the byte machine does
    | PausedAfter              // paused by a callback, the current byte consumed
    | PausedWithin             // paused by a callback that does not consume the current byte
    | Refused                  // a callback returned an error

  predicate CallbackError(e: Errno) {
    e.CbMessageBegin? || e.CbUrl? || e.CbHeaderField? || e.CbHeaderValue?
    || e.CbHeadersComplete? || e.CbBody? || e.CbMessageComplete?
  }

  function ErrorOf(e: Event): (r: Errno)
    ensures CallbackError(r)
  {
    match e
    case DataOf(UrlData, _) => CbUrl
    case DataOf(FieldData, _) => CbHeaderField
    case DataOf(ValueData, _) => CbHeaderValue
    case DataOf(BodyData, _) => CbBody
    case NoteOf(MessageBegin) => CbMessageBegin
    case NoteOf(HeadersComplete) => CbHeadersComplete
    case NoteOf(MessageComplete) => CbMessageComplete
  }

  /** The parser once it is no longer paused. */
  function Resumed(q: Parser): Parser {
    if q.errno == Paused then q.(errno := Ok) else q
  }

  lemma LastTold(q: Parser, log: Log, e: Event)
    ensures AtUpgrade(q, Push(log, e)) <==> e == NoteOf(MessageComplete) && q.upgrade
  {
  }

  /** The parser that a callback has stopped. */
  predicate StoppedIn(p: Parser, q: Parser) {
    p == q.(errno := p.errno) && (p.errno == Paused || CallbackError(p.errno))
  }

  lemma CallTold(skip: SkipBody, s: Step, log: Log, m: Option<Mark>, data: seq<octet>, j: nat)
    requires j < |data| && WaysOut(s) && CallOk(s, m, j) && !s.call.NoCall? && (s.call.DataCall? ==> m.Some?)
    ensures var log1 := CallLog(log, s, m, data, j);
      AtUpgrade(AfterStep(skip, s, log1), log1) <==> s.then_ == Leave
  {
    hide Push, AtUpgrade;
    var log1 := CallLog(log, s, m, data, j);
    match s.call {
      case DataCall(k, whole, _) =>
        LastTold(s.q, log, DataOf(k, data[m.value.at..if whole then j + 1 else j]));
      case Notify(note, _) =>
        LastTold(AfterStep(skip, s, log1), log, NoteOf(note));
    }
  }

  lemma PausedThere(cb: Callbacks, pauses: Log -> bool, trace: seq<Event>)
    ensures PausesWithin(cb, pauses) && cb.reply(trace) == Pause ==> pauses(Join(trace))
    ensures PausesBy(cb, pauses) && cb.reply(trace) != Pause ==> !pauses(Join(trace))
  {
    hide Join;
  }

  /** A callback that stops the parser stops it where it can go on. */
  lemma CallStops(skip: SkipBody, f: Aim, s: Step, p: Parser, log: Log, m: Option<Mark>, data: seq<octet>, j: nat)
    requires j < |data| && WaysOut(s) && CallOk(s, m, j) && !s.call.NoCall? && (s.call.DataCall? ==> m.Some?)
    requires var log1 := CallLog(log, s, m, data, j);
      var q1 := AfterStep(skip, s, log1);
      LedOn(skip, f, s, q1, log1, None, data, j) && StoppedIn(p, q1) && (p.errno == Paused ==> f.ahead.pauses(log1))
    ensures var how := if p.errno != Paused then Refused else if s.call.eats then PausedAfter else PausedWithin;
      var log1 := CallLog(log, s, m, data, j);
      Promise(skip, f, p, log1, data, if s.call.eats then j + 1 else j, how) && ParserOk(p, log1)
  {
    var log1 := CallLog(log, s, m, data, j);
    var q1 := AfterStep(skip, s, log1);
    hide CallLog, AfterStep, LedOn, Promise, ParserOk, AtUpgrade;
    CallTold(skip, s, log, m, data, j);
    if p.errno == Paused {
      Pausing(skip, f, s, q1, log1, data, j, s.call.eats);
    } else {
      Refusing(skip, f, p, log1, data, if s.call.eats then j + 1 else j);
    }
  }

  /**
   What a run that consumed n bytes of a buffer promises, where f is the run of the byte
   machine over the whole buffer: it has ended as f does, or the machine ends as f does
   when it goes on from here.
   */
  ghost predicate Promise(skip: SkipBody, f: Aim, q: Parser, log: Log, data: seq<octet>, n: nat, how: How) {
    match how
    case Ended(e) =>
      && f.run.q == q && f.run.n == n && f.run.ending == e
      && (if e == Broken then q.errno != Ok && q.errno != Paused else q.errno == Ok && f.run.log == log)
      && (if e == Ran then n == |data| && Covers(f, Over(skip, f.ahead.pauses, q, log, f.ahead.more))
        else Covers(f, q.errno == HeaderOverflow))
    case PausedAfter =>
      q.errno == Paused && n <= |data|
      && (if AtUpgrade(q, log) then f.run == Fed(Resumed(q), log, n, Stopped) && Covers(f, false)
          else Onward(skip, f, Resumed(q), log, data, n))
    case PausedWithin =>
      && q.errno == Paused && Counted(Resumed(q)) && !AtUpgrade(q, log)
      && f.ahead.pauses(log) && Held(skip, f, Resumed(q), log, data, n)
    case Refused => CallbackError(q.errno)
  }

  /** What a parser object keeps between calls. */
  ghost predicate ParserOk(q: Parser, log: Log) {
    (q.errno == Ok || q.errno == Paused) ==> Valid(Resumed(q)) && LogOk(q.state, log)
  }

  /** A pause leaves the parser where the machine can go on. */
  lemma Pausing(skip: SkipBody, f: Aim, s: Step, q1: Parser, log1: Log, data: seq<octet>, j: nat, eats: bool)
    requires j < |data| && LedOn(skip, f, s, q1, log1, None, data, j) && (eats <==> s.then_ != Again)
    requires !s.call.NoCall? && f.ahead.pauses(log1)
    requires s.then_ == Leave <==> AtUpgrade(q1, log1)
    ensures var how := if eats then PausedAfter else PausedWithin;
      var q := q1.(errno := Paused);
      Promise(skip, f, q, log1, data, if eats then j + 1 else j, how) && ParserOk(q, log1)
  {
    hide Onward, Held, Covers;
    var q := q1.(errno := Paused);
    assert q1.errno == Ok && Valid(q1) && LogOk(q1.state, log1);
    hide Valid, Counted;
    assert Resumed(q) == q1;
  }

  lemma Leaving(skip: SkipBody, f: Aim, s: Step, q1: Parser, log1: Log, data: seq<octet>, j: nat)
    requires LedOn(skip, f, s, q1, log1, None, data, j) && s.then_ == Leave
    ensures Promise(skip, f, q1, log1, data, j + 1, Ended(Stopped)) && ParserOk(q1, log1)
  {
  }

  lemma Failing(skip: SkipBody, f: Aim, q: Parser, log: Log, data: seq<octet>, n: nat)
    requires f.run.q == q && f.run.n == n && f.run.ending == Broken && q.errno != Ok && q.errno != Errno.Paused
    requires Covers(f, q.errno == HeaderOverflow)
    ensures Promise(skip, f, q, log, data, n, Ended(Broken)) && ParserOk(q, log)
  {
  }

  lemma Refusing(skip: SkipBody, f: Aim, q: Parser, log: Log, data: seq<octet>, n: nat)
    requires CallbackError(q.errno)
    ensures Promise(skip, f, q, log, data, n, Refused) && ParserOk(q, log)
  {
  }

  /** A run that has come to the end of its buffer, once what is marked is told. */
  lemma AtEnd(skip: SkipBody, f: Aim, q: Parser, log: Log, m: Option<Mark>, data: seq<octet>)
    requires Between(skip, f, q, log, m, data, |data|)
    ensures var due := Due(log, m, data, |data|);
      && q.errno == Ok && Valid(q) && LogOk(q.state, due) && Onward(skip, f, q, due, data, |data|)
      && Promise(skip, f, q, due, data, |data|, Ended(Ran)) && ParserOk(q, due)
    ensures m.None? ==> Due(log, m, data, |data|) == log
    ensures m.Some? ==>
      && m.value.at <= |data|
      && Push(log, DataOf(m.value.k, data[m.value.at..|data|])) == Due(log, m, data, |data|)
  {
    hide Push, Over, Covers;
    assert data[|data|..] == [] == data[|data|..|data|] && [] + f.ahead.more == f.ahead.more;
    if m.Some? && m.value.at == |data| {
      PushNothing(log, m.value.k);
    }
  }

  /** A buffer begins with a mark exactly when its first byte continues data. */
  lemma Begin(cb: Callbacks, q: Parser, log: Log, data: seq<octet>, h: Ahead)
    requires q.errno == Ok && ParserOk(q, log)
    ensures var m := match Carry(q.state) case None => None case Some(k) => Some(Mark(k, 0));
      Between(cb.skipBody, Target(cb, q, log, data, h), q, log, m, data, 0)
  {
    hide Valid, Feed, Over, PausesBy;
    assert data[0..] == data && Resumed(q) == q;
  }

  lemma EveryKind(kinds: seq<DataKind>, m: Option<Mark>)
    requires kinds == [FieldData, ValueData, UrlData, BodyData]
    ensures m.Some? ==> exists l :: 0 <= l < |kinds| && kinds[l] == m.value.k
  {
    assert kinds[0] == FieldData && kinds[1] == ValueData && kinds[2] == UrlData && kinds[3] == BodyData;
  }

  lemma PausingAtEnd(skip: SkipBody, f: Aim, q: Parser, log: Log, data: seq<octet>)
    requires q.errno == Ok && Valid(q) && LogOk(q.state, log) && Onward(skip, f, q, log, data, |data|)
    requires !AtUpgrade(q, log)
    ensures Promise(skip, f, q.(errno := Paused), log, data, |data|, PausedAfter) && ParserOk(q.(errno := Paused), log)
  {
    hide Valid, Onward;
    assert Resumed(q.(errno := Paused)) == q;
  }

  /** The states in which the end of the input is no error. */
  predicate MayEnd(s: State) {
    s.Dead? || s.StartReqOrRes? || s.StartRes? || s.StartReq?
  }

  /** The end of the input ends a body that has no length, and is an error inside anything else. */
  predicate EofPromise(q: Parser, trace: seq<Event>, q': Parser, trace': seq<Event>, n: nat) {
    if q.state.BodyIdentityEof? then
      && n == 0 && trace' == trace + [NoteOf(MessageComplete)]
      && (q' == q || q' == q.(errno := Paused) || q' == q.(errno := CbMessageComplete))
    else if MayEnd(q.state) then n == 0 && q' == q && trace' == trace
    else n == 1 && q' == q.(errno := InvalidEofState) && trace' == trace
  }

  class HttpParser {
    var p: Parser
    var trace: seq<Event>  // what the application has been told

    ghost predicate Valid()
      reads this
    {
      ParserOk(p, Join(trace))
    }

    /** http_parser_init. */
    constructor (kind: Kind)
      ensures Valid() && p == Init(kind) && trace == []
    {
      p := Init(kind);
      trace := [];
    }

    /** http_parser_pause; a parser in error is left alone. */
    method PauseParser(paused: bool)
      requires Valid()
      modifies this`p
      ensures Valid()
      ensures p == if old(p.errno) == Ok || old(p.errno) == Paused
                   then old(p).(errno := if paused then Paused else Ok) else old(p)
    {
      if p.errno == Ok || p.errno == Paused {
        p := p.(errno := if paused then Paused else Ok);
      }
    }

    /** Run a callback; the parser is to return if it was paused or an error came back. */
    method Tell(e: Event, cb: Callbacks) returns (stop: bool)
      requires p.errno == Ok
      modifies this
      ensures trace == old(trace) + [e] && Join(trace) == Push(Join(old(trace)), e)
      ensures stop <==> cb.reply(trace) != Zero
      ensures p.errno == Paused <==> cb.reply(trace) == Pause
      ensures var q := if e.NoteOf? then Answered(cb.skipBody, old(p), Join(trace), e.note) else old(p);
        if !stop then p == q
        else p == q.(errno := Paused) || p == q.(errno := ErrorOf(e))
    {
      trace := trace + [e];
      JoinPush(old(trace), e);
      if e.NoteOf? {
        p := Answered(cb.skipBody, p, Join(trace), e.note);
      }
      match cb.reply(trace) {
        case Zero =>
        case Pause => p := p.(errno := Paused);
        case Error => p := p.(errno := ErrorOf(e));
      }
      stop := p.errno != Ok;
    }

    /** The callback of a step, if it has one. */
    method Call(cb: Callbacks, s: Step, data: seq<octet>, j: nat, marks: map<DataKind, nat>, ghost m: Option<Mark>)
      returns (stop: bool, left: map<DataKind, nat>)
      requires p == s.q && p.errno == Ok && j < |data| && marks == AsMap(m) && CallOk(s, m, j)
      modifies this
      ensures Join(trace) == CallLog(old(Join(trace)), s, m, data, j)
      ensures var q := AfterStep(cb.skipBody, s, Join(trace));
        if stop then StoppedIn(p, q) else p == q
      ensures stop ==> !s.call.NoCall? && (s.call.DataCall? ==> m.Some?)
      ensures !stop ==> left == AsMap(AfterCall(m, s))
      ensures Quiet(cb) ==> !stop
      ensures Harmless(cb) && stop ==> p.errno == Paused
      ensures stop && p.errno == Paused ==> cb.reply(trace) == Pause
      ensures !stop && !s.call.NoCall? && !s.call.eats ==> cb.reply(trace) == Zero
    {
      hide Push, Join, Answered;
      stop, left := false, marks;
      match s.call {
        case NoCall =>
        case DataCall(k, whole, _) =>
          if k in left {
            stop := Tell(DataOf(k, data[left[k]..if whole then j + 1 else j]), cb);
            left := left - {k};
          }
        case Notify(note, _) =>
          stop := Tell(NoteOf(note), cb);
      }
    }

    /** One pass through the switch, with its callback. */
    method Turn(cb: Callbacks, data: seq<octet>, i: nat, marks: map<DataKind, nat>, ghost m: Option<Mark>, ghost f: Aim)
      returns (j: nat, left: map<DataKind, nat>, again: bool, stop: bool, ghost m': Option<Mark>, ghost how: How)
      requires i < |data| && marks == AsMap(m)
      requires Within(cb.skipBody, f, p, Join(trace), m, data, i)
      requires PausesWithin(cb, f.ahead.pauses) && (f.exact ==> PausesBy(cb, f.ahead.pauses))
      modifies this
      ensures i <= j <= |data| && (!stop && again ==> j < |data|)
      ensures stop && Quiet(cb) ==> how.Ended?
      ensures stop && Harmless(cb) ==> how != Refused
      ensures stop && how == PausedAfter ==> i < j
      ensures stop && how == PausedWithin ==> i < j || Rank(p.state) < Rank(old(p.state))
      ensures stop ==> Promise(cb.skipBody, f, p, Join(trace), data, j, how) && Valid()
      ensures !stop ==> left == AsMap(m')
      ensures !stop && again ==> Within(cb.skipBody, f, p, Join(trace), m', data, j)
      ensures !stop && !again ==> Between(cb.skipBody, f, p, Join(trace), m', data, j)
      ensures !stop ==> |data| - j < |data| - i || (again && j == i && Rank(p.state) < Rank(old(p.state)))
    {
      hide Switch, Within, Between, Awaiting, Promise, Join, AfterStep, CallLog, CallOk, ParserOk, Due, Covers;
      hide Quiet, Harmless, PausesWithin, PausesBy, Rank;
      var s := Switch(p, data[i], |data| - i);
      ghost var log := Join(trace);
      TurnFacts(cb.skipBody, f, p, s, log, m, data, i);
      left := marks;
      if s.mark.Some? && s.mark.value !in left {
        left := left[s.mark.value := i];
      }
      ghost var m1 := Marked(m, s, i);
      assert left == AsMap(m1);
      m' := AfterCall(m1, s);
      j, again, stop, how := i + s.skip, false, false, Refused;
      p := s.q;
      if s.then_ == Fail {
        Failing(cb.skipBody, f, p, log, data, i);
        return i, left, again, true, m', Ended(Broken);
      }
      stop, left := Call(cb, s, data, j, left, m1);
      if stop {
        PausedThere(cb, f.ahead.pauses, trace);
        CallStops(cb.skipBody, f, s, p, log, m1, data, j);
        how := if p.errno != Paused then Refused else if s.call.eats then PausedAfter else PausedWithin;
        j := if s.call.eats then j + 1 else j;
        return;
      }
      match s.then_ {
        case Advance =>
          j := j + 1;
        case Again =>
          again := true;
          if !s.call.NoCall? {
            PausedThere(cb, f.ahead.pauses, trace);
            GoOn(cb.skipBody, f, p, Join(trace), data, j);
          }
        case Leave =>
          Leaving(cb.skipBody, f, s, p, Join(trace), data, j);
          stop, j, how := true, j + 1, Ended(Stopped);
        case Abort =>
          assert false;
      }
    }

    /** The callbacks for a mark that is left over at the end of the buffer. */
    method FlushLeft(cb: Callbacks, data: seq<octet>, marks: map<DataKind, nat>, ghost m: Option<Mark>, ghost f: Aim)
      returns (ghost how: How)
      requires Between(cb.skipBody, f, p, Join(trace), m, data, |data|) && marks == AsMap(m)
      modifies this
      ensures Promise(cb.skipBody, f, p, Join(trace), data, |data|, how) && Valid()
      ensures how == Ended(Ran) || how == PausedAfter || how == Refused
      ensures Quiet(cb) ==> how.Ended?
      ensures Harmless(cb) ==> how != Refused
    {
      hide HttpMachine.Valid, Push, Promise, Join, Answered, ParserOk, Feed, Onward, Due, LogOk, Between, AtUpgrade;
      ghost var q, log := p, Join(trace);
      AtEnd(cb.skipBody, f, q, log, m, data);
      var left := marks;
      assert |left| <= 1;
      var kinds := [FieldData, ValueData, UrlData, BodyData];
      for n := 0 to |kinds|
        invariant p == q && (left == map[] || left == marks)
        invariant Join(trace) == if left == map[] then Due(log, m, data, |data|) else log
        invariant left != map[] ==> forall l :: 0 <= l < n ==> kinds[l] !in left
      {
        if kinds[n] in left {
          var e := DataOf(kinds[n], data[left[kinds[n]]..|data|]);
          LastTold(q, log, e);
          var stop := Tell(e, cb);
          left := left - {kinds[n]};
          if stop {
            if p.errno == Paused {
              PausingAtEnd(cb.skipBody, f, q, Join(trace), data);
              how := PausedAfter;
            } else {
              Refusing(cb.skipBody, f, p, Join(trace), data, |data|);
              how := Refused;
            }
            return;
          }
        }
      }
      EveryKind(kinds, m);
      how := Ended(Ran);
    }

    /** http_parser_execute with length 0, which means the end of the input. */
    method ExecuteEof(cb: Callbacks) returns (n: nat)
      requires Valid() && p.errno == Ok
      modifies this
      ensures Valid()
      ensures EofPromise(old(p), old(trace), p, trace, n)
    {
      n := 0;
      ghost var q := p;
      if p.state.BodyIdentityEof? {
        hide HttpMachine.Valid, Push, Join;
        var stop := Tell(NoteOf(MessageComplete), cb);
        assert Resumed(q) == q;
      } else if !MayEnd(p.state) {
        p := p.(errno := InvalidEofState);
        n := 1;
      }
    }

    /**
     http_parser_execute on a non-empty buffer. It returns what the byte machine computes
     over the buffer, or was stopped by a callback at a point from where the byte machine
     goes on to that. What lies ahead bears on the limit on header bytes only.
     */
    method Execute(data: seq<octet>, cb: Callbacks, ghost h: Ahead) returns (n: nat, ghost how: How)
      requires Valid() && data != [] && PausesWithin(cb, h.pauses)
      modifies this
      ensures Valid() && n <= |data|
      ensures old(p.errno) != Ok ==> n == 0 && unchanged(this)
      ensures old(p.errno) == Ok ==>
        Promise(cb.skipBody, Target(cb, old(p), Join(old(trace)), data, h), p, Join(trace), data, n, how)
      ensures old(p.errno) == Ok && Quiet(cb) ==> how.Ended?
      ensures old(p.errno) == Ok && Harmless(cb) ==> how != Refused
      ensures how == PausedAfter ==> n > 0
      ensures how == PausedWithin ==> n > 0 || Rank(p.state) < Rank(old(p.state))
    {
      hide HttpMachine.Valid, Push, Promise, Join, Feed, Over, Between, Within, Count, ParserOk, Covers;
      hide PausesWithin, PausesBy;
      how := Refused;
      if p.errno != Ok {
        return 0, how;
      }
      ghost var f := Target(cb, p, Join(trace), data, h);
      ghost var m := match Carry(p.state) case None => None case Some(k) => Some(Mark(k, 0));
      var marks := match Carry(p.state) case None => map[] case Some(k) => map[k := 0];
      Begin(cb, p, Join(trace), data, h);
      var i, again := 0, false;
      while i < |data|
        invariant i <= |data| && (again ==> i < |data|) && marks == AsMap(m)
        invariant i == 0 ==> if again then Rank(p.state) < Rank(old(p.state)) else p.state == old(p.state)
        invariant again ==> Within(cb.skipBody, f, p, Join(trace), m, data, i)
        invariant !again ==> Between(cb.skipBody, f, p, Join(trace), m, data, i)
        decreases |data| - i, if again then Rank(p.state) else 100
      {
        if !again {
          Enter(cb.skipBody, f, p, Join(trace), m, data, i);
          p := Count(p);
          if p.errno != Ok {
            Failing(cb.skipBody, f, p, Join(trace), data, i);
            return i, Ended(Broken);
          }
        }
        var stop;
        i, marks, again, stop, m, how := Turn(cb, data, i, marks, m, f);
        if stop {
          return i, how;
        }
      }
      assert !again;
      n := |data|;
      how := FlushLeft(cb, data, marks, m, f);
    }
  }
}

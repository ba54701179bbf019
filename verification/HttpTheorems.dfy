/** What the parser promises its users: that neither buffers nor pauses matter. */
module HttpTheorems {
  import opened HttpTypes
  import opened HttpMachine
  import opened HttpCount
  import opened HttpUpgrade
  import opened HttpExecute

  // Buffer boundaries

  /** The machine over two buffers is the machine over one, and then over the other unless it ended. */
  lemma {:induction false} FeedConcat(skip: SkipBody, q: Parser, log: Log, a: seq<octet>, b: seq<octet>)
    ensures var f := Feed(skip, q, log, a);
      Feed(skip, q, log, a + b) == if f.ending == Ran then Shift(Feed(skip, f.q, f.log, b), |a|) else f
    ensures Feed(skip, q, log, a).ending == Ran ==> Feed(skip, q, log, a).n == |a|
    decreases |a|
  {
    hide Finish, Count;
    if a == [] {
      assert a + b == b;
    } else {
      assert (a + b)[1..] == a[1..] + b;
      match Finish(skip, Count(q), log, a[0]) {
        case Next(q', log') => FeedConcat(skip, q', log', a[1..], b);
        case Left(_, _) =>
        case Failed(_, _) =>
      }
    }
  }

  function Flatten(buffers: seq<seq<octet>>): seq<octet> {
    if buffers == [] then [] else buffers[0] + Flatten(buffers[1..])
  }

  lemma {:induction false} FlattenAppend(buffers: seq<seq<octet>>, more: seq<octet>)
    ensures Flatten(buffers + [more]) == Flatten(buffers) + more
  {
    if buffers == [] {
      assert buffers + [more] == [more] && Flatten([]) == [];
    } else {
      assert (buffers + [more])[1..] == buffers[1..] + [more];
      FlattenAppend(buffers[1..], more);
    }
  }

  lemma {:induction false} FlattenSplit(buffers: seq<seq<octet>>, i: nat)
    requires i <= |buffers|
    ensures Flatten(buffers) == Flatten(buffers[..i]) + Flatten(buffers[i..])
    decreases i
  {
    if i == 0 {
      assert buffers[..0] == [] && buffers[0..] == buffers;
    } else {
      var tail := buffers[1..];
      FlattenSplit(tail, i - 1);
      assert buffers[..i][1..] == tail[..i - 1] && buffers[i..] == tail[i - 1..];
      assert buffers[0] + (Flatten(tail[..i - 1]) + Flatten(tail[i - 1..]))
          == (buffers[0] + Flatten(tail[..i - 1])) + Flatten(tail[i - 1..]);
    }
  }

  lemma FlattenNext(buffers: seq<seq<octet>>, i: nat)
    requires i < |buffers|
    ensures Flatten(buffers[..i + 1]) == Flatten(buffers[..i]) + buffers[i]
  {
    assert buffers[..i + 1] == buffers[..i] + [buffers[i]];
    FlattenAppend(buffers[..i], buffers[i]);
  }

  /** One more buffer, after which the run has ended or not. */
  lemma NextBuffer(skip: SkipBody, q0: Parser, log0: Log, buffers: seq<seq<octet>>, i: nat,
                   q: Parser, log: Log, total: nat, f: Fed)
    requires i < |buffers| && f == Feed(skip, q, log, buffers[i])
    requires Feed(skip, q0, log0, Flatten(buffers[..i])) == Fed(q, log, total, Ran)
    ensures total == |Flatten(buffers[..i])|
    ensures Feed(skip, q0, log0, Flatten(buffers[..i + 1])) == Shift(f, total)
    ensures f.ending != Ran ==> Feed(skip, q0, log0, Flatten(buffers)) == Shift(f, total)
  {
    hide Feed, Flatten;
    FlattenNext(buffers, i);
    FlattenSplit(buffers, i + 1);
    FeedConcat(skip, q0, log0, Flatten(buffers[..i]), buffers[i]);
    FeedConcat(skip, q0, log0, Flatten(buffers[..i + 1]), Flatten(buffers[i + 1..]));
  }

  lemma EndedAs(skip: SkipBody, f: Aim, q: Parser, log: Log, data: seq<octet>, n: nat, e: Ending)
    requires Promise(skip, f, q, log, data, n, Ended(e))
    ensures f.run.q == q && f.run.n == n && f.run.ending == e
    ensures e == Broken <==> q.errno != Ok
    ensures e != Broken ==> f.run.log == log
    ensures e == Ran ==> n == |data|
  {
  }

  /**
   Buffer boundaries do not matter. However the input is cut into buffers, a parser whose
   callbacks neither pause nor fail ends in the same record, has consumed the same number
   of bytes and, unless the input is in error, has told its application the same, as the
   byte machine over the whole input; so any two ways to cut it agree.
   */
  method ExecuteBuffers(parser: HttpParser, buffers: seq<seq<octet>>, cb: Callbacks)
    returns (total: nat, ghost ending: Ending)
    requires parser.Valid() && parser.p.errno == Ok && Quiet(cb)
    requires !AtUpgrade(parser.p, Join(parser.trace))
    requires forall b :: b in buffers ==> b != []
    modifies parser
    ensures parser.Valid()
    ensures var f := Feed(cb.skipBody, old(parser.p), Join(old(parser.trace)), Flatten(buffers));
      && parser.p == f.q && total == f.n && ending == f.ending
      && (ending != Broken ==> Join(parser.trace) == f.log)
      && (ending == Broken <==> parser.p.errno != Ok)
  {
    hide Feed, Over, Join, HttpMachine.Valid, Flatten, Promise, AtUpgrade, ParserOk, PausesBy;
    ghost var skip, q0, log0 := cb.skipBody, parser.p, Join(parser.trace);
    ghost var h := Ahead(_ => true, []);
    total, ending := 0, Ran;
    NoBuffers(skip, q0, log0, buffers);
    for i := 0 to |buffers|
      invariant parser.Valid() && parser.p.errno == Ok && !AtUpgrade(parser.p, Join(parser.trace))
      invariant Feed(skip, q0, log0, Flatten(buffers[..i])) == Fed(parser.p, Join(parser.trace), total, Ran)
    {
      ghost var q, log := parser.p, Join(parser.trace);
      ghost var f := Feed(skip, q, log, buffers[i]);
      NextBuffer(skip, q0, log0, buffers, i, q, log, total, f);
      UpgradeSeen(skip, q, log, buffers[i]);
      assert buffers[i] in buffers;
      var n;
      ghost var how;
      n, how := parser.Execute(buffers[i], cb, h);
      EndedAs(skip, Target(cb, q, log, buffers[i], h), parser.p, Join(parser.trace), buffers[i], n, how.ending);
      total := total + n;
      if parser.p.errno != Ok || AtUpgrade(parser.p, Join(parser.trace)) {
        ending := how.ending;
        return;
      }
    }
    assert buffers[..|buffers|] == buffers;
  }

  lemma NoBuffers(skip: SkipBody, q: Parser, log: Log, buffers: seq<seq<octet>>)
    ensures Feed(skip, q, log, Flatten(buffers[..0])) == Fed(q, log, 0, Ran)
  {
    assert buffers[..0] == [];
  }

  lemma UpgradeSeen(skip: SkipBody, q: Parser, log: Log, data: seq<octet>)
    requires ParserOk(q, log) && q.errno == Ok && !AtUpgrade(q, log)
    ensures var f := Feed(skip, q, log, data);
      (f.ending == Ran ==> !AtUpgrade(f.q, f.log)) && (f.ending == Stopped ==> AtUpgrade(f.q, f.log))
  {
    hide Feed, AtUpgrade, HttpMachine.Valid;
    assert Resumed(q) == q;
    FeedUpgrade(skip, q, log, data);
  }

  // Pauses

  /** What is still to come, seen from position n, is the run held against, but for the count. */
  ghost predicate Remaining(skip: SkipBody, whole: Aim, q: Parser, log: Log, data: seq<octet>, n: nat) {
    && n <= |data|
    && LikeFed(Shift(Feed(skip, q, log, data[n..]), n), whole.run)
    && Covers(whole, Over(skip, whole.ahead.pauses, q, log, data[n..] + whole.ahead.more))
  }

  /** The same for a run that has ended. */
  ghost predicate Concluded(skip: SkipBody, whole: Aim, f: Fed) {
    && LikeFed(f, whole.run)
    && Covers(whole, if f.ending == Ran then Over(skip, whole.ahead.pauses, f.q, f.log, whole.ahead.more)
                     else f.q.errno == HeaderOverflow)
  }

  /** The run of one call of http_parser_execute, as part of a longer one. */
  ghost function Part(skip: SkipBody, whole: Aim, q: Parser, log: Log, data: seq<octet>): Aim {
    Aim(Feed(skip, q, log, data), Over(skip, whole.ahead.pauses, q, log, data + whole.ahead.more), whole.exact,
        whole.ahead)
  }

  /** A pause does not change what remains, whether or not the current byte was consumed. */
  lemma PauseRemains(skip: SkipBody, whole: Aim, q: Parser, log: Log, data: seq<octet>, n: nat,
                     q1: Parser, log1: Log, n1: nat, how: How)
    requires Remaining(skip, whole, q, log, data, n) && n <= |data|
    requires Promise(skip, Part(skip, whole, q, log, data[n..]), q1, log1, data[n..], n1, how)
    requires how == PausedAfter || how == PausedWithin
    requires HttpMachine.Valid(Resumed(q1))
    ensures q1.errno == Errno.Paused && n1 <= |data| - n
    ensures if AtUpgrade(q1, log1) then Concluded(skip, whole, Fed(Resumed(q1), log1, n + n1, Stopped))
            else Remaining(skip, whole, Resumed(q1), log1, data, n + n1)
  {
    hide Feed, Continue, Over, HttpMachine.Valid, Counted, AtUpgrade, LikeFed;
    assert data[n..][n1..] == data[n + n1..];
    var r := Resumed(q1);
    if AtUpgrade(q1, log1) {
      ResumedOk(q1);
    } else if how == PausedWithin {
      var rest := data[n + n1..];
      CountedTwice(skip, r, log1, rest);
      var x, y := Feed(skip, r, log1, rest), Continue(skip, r, log1, rest);
      ShiftLike(x, y, n + n1);
      LikeFedTrans(Shift(x, n + n1), Shift(y, n + n1), whole.run);
    }
  }

  lemma ResumedOk(q: Parser)
    requires HttpMachine.Valid(Resumed(q))
    ensures Resumed(q).errno == Ok
  {
  }

  lemma ShiftLike(x: Fed, y: Fed, n: nat)
    requires LikeFed(x, y)
    ensures LikeFed(Shift(x, n), Shift(y, n))
  {
  }

  lemma NothingRemains(skip: SkipBody, whole: Aim, q: Parser, log: Log, data: seq<octet>)
    requires Remaining(skip, whole, q, log, data, |data|)
    ensures Concluded(skip, whole, Fed(q, log, |data|, Ran))
  {
    hide Over;
    assert data[|data|..] == [] && [] + whole.ahead.more == whole.ahead.more;
  }

  lemma EndRemains(skip: SkipBody, whole: Aim, q: Parser, log: Log, data: seq<octet>, n: nat,
                   q1: Parser, log1: Log, n1: nat, e: Ending) returns (log2: Log)
    requires Remaining(skip, whole, q, log, data, n) && n <= |data|
    requires Promise(skip, Part(skip, whole, q, log, data[n..]), q1, log1, data[n..], n1, Ended(e))
    ensures (e != Broken ==> log2 == log1) && Concluded(skip, whole, Fed(q1, log2, n + n1, e))
  {
    hide Feed, Over;
    var f := Feed(skip, q, log, data[n..]);
    log2 := f.log;
    assert Shift(f, n) == Fed(q1, f.log, n + n1, e);
  }

  /**
   Pausing does not matter. An application that pauses the parser in any of its callbacks
   and, having resumed it, goes on at the returned offset, in the end has the record, the
   offset and has been told what it would have had without pausing, but for the count of
   header bytes: a byte that a callback does not consume is counted again. So the limit can
   be hit where it is not hit without pausing. Whether it is hit can be told before: if the
   application pauses by what it has been told, exactly if the input reaches the limit with
   the bytes counted again behind which it pauses; and never while there is room for all
   that comes to be counted twice.
   */
  method ExecuteThrough(parser: HttpParser, data: seq<octet>, cb: Callbacks, ghost h: Ahead)
    returns (total: nat, ghost ending: Ending)
    requires parser.Valid() && parser.p.errno == Ok && Harmless(cb) && PausesWithin(cb, h.pauses)
    modifies parser
    ensures parser.Valid() && parser.p.errno != Errno.Paused
    ensures var f := Feed(cb.skipBody, old(parser.p), Join(old(parser.trace)), data);
      parser.p.errno == HeaderOverflow ||
      (&& Like(parser.p, f.q) && total == f.n && ending == f.ending
       && (ending != Broken ==> Join(parser.trace) == f.log))
    ensures var over := Over(cb.skipBody, h.pauses, old(parser.p), Join(old(parser.trace)), data + h.more);
      var later := if ending == Ran then Over(cb.skipBody, h.pauses, parser.p, Join(parser.trace), h.more)
                   else parser.p.errno == HeaderOverflow;
      (later ==> over) && (PausesBy(cb, h.pauses) ==> later == over)
    ensures ending == Broken <==> parser.p.errno != Ok
    ensures old(parser.p.nread) + 2 * |data + h.more| <= HTTP_MAX_HEADER_SIZE ==> parser.p.errno != HeaderOverflow
  {
    hide Feed, Over, Join, HttpMachine.Valid, Promise, AtUpgrade, ParserOk, Remaining, Harmless;
    hide Concluded, PausesWithin, PausesBy;
    ghost var skip := cb.skipBody;
    ghost var whole := Target(cb, parser.p, Join(parser.trace), data, h);
    total, ending := 0, Ran;
    AllRemains(cb, parser.p, Join(parser.trace), data, h);
    BoundHolds(skip, h.pauses, parser.p, Join(parser.trace), data + h.more);
    while total < |data|
      invariant total <= |data| && parser.Valid() && parser.p.errno == Ok && ending == Ran
      invariant Remaining(skip, whole, parser.p, Join(parser.trace), data, total)
      decreases |data| - total, Rank(parser.p.state)
    {
      ghost var q, log := parser.p, Join(parser.trace);
      var n;
      ghost var how;
      n, how := parser.Execute(data[total..], cb, h);
      HowEnded(skip, Part(skip, whole, q, log, data[total..]), parser.p, Join(parser.trace), data[total..], n, how);
      if parser.p.errno != Errno.Paused {
        ghost var log2 := EndRemains(skip, whole, q, log, data, total, parser.p, Join(parser.trace), n, how.ending);
        total, ending := total + n, how.ending;
        ConcludedMeans(skip, whole, parser.p, log2, total, ending);
        return;
      }
      ParserResumes(parser.p, Join(parser.trace));
      PauseRemains(skip, whole, q, log, data, total, parser.p, Join(parser.trace), n, how);
      total := total + n;
      ghost var paused := parser.p;
      parser.PauseParser(false);
      assert parser.p == Resumed(paused);
      SameUpgrade(paused, Join(parser.trace));
      if AtUpgrade(parser.p, Join(parser.trace)) {
        ending := Stopped;
        ConcludedMeans(skip, whole, parser.p, Join(parser.trace), total, ending);
        return;
      }
    }
    NothingRemains(skip, whole, parser.p, Join(parser.trace), data);
    ConcludedMeans(skip, whole, parser.p, Join(parser.trace), total, ending);
  }

  lemma AllRemains(cb: Callbacks, q: Parser, log: Log, data: seq<octet>, h: Ahead)
    ensures Remaining(cb.skipBody, Target(cb, q, log, data, h), q, log, data, 0)
  {
    hide Feed, Over, PausesBy;
    assert data[0..] == data;
  }

  lemma ConcludedMeans(skip: SkipBody, whole: Aim, q: Parser, log: Log, n: nat, e: Ending)
    requires Concluded(skip, whole, Fed(q, log, n, e))
    ensures q.errno == HeaderOverflow ||
      (Like(q, whole.run.q) && n == whole.run.n && e == whole.run.ending && log == whole.run.log)
    ensures var later := if e == Ran then Over(skip, whole.ahead.pauses, q, log, whole.ahead.more)
                         else q.errno == HeaderOverflow;
      (later ==> whole.over) && (whole.exact ==> later == whole.over)
  {
    hide Over;
  }

  lemma SameUpgrade(q: Parser, log: Log)
    ensures AtUpgrade(Resumed(q), log) == AtUpgrade(q, log)
  {
  }

  lemma ParserResumes(q: Parser, log: Log)
    requires ParserOk(q, log) && q.errno == Errno.Paused
    ensures HttpMachine.Valid(Resumed(q))
  {
    hide HttpMachine.Valid;
  }

  /** errno tells the application whether the run has ended or was paused. */
  lemma HowEnded(skip: SkipBody, f: Aim, q1: Parser, log1: Log, data: seq<octet>, n: nat, how: How)
    requires Promise(skip, f, q1, log1, data, n, how) && how != Refused
    ensures q1.errno != Errno.Paused ==> how.Ended? && (how.ending == Broken <==> q1.errno != Ok)
    ensures q1.errno == Errno.Paused ==> how == PausedAfter || how == PausedWithin
  {
    hide Feed, Over;
  }

  // Pauses and buffers

  /** What is left of the input, buffer by buffer. */
  lemma FlattenFrom(buffers: seq<seq<octet>>, i: nat)
    requires i < |buffers|
    ensures Flatten(buffers[i..]) == buffers[i] + Flatten(buffers[i + 1..])
  {
    assert buffers[i..][1..] == buffers[i + 1..];
  }

  lemma LikeValid(q: Parser, r: Parser)
    requires HttpMachine.Valid(q) && Like(q, r)
    ensures HttpMachine.Valid(r)
  {
  }

  /**
   One more buffer of a run that is `done` bytes on, whose input still holds a and then b:
   the run has ended, or goes on with b.
   */
  lemma BufferRemains(skip: SkipBody, whole: Fed, q: Parser, log: Log, a: seq<octet>, b: seq<octet>, done: nat,
                      q1: Parser, log1: Log, n: nat, e: Ending)
    requires LikeFed(Shift(Feed(skip, q, log, a + b), done), whole)
    requires var f := Feed(skip, q, log, a);
      Like(q1, f.q) && n == f.n && e == f.ending && (e != Broken ==> log1 == f.log)
    requires q1.errno != HeaderOverflow && (e == Ran ==> HttpMachine.Valid(q1))
    ensures e == Ran ==> LikeFed(Shift(Feed(skip, q1, log1, b), done + n), whole)
    ensures e != Ran ==> Like(q1, whole.q) && done + n == whole.n && e == whole.ending && (e != Broken ==>
        log1 == whole.log)
  {
    var f := Feed(skip, q, log, a);
    hide Feed, HttpMachine.Valid;
    FeedConcat(skip, q, log, a, b);
    if e == Ran {
      LikeValid(q1, f.q);
      FeedLike(skip, q1, f.q, log1, b);
      var x, y := Feed(skip, q1, log1, b), Feed(skip, f.q, f.log, b);
      ShiftLike(x, y, done + n);
      LikeFedTrans(Shift(x, done + n), Shift(y, done + n), whole);
    }
  }

  /** The input in any buffers, and pauses in any callbacks: both at once do not matter either. */
  method ExecuteAll(parser: HttpParser, buffers: seq<seq<octet>>, cb: Callbacks, ghost pauses: Log -> bool)
    returns (total: nat, ghost ending: Ending)
    requires parser.Valid() && parser.p.errno == Ok && Harmless(cb) && PausesWithin(cb, pauses)
    requires !AtUpgrade(parser.p, Join(parser.trace))
    modifies parser
    ensures parser.Valid()
    ensures var f := Feed(cb.skipBody, old(parser.p), Join(old(parser.trace)), Flatten(buffers));
      parser.p.errno == HeaderOverflow ||
      (&& Like(parser.p, f.q) && total == f.n && ending == f.ending
       && (ending != Broken ==> Join(parser.trace) == f.log))
    ensures var over := Over(cb.skipBody, pauses, old(parser.p), Join(old(parser.trace)), Flatten(buffers));
      && (parser.p.errno == HeaderOverflow ==> over)
      && (PausesBy(cb, pauses) && over ==> parser.p.errno == HeaderOverflow)
    ensures old(parser.p.nread) + 2 * |Flatten(buffers)| <= HTTP_MAX_HEADER_SIZE ==> parser.p.errno != HeaderOverflow
  {
    hide Feed, Over, Join, HttpMachine.Valid, Flatten, AtUpgrade, ParserOk, Harmless, PausesWithin, PausesBy, LikeFed;
    ghost var skip, q0, log0, all := cb.skipBody, parser.p, Join(parser.trace), Flatten(buffers);
    ghost var whole := Feed(skip, q0, log0, all);
    ghost var over := Over(skip, pauses, q0, log0, all);
    total, ending := 0, Ran;
    AllToCome(cb, q0, log0, buffers);
    BoundHolds(skip, pauses, q0, log0, all);
    for i := 0 to |buffers|
      invariant parser.Valid() && parser.p.errno == Ok && !AtUpgrade(parser.p, Join(parser.trace))
      invariant LikeFed(Shift(Feed(skip, parser.p, Join(parser.trace), Flatten(buffers[i..])), total), whole)
      invariant var later := Over(skip, pauses, parser.p, Join(parser.trace), Flatten(buffers[i..]));
        (later ==> over) && (PausesBy(cb, pauses) ==> later == over)
    {
      ghost var q, log, rest := parser.p, Join(parser.trace), Flatten(buffers[i + 1..]);
      FlattenFrom(buffers, i);
      UpgradeSeen(skip, q, log, buffers[i]);
      ghost var f := Feed(skip, q, log, buffers[i]);
      var n;
      ghost var e;
      n, e := ExecuteThrough(parser, buffers[i], cb, Ahead(pauses, rest));
      if parser.p.errno == HeaderOverflow {
        return total + n, e;
      }
      OkIsValid(parser.p, Join(parser.trace));
      LikeUpgrade(parser.p, f.q, f.log);
      BufferRemains(skip, whole, q, log, buffers[i], rest, total, parser.p, Join(parser.trace), n, e);
      total := total + n;
      if parser.p.errno != Ok || AtUpgrade(parser.p, Join(parser.trace)) {
        ending := e;
        return;
      }
    }
    NoneToCome(skip, pauses, whole, parser.p, Join(parser.trace), buffers, total);
  }

  lemma NoneToCome(skip: SkipBody, pauses: Log -> bool, whole: Fed, q: Parser, log: Log, buffers: seq<seq<octet>>,
                   n: nat)
    requires LikeFed(Shift(Feed(skip, q, log, Flatten(buffers[|buffers|..])), n), whole)
    ensures LikeFed(Fed(q, log, n, Ran), whole) && !Over(skip, pauses, q, log, Flatten(buffers[|buffers|..]))
    ensures q.errno == HeaderOverflow || (Like(q, whole.q) && n == whole.n && Ran == whole.ending && log == whole.log)
  {
    assert buffers[|buffers|..] == [];
  }

  lemma LikeUpgrade(q: Parser, r: Parser, log: Log)
    requires Like(q, r)
    ensures AtUpgrade(q, log) == AtUpgrade(r, log)
  {
  }

  lemma BoundHolds(skip: SkipBody, pauses: Log -> bool, q: Parser, log: Log, data: seq<octet>)
    requires ParserOk(q, log) && q.errno == Ok
    ensures q.nread + 2 * |data| <= HTTP_MAX_HEADER_SIZE ==> !Over(skip, pauses, q, log, data)
  {
    hide HttpMachine.Valid, Over;
    OkIsValid(q, log);
    if q.nread + 2 * |data| <= HTTP_MAX_HEADER_SIZE {
      OverBound(skip, pauses, q, log, data);
    }
  }

  lemma AllToCome(cb: Callbacks, q: Parser, log: Log, buffers: seq<seq<octet>>)
    ensures LikeFed(Shift(Feed(cb.skipBody, q, log, Flatten(buffers[0..])), 0),
      Feed(cb.skipBody, q, log, Flatten(buffers)))
    ensures buffers[0..] == buffers
  {
    hide Feed;
  }

  lemma OkIsValid(q: Parser, log: Log)
    requires ParserOk(q, log)
    ensures q.errno == Ok ==> HttpMachine.Valid(q)
  {
    hide HttpMachine.Valid;
  }
}

/** What the machine makes of a piece of input, put together from what it makes of its bytes. */
module HttpReading {
  import opened Base
  import opened HttpTypes
  import opened HttpSwitch
  import opened HttpMachine
  import opened HttpTheorems

  const CRLF: seq<octet> := [CR, LF]

  /** The machine eats all of x and goes on from another configuration. */
  ghost predicate Eats(skip: SkipBody, q: Parser, log: Log, x: seq<octet>, q': Parser, log': Log) {
    Feed(skip, q, log, x) == Fed(q', log', |x|, Ran)
  }

  lemma EatsNothing(skip: SkipBody, q: Parser, log: Log)
    ensures Eats(skip, q, log, [], q, log)
  {
  }

  lemma EatsBoth(skip: SkipBody, q: Parser, log: Log, x: seq<octet>, q1: Parser, log1: Log,
                 y: seq<octet>, q2: Parser, log2: Log)
    requires Eats(skip, q, log, x, q1, log1) && Eats(skip, q1, log1, y, q2, log2)
    ensures Eats(skip, q, log, x + y, q2, log2)
  {
    hide Feed;
    FeedConcat(skip, q, log, x, y);
  }

  /** One byte, which is consumed when it is executed for the last time. */
  lemma EatsOne(skip: SkipBody, q: Parser, log: Log, ch: octet, q': Parser, log': Log)
    requires Count(q).errno == Ok && Finish(skip, Count(q), log, ch) == Next(q', log')
    ensures Eats(skip, q, log, [ch], q', log')
  {
    hide Count, Finish;
    var one := [ch];
    assert one[1..] == [];
    assert Feed(skip, q', log', one[1..]) == Fed(q', log', 0, Ran);
    assert Feed(skip, q, log, one) == Continue(skip, Count(q), log, one);
  }

  /** A byte whose step advances and tells nothing of it. */
  lemma EatsByte(skip: SkipBody, q: Parser, log: Log, ch: octet, q': Parser)
    requires Count(q).errno == Ok
    requires var s := Switch(Count(q), ch, 1);
      && s.then_ == Advance && s.mark.None? && s.q == q' && !s.call.Notify?
      && (s.call.NoCall? ==> Carry(Count(q).state).None?) && (s.call.DataCall? ==> !s.call.whole)
    ensures Eats(skip, q, log, [ch], q', log)
  {
    hide Switch;
    EatsOne(skip, q, log, ch, q', log);
  }

  /** A byte of data: the step advances without a callback, and the byte is told in the end. */
  lemma EatsData(skip: SkipBody, q: Parser, log: Log, ch: octet, k: DataKind, q': Parser)
    requires Count(q).errno == Ok
    requires var s := Switch(Count(q), ch, 1);
      && s.then_ == Advance && s.call.NoCall? && s.q == q'
      && (if s.mark.Some? then s.mark else Carry(Count(q).state)) == Some(k)
    ensures Eats(skip, q, log, [ch], q', Push(log, DataOf(k, [ch])))
  {
    hide Switch, Push;
    EatsOne(skip, q, log, ch, q', Push(log, DataOf(k, [ch])));
  }

  /** A byte at which a mark is set and the data told, so that they are empty. */
  lemma EatsEmpty(skip: SkipBody, q: Parser, log: Log, ch: octet, k: DataKind, q': Parser)
    requires Count(q).errno == Ok
    requires var s := Switch(Count(q), ch, 1);
      s == Step(q', Some(k), 0, DataCall(k, false, true), Advance)
    ensures Eats(skip, q, log, [ch], q', Push(log, DataOf(k, [])))
  {
    hide Switch, Push;
    EatsOne(skip, q, log, ch, q', Push(log, DataOf(k, [])));
  }

  /** The run has ended because a length is too long. */
  predicate Refused(f: Fed) {
    f.ending == Broken && f.q.errno == InvalidContentLength
  }

  lemma RefusedEarly(skip: SkipBody, q: Parser, log: Log, x: seq<octet>, y: seq<octet>)
    requires Refused(Feed(skip, q, log, x))
    ensures Refused(Feed(skip, q, log, x + y))
  {
    hide Feed;
    FeedConcat(skip, q, log, x, y);
  }
}

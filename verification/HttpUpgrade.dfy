/** When a message asks for an upgrade, the parser leaves at its end, and only then. */
module HttpUpgrade {
  import opened HttpTypes
  import opened HttpSwitch
  import opened HttpMachine
  import opened HttpShape
  import opened HttpExecute

  /** Only the end of the headers decides about an upgrade. */
  predicate KeepsUpgrade(q: Parser, s: Step) {
    s.q.upgrade == q.upgrade || (s.call.Notify? && s.call.note == HeadersComplete)
  }

  lemma LinesKeepUpgrade(q: Parser, ch: octet)
    ensures KeepsUpgrade(q, OnStart(q, ch)) && KeepsUpgrade(q, OnStatusLine(q, ch))
    ensures KeepsUpgrade(q, OnRequestLine(q, ch))
  {
    hide MajorDigits, MinorDigits, AddDigit, Digit;
    DigitsKeepUpgrade(q, ch, ResFirstHttpMinor);
    DigitsKeepUpgrade(q, ch, ReqFirstHttpMinor);
  }

  lemma DigitsKeepUpgrade(q: Parser, ch: octet, dot: State)
    ensures KeepsUpgrade(q, MajorDigits(q, ch, dot)) && KeepsUpgrade(q, MinorDigits(q, ch))
  {
    hide AddDigit;
  }

  lemma RequestKeepsUpgrade(q: Parser, ch: octet)
    ensures KeepsUpgrade(q, OnMethod(q, ch)) && KeepsUpgrade(q, OnUrl(q, ch))
  {
    hide ToUrl, MethodString, OtherMethod, FirstMethod, MethodErrno;
    UrlKeepsUpgrade(q, q.state, ch);
    UrlKeepsUpgrade(q, ReqServerStart, ch);
  }

  lemma UrlKeepsUpgrade(q: Parser, from: State, ch: octet)
    ensures KeepsUpgrade(q, ToUrl(q, from, ch))
  {
    hide UrlChar;
  }

  lemma FieldsKeepUpgrade(q: Parser, ch: octet)
    ensures KeepsUpgrade(q, OnHeaderFieldStart(q, ch)) && KeepsUpgrade(q, OnHeaderField(q, ch))
  {
    hide Token, At;
  }

  lemma ValuesKeepUpgrade(q: Parser, ch: octet)
    ensures KeepsUpgrade(q, OnHeaderValueStart(q, ch)) && KeepsUpgrade(q, OnHeaderValue(q, ch))
  {
    hide LowerIs, At, AddLengthDigit;
  }

  lemma EndsKeepUpgrade(q: Parser, ch: octet)
    ensures KeepsUpgrade(q, OnHeaderEnd(q, ch)) && KeepsUpgrade(q, OnHeadersEnd(q, ch))
    ensures KeepsUpgrade(q, OnBody(q, ch, 1)) && KeepsUpgrade(q, OnChunk(q, ch, 1))
  {
    hide NewMessage, MessageNeedsEof, AddLengthDigit, Unhex;
  }

  lemma StepKeepsUpgrade(q: Parser, ch: octet)
    ensures KeepsUpgrade(q, Switch(q, ch, 1))
  {
    hide OnStart, OnStatusLine, OnMethod, OnUrl, OnRequestLine, OnHeaderFieldStart, OnHeaderField, KeepsUpgrade;
    hide OnHeaderValueStart, OnHeaderValue, OnHeaderEnd, OnHeadersEnd, OnBody, OnChunk;
    LinesKeepUpgrade(q, ch);
    RequestKeepsUpgrade(q, ch);
    FieldsKeepUpgrade(q, ch);
    ValuesKeepUpgrade(q, ch);
    EndsKeepUpgrade(q, ch);
  }

  /** The end of a message, in the states that can tell it. */
  lemma CompleteLeaves(q: Parser, ch: octet)
    requires Counted(q)
    ensures var s := Switch(q, ch, 1);
      && (s.call.Notify? && s.call.note == MessageComplete ==> (s.then_ == Leave <==> s.q.upgrade))
      && (s.then_ == Leave ==> s.call.Notify? && s.call.note == MessageComplete)
  {
    if Bulk(q.state) {
      BulkTells(q, ch);
    } else {
      StepShape(q, ch, 1);
      var s := Switch(q, ch, 1);
      if s.call.Notify? && s.call.note == MessageComplete {
        assert Switched(q, ch, 1, s);
        hide Switch;
        LeaveIsUpgrade(q, ch, 1, s);
      }
      hide Switch;
    }
  }

  lemma BulkTells(q: Parser, ch: octet)
    requires Bulk(q.state)
    ensures !Switch(q, ch, 1).call.Notify? && Switch(q, ch, 1).then_ != Leave
  {
  }

  /** One byte: the parser stands at an upgrade after it exactly when it left the buffer there. */
  lemma {:induction false} FinishUpgrade(skip: SkipBody, q: Parser, log: Log, ch: octet)
    requires Counted(q) && !AtUpgrade(q, log)
    ensures var r := Finish(skip, q, log, ch);
      && (r.Next? ==> !AtUpgrade(r.q, r.log) && Valid(r.q))
      && (r.Left? ==> AtUpgrade(r.q, r.log))
    decreases Rank(q.state)
  {
    hide Switch, Counted, Kept, Rank, LogStep, Answered, AtUpgrade;
    var s := Switch(q, ch, 1);
    var log1 := LogStep(q, s, log, ch);
    var q1 := AfterStep(skip, s, log1);
    StepUpgrade(skip, q, log, ch);
    if s.then_ == Again {
      AgainDecreases(q, ch, 1);
      FinishUpgrade(skip, q1, log1, ch);
    }
  }

  /** One step: the parser stands at an upgrade after it exactly when it leaves. */
  lemma StepUpgrade(skip: SkipBody, q: Parser, log: Log, ch: octet)
    requires Counted(q) && !AtUpgrade(q, log)
    ensures var s := Switch(q, ch, 1);
      var log1 := LogStep(q, s, log, ch);
      var q1 := AfterStep(skip, s, log1);
      && (s.then_ == Advance ==> !AtUpgrade(q1, log1) && Valid(q1))
      && (s.then_ == Again ==> !AtUpgrade(q1, log1) && Counted(q1))
      && (s.then_ == Leave ==> AtUpgrade(q1, log1))
  {
    hide Switch, Counted, Sane, Valid;
    var s := Switch(q, ch, 1);
    var log1 := LogStep(q, s, log, ch);
    var q1 := AfterStep(skip, s, log1);
    StepKeeps(q, ch, 1);
    StepKeepsUpgrade(q, ch);
    CompleteLeaves(q, ch);
    if s.call.Notify? {
      LastTold(q1, log, NoteOf(s.call.note));
      AnsweredKeeps(skip, s.q, log1, s.call.note);
    } else if log1 != log {
      LogStepData(q, s, log, ch, q1);
    }
  }

  lemma LogStepData(q: Parser, s: Step, log: Log, ch: octet, q1: Parser)
    requires !s.call.Notify? && LogStep(q, s, log, ch) != log
    ensures !AtUpgrade(q1, LogStep(q, s, log, ch))
  {
  }

  /** A run stands at an upgrade in the end exactly when it was stopped by one. */
  lemma {:induction false} FeedUpgrade(skip: SkipBody, q: Parser, log: Log, data: seq<octet>)
    requires Valid(q) && !AtUpgrade(q, log)
    ensures var f := Feed(skip, q, log, data);
      && (f.ending == Ran ==> !AtUpgrade(f.q, f.log) && Valid(f.q))
      && (f.ending == Stopped ==> AtUpgrade(f.q, f.log))
    decreases |data|
  {
    hide Finish, Sane, AtUpgrade;
    if data == [] {
    } else {
      CountKeeps(q);
      if Count(q).errno == Ok {
        CountUpgrade(q, log);
        FinishUpgrade(skip, Count(q), log, data[0]);
        var r := Finish(skip, Count(q), log, data[0]);
        if r.Next? {
          FeedUpgrade(skip, r.q, r.log, data[1..]);
        }
      }
    }
  }

  lemma CountUpgrade(q: Parser, log: Log)
    ensures AtUpgrade(Count(q), log) == AtUpgrade(q, log)
  {
  }
}

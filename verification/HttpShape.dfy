/** How the switch of the parser uses marks, callbacks and the position in the buffer. */
module HttpShape {
  import opened Base
  import opened HttpTypes
  import opened HttpSwitch
  import opened HttpMachine

  /** The states that take a body out of the buffer in bulk. */
  predicate Bulk(s: State) {
    s.BodyIdentity? || s.BodyIdentityEof? || s.ChunkData?
  }

  /** What a step does with marks and callbacks, in any state that takes one byte. */
  predicate Shape(q: Parser, s: Step) {
    && s.skip == 0
    && (s.then_ == Advance || s.then_ == Again ==> !s.q.state.ChunkDataAlmostDone?)
    // a mark is set where data begin, and nowhere else
    && (s.mark.Some? ==> Carry(q.state).None? && !q.state.ChunkDataAlmostDone? && s.mark != Some(BodyData))
    && match s.call
       case NoCall =>
         && s.then_ != Leave
         && (s.then_ == Advance ==>
             && Carry(s.q.state) == (if s.mark.Some? then s.mark else Carry(q.state))
             && !q.state.ChunkDataAlmostDone?)
         && (s.then_ == Again ==>
             s.mark.None? && Carry(q.state).None? && Carry(s.q.state).None? && !q.state.ChunkDataAlmostDone?)
       // data are flushed where they end
       case DataCall(k, whole, eats) =>
         && !whole && Carry(s.q.state).None?
         && (if s.mark.Some? then s.mark == Some(k)
             else if q.state.ChunkDataAlmostDone? then k == BodyData && eats
             else Carry(q.state) == Some(k))
         && s.then_ == (if eats then Advance else Again)
       // and nothing is pending when something else is told
       case Notify(note, eats) =>
         && s.mark.None? && Carry(q.state).None? && Carry(s.q.state).None? && !q.state.ChunkDataAlmostDone?
         && (if eats then s.then_ == Advance || s.then_ == Leave else s.then_ == Again)
         && (s.then_ == Leave ==> note == MessageComplete)
         && (note == MessageComplete ==> q.state.HeadersAlmostDone? || q.state.HeadersDone? || q.state.MessageDone?)
  }

  lemma UrlShape(q: Parser, ch: octet)
    requires InUrl(q.state) || q.state.ReqSpacesBeforeUrl?
    ensures Shape(q, OnUrl(q, ch))
  {
    hide UrlChar;
    UrlCharStays(if q.state.ReqSpacesBeforeUrl? && q.verb == CONNECT then ReqServerStart else q.state, ch);
  }

  lemma FieldShape(q: Parser, ch: octet)
    requires q.state.HeaderField?
    ensures Shape(q, OnHeaderField(q, ch))
  {
    var s := FieldChar(q, ch, Token(ch));
    assert s.then_ in {Advance, Abort} && s.mark.None? && s.skip == 0 && s.call.NoCall? && s.q.state == q.state by {
      hide Token, At;
    }
    hide FieldChar, Token;
  }

  lemma ValueShape(q: Parser, ch: octet)
    requires q.state.HeaderValue?
    ensures Shape(q, OnHeaderValue(q, ch))
  {
    var s := ValueChar(q, ch);
    assert s.then_ in {Advance, Abort, Fail} && s.mark.None? && s.skip == 0 && s.call.NoCall? && s.q.state
      == q.state by {
      hide AddLengthDigit, At, LowerIs;
    }
    hide ValueChar;
  }

  lemma HeaderShape(q: Parser, ch: octet)
    ensures q.state.HeaderFieldStart? ==> Shape(q, OnHeaderFieldStart(q, ch))
    ensures q.state.HeaderValueStart? ==> Shape(q, OnHeaderValueStart(q, ch))
    ensures q.state.HeaderAlmostDone? || q.state.HeaderValueLws? ==> Shape(q, OnHeaderEnd(q, ch))
  {
    hide Token, LowerIs;
  }

  lemma NewMessageState(q: Parser)
    ensures NewMessage(q).StartReq? || NewMessage(q).StartRes? || NewMessage(q).Dead?
  {
    hide ShouldKeepAlive;
  }

  lemma HeadersEndShape(q: Parser, ch: octet)
    requires q.state.HeadersAlmostDone? || q.state.HeadersDone?
    ensures Shape(q, OnHeadersEnd(q, ch))
  {
    NewMessageState(q);
    NewMessageState(q.(nread := 0));
    hide NewMessage, MessageNeedsEof;
  }

  /** Lines of text: nothing is marked, and nothing is told. */
  predicate Unmarked(s: State) {
    Carry(s).None? && !s.ChunkDataAlmostDone?
  }

  lemma MovesShape(q: Parser)
    requires Unmarked(q.state)
    ensures forall r, s :: Unmarked(s) ==> Shape(q, GoTo(r, s))
    ensures forall r: Parser :: r.state == q.state ==> Shape(q, Go(r))
    ensures forall r, e :: Shape(q, Error(r, e))
  {
  }

  lemma StatusLineShape(q: Parser, ch: octet)
    requires InStatusLine(q.state)
    ensures Shape(q, OnStatusLine(q, ch))
  {
    hide Shape, Go, GoTo, Error, AddDigit, Digit;
    MovesShape(q);
  }

  lemma RequestLineShape(q: Parser, ch: octet)
    requires InRequestLine(q.state)
    ensures Shape(q, OnRequestLine(q, ch))
  {
    hide Shape, Go, GoTo, Error, AddDigit, Digit;
    MovesShape(q);
  }

  lemma StartShape(q: Parser, ch: octet)
    ensures q.state in {Dead, StartReqOrRes, ResOrRespH, StartRes} ==> Shape(q, OnStart(q, ch))
    ensures q.state in {StartReq, ReqMethod} ==> Shape(q, OnMethod(q, ch))
  {
    hide OtherMethod, MethodString, At, MethodErrno;
  }

  lemma ChunkShape(q: Parser, ch: octet, left: nat)
    requires left > 0 && InChunk(q.state) && !Bulk(q.state)
    ensures Shape(q, OnChunk(q, ch, left)) && OnChunk(q, ch, left) == OnChunk(q, ch, 1)
  {
    hide AddLengthDigit, Unhex;
  }

  /** Every state but the bulk ones takes one byte, whatever follows in the buffer. */
  lemma StepShape(q: Parser, ch: octet, left: nat)
    requires left > 0 && !Bulk(q.state)
    ensures Shape(q, Switch(q, ch, left)) && Switch(q, ch, left) == Switch(q, ch, 1)
  {
    hide OnStart, OnStatusLine, OnMethod, OnUrl, OnRequestLine, OnHeaderFieldStart, OnHeaderField;
    hide OnHeaderValueStart, OnHeaderValue, OnHeaderEnd, OnHeadersEnd, OnBody, OnChunk, Shape;
    match q.state {
      case Dead => StartShape(q, ch);
      case StartReqOrRes => StartShape(q, ch);
      case ResOrRespH => StartShape(q, ch);
      case StartRes => StartShape(q, ch);
      case StartReq => StartShape(q, ch);
      case ReqMethod => StartShape(q, ch);
      case HeaderFieldStart => HeaderShape(q, ch);
      case HeaderValueStart => HeaderShape(q, ch);
      case HeaderValueLws => HeaderShape(q, ch);
      case HeaderAlmostDone => HeaderShape(q, ch);
      case HeaderField => FieldShape(q, ch);
      case HeaderValue => ValueShape(q, ch);
      case HeadersAlmostDone => HeadersEndShape(q, ch);
      case HeadersDone => HeadersEndShape(q, ch);
      case MessageDone => MessageDoneShape(q, ch, left);
      case _ =>
        if InUrl(q.state) || q.state.ReqSpacesBeforeUrl? {
          UrlShape(q, ch);
        } else if InStatusLine(q.state) {
          StatusLineShape(q, ch);
        } else if InRequestLine(q.state) {
          RequestLineShape(q, ch);
        } else if InChunk(q.state) {
          ChunkShape(q, ch, left);
        }
    }
  }

  lemma MessageDoneShape(q: Parser, ch: octet, left: nat)
    requires left > 0 && q.state.MessageDone?
    ensures Shape(q, OnBody(q, ch, left)) && OnBody(q, ch, left) == OnBody(q, ch, 1)
  {
    NewMessageState(q);
    hide NewMessage;
  }
}

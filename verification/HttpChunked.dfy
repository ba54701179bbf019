/**
 Chunked bodies (section 3.6.1 of RFC 2616): what is encoded is what the application is told.
 Sizes are any hexadecimal numbers, in any case of letters and with leading zeros; chunks may
 have extensions, and a trailer may follow.
 */
module HttpChunked {
  import opened HttpTypes
  import opened HttpSwitch
  import opened HttpMachine
  import opened HttpExecute
  import opened HttpTheorems
  import opened HttpReading
  import opened HttpLines
  import opened HttpLength

  /** A chunk, with the text that gives its size. */
  datatype Chunk = Chunk(size: seq<octet>, extension: seq<octet>, data: seq<octet>)

  /** The last chunk and the trailer. */
  datatype Last = Last(size: seq<octet>, extension: seq<octet>, trailer: seq<Header>)

  predicate IsExtension(x: seq<octet>) {
    (x != [] ==> x[0] == ';' || x[0] == ' ') && forall i :: 0 <= i < |x| ==> x[i] != CR
  }

  /** The line in front of a chunk gives its size, and stays under the limit on header bytes. */
  predicate IsSizeLine(size: seq<octet>, extension: seq<octet>, n: nat) {
    && IsSize(size) && Value(16, SizeDigits(size)) == n < NO_LENGTH
    && IsExtension(extension) && |size| + |extension| + 2 <= HTTP_MAX_HEADER_SIZE
  }

  predicate IsChunk(c: Chunk) {
    IsSizeLine(c.size, c.extension, |c.data|) && c.data != []
  }

  predicate IsLast(e: Last) {
    IsSizeLine(e.size, e.extension, 0) && NoneKnown(e.trailer) && |Lines(e.trailer)| + 2 <= HTTP_MAX_HEADER_SIZE
  }

  function EncodeChunk(c: Chunk): seq<octet> {
    c.size + c.extension + CRLF + c.data + CRLF
  }

  /** Chunked-Body. */
  function Encode(chunks: seq<Chunk>, e: Last): seq<octet> {
    if chunks == [] then e.size + e.extension + CRLF + Lines(e.trailer) + CRLF
    else EncodeChunk(chunks[0]) + Encode(chunks[1..], e)
  }

  /** The body that is encoded. */
  function BodyOf(chunks: seq<Chunk>): seq<octet> {
    if chunks == [] then [] else chunks[0].data + BodyOf(chunks[1..])
  }

  predicate Encodable(chunks: seq<Chunk>) {
    forall c :: c in chunks ==> IsChunk(c)
  }

  /** Every body can be encoded, in chunks of any lengths. */
  lemma EveryChunk(data: seq<octet>)
    requires 0 < |data| < NO_LENGTH
    ensures IsChunk(Chunk(Hex(|data|), [], data))
  {
    hide IsSize, Hex, Value;
    ValueHex(|data|);
    HexFits(|data|);
  }

  // The line with the size

  lemma ExtensionStep(q: Parser, ch: octet)
    requires q.flags.chunked && ch != CR
    requires q.state.ChunkParameters? || (q.state.ChunkSize? && (ch == ';' || ch == ' '))
    ensures Switch(q, ch, 1) == Go(q.(state := ChunkParameters))
  {
    assert ch == ';' || ch == ' ' ==> Unhex(ch) == -1;
    hide Unhex, AddLengthDigit;
  }

  lemma {:induction false} ExtensionRead(skip: SkipBody, q: Parser, log: Log, x: seq<octet>)
    requires q.errno == Ok && q.state.ChunkSize? && q.flags.chunked
    requires x != [] && IsExtension(x) && q.nread + |x| <= HTTP_MAX_HEADER_SIZE
    ensures Eats(skip, q, log, x, q.(state := ChunkParameters, nread := q.nread + |x|), log)
    decreases |x|
  {
    hide Eats, Switch;
    var n := |x| - 1;
    var front, ch := x[..n], x[n];
    assert x == front + [ch];
    var q2 := q.(state := ChunkParameters, nread := q.nread + |x|);
    if front == [] {
      assert x == [ch];
      ExtensionStep(q.(nread := q.nread + 1), ch);
      EatsByte(skip, q, log, ch, q2);
    } else {
      ExtensionRead(skip, q, log, front);
      var q1 := q.(state := ChunkParameters, nread := q.nread + n);
      ExtensionStep(q1.(nread := q1.nread + 1), ch);
      EatsByte(skip, q1, log, ch, q2);
      EatsBoth(skip, q, log, front, q1, log, [ch], q2, log);
    }
  }

  lemma SizeCrStep(q: Parser)
    requires q.flags.chunked && (q.state.ChunkSize? || q.state.ChunkParameters?)
    ensures Switch(q, CR, 1) == GoTo(q, ChunkSizeAlmostDone)
  {
  }

  /** Behind the line the data follow, or the trailer. */
  function BehindSize(q: Parser): Parser {
    if q.contentLength == 0 then q.(nread := 0, flags := q.flags.(trailing := true), state := HeaderFieldStart)
    else q.(nread := 0, state := ChunkData)
  }

  lemma SizeLfStep(q: Parser)
    requires q.flags.chunked && q.state.ChunkSizeAlmostDone?
    ensures Switch(q, LF, 1) == Go(BehindSize(q))
  {
  }

  lemma SizeEnd(skip: SkipBody, q: Parser, log: Log)
    requires q.errno == Ok && q.flags.chunked && (q.state.ChunkSize? || q.state.ChunkParameters?)
    requires q.nread + 2 <= HTTP_MAX_HEADER_SIZE
    ensures Eats(skip, q, log, CRLF, BehindSize(q), log)
  {
    hide Eats, Switch;
    var q1 := q.(state := ChunkSizeAlmostDone, nread := q.nread + 1);
    SizeCrStep(q.(nread := q.nread + 1));
    EatsByte(skip, q, log, CR, q1);
    SizeLfStep(q1.(nread := q1.nread + 1));
    EatsByte(skip, q1, log, LF, BehindSize(q));
    EatsBoth(skip, q, log, [CR], q1, log, [LF], BehindSize(q), log);
    assert [CR] + [LF] == CRLF;
  }

  /** The line with the size of a chunk. */
  lemma SizeLine(skip: SkipBody, q: Parser, log: Log, size: seq<octet>, extension: seq<octet>, n: nat)
    requires Valid(q) && q.state.ChunkSizeStart? && IsSizeLine(size, extension, n)
    ensures Eats(skip, q, log, size + extension + CRLF, BehindSize(q.(contentLength := n)), log)
  {
    hide Eats, Valid, IsSize, Value, Accumulate, IsExtension;
    ChunkState(q);
    SizeRead(skip, q, log, size);
    LengthExact(16, SizeDigits(size));
    var q1 := InSize(q, n, |size|);
    var q2 := if extension == [] then q1 else q1.(state := ChunkParameters, nread := |size| + |extension|);
    if extension == [] {
      EatsNothing(skip, q1, log);
    } else {
      ExtensionRead(skip, q1, log, extension);
    }
    EatsBoth(skip, q, log, size, q1, log, extension, q2, log);
    SizeEnd(skip, q2, log);
    assert BehindSize(q2) == BehindSize(q.(contentLength := n));
    EatsBoth(skip, q, log, size + extension, q2, log, CRLF, BehindSize(q2), log);
  }

  // The data

  /** The data of a chunk are told as they are. */
  lemma DataRead(skip: SkipBody, q: Parser, log: Log, data: seq<octet>)
    requires q.errno == Ok && q.state.ChunkData? && q.flags.chunked
    requires data != [] && q.contentLength == |data| < NO_LENGTH
    ensures Eats(skip, q, log, data, q.(contentLength := 0, state := ChunkDataAlmostDone), PushBody(log, data))
  {
    hide PushBody, Finish, Count;
    var n := |data|;
    var last := q.(contentLength := 1);
    var front := data[..n - 1];
    var h := Ahead(_ => false, []);
    BodyRun(skip, q, log, data, h, n - 1);
    LastChunkByte(skip, last, PushBody(log, front), data[n - 1..], h);
    PushBodyTwice(log, front, [data[n - 1]]);
    assert data[n - 1..][1..] == [] && front + [data[n - 1]] == data;
  }

  lemma DataCr(skip: SkipBody, q: Parser, log: Log)
    requires q.errno == Ok && q.state.ChunkDataAlmostDone? && q.flags.chunked && q.contentLength == 0
    ensures Eats(skip, q, log, [CR], q.(state := ChunkDataDone), log)
  {
    EatsByte(skip, q, log, CR, q.(state := ChunkDataDone));
  }

  lemma DataLf(skip: SkipBody, q: Parser, log: Log)
    requires q.errno == Ok && q.state.ChunkDataDone? && q.flags.chunked
    ensures Eats(skip, q, log, [LF], q.(nread := 0, state := ChunkSizeStart), log)
  {
    EatsByte(skip, q, log, LF, q.(nread := 0, state := ChunkSizeStart));
  }

  /** One chunk: its data are told, and the parser is back where it was. */
  lemma ChunkRead(skip: SkipBody, q: Parser, log: Log, c: Chunk)
    requires Valid(q) && q.state.ChunkSizeStart? && IsChunk(c)
    ensures Eats(skip, q, log, EncodeChunk(c), q.(contentLength := 0), PushBody(log, c.data))
    ensures Valid(q.(contentLength := 0))
  {
    ChunkState(q);
    hide Eats, IsSize, Value, PushBody, IsExtension;
    var log1 := PushBody(log, c.data);
    var line := c.size + c.extension + CRLF;
    SizeLine(skip, q, log, c.size, c.extension, |c.data|);
    var q1 := q.(nread := 0, contentLength := |c.data|, state := ChunkData);
    DataRead(skip, q1, log, c.data);
    var q2 := q1.(contentLength := 0, state := ChunkDataAlmostDone);
    EatsBoth(skip, q, log, line, q1, log, c.data, q2, log1);
    DataCr(skip, q2, log1);
    var q3 := q2.(state := ChunkDataDone);
    DataLf(skip, q3, log1);
    EatsBoth(skip, q2, log1, [CR], q3, log1, [LF], q.(contentLength := 0), log1);
    assert [CR] + [LF] == CRLF;
    EatsBoth(skip, q, log, line + c.data, q2, log1, CRLF, q.(contentLength := 0), log1);
  }

  // The end of the body

  lemma EndLfStep(q: Parser)
    requires q.state.HeadersAlmostDone? && q.flags.trailing
    ensures Switch(q, LF, 1) == Told(q.(state := NewMessage(q)), MessageComplete)
  {
    hide NewMessage;
  }

  lemma EndLf(skip: SkipBody, q: Parser, log: Log)
    requires q.errno == Ok && q.state.HeadersAlmostDone? && q.flags.trailing && q.nread < HTTP_MAX_HEADER_SIZE
    ensures Eats(skip, q, log, [LF], q.(nread := q.nread + 1, state := NewMessage(q)),
                 Push(log, NoteOf(MessageComplete)))
  {
    hide Switch, Push, Eats;
    var q1 := q.(nread := q.nread + 1);
    EndLfStep(q1);
    assert NewMessage(q1) == NewMessage(q);
    hide NewMessage;
    EatsOne(skip, q, log, LF, q.(nread := q.nread + 1, state := NewMessage(q)), Push(log, NoteOf(MessageComplete)));
  }

  /** The parser in front of the trailer. */
  function AtTrailer(q: Parser): Parser {
    q.(nread := 0, contentLength := 0, flags := q.flags.(trailing := true), state := HeaderFieldStart)
  }

  /** The parser at the end of a chunked message. */
  function Completed(q: Parser, e: Last): Parser {
    var q1 := AfterLines(AtTrailer(q), e.trailer);
    q1.(state := NewMessage(AtTrailer(q)), nread := q1.nread + 2)
  }

  lemma NewMessageAlike(q: Parser, r: Parser)
    requires q.kind == r.kind && q.flags == r.flags && q.contentLength == r.contentLength
    requires q.httpMajor == r.httpMajor && q.httpMinor == r.httpMinor && q.statusCode == r.statusCode
    ensures NewMessage(q) == NewMessage(r)
  {
  }

  /** The last chunk and the trailer. */
  lemma EndRead(skip: SkipBody, q: Parser, log: Log, e: Last)
    requires Valid(q) && q.state.ChunkSizeStart? && IsLast(e)
    ensures Eats(skip, q, log, Encode([], e), Completed(q, e),
                 Push(AllTold(log, e.trailer), NoteOf(MessageComplete)))
  {
    ChunkState(q);
    hide Eats, IsSize, Value, IsExtension, Push, Valid, NoneKnown, AllTold, NewMessage;
    var line, lines := e.size + e.extension + CRLF, Lines(e.trailer);
    var q1 := AtTrailer(q);
    SizeLine(skip, q, log, e.size, e.extension, 0);
    LinesRead(skip, q1, log, e.trailer);
    var q2, log1 := AfterLines(q1, e.trailer), AllTold(log, e.trailer);
    EatsBoth(skip, q, log, line, q1, log, lines, q2, log1);
    AfterLinesCount(q1, e.trailer);
    HeadersCr(skip, q2, log1);
    var q3 := q2.(state := HeadersAlmostDone, nread := q2.nread + 1);
    EndLf(skip, q3, log1);
    NewMessageAlike(q3, q1);
    var log2 := Push(log1, NoteOf(MessageComplete));
    EatsBoth(skip, q2, log1, [CR], q3, log1, [LF], Completed(q, e), log2);
    assert [CR] + [LF] == CRLF;
    EatsBoth(skip, q, log, line + lines, q2, log1, CRLF, Completed(q, e), log2);
  }

  /**
   The chunked round trip: a parser that expects a chunk, given any chunks encoded as
   section 3.6.1 of RFC 2616 prescribes, eats every byte, tells the application the
   original body, the headers of the trailer and then, once, that the message is complete.
   */
  lemma {:induction false} ChunkedRoundTrip(skip: SkipBody, q: Parser, log: Log, chunks: seq<Chunk>, e: Last)
    requires Valid(q) && q.state.ChunkSizeStart? && Encodable(chunks) && IsLast(e)
    ensures Eats(skip, q, log, Encode(chunks, e), Completed(q, e),
                 Push(AllTold(PushBody(log, BodyOf(chunks)), e.trailer), NoteOf(MessageComplete)))
    decreases |chunks|
  {
    hide Eats, Valid, Completed, EncodeChunk, PushBody, Push, IsChunk, IsLast, AllTold;
    if chunks == [] {
      EndRead(skip, q, log, e);
      NoBody(log);
    } else {
      var c, q1 := chunks[0], q.(contentLength := 0);
      assert c in chunks;
      ChunkRead(skip, q, log, c);
      ChunkedRoundTrip(skip, q1, PushBody(log, c.data), chunks[1..], e);
      PushBodyTwice(log, c.data, BodyOf(chunks[1..]));
      CompletedAlike(q, e);
      EatsBoth(skip, q, log, EncodeChunk(c), q1, PushBody(log, c.data), Encode(chunks[1..], e), Completed(q, e),
               Push(AllTold(PushBody(log, BodyOf(chunks)), e.trailer), NoteOf(MessageComplete)));
    }
  }

  lemma NoBody(log: Log)
    ensures PushBody(log, []) == log
  {
  }

  lemma CompletedAlike(q: Parser, e: Last)
    ensures Completed(q.(contentLength := 0), e) == Completed(q, e)
  {
    hide AfterLines, NewMessage;
  }

  /** The same through http_parser_execute, with the encoding cut into buffers in any way. */
  method ReadChunked(parser: HttpParser, chunks: seq<Chunk>, e: Last, buffers: seq<seq<octet>>, cb: Callbacks)
    returns (total: nat)
    requires parser.Valid() && parser.p.errno == Ok && parser.p.state.ChunkSizeStart? && Quiet(cb)
    requires Encodable(chunks) && IsLast(e) && Flatten(buffers) == Encode(chunks, e)
    requires forall b :: b in buffers ==> b != []
    modifies parser
    ensures parser.Valid() && parser.p == Completed(old(parser.p), e)
    ensures total == |Encode(chunks, e)|
    ensures Join(parser.trace)
         == Push(AllTold(PushBody(Join(old(parser.trace)), BodyOf(chunks)), e.trailer), NoteOf(MessageComplete))
  {
    hide HttpMachine.Valid, Push, PushBody, Join, Completed, Encode, ParserOk, AtUpgrade, Encodable, IsLast, AllTold;
    ghost var q, log := parser.p, Join(parser.trace);
    ReadyForChunk(q, log);
    ChunkedRoundTrip(cb.skipBody, q, log, chunks, e);
    ghost var ending;
    total, ending := ExecuteBuffers(parser, buffers, cb);
  }

  lemma ReadyForChunk(q: Parser, log: Log)
    requires ParserOk(q, log) && q.errno == Ok && q.state.ChunkSizeStart?
    ensures Valid(q) && !AtUpgrade(q, log)
  {
    assert Resumed(q) == q;
  }
}

/** What the digits of a length mean: of a Content-Length header, and of a chunk. */
module HttpLength {
  import opened Base
  import opened HttpTypes
  import opened HttpSwitch
  import opened HttpMachine
  import opened HttpTheorems
  import opened HttpReading
  import opened HttpHeaders
  import opened HttpLines

  predicate Digits(base: nat, ds: seq<nat>) {
    ds != [] && forall i :: 0 <= i < |ds| ==> ds[i] < base
  }

  function Value(base: nat, ds: seq<nat>): nat {
    if ds == [] then 0 else Value(base, ds[..|ds| - 1]) * base + ds[|ds| - 1]
  }

  /** The length that the parser holds after some digits, unless its overflow test has failed. */
  function Accumulate(base: nat, ds: seq<nat>): Option<u64>
    requires 0 < base <= 16 && Digits(base, ds)
  {
    if |ds| == 1 then Some(ds[0])
    else
      match Accumulate(base, ds[..|ds| - 1])
      case None => None
      case Some(length) => AddLengthDigit(length, base, ds[|ds| - 1])
  }

  lemma DigitExact(v: u64, w: nat, base: nat, d: nat)
    requires w == v * base && v <= w
    ensures w + d < NO_LENGTH ==> AddLengthDigit(v, base, d) == Some(w + d)
    ensures AddLengthDigit(v, base, d).Some? ==> AddLengthDigit(v, base, d).value < NO_LENGTH
  {
  }

  lemma Grows(v: nat, base: nat)
    requires base >= 1
    ensures v <= v * base
  {
  }

  /** The length is the number written exactly for the numbers up to 2^64 - 2. */
  lemma {:induction false} LengthExact(base: nat, ds: seq<nat>)
    requires 2 <= base <= 16 && Digits(base, ds)
    ensures Accumulate(base, ds) == Some(Value(base, ds)) <==> Value(base, ds) < NO_LENGTH
    decreases |ds|
  {
    if |ds| == 1 {
      assert ds[..0] == [];
      assert Value(base, ds[..0]) == 0;
    } else {
      var front, d := ds[..|ds| - 1], ds[|ds| - 1];
      LengthExact(base, front);
      hide AddLengthDigit;
      var v := Value(base, front);
      Grows(v, base);
      match Accumulate(base, front) {
        case None =>
        case Some(length) =>
          Grows(length, base);
          DigitExact(length, length * base, base, d);
      }
    }
  }

  // A Content-Length header

  /** Digits, between and behind which there may be spaces. */
  predicate IsLength(v: seq<octet>) {
    v != [] && IsNum(v[0]) && forall i :: 0 <= i < |v| ==> IsNum(v[i]) || v[i] == ' '
  }

  function DigitsOf(v: seq<octet>): (ds: seq<nat>)
    ensures forall i :: 0 <= i < |ds| ==> ds[i] < 10
  {
    if v == [] then []
    else
      var front, ch := DigitsOf(v[..|v| - 1]), v[|v| - 1];
      if IsNum(ch) then front + [Digit(ch)] else front
  }

  lemma {:induction false} DigitsThere(v: seq<octet>)
    requires IsLength(v)
    ensures Digits(10, DigitsOf(v))
    decreases |v|
  {
    if |v| == 1 {
      assert v[..0] == [];
    } else {
      DigitsThere(v[..|v| - 1]);
    }
  }

  /** The parser inside the value of a Content-Length header. */
  function InLength(q: Parser, length: u64, n: nat): Parser {
    q.(state := HeaderValue, headerState := HeaderState.ContentLength, index := 0, contentLength := length, nread := n)
  }

  lemma FirstDigit(skip: SkipBody, q: Parser, log: Log, ch: octet)
    requires q.errno == Ok && q.state.HeaderValueStart? && q.headerState == HeaderState.ContentLength
    requires IsNum(ch) && q.nread < HTTP_MAX_HEADER_SIZE
    ensures Eats(skip, q, log, [ch], InLength(q, Digit(ch), q.nread + 1), Push(log, DataOf(ValueData, [ch])))
  {
    hide Eats, Push, Switch;
    FirstDigitStep(q.(nread := q.nread + 1), ch);
    EatsData(skip, q, log, ch, ValueData, InLength(q, Digit(ch), q.nread + 1));
  }

  lemma FirstDigitStep(q: Parser, ch: octet)
    requires q.state.HeaderValueStart? && q.headerState == HeaderState.ContentLength && IsNum(ch)
    ensures Switch(q, ch, 1) == Step(InLength(q, Digit(ch), q.nread), Some(ValueData), 0, NoCall, Advance)
  {
  }

  lemma NextDigitStep(q: Parser, ch: octet)
    requires q.state.HeaderValue? && q.headerState == HeaderState.ContentLength && (IsNum(ch) || ch == ' ')
    ensures Switch(q, ch, 1) ==
      if ch == ' ' then Go(q)
      else match AddLengthDigit(q.contentLength, 10, Digit(ch))
           case None => Error(q, InvalidContentLength)
           case Some(t) => Go(q.(contentLength := t))
  {
    hide AddLengthDigit;
  }

  /** One more byte of the value: the length that it leaves, or the error. */
  lemma NextDigit(skip: SkipBody, q: Parser, log: Log, ch: octet)
    requires q.errno == Ok && q.state.HeaderValue? && q.headerState == HeaderState.ContentLength
    requires (IsNum(ch) || ch == ' ') && q.nread < HTTP_MAX_HEADER_SIZE
    ensures var length := if ch == ' ' then Some(q.contentLength) else AddLengthDigit(q.contentLength, 10, Digit(ch));
      match length
      case Some(t) =>
        Eats(skip, q, log, [ch], q.(contentLength := t, nread := q.nread + 1), Push(log, DataOf(ValueData, [ch])))
      case None => Refused(Feed(skip, q, log, [ch]))
  {
    hide Eats, Push, AddLengthDigit, Switch;
    var q1 := q.(nread := q.nread + 1);
    NextDigitStep(q1, ch);
    var length := if ch == ' ' then Some(q.contentLength) else AddLengthDigit(q.contentLength, 10, Digit(ch));
    match length {
      case Some(t) => EatsData(skip, q, log, ch, ValueData, q1.(contentLength := t));
      case None => assert Finish(skip, q1, log, ch).Failed?;
    }
  }

  /** What the machine reads is what its digits accumulate to. */
  lemma {:induction false} LengthRead(skip: SkipBody, q: Parser, log: Log, v: seq<octet>)
    requires q.errno == Ok && q.state.HeaderValueStart? && q.headerState == HeaderState.ContentLength
    requires IsLength(v) && q.nread + |v| <= HTTP_MAX_HEADER_SIZE
    ensures Digits(10, DigitsOf(v))
    ensures match Accumulate(10, DigitsOf(v))
      case Some(t) => Eats(skip, q, log, v, InLength(q, t, q.nread + |v|), Push(log, DataOf(ValueData, v)))
      case None => Refused(Feed(skip, q, log, v))
    decreases |v|
  {
    hide Eats, Push, AddLengthDigit, Refused, Feed;
    DigitsThere(v);
    if |v| == 1 {
      assert v == [v[0]] && v[..0] == [];
      FirstDigit(skip, q, log, v[0]);
    } else {
      var front, ch := v[..|v| - 1], v[|v| - 1];
      assert v == front + [ch];
      LengthRead(skip, q, log, front);
      DigitAccumulates(front, ch);
      match Accumulate(10, DigitsOf(front)) {
        case Some(t) => LengthStep(skip, q, log, front, ch, t);
        case None => RefusedEarly(skip, q, log, front, [ch]);
      }
    }
  }

  lemma DigitAccumulates(front: seq<octet>, ch: octet)
    requires IsLength(front) && IsLength(front + [ch]) && Digits(10, DigitsOf(front))
      && Digits(10, DigitsOf(front + [ch]))
    ensures Accumulate(10, DigitsOf(front + [ch])) ==
      if !IsNum(ch) then Accumulate(10, DigitsOf(front))
      else match Accumulate(10, DigitsOf(front))
           case None => None
           case Some(t) => AddLengthDigit(t, 10, Digit(ch))
  {
    hide AddLengthDigit;
    assert (front + [ch])[..|front|] == front;
    if IsNum(ch) {
      assert (DigitsOf(front) + [Digit(ch)])[..|DigitsOf(front)|] == DigitsOf(front);
    }
  }

  lemma LengthStep(skip: SkipBody, q: Parser, log: Log, front: seq<octet>, ch: octet, t: u64)
    requires q.errno == Ok && q.nread + |front| < HTTP_MAX_HEADER_SIZE && (IsNum(ch) || ch == ' ')
    requires Eats(skip, q, log, front, InLength(q, t, q.nread + |front|), Push(log, DataOf(ValueData, front)))
    ensures var length := if ch == ' ' then Some(t) else AddLengthDigit(t, 10, Digit(ch));
      match length
      case Some(u) =>
        Eats(skip, q, log, front + [ch], InLength(q, u, q.nread + |front| + 1),
          Push(log, DataOf(ValueData, front + [ch])))
      case None => Refused(Feed(skip, q, log, front + [ch]))
  {
    hide Push, AddLengthDigit, Feed;
    var r, log1 := InLength(q, t, q.nread + |front|), Push(log, DataOf(ValueData, front));
    var log2 := Push(log, DataOf(ValueData, front + [ch]));
    NextDigit(skip, r, log1, ch);
    PushPush(log, ValueData, front, [ch]);
    FeedConcat(skip, q, log, front, [ch]);
  }

  /**
   The length of a Content-Length header. Behind the name, in any case of letters, the colon
   and blanks, the parser holds the number that the digits write exactly if that number is at
   most 2^64 - 2; otherwise it refuses the header or holds another number.
   */
  lemma ContentLengthExact(skip: SkipBody, q: Parser, log: Log, name: seq<octet>, blanks: seq<octet>, v: seq<octet>)
    requires AtLine(q) && IsName(name) && Lower(name) == CONTENT_LENGTH
    requires (forall i :: 0 <= i < |blanks| ==> Blank(blanks[i])) && IsLength(v)
    requires q.nread + |name| + 1 + |blanks| + |v| <= HTTP_MAX_HEADER_SIZE
    ensures var f, n := Feed(skip, q, log, name + [':'] + blanks + v), Value(10, DigitsOf(v));
      && (f.ending == Ran && f.q.contentLength == n <==> n < NO_LENGTH)
      && (f.ending != Ran ==> Refused(f))
      && (f.ending == Ran ==> f.log == Push(Push(log, DataOf(FieldData, name)), DataOf(ValueData, v)))
  {
    hide Push, Value, AtLine, IsLength, Refused, Feed, IsName, Lower, Eats, Blank;
    AtLineOk(q);
    var h, i := BeforeValue(skip, q, log, name, blanks);
    var q1 := AtValue(q, h, i, q.nread + |name| + 1 + |blanks|);
    var log1 := Push(log, DataOf(FieldData, name));
    ValueExact(skip, q1, log1, v);
    LengthBehind(skip, q, log, name + [':'] + blanks, q1, log1, v);
  }

  /** The same of the value alone. */
  lemma ValueExact(skip: SkipBody, q: Parser, log: Log, v: seq<octet>)
    requires q.errno == Ok && q.state.HeaderValueStart? && q.headerState == HeaderState.ContentLength
    requires IsLength(v) && q.nread + |v| <= HTTP_MAX_HEADER_SIZE
    ensures var f, n := Feed(skip, q, log, v), Value(10, DigitsOf(v));
      && (f.ending == Ran && f.q.contentLength == n <==> n < NO_LENGTH)
      && (f.ending != Ran ==> Refused(f))
      && (f.ending == Ran ==> f.log == Push(log, DataOf(ValueData, v)))
  {
    hide Push, Value, IsLength, Feed, DigitsOf, Accumulate;
    LengthRead(skip, q, log, v);
    LengthExact(10, DigitsOf(v));
  }

  /** What is read behind a first piece of input is what the run over both ends with. */
  lemma LengthBehind(skip: SkipBody, q: Parser, log: Log, x: seq<octet>, q1: Parser, log1: Log, v: seq<octet>)
    requires Eats(skip, q, log, x, q1, log1)
    ensures var f, g := Feed(skip, q1, log1, v), Feed(skip, q, log, x + v);
      g.ending == f.ending && g.q == f.q && g.log == f.log && Refused(g) == Refused(f)
  {
    hide Feed;
    FeedConcat(skip, q, log, x, v);
  }

  function DecimalDigit(d: nat): (ch: octet)
    requires d < 10
    ensures IsNum(ch) && Digit(ch) == d
  {
    ('0' as int + d) as char
  }

  /** A number as it is written, without leading zeros. */
  function Decimal(n: nat): (v: seq<octet>)
    ensures IsLength(v)
  {
    if n < 10 then [DecimalDigit(n)] else Decimal(n / 10) + [DecimalDigit(n % 10)]
  }

  lemma ValueMore(v: seq<octet>, ch: octet)
    requires IsNum(ch)
    ensures Value(10, DigitsOf(v + [ch])) == 10 * Value(10, DigitsOf(v)) + Digit(ch)
  {
    assert (v + [ch])[..|v|] == v;
    var ds := DigitsOf(v);
    assert (ds + [Digit(ch)])[..|ds|] == ds;
  }

  lemma {:induction false} ValueDecimal(n: nat)
    ensures Value(10, DigitsOf(Decimal(n))) == n
  {
    hide DigitsOf, Value;
    if n < 10 {
      assert [] + [DecimalDigit(n)] == [DecimalDigit(n)];
      ValueMore([], DecimalDigit(n));
      NoValue();
    } else {
      ValueDecimal(n / 10);
      ValueMore(Decimal(n / 10), DecimalDigit(n % 10));
    }
  }

  lemma NoValue()
    ensures Value(10, DigitsOf([])) == 0
  {
  }

  /** A length is read as it was written. */
  lemma DecimalRead(skip: SkipBody, q: Parser, log: Log, n: nat)
    requires q.errno == Ok && q.state.HeaderValueStart? && q.headerState == HeaderState.ContentLength
    requires n < NO_LENGTH && q.nread + |Decimal(n)| <= HTTP_MAX_HEADER_SIZE
    ensures var v := Decimal(n);
      Eats(skip, q, log, v, InLength(q, n, q.nread + |v|), Push(log, DataOf(ValueData, v)))
  {
    hide Eats, Push, Decimal, Value, DigitsOf, Accumulate;
    ValueDecimal(n);
    LengthRead(skip, q, log, Decimal(n));
    LengthExact(10, DigitsOf(Decimal(n)));
  }

  /** The number 22136092888451461930 is over 2^64, and is read, without an error, as 3689348814741910314. */
  lemma OversizeLength(skip: SkipBody, q: Parser, log: Log)
    requires q.errno == Ok && q.state.HeaderValueStart? && q.headerState == HeaderState.ContentLength
    requires q.nread + |Decimal(22136092888451461930)| <= HTTP_MAX_HEADER_SIZE
    ensures var v := Decimal(22136092888451461930);
      Eats(skip, q, log, v, InLength(q, 3689348814741910314, q.nread + |v|), Push(log, DataOf(ValueData, v)))
  {
    OversizeFront();
    hide Eats, Push, Decimal, AddLengthDigit, IsLength;
    var front := Decimal(2213609288845146193);
    DecimalRead(skip, q, log, 2213609288845146193);
    LengthStep(skip, q, log, front, '0', 2213609288845146193);
  }

  lemma OversizeFront()
    ensures Decimal(22136092888451461930) == Decimal(2213609288845146193) + ['0']
    ensures AddLengthDigit(2213609288845146193, 10, 0) == Some(3689348814741910314)
  {
    hide Decimal, IsLength;
    DecimalMore(2213609288845146193, 0);
    assert DecimalDigit(0) == '0';
  }

  lemma DecimalMore(n: nat, d: nat)
    requires n > 0 && d < 10
    ensures Decimal(10 * n + d) == Decimal(n) + [DecimalDigit(d)]
  {
    hide IsLength;
    assert (10 * n + d) / 10 == n && (10 * n + d) % 10 == d;
  }

  // The size of a chunk

  /** Hexadecimal digits, in any case of letters, with or without leading zeros. */
  predicate IsSize(v: seq<octet>) {
    v != [] && forall i :: 0 <= i < |v| ==> Unhex(v[i]) != -1
  }

  function SizeDigits(v: seq<octet>): (ds: seq<nat>)
    requires IsSize(v)
    ensures Digits(16, ds) && |ds| == |v|
  {
    seq(|v|, i requires 0 <= i < |v| && Unhex(v[i]) != -1 => Unhex(v[i]))
  }

  /** The parser inside the size of a chunk. */
  function InSize(q: Parser, length: u64, n: nat): Parser {
    q.(state := ChunkSize, contentLength := length, nread := n)
  }

  lemma ChunkState(q: Parser)
    requires Valid(q) && q.state.ChunkSizeStart?
    ensures q.errno == Ok && q.flags.chunked && q.nread == 0 && !q.upgrade
  {
  }

  lemma FirstSizeStep(q: Parser, ch: octet)
    requires q.state.ChunkSizeStart? && q.flags.chunked && q.nread == 1 && Unhex(ch) != -1
    ensures Switch(q, ch, 1) == Go(InSize(q, Unhex(ch), 1))
  {
    hide Unhex;
  }

  lemma NextSizeStep(q: Parser, ch: octet)
    requires q.state.ChunkSize? && q.flags.chunked && Unhex(ch) != -1
    ensures Switch(q, ch, 1) ==
      match AddLengthDigit(q.contentLength, 16, Unhex(ch))
      case None => Error(q, InvalidContentLength)
      case Some(t) => Go(q.(contentLength := t))
  {
    assert ch != CR;
    hide Unhex, AddLengthDigit;
  }

  lemma FirstSizeDigit(skip: SkipBody, q: Parser, log: Log, ch: octet)
    requires Valid(q) && q.state.ChunkSizeStart? && Unhex(ch) != -1
    ensures Eats(skip, q, log, [ch], InSize(q, Unhex(ch), 1), log)
  {
    ChunkState(q);
    hide Eats, Switch, Unhex, Valid;
    FirstSizeStep(q.(nread := 1), ch);
    EatsByte(skip, q, log, ch, InSize(q, Unhex(ch), 1));
  }

  /** One more digit: the size that it leaves, or the error. */
  lemma NextSizeDigit(skip: SkipBody, q: Parser, log: Log, ch: octet)
    requires q.errno == Ok && q.state.ChunkSize? && q.flags.chunked && Unhex(ch) != -1
    requires q.nread < HTTP_MAX_HEADER_SIZE
    ensures match AddLengthDigit(q.contentLength, 16, Unhex(ch))
      case Some(t) => Eats(skip, q, log, [ch], InSize(q, t, q.nread + 1), log)
      case None => Refused(Feed(skip, q, log, [ch]))
  {
    hide Eats, Switch, Unhex, AddLengthDigit;
    var q1 := q.(nread := q.nread + 1);
    NextSizeStep(q1, ch);
    match AddLengthDigit(q.contentLength, 16, Unhex(ch)) {
      case Some(t) => EatsByte(skip, q, log, ch, InSize(q, t, q.nread + 1));
      case None => assert Finish(skip, q1, log, ch).Failed?;
    }
  }

  lemma SizeAccumulates(front: seq<octet>, ch: octet)
    requires IsSize(front) && Unhex(ch) != -1
    ensures IsSize(front + [ch])
    ensures Accumulate(16, SizeDigits(front + [ch])) ==
      match Accumulate(16, SizeDigits(front))
      case None => None
      case Some(t) => AddLengthDigit(t, 16, Unhex(ch))
    ensures Value(16, SizeDigits(front + [ch])) == 16 * Value(16, SizeDigits(front)) + Unhex(ch)
  {
    hide AddLengthDigit, Unhex;
    var ds := SizeDigits(front + [ch]);
    assert ds[..|front|] == SizeDigits(front) && ds[|front|] == Unhex(ch);
  }

  /** What the machine holds behind the digits of a size is what they accumulate to. */
  lemma {:induction false} SizeRead(skip: SkipBody, q: Parser, log: Log, v: seq<octet>)
    requires Valid(q) && q.state.ChunkSizeStart? && IsSize(v) && |v| <= HTTP_MAX_HEADER_SIZE
    ensures match Accumulate(16, SizeDigits(v))
      case Some(t) => Eats(skip, q, log, v, InSize(q, t, |v|), log)
      case None => Refused(Feed(skip, q, log, v))
    decreases |v|
  {
    hide Eats, AddLengthDigit, Refused, Feed, Valid, Unhex;
    ChunkState(q);
    if |v| == 1 {
      assert v == [v[0]];
      FirstSizeDigit(skip, q, log, v[0]);
    } else {
      var front, ch := v[..|v| - 1], v[|v| - 1];
      assert v == front + [ch];
      SizeRead(skip, q, log, front);
      SizeAccumulates(front, ch);
      match Accumulate(16, SizeDigits(front)) {
        case Some(t) => SizeStep(skip, q, log, front, ch, t);
        case None => RefusedEarly(skip, q, log, front, [ch]);
      }
    }
  }

  lemma SizeStep(skip: SkipBody, q: Parser, log: Log, front: seq<octet>, ch: octet, t: u64)
    requires q.errno == Ok && q.flags.chunked && |front| < HTTP_MAX_HEADER_SIZE && Unhex(ch) != -1
    requires Eats(skip, q, log, front, InSize(q, t, |front|), log)
    ensures match AddLengthDigit(t, 16, Unhex(ch))
      case Some(u) => Eats(skip, q, log, front + [ch], InSize(q, u, |front| + 1), log)
      case None => Refused(Feed(skip, q, log, front + [ch]))
  {
    hide AddLengthDigit, Feed, Unhex;
    NextSizeDigit(skip, InSize(q, t, |front|), log, ch);
    FeedConcat(skip, q, log, front, [ch]);
  }

  /**
   The size of a chunk. Behind its digits the parser holds the number that they write exactly
   if that number is at most 2^64 - 2; otherwise it refuses the chunk or holds another number.
   */
  lemma ChunkSizeExact(skip: SkipBody, q: Parser, log: Log, v: seq<octet>)
    requires Valid(q) && q.state.ChunkSizeStart? && IsSize(v) && |v| <= HTTP_MAX_HEADER_SIZE
    ensures var f, n := Feed(skip, q, log, v), Value(16, SizeDigits(v));
      && (f.ending == Ran && f.q.contentLength == n <==> n < NO_LENGTH)
      && (f.ending != Ran ==> Refused(f))
      && (f.ending == Ran ==> f.log == log && f.q == InSize(q, f.q.contentLength, |v|))
  {
    hide Value, Valid, IsSize, Feed, Accumulate;
    SizeRead(skip, q, log, v);
    LengthExact(16, SizeDigits(v));
  }

  function HexDigit(d: nat): (ch: octet)
    requires d < 16
    ensures Unhex(ch) == d
  {
    if d < 10 then ('0' as int + d) as char else ('a' as int + (d - 10)) as char
  }

  /** A size as it is written, without leading zeros. */
  function Hex(n: nat): (v: seq<octet>)
    ensures IsSize(v)
  {
    if n < 16 then [HexDigit(n)] else Hex(n / 16) + [HexDigit(n % 16)]
  }

  /** Every size can be written. */
  lemma {:induction false} ValueHex(n: nat)
    ensures Value(16, SizeDigits(Hex(n))) == n
  {
    hide HexDigit, Unhex;
    if n < 16 {
      var ds := SizeDigits(Hex(n));
      assert ds[0] == n && ds[..0] == [];
    } else {
      ValueHex(n / 16);
      SizeAccumulates(Hex(n / 16), HexDigit(n % 16));
    }
  }

  function Pow16(k: nat): nat {
    if k == 0 then 1 else 16 * Pow16(k - 1)
  }

  lemma {:induction false} HexLength(n: nat, k: nat)
    requires k > 0 && n < Pow16(k)
    ensures |Hex(n)| <= k
    decreases k
  {
    hide IsSize;
    assert Pow16(1) == 16;
    if n < 16 {
    } else {
      HexLength(n / 16, k - 1);
    }
  }

  lemma HexFits(n: nat)
    requires n < NO_LENGTH
    ensures |Hex(n)| <= 16
  {
    assert Pow16(4) == 0x1_0000;
    assert Pow16(8) == 0x1_0000_0000;
    assert Pow16(12) == 0x1_0000_0000_0000;
    assert Pow16(16) == 0x1_0000_0000_0000_0000;
    HexLength(n, 16);
  }

  /**
   A size of 17 digits that is over 2^64, and of which the overflow test does not see it:
   1fffffffffffffff0 is read, without an error, as fffffffffffffff0.
   */
  lemma OversizeRead(skip: SkipBody, q: Parser, log: Log)
    requires Valid(q) && q.state.ChunkSizeStart?
    ensures var v := Hex(0x1FFF_FFFF_FFFF_FFFF) + ['0'];
      && IsSize(v) && Value(16, SizeDigits(v)) == 0x1_FFFF_FFFF_FFFF_FFF0
      && Eats(skip, q, log, v, InSize(q, 0xFFFF_FFFF_FFFF_FFF0, |v|), log)
  {
    hide Eats, Valid, Hex, IsSize, Value, Accumulate;
    var n := 0x1FFF_FFFF_FFFF_FFFF;
    ZeroIsDigit();
    hide Unhex;
    HexFits(n);
    ValueHex(n);
    LengthExact(16, SizeDigits(Hex(n)));
    SizeAccumulates(Hex(n), '0');
    OversizeDigit();
    hide AddLengthDigit;
    SizeRead(skip, q, log, Hex(n) + ['0']);
  }

  lemma ZeroIsDigit()
    ensures Unhex('0') == 0
  {
  }

  lemma OversizeDigit()
    ensures AddLengthDigit(0x1FFF_FFFF_FFFF_FFFF, 16, 0) == Some(0xFFFF_FFFF_FFFF_FFF0)
  {
  }
}

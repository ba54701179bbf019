/**
 The part of a half_stream that listeners see: one growing buffer that holds the
 stream from the first byte not yet discarded up to the last byte taken.
 */
module ListenerBuffer {
  import opened Base

  /** What a listener is shown: the buffer, how much of it is new, and the stream position it starts at. */
  datatype View = View(offset: nat, window: seq<byte>, countNew: nat)

  /** What the listeners of a stream answered in one round of ride_lurkers. */
  datatype Reaction = Reaction(discards: seq<nat>, collect: int, collectUrg: int)

  /** What became of the bytes of the stream, in order; positions count normal bytes. */
  datatype Event =
    | Shown(view: View)
    | Skipped(start: nat, end: nat)
    | OutOfBand(view: View, b: byte)
  {
    /** The positions that the event is about for the first time. */
    function Start(): int {
      match this
      case Shown(v) => v.offset + |v.window| - v.countNew
      case Skipped(start, _) => start
      case OutOfBand(v, _) => v.offset + |v.window|
    }

    function End(): int {
      match this
      case Shown(v) => v.offset + |v.window|
      case Skipped(_, end) => end
      case OutOfBand(v, _) => v.offset + |v.window|
    }
  }

  /** What the listeners answer may depend on all that they have been told, up to the event they are called for. */
  type Listener = seq<Event> -> Reaction

  function Reach(log: seq<Event>): int {
    if log == [] then 0 else log[|log| - 1].End()
  }

  /** The events leave no byte out: each starts no later than the ones before it reach. */
  ghost predicate GapFree(log: seq<Event>) {
    forall i :: 0 <= i < |log| ==> log[i].Start() <= Reach(log[..i]) <= log[i].End()
  }

  /** What an event says about the stream of normal bytes is true. */
  ghost predicate TrueOf(e: Event, normals: seq<byte>) {
    !e.Skipped? ==>
      && e.End() <= |normals|
      && e.view.countNew <= |e.view.window|
      && e.view.window == normals[e.view.offset..e.End()]
  }

  ghost predicate Truthful(log: seq<Event>, normals: seq<byte>) {
    forall e :: e in log ==> TrueOf(e, normals)
  }

  /** nids_discard, called by listeners any number of times: the smallest amount counts. */
  method NidsDiscard(discards: seq<nat>, read0: int) returns (read: int)
    requires 0 <= read0
    ensures 0 <= read <= read0
    ensures forall i :: 0 <= i < |discards| ==> read <= discards[i]
    ensures read == read0 || read in discards
  {
    read := read0;
    for i := 0 to |discards|
      invariant 0 <= read <= read0
      invariant forall j :: 0 <= j < i ==> read <= discards[j]
      invariant read == read0 || read in discards
    {
      if discards[i] < read {
        read := discards[i];
      }
    }
  }

  lemma TruthfulExtends(log: seq<Event>, normals: seq<byte>, more: seq<byte>)
    requires Truthful(log, normals)
    ensures Truthful(log, normals + more)
  {
    forall e | e in log
      ensures TrueOf(e, normals + more)
    {
      assert TrueOf(e, normals);
      if !e.Skipped? {
        assert (normals + more)[e.view.offset..e.End()] == normals[e.view.offset..e.End()];
      }
    }
  }

  lemma TruthfulAppend(log: seq<Event>, e: Event, normals: seq<byte>)
    requires Truthful(log, normals) && TrueOf(e, normals)
    ensures Truthful(log + [e], normals)
  {
    hide TrueOf;
  }

  /** A view of everything from position `at` on, with its last `recent` bytes new, tells the rest. */
  lemma ToldOnce(log: seq<Event>, normals: seq<byte>, at: nat, recent: nat)
    requires at + recent <= |normals|
    requires Truthful(log, normals) && GapFree(log)
    requires |normals| - recent <= Reach(log) <= |normals|
    ensures var longer := log + [Shown(View(at, normals[at..], recent))];
      Truthful(longer, normals) && GapFree(longer) && Reach(longer) == |normals|
  {
    hide GapFree, Truthful, Reach;
    var e := Shown(View(at, normals[at..], recent));
    GapFreeAppend(log, e);
    TruthfulAppend(log, e, normals);
  }

  /** Bytes that nobody collects are told of as skipped. */
  lemma ToldSkipped(log: seq<Event>, normals: seq<byte>, more: seq<byte>)
    requires Truthful(log, normals) && GapFree(log) && Reach(log) == |normals|
    ensures var longer := log + [Skipped(|normals|, |normals + more|)];
      Truthful(longer, normals + more) && GapFree(longer) && Reach(longer) == |normals + more|
  {
    hide GapFree, Truthful, Reach;
    var e := Skipped(|normals|, |normals + more|);
    GapFreeAppend(log, e);
    TruthfulExtends(log, normals, more);
    TruthfulAppend(log, e, normals + more);
  }

  /** An urgent byte is told with the buffer as it is. */
  lemma ToldUrgent(log: seq<Event>, normals: seq<byte>, at: nat, b: byte)
    requires at <= |normals| && Truthful(log, normals) && GapFree(log) && Reach(log) == |normals|
    ensures var longer := log + [OutOfBand(View(at, normals[at..], 0), b)];
      Truthful(longer, normals) && GapFree(longer) && Reach(longer) == |normals|
  {
    hide GapFree, Truthful, Reach;
    var e := OutOfBand(View(at, normals[at..], 0), b);
    GapFreeAppend(log, e);
    TruthfulAppend(log, e, normals);
  }

  /** memcpy into a buffer. */
  method CopyIn(buffer: array<byte>, at: nat, bytes: seq<byte>)
    requires at + |bytes| <= buffer.Length
    modifies buffer
    ensures buffer[..at + |bytes|] == old(buffer[..at]) + bytes
  {
    forall i | 0 <= i < |bytes| {
      buffer[at + i] := bytes[i];
    }
  }

  /** memmove to the front of a buffer. */
  method MoveDown(buffer: array<byte>, from: nat, n: nat)
    requires from + n <= buffer.Length
    modifies buffer
    ensures buffer[..n] == old(buffer[from..from + n])
  {
    forall i | 0 <= i < n {
      buffer[i] := buffer[from + i];
    }
  }

  lemma GapFreeAppend(log: seq<Event>, e: Event)
    requires GapFree(log) && e.Start() <= Reach(log) <= e.End()
    ensures GapFree(log + [e]) && Reach(log + [e]) == e.End()
  {
    var longer := log + [e];
    forall i | 0 <= i < |longer|
      ensures longer[i].Start() <= Reach(longer[..i]) <= longer[i].End()
    {
      if i < |log| {
        assert longer[..i] == log[..i];
      } else {
        assert longer[..i] == log;
      }
    }
  }

  /** Buffer and counters of a receiving half. */
  class Buffer {
    var collect: int
    var collectUrg: int
    var data: array<byte>  // NULL is the array of length 0
    var offset: int
    var count: int
    var countNew: int
    var bufsize: int
    var urgdata: byte
    const oneLoopLess: bool

    var log: seq<Event>  // what the listeners were told, and remember

    ghost var stream: seq<byte>  // the normal bytes taken so far

    /** The buffer holds exactly the stream from `offset` to `count`, and has room for it. */
    ghost predicate Valid()
      reads this, data
    {
      && 0 <= offset <= count == |stream|
      && data.Length == bufsize && count - offset <= bufsize
      && data[..count - offset] == stream[offset..]
    }

    /** The listeners have been told, truthfully and without gaps, of the first n normal bytes. */
    ghost predicate ToldUpTo(n: int)
      reads this
    {
      Truthful(log, stream) && GapFree(log) && Reach(log) == n
    }

    constructor (oneLoopLess: bool)
      ensures Valid() && fresh(data)
      ensures stream == [] && log == [] && ToldUpTo(count)
      ensures collect == collectUrg == 0
      ensures this.oneLoopLess == oneLoopLess
    {
      collect, collectUrg := 0, 0;
      data := new byte[0];
      offset, count, countNew, bufsize, urgdata := 0, 0, 0, 0, 0;
      this.oneLoopLess := oneLoopLess;
      stream, log := [], [];
    }

    /** The growth rule of add2buf: there is room afterwards, and nothing held is lost. */
    method MakeRoom(datalen: nat)
      requires Valid()
      modifies this, data
      ensures Valid()
      ensures data == old(data) || fresh(data)
      ensures datalen + count - offset <= bufsize
      ensures unchanged(`offset, `count, `countNew, `collect, `collectUrg, `urgdata, `stream, `log)
    {
      if datalen + count - offset > bufsize {
        var toalloc;
        if data.Length == 0 {
          toalloc := if datalen < 2048 then 4096 else datalen * 2;
        } else {
          toalloc := if datalen < bufsize then 2 * bufsize else bufsize + 2 * datalen;
        }
        var grown := new byte[toalloc];
        CopyIn(grown, 0, data[..count - offset]);
        data := grown;
        bufsize := toalloc;
      }
    }

    /** add2buf: the bytes are appended to the buffer, which grows so that it always has room. */
    method Add2buf(bytes: seq<byte>)
      requires Valid()
      modifies this, data
      ensures Valid()
      ensures data == old(data) || fresh(data)
      ensures stream == old(stream) + bytes
      ensures count == old(count) + |bytes| && countNew == |bytes|
      ensures unchanged(`offset, `collect, `collectUrg, `urgdata, `log)
    {
      MakeRoom(|bytes|);
      CopyIn(data, count - offset, bytes);
      countNew := |bytes|;
      count := count + |bytes|;
      stream := stream + bytes;
      assert stream[offset..] == old(stream)[offset..] + bytes;
    }

    /** What the listeners discarded leaves the front of the buffer. */
    method Discard(read: nat)
      requires Valid() && read <= count - offset
      modifies this`offset, data
      ensures Valid() && offset == old(offset) + read
    {
      if read > 0 {
        MoveDown(data, read, count - offset - read);
        assert old(data[read..count - offset]) == stream[offset..][read..];
        offset := offset + read;
      }
    }

    /** One round of ride_lurkers for data, and the discarding that follows it. */
    method ShowOnce(listener: Listener) returns (read: int)
      requires Valid() && 0 < countNew <= count - offset
      modifies this, data
      ensures Valid()
      ensures 0 <= read == offset - old(offset)
      ensures countNew == if old(countNew) < count - offset then old(countNew) else count - offset
      ensures var reaction := listener(log);
        && (forall d :: d in reaction.discards ==> read <= d)
        && (read == count - old(offset) || read in reaction.discards)
        && collect == reaction.collect && collectUrg == reaction.collectUrg
      ensures unchanged(`data, `bufsize, `count, `urgdata, `stream)
      ensures log == old(log) + [Shown(View(old(offset), stream[old(offset)..], old(countNew)))]
    {
      var total := count - offset;
      var view := View(offset, data[..total], countNew);
      assert view.window == stream[offset..];
      log := log + [Shown(view)];
      var reaction := listener(log);
      collect, collectUrg := reaction.collect, reaction.collectUrg;
      read := NidsDiscard(reaction.discards, total);
      if read > total - countNew {
        countNew := total - read;
      }
      Discard(read);
    }

    /** The same round, in terms of what the listeners have been told. */
    method ShowRest(listener: Listener) returns (read: int)
      requires Valid() && 0 < countNew <= count - offset
      requires Truthful(log, stream) && GapFree(log) && count - countNew <= Reach(log) <= count
      modifies this, data
      ensures Valid() && ToldUpTo(count)
      ensures 0 <= read == offset - old(offset)
      ensures 0 <= countNew <= count - offset
      ensures unchanged(`data, `bufsize, `count, `urgdata, `stream)
      ensures log == old(log) + [Shown(View(old(offset), stream[old(offset)..], old(countNew)))]
    {
      hide GapFree, Truthful, Reach;
      ToldOnce(log, stream, offset, countNew);
      read := ShowOnce(listener);
    }

    /**
     notify, for new bytes in the buffer. The first view shows everything the buffer
     holds with exactly the new bytes marked as new; further views, which only
     one_loop_less asks for, repeat what the listener did not discard.
     */
    method NotifyData(listener: Listener)
      requires Valid() && 0 < countNew <= count - offset && ToldUpTo(count - countNew)
      modifies this, data
      ensures Valid() && ToldUpTo(count)
      ensures countNew == 0 && offset >= old(offset)
      ensures old(log) + [Shown(View(old(offset), stream[old(offset)..], old(countNew)))] <= log
      ensures !oneLoopLess ==> |log| == |old(log)| + 1
      ensures unchanged(`data, `bufsize, `count, `urgdata, `stream)
    {
      var read := ShowRest(listener);
      ghost var first := log;
      while oneLoopLess && read > 0 && countNew != 0
        invariant Valid() && ToldUpTo(count)
        invariant 0 <= countNew <= count - offset && offset >= old(offset)
        invariant first <= log && (!oneLoopLess ==> first == log)
        invariant unchanged(`data, `bufsize, `count, `urgdata, `stream)
        decreases count - offset, read
      {
        read := ShowRest(listener);
      }
      countNew := 0;
    }

    /** notify, for an urgent byte: only listeners that collect urgent data are called. */
    method NotifyUrgent(listener: Listener)
      requires Valid() && ToldUpTo(count)
      modifies this`collect, this`collectUrg, this`log
      ensures Valid() && ToldUpTo(count)
      ensures log == if old(collectUrg) == 0 then old(log)
                     else old(log) + [OutOfBand(View(offset, stream[offset..], 0), urgdata)]
      ensures old(collectUrg) != 0 ==> collect == listener(log).collect && collectUrg == listener(log).collectUrg
    {
      if collectUrg == 0 {
        return;
      }
      hide GapFree, Truthful, Reach;
      ToldUrgent(log, stream, offset, urgdata);
      log := log + [OutOfBand(View(offset, data[..count - offset], 0), urgdata)];
      var reaction := listener(log);
      collect, collectUrg := reaction.collect, reaction.collectUrg;
    }

    /** Bytes of a stream that is not collected are counted and forgotten. */
    method Skip(bytes: seq<byte>)
      requires Valid() && ToldUpTo(count)
      modifies this`offset, this`count, this`stream, this`log
      ensures Valid() && ToldUpTo(count)
      ensures stream == old(stream) + bytes
      ensures count == offset == old(count) + |bytes|
      ensures log == old(log) + [Skipped(old(count), count)]
    {
      hide GapFree, Truthful, Reach;
      ToldSkipped(log, stream, bytes);
      log := log + [Skipped(count, count + |bytes|)];
      stream := stream + bytes;
      count := count + |bytes|;
      offset := count;
    }

    /** Hand new bytes on: into the buffer when the stream is collected, else count them only. */
    method HandOn(bytes: seq<byte>, listener: Listener)
      requires bytes != [] && Valid() && ToldUpTo(count)
      modifies this, data
      ensures Valid() && ToldUpTo(count)
      ensures data == old(data) || fresh(data)
      ensures stream == old(stream) + bytes
      ensures unchanged(`urgdata)
    {
      if collect != 0 {
        TruthfulExtends(log, stream, bytes);
        Add2buf(bytes);
        NotifyData(listener);
      } else {
        Skip(bytes);
      }
    }
  }
}

/**
 TCP stream reassembly over unbounded stream positions: what tcp.c decides for each
 arriving segment, with the 32-bit sequence numbers replaced by the positions they
 stand for. TcpStream.dfy proves that the code's own arithmetic computes this.
 */
module TcpModel {
  import opened Base

  /** A segment of one direction of a connection; `off` is the position of its first byte. */
  datatype Segment = Segment(off: int, data: seq<byte>, fin: bool, urg: bool, urp: nat, truesize: nat) {
    function End(): int {
      off + |data|
    }

    /** Position of the byte that the urgent pointer marks. */
    function UrgentAt(): int {
      off + urp - 1
    }

    /** The end as an acknowledgement would count it: a FIN takes one number. */
    function EndWithFin(): int {
      End() + if fin then 1 else 0
    }
  }

  /** One byte taken from the stream: into the listener's buffer, or out of band as `urgdata`. */
  datatype Item = Normal(b: byte) | Urgent(b: byte)

  /** The states of the sending side that the queue reads or writes. */
  datatype SenderState = Open | Closing | FinSent | FinConfirmed

  const RMEM_LIMIT := 65535

  /** The receiving half of a stream. `taken` has length count + urg_count. */
  datatype Half = Half(
    taken: seq<Item>,
    urgSeen: bool,
    urgPos: int,
    queue: seq<Segment>,
    rmem: int,
    sender: SenderState)

  function Plain(s: seq<byte>): (r: seq<Item>)
    ensures |r| == |s|
  {
    seq(|s|, i requires 0 <= i < |s| => Normal(s[i]))
  }

  function Bytes(items: seq<Item>): (r: seq<byte>)
    ensures |r| == |items|
  {
    seq(|items|, i requires 0 <= i < |items| => items[i].b)
  }

  function Normals(items: seq<Item>): seq<byte> {
    if items == [] then []
    else Normals(items[..|items| - 1]) + (match items[|items| - 1] case Normal(b) => [b] case Urgent(_) => [])
  }

  function Size(queue: seq<Segment>): nat {
    if queue == [] then 0 else queue[0].truesize + Size(queue[1..])
  }

  /** The urgent pointer after a segment has been looked at. */
  function NoteUrgent(h: Half, s: Segment): (r: Half)
    ensures r == h.(urgSeen := r.urgSeen, urgPos := r.urgPos)
  {
    if s.urg && s.UrgentAt() > |h.taken| - 1 && (!h.urgSeen || s.UrgentAt() > h.urgPos)
    then h.(urgPos := s.UrgentAt(), urgSeen := true)
    else h
  }

  /** The new bytes of a segment that reaches the expected position, one of them possibly urgent. */
  function TakeNew(h: Half, s: Segment): (r: Half)
    requires s.off <= |h.taken| <= s.End()
    ensures r == h.(taken := r.taken, urgSeen := r.urgSeen)
    ensures |r.taken| == s.End() && h.taken <= r.taken
  {
    var lost := |h.taken| - s.off;
    if h.urgSeen && |h.taken| <= h.urgPos < s.End() then
      var u := h.urgPos - s.off;
      h.(taken := h.taken + Plain(s.data[lost..u]) + [Urgent(s.data[u])] + Plain(s.data[u + 1..]),
         urgSeen := false)
    else
      h.(taken := h.taken + Plain(s.data[lost..]))
  }

  /** add_from_skb. */
  function Take(h: Half, s: Segment): (r: Half)
    requires s.off <= |h.taken| <= s.End()
    ensures r.queue == h.queue && r.rmem == h.rmem && |r.taken| == s.End()
  {
    var h1 := TakeNew(NoteUrgent(h, s), s);
    if s.fin then h1.(sender := FinSent) else h1
  }

  /** One turn of the drain loop. */
  function DrainHead(h: Half): Half
    requires h.queue != [] && h.queue[0].off <= |h.taken|
  {
    var s := h.queue[0];
    var h1 := if s.EndWithFin() > |h.taken| then Take(h, s) else h;
    h1.(queue := h.queue[1..], rmem := h1.rmem - s.truesize)
  }

  /** The loop over the queue that follows: drop every queued segment that has become visible. */
  function Drain(h: Half): Half
    decreases |h.queue|
  {
    if h.queue == [] || h.queue[0].off > |h.taken| then h else Drain(DrainHead(h))
  }

  /** Where the insertion loop stops: just behind the last segment that does not start later. */
  function InsertAt(queue: seq<Segment>, off: int): (k: nat)
    ensures k <= |queue|
  {
    if queue == [] || queue[|queue| - 1].off <= off then |queue| else InsertAt(queue[..|queue| - 1], off)
  }

  function Enqueue(h: Half, s: Segment): Half {
    var k := InsertAt(h.queue, s.off);
    h.(queue := h.queue[..k] + [s] + h.queue[k..],
       rmem := h.rmem + s.truesize,
       sender := if s.fin then Closing else h.sender)
  }

  /** tcp_queue. */
  function Arrive(h: Half, s: Segment): Half {
    if s.off <= |h.taken| then
      if s.EndWithFin() > |h.taken| then Drain(Take(h, s)) else h
    else Enqueue(h, s)
  }

  /** prune_queue, when the queue has grown past its limit. */
  function Prune(h: Half): Half {
    if h.rmem > RMEM_LIMIT then h.(queue := [], rmem := 0) else h
  }

  function Run(h: Half, segments: seq<Segment>): Half
    decreases |segments|
  {
    if segments == [] then h
    else Prune(Arrive(Run(h, segments[..|segments| - 1]), segments[|segments| - 1]))
  }

  const START := Half([], false, 0, [], 0, Open)

  /** No arrival of the run found the queue over its limit. */
  ghost predicate NeverPruned(segments: seq<Segment>)
    decreases |segments|
  {
    segments == [] ||
    var front := segments[..|segments| - 1];
    NeverPruned(front) && Arrive(Run(START, front), segments[|segments| - 1]).rmem <= RMEM_LIMIT
  }

  // What a run promises about the byte stream the segments were cut from

  ghost predicate CutFrom(stream: seq<byte>, s: Segment) {
    0 <= s.off && s.End() <= |stream| && s.data == stream[s.off..s.End()]
  }

  ghost predicate Covered(arrived: seq<Segment>, p: int) {
    exists s :: s in arrived && s.off <= p < s.End()
  }

  /** An URG segment of the run points at position p. */
  ghost predicate Designated(arrived: seq<Segment>, p: int) {
    exists s :: s in arrived && s.urg && s.UrgentAt() == p
  }

  /** Some FIN of the run has nothing missing in front of it. */
  ghost predicate FinReached(arrived: seq<Segment>, n: int) {
    exists s :: s in arrived && s.fin && s.End() <= n
  }

  ghost predicate Sorted(queue: seq<Segment>) {
    forall i, j :: 0 <= i < j < |queue| ==> queue[i].off <= queue[j].off
  }

  /** What holds at every step, also in the middle of draining the queue. */
  ghost predicate Sound(stream: seq<byte>, h: Half, arrived: seq<Segment>) {
    && |h.taken| <= |stream|
    && Bytes(h.taken) == stream[..|h.taken|]
    && (forall p :: 0 <= p < |h.taken| ==> Covered(arrived, p))
    && (forall p :: 0 <= p < |h.taken| && h.taken[p].Urgent? ==> Designated(arrived, p))
    && (h.urgSeen ==> h.urgPos >= |h.taken| && Designated(arrived, h.urgPos))
    && Sorted(h.queue)
    && (forall s :: s in h.queue ==> s in arrived && CutFrom(stream, s))
    && h.rmem == Size(h.queue)
    && (h.sender == FinSent ==> FinReached(arrived, |h.taken|))
  }

  /** Between segments, everything still queued starts strictly after the expected position. */
  ghost predicate Settled(h: Half) {
    forall s :: s in h.queue ==> s.off > |h.taken|
  }

  /** Nothing that arrived has been forgotten. */
  ghost predicate Complete(h: Half, arrived: seq<Segment>) {
    forall s :: s in arrived ==> s.End() <= |h.taken| || s in h.queue
  }

  lemma BytesOfTakeNew(h: Half, s: Segment)
    requires s.off <= |h.taken| <= s.End()
    ensures Bytes(TakeNew(h, s).taken) == Bytes(h.taken) + s.data[|h.taken| - s.off..]
    ensures forall p :: |h.taken| <= p < s.End() && TakeNew(h, s).taken[p].Urgent? ==> h.urgSeen && p == h.urgPos
    ensures TakeNew(h, s).urgPos == h.urgPos
    ensures TakeNew(h, s).urgSeen && h.urgPos >= |h.taken| ==> h.urgSeen && h.urgPos >= s.End()
  {
  }

  lemma NoteUrgentKeeps(stream: seq<byte>, h: Half, s: Segment, arrived: seq<Segment>)
    requires Sound(stream, h, arrived)
    requires s in arrived
    ensures Sound(stream, NoteUrgent(h, s), arrived)
  {
    if s.urg {
      assert Designated(arrived, s.UrgentAt());
    }
  }

  /** Where the items of a taken segment come from. */
  lemma TakeNewCovers(stream: seq<byte>, h: Half, s: Segment, arrived: seq<Segment>, p: int)
    requires Sound(stream, h, arrived)
    requires s in arrived && s.off <= |h.taken| <= s.End()
    requires 0 <= p < s.End()
    ensures Covered(arrived, p)
    ensures TakeNew(h, s).taken[p].Urgent? ==> Designated(arrived, p)
  {
    if p < |h.taken| {
      assert TakeNew(h, s).taken[p] == h.taken[p];
    } else {
      BytesOfTakeNew(h, s);
    }
  }

  lemma TakeNewKeeps(stream: seq<byte>, h: Half, s: Segment, arrived: seq<Segment>)
    requires Sound(stream, h, arrived)
    requires s in arrived && CutFrom(stream, s)
    requires s.off <= |h.taken| <= s.End()
    ensures Sound(stream, TakeNew(h, s), arrived)
  {
    BytesOfTakeNew(h, s);
    assert stream[..s.End()] == stream[..|h.taken|] + s.data[|h.taken| - s.off..];
    forall p | 0 <= p < s.End()
      ensures Covered(arrived, p)
      ensures TakeNew(h, s).taken[p].Urgent? ==> Designated(arrived, p)
    {
      TakeNewCovers(stream, h, s, arrived, p);
    }
    hide Covered, Designated, TakeNew, Sorted, CutFrom;
    if h.sender == FinSent {
      assert FinReached(arrived, s.End());
    }
  }

  lemma TakeKeeps(stream: seq<byte>, h: Half, s: Segment, arrived: seq<Segment>)
    requires Sound(stream, h, arrived)
    requires s in arrived && CutFrom(stream, s)
    requires s.off <= |h.taken| <= s.End()
    ensures Sound(stream, Take(h, s), arrived)
    ensures |Take(h, s).taken| == s.End()
    ensures Take(h, s).queue == h.queue && Take(h, s).rmem == h.rmem
  {
    NoteUrgentKeeps(stream, h, s, arrived);
    TakeNewKeeps(stream, NoteUrgent(h, s), s, arrived);
    if s.fin {
      assert FinReached(arrived, s.End());
    }
  }

  lemma DrainHeadKeeps(stream: seq<byte>, h: Half, arrived: seq<Segment>)
    requires Sound(stream, h, arrived)
    requires h.queue != [] && h.queue[0].off <= |h.taken|
    ensures Sound(stream, DrainHead(h), arrived)
    ensures |h.taken| <= |DrainHead(h).taken|
    ensures h.queue[0].End() <= |DrainHead(h).taken|
  {
    var s := h.queue[0];
    assert s in h.queue;
    var h1 := h;
    if s.EndWithFin() > |h.taken| {
      TakeKeeps(stream, h, s, arrived);
      h1 := Take(h, s);
    }
    assert Sound(stream, h1, arrived);
    assert forall t :: t in h.queue[1..] ==> t in h.queue;
  }

  lemma {:induction false} DrainKeeps(stream: seq<byte>, h: Half, arrived: seq<Segment>)
    requires Sound(stream, h, arrived)
    ensures Sound(stream, Drain(h), arrived)
    ensures Settled(Drain(h))
    ensures |Drain(h).taken| >= |h.taken|
    ensures forall s :: s in h.queue ==> s.End() <= |Drain(h).taken| || s in Drain(h).queue
    decreases |h.queue|
  {
    if h.queue == [] || h.queue[0].off > |h.taken| {
    } else {
      DrainHeadKeeps(stream, h, arrived);
      DrainKeeps(stream, DrainHead(h), arrived);
      assert forall t :: t in h.queue ==> t == h.queue[0] || t in h.queue[1..];
    }
  }

  lemma {:induction false} DrainSettles(h: Half)
    requires Sorted(h.queue)
    ensures Settled(Drain(h)) && Sorted(Drain(h).queue)
    ensures |Drain(h).taken| >= |h.taken|
    ensures forall s :: s in Drain(h).queue ==> s in h.queue
    decreases |h.queue|
  {
    if h.queue == [] || h.queue[0].off > |h.taken| {
    } else {
      DrainSettles(DrainHead(h));
    }
  }

  lemma {:induction false} InsertAtSplits(queue: seq<Segment>, off: int)
    requires Sorted(queue)
    ensures var k := InsertAt(queue, off);
      && (forall i :: 0 <= i < k ==> queue[i].off <= off)
      && (forall i :: k <= i < |queue| ==> queue[i].off > off)
  {
    if queue == [] || queue[|queue| - 1].off <= off {
    } else {
      var front := queue[..|queue| - 1];
      InsertAtSplits(front, off);
      var k := InsertAt(front, off);
      forall i | k <= i < |queue|
        ensures queue[i].off > off
      {
        if i < |front| {
          assert queue[i] == front[i];
        }
      }
      forall i | 0 <= i < k
        ensures queue[i].off <= off
      {
        assert queue[i] == front[i];
      }
    }
  }

  lemma {:induction false} SizeAppend(a: seq<Segment>, b: seq<Segment>)
    ensures Size(a + b) == Size(a) + Size(b)
  {
    if a == [] {
      assert a + b == b;
    } else {
      assert (a + b)[1..] == a[1..] + b;
      SizeAppend(a[1..], b);
    }
  }

  lemma EnqueueSorts(h: Half, s: Segment)
    requires Sorted(h.queue)
    ensures Sorted(Enqueue(h, s).queue)
    ensures s in Enqueue(h, s).queue && forall t :: t in h.queue ==> t in Enqueue(h, s).queue
    ensures forall t :: t in Enqueue(h, s).queue ==> t == s || t in h.queue
  {
    hide InsertAt, Sorted;
    InsertAtSplits(h.queue, s.off);
    InsertSorts(h.queue, InsertAt(h.queue, s.off), s);
  }

  lemma InsertSorts(queue: seq<Segment>, k: nat, s: Segment)
    requires Sorted(queue) && k <= |queue|
    requires forall i :: 0 <= i < k ==> queue[i].off <= s.off
    requires forall i :: k <= i < |queue| ==> queue[i].off > s.off
    ensures var r := queue[..k] + [s] + queue[k..];
      Sorted(r) && s in r && (forall t :: t in queue ==> t in r) && (forall t :: t in r ==> t == s || t in queue)
  {
    var r := queue[..k] + [s] + queue[k..];
    assert r[k] == s;
    assert queue == queue[..k] + queue[k..];
  }

  lemma EnqueueSize(h: Half, s: Segment)
    requires h.rmem == Size(h.queue)
    ensures Enqueue(h, s).rmem == Size(Enqueue(h, s).queue)
  {
    var k := InsertAt(h.queue, s.off);
    assert h.queue == h.queue[..k] + h.queue[k..];
    SizeAppend(h.queue[..k], h.queue[k..]);
    SizeAppend(h.queue[..k] + [s], h.queue[k..]);
    SizeAppend(h.queue[..k], [s]);
    assert Size([s]) == s.truesize;
  }

  lemma EnqueueKeeps(stream: seq<byte>, h: Half, s: Segment, arrived: seq<Segment>)
    requires Sound(stream, h, arrived)
    requires s in arrived && CutFrom(stream, s)
    ensures Sound(stream, Enqueue(h, s), arrived)
    ensures Settled(h) && s.off > |h.taken| ==> Settled(Enqueue(h, s))
    ensures s in Enqueue(h, s).queue && forall t :: t in h.queue ==> t in Enqueue(h, s).queue
  {
    EnqueueSorts(h, s);
    EnqueueSize(h, s);
  }

  /** One segment keeps everything a run promises; only pruning forgets segments. */
  lemma ArriveKeeps(stream: seq<byte>, h: Half, s: Segment, arrived: seq<Segment>)
    requires Sound(stream, h, arrived) && Settled(h)
    requires s in arrived && CutFrom(stream, s)
    ensures Sound(stream, Arrive(h, s), arrived)
    ensures Settled(Arrive(h, s))
    ensures |h.taken| <= |Arrive(h, s).taken|
    ensures s.End() <= |Arrive(h, s).taken| || s in Arrive(h, s).queue
    ensures forall t :: t in h.queue ==> t.End() <= |Arrive(h, s).taken| || t in Arrive(h, s).queue
  {
    if s.off <= |h.taken| {
      if s.EndWithFin() > |h.taken| {
        TakeKeeps(stream, h, s, arrived);
        DrainKeeps(stream, Take(h, s), arrived);
      }
    } else {
      EnqueueKeeps(stream, h, s, arrived);
    }
  }

  lemma SoundWeakens(stream: seq<byte>, h: Half, arrived: seq<Segment>, more: seq<Segment>)
    requires Sound(stream, h, arrived)
    requires forall s :: s in arrived ==> s in more
    ensures Sound(stream, h, more)
  {
    forall p | 0 <= p < |h.taken|
      ensures Covered(more, p)
    {
      assert Covered(arrived, p);
    }
    forall p | Designated(arrived, p)
      ensures Designated(more, p)
    {
    }
    if h.sender == FinSent {
      assert FinReached(arrived, |h.taken|);
    }
  }

  lemma StartKeeps(stream: seq<byte>)
    ensures Sound(stream, START, []) && Settled(START)
  {
  }

  /** Pruning forgets what is queued, and nothing that was taken. */
  lemma PruneKeeps(stream: seq<byte>, h: Half, arrived: seq<Segment>)
    requires Sound(stream, h, arrived) && Settled(h)
    ensures Sound(stream, Prune(h), arrived) && Settled(Prune(h))
    ensures Prune(h).taken == h.taken && Prune(h).sender == h.sender
  {
    hide FinReached, Covered, Designated, CutFrom;
  }

  /** Every run over segments of one stream keeps the invariant, pruned or not. */
  lemma {:induction false} RunKeeps(stream: seq<byte>, segments: seq<Segment>)
    requires forall s :: s in segments ==> CutFrom(stream, s)
    ensures Sound(stream, Run(START, segments), segments)
    ensures Settled(Run(START, segments))
    decreases |segments|
  {
    hide Sound, Settled, CutFrom, Arrive, Prune;
    if segments == [] {
      StartKeeps(stream);
    } else {
      var front, s := segments[..|segments| - 1], segments[|segments| - 1];
      assert s in segments;
      RunKeeps(stream, front);
      var h := Run(START, front);
      SoundWeakens(stream, h, front, segments);
      ArriveKeeps(stream, h, s, segments);
      PruneKeeps(stream, Arrive(h, s), segments);
    }
  }

  lemma {:induction false} RunForgetsNothing(stream: seq<byte>, segments: seq<Segment>)
    requires forall s :: s in segments ==> CutFrom(stream, s)
    requires NeverPruned(segments)
    ensures Complete(Run(START, segments), segments)
    decreases |segments|
  {
    if segments == [] {
    } else {
      var front, s := segments[..|segments| - 1], segments[|segments| - 1];
      assert s in segments;
      RunForgetsNothing(stream, front);
      RunKeeps(stream, front);
      var h := Run(START, front);
      SoundWeakens(stream, h, front, segments);
      ArriveKeeps(stream, h, s, segments);
      assert forall t :: t in segments ==> t in front || t == s;
    }
  }

  /**
   The prefix theorem. Whatever the order, overlap and repetition of the segments, and
   whether or not the queue was pruned, the bytes taken, urgent ones included, are a
   prefix of the stream; every one of them was carried by a segment, every byte taken
   out of band was pointed at by one; the queue is sorted and starts after the prefix;
   rmem_alloc is the sum of the queued sizes; and a FIN is recorded as seen only if
   nothing in front of one is missing.
   */
  lemma Prefix(stream: seq<byte>, segments: seq<Segment>)
    requires forall s :: s in segments ==> CutFrom(stream, s)
    ensures var h := Run(START, segments);
      && Bytes(h.taken) <= stream
      && (forall p :: 0 <= p < |h.taken| ==> Covered(segments, p))
      && (forall p :: 0 <= p < |h.taken| && h.taken[p].Urgent? ==> Designated(segments, p))
      && Sorted(h.queue) && Settled(h)
      && h.rmem == Size(h.queue) <= RMEM_LIMIT
      && (h.sender == FinSent ==> FinReached(segments, |h.taken|))
  {
    RunKeeps(stream, segments);
  }

  /** Without pruning, the prefix taken is exactly the longest one the arrivals cover. */
  lemma LongestPrefix(stream: seq<byte>, segments: seq<Segment>, n: nat)
    requires forall s :: s in segments ==> CutFrom(stream, s)
    requires NeverPruned(segments)
    ensures n == |Run(START, segments).taken| <==>
      (forall p :: 0 <= p < n ==> Covered(segments, p)) && !Covered(segments, n)
  {
    RunKeeps(stream, segments);
    RunForgetsNothing(stream, segments);
    var h := Run(START, segments);
    var m := |h.taken|;
    forall s | s in segments
      ensures !(s.off <= m < s.End())
    {
      assert s in h.queue ==> s.off > m;
    }
    if m < n {
      assert !Covered(segments, m);
    }
  }

  /** So the order in which segments arrive, and how often, does not matter. */
  lemma OrderIrrelevant(stream: seq<byte>, first: seq<Segment>, second: seq<Segment>)
    requires forall s :: s in first <==> s in second
    requires forall s :: s in first ==> CutFrom(stream, s)
    requires NeverPruned(first) && NeverPruned(second)
    ensures Bytes(Run(START, first).taken) == Bytes(Run(START, second).taken)
  {
    var n := |Run(START, first).taken|;
    LongestPrefix(stream, first, n);
    forall p | 0 <= p <= n
      ensures Covered(first, p) <==> Covered(second, p)
    {
    }
    LongestPrefix(stream, second, n);
    Prefix(stream, first);
    Prefix(stream, second);
  }

  /** If every FIN stands at the end of the stream, FIN_SENT means the whole stream was taken. */
  lemma FinMeansAllTaken(stream: seq<byte>, segments: seq<Segment>)
    requires forall s :: s in segments ==> CutFrom(stream, s) && (s.fin ==> s.End() == |stream|)
    requires Run(START, segments).sender == FinSent
    ensures Bytes(Run(START, segments).taken) == stream
  {
    Prefix(stream, segments);
  }
}

/**
 The defragmenter on the fragments of one datagram: as long as they keep coming in time and fit
 under the high mark, it gives the datagram back in whatever order they come.
 */
module IpRun {
  import opened Base
  import opened IpModel
  import opened IpReassembly
  import opened IpTables
  import opened IpFragment

  /** No fragment waits for the next longer than the lifetime of its queue. */
  ghost predicate Paced(run: seq<Arrival>) {
    forall i, j :: 0 <= i && j == i + 1 < |run| ==> run[i].1 <= run[j].1 <= run[i].1 + LIFETIME
  }

  ghost function Below(n: nat): (r: set<nat>)
    ensures forall i :: i in r <==> 0 <= i < n
  {
    if n == 0 then {} else Below(n - 1) + {n - 1}
  }

  /** All the fragments together stay under the high mark. */
  ghost predicate Fits(z: Sizes, ps: seq<Packet>) {
    z.ipq + HEADER_ROOM + FragsCharge(z, Pieces(ps, Below(|ps|), 0, |ps|)) <= HIGH_MARK
  }

  /** What a piece gives when those before it have come. */
  ghost function Completed(ps: seq<Packet>, payload: seq<byte>, before: seq<Arrival>, i: nat): Option<Datagram>
    requires ps != []
  {
    if Whole(ps, Collected(ps, before) + {i}) then
      Some(Datagram(ps[0].header, payload, ps[0].header.Length() + |payload|))
    else None
  }

  /** What the arrival at a position of the run gives. */
  ghost function Given(ps: seq<Packet>, payload: seq<byte>, run: seq<Arrival>, j: nat): Option<Datagram>
    requires j < |run| && ps != []
  {
    Completed(ps, payload, run[..j], run[j].0)
  }

  lemma {:induction false} PiecesCharge(z: Sizes, ps: seq<Packet>, has: set<nat>, lo: nat)
    requires lo <= |ps|
    ensures FragsCharge(z, Pieces(ps, has, lo, |ps|))
         <= FragsCharge(z, Pieces(ps, Below(|ps|), lo, |ps|))
    decreases |ps| - lo
  {
    var all := Below(|ps|);
    if lo >= |ps| {
    } else {
      PiecesCharge(z, ps, has, lo + 1);
      var f := ps[lo].Fragment();
      assert Pieces(ps, all, lo, |ps|) == [f] + Pieces(ps, all, lo + 1, |ps|);
      assert Pieces(ps, has, lo, |ps|) == (if lo in has then [f] else []) + Pieces(ps, has, lo + 1, |ps|);
      assert [] + Pieces(ps, has, lo + 1, |ps|) == Pieces(ps, has, lo + 1, |ps|);
      FragsChargeAppend(z, [f], Pieces(ps, all, lo + 1, |ps|));
      FragsChargeAppend(z, [f], Pieces(ps, has, lo + 1, |ps|));
      hide FragsCharge;
    }
  }

  /** The tables when the only queue is that of one datagram. */
  lemma OneQueue(z: Sizes, hosts: Hosts, queues: Queues, key: Key)
    requires Books(z, hosts, queues) && forall k :: k in queues ==> k == key
    ensures ListOf(hosts, key.dst) == if key in queues then [key] else []
  {
    var list := ListOf(hosts, key.dst);
    hide Charged;
    if list != [] {
      assert list[|list| - 1] in list && list[0] in list;
      DistinctFirst(list);
    }
  }

  lemma DistinctFirst(list: seq<Key>)
    requires Distinct(list)
    ensures forall j :: 1 <= j < |list| ==> list[j] != list[0]
  {
    assert forall j :: 1 <= j < |list| ==> list[j] == list[1..][j - 1];
  }

  /** With one queue that has not run out and fits, a packet finds it as it is. */
  lemma OneOutcome(z: Sizes, queues: Queues, after: Queues, p: Packet, now: int, d: Option<Datagram>)
    requires forall k :: k in queues ==>
        k == p.key && queues[k].expires >= now && QueueCharge(z, queues[k]) <= HIGH_MARK
    requires p.IsFragment()
    requires var list := if p.key in queues then [p.key] else [];
      && Known(list, queues) && Known(Live(list, queues, now), LiveQueues(queues, now))
      && Outcome(z, Live(list, queues, now), LiveQueues(queues, now), after, p, now, d)
    ensures p.key in queues ==> Sane(queues[p.key])
    ensures d == Deliver(Entry(queues, p.key), p, now + LIFETIME).1
    ensures Entry(after, p.key) == Deliver(Entry(queues, p.key), p, now + LIFETIME).0
    ensures forall k :: k in after ==> k == p.key
  {
    var list := if p.key in queues then [p.key] else [];
    assert LiveQueues(queues, now) == queues;
    assert Live(list, queues, now) == list by {
      LiveAll(list, queues, now);
    }
    assert HostCharge(z, list, queues) <= HIGH_MARK by {
      assert list != [] ==> list[1..] == [];
    }
    hide Deliver, Live, LiveQueues, HostCharge, Sane, QueueCharge;
    assert Room(z, list, queues) == list;
    forall k | k in after
      ensures k == p.key
    {
      assert k != p.key ==> Entry(after, k) == Entry(queues, k);
    }
  }

  lemma DeliverExpires(q: Option<Ipq>, p: Packet, expires: int)
    requires q.Some? ==> Sane(q.value)
    ensures Deliver(q, p, expires).0.Some? ==> Deliver(q, p, expires).0.value.expires == expires
  {
    hide Insert, Sane, Done, Glue;
  }

  /** The entry of the datagram after a part of the run. */
  ghost function EntryAfter(ps: seq<Packet>, run: seq<Arrival>): Option<Ipq>
    requires Arrivals(ps, run)
  {
    After(History(ps, run)).0
  }

  lemma EntryNext(ps: seq<Packet>, payload: seq<byte>, run: seq<Arrival>, i: nat)
    requires Cut(ps, payload) && Arrivals(ps, run) && i < |run|
    ensures Arrivals(ps, run[..i]) && Arrivals(ps, run[..i + 1])
    ensures var q := EntryAfter(ps, run[..i]);
      && (q.Some? ==> Sane(q.value))
      && Deliver(q, ps[run[i].0], run[i].1).0 == EntryAfter(ps, run[..i + 1])
      && Deliver(q, ps[run[i].0], run[i].1).1 == Given(ps, payload, run, i)
      && (EntryAfter(ps, run[..i + 1]).Some? ==> EntryAfter(ps, run[..i + 1]).value.expires == run[i].1)
  {
    hide Cut, Deliver, Whole;
    assert Arrivals(ps, run[..i]);
    AnyOrder(ps, payload, run[..i], run[i].0, run[i].1);
    assert run[..i + 1][..i] == run[..i];
    assert History(ps, run[..i + 1])[..i] == History(ps, run[..i]);
    DeliverExpires(EntryAfter(ps, run[..i]), ps[run[i].0], run[i].1);
  }

  lemma EntryFits(z: Sizes, ps: seq<Packet>, payload: seq<byte>, run: seq<Arrival>)
    requires Cut(ps, payload) && Arrivals(ps, run) && Fits(z, ps)
    ensures EntryAfter(ps, run).Some? ==> QueueCharge(z, EntryAfter(ps, run).value) <= HIGH_MARK
  {
    RunHolds(ps, payload, run);
    PiecesCharge(z, ps, Collected(ps, run), 0);
    hide Cut, Pieces, FragsCharge, After, Sane;
  }

  /** The fragments of a datagram as the defragmenter gets them. */
  ghost predicate Sized(ps: seq<Packet>, d: Defragmenter) {
    ps != [] && forall i :: 0 <= i < |ps| ==>
        ps[i].key == ps[0].key && ps[i].truesize == d.Truesize(ps[i].TotalLength())
  }

  /** The queues when they are only that of the datagram. */
  ghost predicate Only(queues: Queues, key: Key, q: Option<Ipq>) {
    (forall k :: k in queues ==> k == key) && Entry(queues, key) == q
  }

  /**
   Reassembly by the defragmenter: in every run of the pieces of a datagram that is paced and
   fits, the arrivals that complete the set give the datagram and the others give nothing.
   */
  method Reassemble(d: Defragmenter, ps: seq<Packet>, payload: seq<byte>, run: seq<Arrival>)
    returns (out: seq<Option<Datagram>>)
    requires d.Valid() && d.queues == map[] && Cut(ps, payload) && Arrivals(ps, run) && Paced(run)
    requires Sized(ps, d) && Fits(d.sizes, ps) && (run != [] ==> d.clock <= run[0].1 - LIFETIME)
    modifies d
    ensures |out| == |run| && forall j :: 0 <= j < |run| ==> out[j] == Given(ps, payload, run, j)
    ensures d.Valid()
  {
    out := [];
    var i := 0;
    hide Cut, Given, EntryAfter, Defragmenter.Truesize, Fits, Outcome, Deliver, InOrder, Busy;
    EntryFirst(ps, run);
    while i < |run|
      invariant 0 <= i <= |run| && d.Valid() && Arrivals(ps, run[..i])
      invariant i < |run| ==> d.clock <= run[i].1 - LIFETIME
      invariant i > 0 ==> d.clock == run[i - 1].1 - LIFETIME
      invariant Only(d.queues, ps[0].key, EntryAfter(ps, run[..i]))
      invariant i > 0 && EntryAfter(ps, run[..i]).Some? ==> EntryAfter(ps, run[..i]).value.expires == run[i - 1].1
      invariant i == 0 ==> EntryAfter(ps, run[..i]) == None
      invariant |out| == i && forall j :: 0 <= j < i ==> out[j] == Given(ps, payload, run, j)
    {
      var p, now := ps[run[i].0], run[i].1 - LIFETIME;
      PieceFacts(ps, payload, run[i].0);
      EntryNext(ps, payload, run, i);
      EntryFits(d.sizes, ps, payload, run[..i]);
      ghost var queues := d.queues;
      BooksOf(d, p.key);
      var verdict, datagram := d.IpDefragStub(p, now);
      assert p.(truesize := d.Truesize(p.TotalLength())) == p;
      OneOutcome(d.sizes, queues, d.queues, p, now, datagram);
      out := out + [datagram];
      i := i + 1;
    }
  }

  lemma EntryFirst(ps: seq<Packet>, run: seq<Arrival>)
    requires Arrivals(ps, run)
    ensures Arrivals(ps, run[..0]) && EntryAfter(ps, run[..0]) == None
  {
  }

  lemma PieceFacts(ps: seq<Packet>, payload: seq<byte>, i: nat)
    requires Cut(ps, payload) && i < |ps|
    ensures ps[i].IsFragment() && ps[i].TotalLength() <= MAX_DATAGRAM
  {
    OnePiece(ps, payload, i);
    OffsetZero(ps, payload, i);
  }

  lemma BooksOf(d: Defragmenter, key: Key)
    requires d.Valid() && forall k :: k in d.queues ==> k == key
    ensures ListOf(d.hosts, key.dst) == if key in d.queues then [key] else []
  {
    OneQueue(d.sizes, d.hosts, d.queues, key);
  }

  // With other datagrams in between

  /** What comes in: a piece of the datagram, or a packet of another. */
  datatype Incoming = Piece(i: nat, now: int) | Other(p: Packet, now: int)

  /** The pieces among it, each with the time at which its queue would run out. */
  function Own(run: seq<Incoming>): seq<Arrival> {
    if run == [] then []
    else
      var front, e := Own(run[..|run| - 1]), run[|run| - 1];
      if e.Piece? then front + [(e.i, e.now + LIFETIME)] else front
  }

  ghost predicate Foreseen(ps: seq<Packet>, run: seq<Incoming>) {
    ps != [] && forall j :: 0 <= j < |run| ==>
      match run[j]
      case Piece(i, _) => i < |ps|
      case Other(p, _) => p.key != ps[0].key && p.TotalLength() <= MAX_DATAGRAM
  }

  /** The clock does not go back. */
  ghost predicate Timely(clock: int, run: seq<Incoming>) {
    && (run != [] ==> clock <= run[0].now)
    && forall j, k :: 0 <= j < k < |run| ==> run[j].now <= run[k].now
  }

  /** What all the packets to one host are charged with together, were none of them ever freed. */
  ghost function Charges(d: Defragmenter, ps: seq<Packet>, run: seq<Incoming>): nat
    requires Foreseen(ps, run)
  {
    if run == [] then 0
    else
      var p := if run[0].Piece? then ps[run[0].i] else run[0].p;
      (if p.key.dst == ps[0].key.dst then d.PacketCharge(d.Truesize(p.TotalLength())) else 0) + Charges(d, ps, run[1..])
  }

  lemma {:induction false} OwnPrefix(run: seq<Incoming>, i: nat)
    requires i <= |run|
    ensures Own(run[..i]) <= Own(run)
    decreases |run|
  {
    if i == |run| {
      assert run[..i] == run;
    } else {
      assert run[..|run| - 1][..i] == run[..i];
      OwnPrefix(run[..|run| - 1], i);
    }
  }

  /** The pieces that are still to come do not come before the next packet. */
  lemma {:induction false} OwnLater(run: seq<Incoming>, i: nat, m: nat)
    requires forall j, k :: 0 <= j < k < |run| ==> run[j].now <= run[k].now
    requires i < |run| && |Own(run[..i])| <= m < |Own(run)|
    ensures Own(run)[m].1 >= run[i].now + LIFETIME
    decreases |run|
  {
    var front := run[..|run| - 1];
    assert i == |front| ==> run[..i] == front;
    if m >= |Own(front)| {
    } else {
      assert front[..i] == run[..i];
      OwnLater(front, i, m);
    }
  }

  lemma OwnStep(run: seq<Incoming>, i: nat)
    requires i < |run|
    ensures var e := run[i];
      Own(run[..i + 1]) == if e.Piece? then Own(run[..i]) + [(e.i, e.now + LIFETIME)] else Own(run[..i])
  {
    var front := run[..i + 1];
    assert front[..|front| - 1] == run[..i] && front[|front| - 1] == run[i];
  }

  lemma {:induction false} OwnArrivals(ps: seq<Packet>, run: seq<Incoming>)
    requires Foreseen(ps, run)
    ensures Arrivals(ps, Own(run))
    decreases |run|
  {
    if run == [] {
    } else {
      OwnArrivals(ps, run[..|run| - 1]);
    }
  }

  /** Queues whose time runs out take their charge with them. */
  lemma {:induction false} LiveCharge(z: Sizes, list: seq<Key>, queues: Queues, now: int)
    requires Known(list, queues)
    ensures Known(Live(list, queues, now), LiveQueues(queues, now))
    ensures HostCharge(z, Live(list, queues, now), LiveQueues(queues, now)) <= HostCharge(z, list, queues)
  {
    hide QueueCharge;
    if list == [] {
    } else {
      LiveCharge(z, list[1..], queues, now);
      var rest := Live(list[1..], queues, now);
      assert ([list[0]] + rest)[1..] == rest && [] + rest == rest;
    }
  }

  /** A packet to a host that is not over the high mark delivers, and leaves the other queues that are live. */
  lemma OutcomeWithRoom(z: Sizes, list: seq<Key>, queues: Queues, after: Queues, p: Packet, now: int,
                        d: Option<Datagram>, key: Key)
    requires Known(list, queues) && (key.dst == p.key.dst ==> HostCharge(z, list, queues) <= HIGH_MARK)
    requires Known(Live(list, queues, now), LiveQueues(queues, now))
    requires Outcome(z, Live(list, queues, now), LiveQueues(queues, now), after, p, now, d)
    requires key in queues ==> queues[key].expires >= now && Sane(queues[key])
    requires key in queues && key.dst == p.key.dst ==> key in list
    ensures key != p.key ==> Entry(after, key) == Entry(queues, key)
    ensures key == p.key && p.IsFragment() && (key in list ==> key in queues) && (key !in queues ==> key !in list) ==>
      && d == Deliver(Entry(queues, key), p, now + LIFETIME).1
      && Entry(after, key) == Deliver(Entry(queues, key), p, now + LIFETIME).0
  {
    LiveCharge(z, list, queues, now);
    hide Deliver, HostCharge, Sane, Live;
    assert key.dst == p.key.dst ==>
        Room(z, Live(list, queues, now), LiveQueues(queues, now)) == Live(list, queues, now);
  }

  /** What the tables hold of the datagram, as long as more of its pieces are to come. */
  ghost predicate Holding(ps: seq<Packet>, own: seq<Arrival>, m: nat, queues: Queues)
    requires ps != [] && m <= |own| && Arrivals(ps, own)
  {
    m < |own| ==>
      && Entry(queues, ps[0].key) == EntryAfter(ps, own[..m])
      && (ps[0].key in queues ==> m > 0 && queues[ps[0].key].expires == own[m - 1].1)
  }

  /** Tables in order, and a host that is not over the high mark. */
  lemma HostFits(d: Defragmenter, key: Key)
    requires d.Valid() && MemOf(d.hosts, key.dst) <= HIGH_MARK
    ensures Known(ListOf(d.hosts, key.dst), d.queues)
    ensures HostCharge(d.sizes, ListOf(d.hosts, key.dst), d.queues) <= HIGH_MARK
  {
    hide Distinct, Timed, AllSane, Punctual;
  }

  lemma KeyListed(d: Defragmenter, key: Key)
    requires d.Valid()
    ensures key in d.queues <==> key in ListOf(d.hosts, key.dst)
    ensures key in d.queues ==> Sane(d.queues[key])
  {
    hide Distinct, Timed, Punctual, Charged, Sane;
  }

  /** A piece is delivered, and a packet of another datagram changes nothing of this one. */
  lemma IncomingStep(z: Sizes, ps: seq<Packet>, payload: seq<byte>, run: seq<Incoming>, i: nat,
                     list: seq<Key>, queues: Queues, after: Queues, p: Packet, d: Option<Datagram>)
    requires Cut(ps, payload) && Foreseen(ps, run) && i < |run| && Paced(Own(run)) && Arrivals(ps, Own(run))
    requires forall j, k :: 0 <= j < k < |run| ==> run[j].now <= run[k].now
    requires Own(run[..i]) <= Own(run) && Holding(ps, Own(run), |Own(run[..i])|, queues)
    requires p.key == (if run[i].Piece? then ps[0].key else run[i].p.key) && (run[i].Piece? ==> p == ps[run[i].i])
    requires Known(list, queues) && (ps[0].key.dst == p.key.dst ==> HostCharge(z, list, queues) <= HIGH_MARK)
    requires Known(Live(list, queues, run[i].now), LiveQueues(queues, run[i].now))
    requires Outcome(z, Live(list, queues, run[i].now), LiveQueues(queues, run[i].now), after, p, run[i].now, d)
    requires ps[0].key in queues ==> Sane(queues[ps[0].key])
    requires ps[0].key.dst == p.key.dst ==> (ps[0].key in queues <==> ps[0].key in list)
    ensures Own(run[..i + 1]) <= Own(run) && Holding(ps, Own(run), |Own(run[..i + 1])|, after)
    ensures run[i].Piece? ==> d == Completed(ps, payload, Own(run[..i]), run[i].i)
  {
    hide Cut, Outcome, Live, LiveQueues, HostCharge, Sane, Deliver, EntryAfter, Own, Whole, Collected;
    var own, m := Own(run), |Own(run[..i])|;
    OwnPrefix(run, i + 1);
    OwnStep(run, i);
    if m < |own| {
      OwnLater(run, i, m);
      OutcomeWithRoom(z, list, queues, after, p, run[i].now, d, ps[0].key);
      if run[i].Piece? {
        assert own[m] == Own(run[..i + 1])[m] && own[..m] == Own(run[..i]);
        PieceFacts(ps, payload, run[i].i);
        EntryNext(ps, payload, own, m);
      }
    }
  }

  /**
   Reassembly among other traffic: into tables that hold other datagrams, with packets of
   other datagrams in between, the pieces of a datagram give it back at the arrivals that
   complete the set, and nothing at the others, as long as they are paced and all that comes
   for their host fits under the high mark.
   */
  method ReassembleAmong(d: Defragmenter, ps: seq<Packet>, payload: seq<byte>, run: seq<Incoming>)
    returns (out: seq<Option<Datagram>>)
    requires d.Valid() && Cut(ps, payload) && Sized(ps, d) && ps[0].key !in d.queues
    requires Foreseen(ps, run) && Timely(d.clock, run) && Paced(Own(run))
    requires MemOf(d.hosts, ps[0].key.dst) + Charges(d, ps, run) <= HIGH_MARK
    modifies d
    ensures d.Valid() && |out| == |run|
    ensures forall j :: 0 <= j < |run| && run[j].Piece? ==> out[j] == Completed(ps, payload, Own(run[..j]), run[j].i)
  {
    out := [];
    var i := 0;
    hide Cut, Completed, EntryAfter, Defragmenter.Truesize, Defragmenter.PacketCharge, Outcome, Deliver, InOrder,
      Busy, Own;
    hide Holding, Paced, Live, LiveQueues, HostCharge, Sane, Arrivals, Charges, Bounded, ListOf;
    OwnArrivals(ps, run);
    HoldingFirst(ps, run, d.queues);
    assert run[0..] == run;
    while i < |run|
      invariant 0 <= i <= |run| && d.Valid() && |out| == i
      invariant i < |run| ==> d.clock <= run[i].now
      invariant MemOf(d.hosts, ps[0].key.dst) + Charges(d, ps, run[i..]) <= HIGH_MARK
      invariant Own(run[..i]) <= Own(run)
      invariant Holding(ps, Own(run), |Own(run[..i])|, d.queues)
      invariant forall j :: 0 <= j < i && run[j].Piece? ==> out[j] == Completed(ps, payload, Own(run[..j]), run[j].i)
    {
      var e := run[i];
      var p := if e.Piece? then ps[e.i] else e.p;
      if e.Piece? {
        PieceFacts(ps, payload, e.i);
      }
      ghost var hosts, queues := d.hosts, d.queues;
      KeyListed(d, ps[0].key);
      NoNegative(d.sizes, d.hosts, d.queues, d.timers, d.clock, ps[0].key.dst);
      ChargesNext(d, ps, run, i);
      if p.key.dst == ps[0].key.dst {
        HostFits(d, p.key);
      }
      var verdict, datagram := d.IpDefragStub(p, e.now);
      IncomingStep(d.sizes, ps, payload, run, i, ListOf(hosts, p.key.dst), queues, d.queues,
                   p.(truesize := d.Truesize(p.TotalLength())), datagram);
      out := out + [datagram];
      i := i + 1;
    }
  }

  lemma HoldingFirst(ps: seq<Packet>, run: seq<Incoming>, queues: Queues)
    requires ps != [] && Arrivals(ps, Own(run)) && ps[0].key !in queues
    ensures Own(run[..0]) == [] && Holding(ps, Own(run), 0, queues)
  {
    assert Own(run)[..0] == [];
  }

  lemma ChargesNext(d: Defragmenter, ps: seq<Packet>, run: seq<Incoming>, i: nat)
    requires Foreseen(ps, run) && i < |run|
    ensures Foreseen(ps, run[i..]) && Foreseen(ps, run[i + 1..])
    ensures var p := if run[i].Piece? then ps[run[i].i] else run[i].p;
      Charges(d, ps, run[i..]) ==
        (if p.key.dst == ps[0].key.dst then d.PacketCharge(d.Truesize(p.TotalLength())) else 0) + Charges(d, ps,
          run[i + 1..])
  {
    assert run[i..][1..] == run[i + 1..];
  }
}

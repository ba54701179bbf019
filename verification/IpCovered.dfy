/**
 Datagrams of which every byte has come. The fragments need not have been cut from one
 datagram: one may lie inside another, or end behind the end. Then the datagram may still
 wait, or be lost, and here is exactly when.
 */
module IpCovered {
  import opened Base
  import opened IpModel
  import opened IpReassembly

  // What an entry holds

  predicate Carries(p: Packet, pos: int) {
    8 * p.off <= pos < 8 * p.off + |p.payload|
  }

  /** A fragment that was taken carried the position. */
  ghost predicate Came(arrived: seq<Packet>, pos: int) {
    exists p :: p in arrived && !p.Oversized() && Carries(p, pos)
  }

  lemma CameNext(arrived: seq<Packet>, p: Packet, pos: int)
    ensures Came(arrived + [p], pos) <==> Came(arrived, pos) || (!p.Oversized() && Carries(p, pos))
  {
    var more := arrived + [p];
    if Came(arrived, pos) {
      var src :| src in arrived && !src.Oversized() && Carries(src, pos);
      assert src in more;
    }
    assert p in more;
  }

  /** What is not written is held already: the predecessor covers what it takes from a fragment. */
  lemma InsertCovers(frags: seq<Frag>, f: Frag, pos: int)
    requires WellFormed(frags) && f.Ok()
    ensures WellFormed(Insert(frags, f))
    ensures At(Insert(frags, f), pos).Some? <==> At(frags, pos).Some? || f.Covers(pos)
  {
    InsertWrites(frags, f, pos);
    AlignedFits(frags, f);
    if f.offset <= pos < WriteFrom(frags, f) {
      var k := Place(frags, f.offset);
      PlaceSplits(frags, f.offset);
      CoversAt(frags, frags[k - 1], pos);
    }
  }

  lemma {:induction false} CoversAt(frags: seq<Frag>, f: Frag, pos: int)
    requires AllOk(frags) && f in frags && f.Covers(pos)
    ensures At(frags, pos).Some?
  {
    if !frags[0].Covers(pos) {
      CoversAt(frags[1..], f, pos);
    }
  }

  /** The step of one fragment, whatever was there. */
  lemma AddedCovers(q: Option<Ipq>, p: Packet, expires: int, arrived: seq<Packet>, pos: int)
    requires if q.None? then arrived == []
             else Sane(q.value) && (At(q.value.frags, pos).Some? <==> Came(arrived, pos))
    ensures Sane(Opened(q, p, expires)) && Sane(Added(Opened(q, p, expires), p))
    ensures p.Oversized() ==>
      (At(Opened(q, p, expires).frags, pos).Some? <==> Came(arrived + [p], pos))
    ensures !p.Oversized() ==>
      (At(Added(Opened(q, p, expires), p).frags, pos).Some? <==> Came(arrived + [p], pos))
  {
    OpenedSane(q, p, expires);
    var q1 := Opened(q, p, expires);
    AddedSane(q1, p);
    CameNext(arrived, p, pos);
    assert At(q1.frags, pos).Some? <==> Came(arrived, pos);
    hide Opened, Insert, Came, At;
    InsertCovers(q1.frags, p.Fragment(), pos);
  }

  /**
   After any history an entry holds a byte at a position exactly if a fragment carried one
   there since the entry was opened, other than one dropped as oversized: nothing that came
   is lost by insertion.
   */
  lemma {:induction false} HoldsWhatCame(history: seq<(Packet, int)>, pos: int)
    ensures var (q, arrived) := After(history);
      q.Some? ==> (At(q.value.frags, pos).Some? <==> Came(arrived, pos))
  {
    if history == [] {
    } else {
      var (q, arrived) := After(history[..|history| - 1]);
      var (p, expires) := history[|history| - 1];
      HoldsWhatCame(history[..|history| - 1], pos);
      AddedCovers(q, p, expires, arrived, pos);
      hide Opened, Added, Sane, Came, At, Glue, Done;
    }
  }

  // Datagrams that are covered

  /** Every position of the datagram has its byte. */
  ghost predicate Covered(frags: seq<Frag>, len: int)
    requires AllOk(frags)
  {
    forall p :: 0 <= p < len ==> At(frags, p).Some?
  }

  function Max(a: int, b: int): int {
    if a < b then b else a
  }

  /** What can stop the scan: a negative length in front of another fragment, or a gap behind the end. */
  ghost predicate Scans(frags: seq<Frag>, from: int, len: int) {
    && (forall i :: 0 <= i < |frags| - 1 ==> frags[i].Len() >= 0)
    && (frags != [] ==> frags[0].offset <= Max(from, len))
    && (forall i :: 0 < i < |frags| ==> frags[i].offset <= Max(frags[i - 1].end, len))
  }

  /** Where every position has its byte, nothing else stops it. */
  lemma {:induction false} CoveredIsDone(frags: seq<Frag>, from: int, len: int)
    requires WellFormed(frags) && From(frags, from)
    requires forall p :: from <= p < len ==> At(frags, p).Some?
    ensures Connected(frags, from) <==> Scans(frags, from, len)
  {
    if frags == [] {
    } else {
      var head, tail := frags[0], frags[1..];
      if head.offset > from {
        if from < len {
          NothingBefore(frags, head.offset, from);
          assert false;
        }
      } else if head.Len() < 0 {
        assert tail != [] ==> tail[0] == frags[1] && tail[0].offset >= head.offset;
      } else {
        Split(frags, 1);
        TailCovered(frags, len);
        CoveredIsDone(tail, head.end, len);
        ScansTail(frags, from, len);
      }
    }
  }

  lemma TailCovered(frags: seq<Frag>, len: int)
    requires AllOk(frags) && frags != []
    requires forall p :: frags[0].offset <= p < len ==> At(frags, p).Some?
    requires frags[0].Len() >= 0
    ensures forall p :: frags[0].end <= p < len ==> At(frags[1..], p).Some?
  {
    forall p | frags[0].end <= p < len
      ensures At(frags[1..], p).Some?
    {
      assert At(frags, p).Some?;
    }
  }

  lemma ScansTail(frags: seq<Frag>, from: int, len: int)
    requires frags != [] && frags[0].Len() >= 0 && frags[0].offset <= from
    ensures Scans(frags, from, len) <==> Scans(frags[1..], frags[0].end, len)
  {
    var tail := frags[1..];
    assert forall i :: 0 <= i < |tail| ==> tail[i] == frags[i + 1];
    if Scans(tail, frags[0].end, len) {
      forall i | 0 < i < |frags|
        ensures frags[i].offset <= Max(frags[i - 1].end, len)
        ensures i < |frags| - 1 ==> frags[i].Len() >= 0
      {
        assert frags[i] == tail[i - 1];
        assert i > 1 ==> frags[i - 1] == tail[i - 2];
      }
    }
    if Scans(frags, from, len) {
      forall i | 0 <= i < |tail|
        ensures i < |tail| - 1 ==> tail[i].Len() >= 0
        ensures tail[i].offset <= Max(if i == 0 then frags[0].end else tail[i - 1].end, len)
      {
        assert tail[i] == frags[i + 1];
      }
    }
  }

  /** What ip_glue accepts. */
  ghost predicate Clean(q: Ipq) {
    && (forall f :: f in q.frags ==> f.Len() >= 0 && f.end <= q.len)
    && q.header.Length() + q.len <= MAX_DATAGRAM
  }

  /**
   What comes of a datagram when, after any history, fragments that were not oversized have
   carried all its positions. It is handed up exactly if no fragment in its list has a negative
   length, none ends behind it, and it is not too long; else it waits if the scan is stopped,
   and is lost, with all that came of it, if it is not.
   */
  lemma CoveredOutcome(history: seq<(Packet, int)>, p: Packet, expires: int)
    requires !p.Oversized() && LatestEnd(After(history).1 + [p]) > 0
    requires forall pos :: 0 <= pos < LatestEnd(After(history).1 + [p]) ==> Came(After(history).1 + [p], pos)
    ensures var q := After(history).0;
      var q2 := Added(Opened(q, p, expires), p);
      && Sane(q2) && q2.len == LatestEnd(After(history).1 + [p])
      && Deliver(q, p, expires) ==
         if Clean(q2) then
           (None, Some(Datagram(q2.header, Payload(q2.frags, q2.len), q2.header.Length() + q2.len)))
         else if Scans(q2.frags, 0, q2.len) then (None, None)
         else (Some(q2), None)
  {
    hide Came, After, LatestEnd, Added, Opened, Sane, Explained, At, Clean, Scans, Deliver;
    var (q, arrived) := After(history);
    AfterExplained(history);
    AddedExplained(q, p, expires, arrived);
    ExplainedMeans(Added(Opened(q, p, expires), p), arrived + [p]);
    if q.Some? {
      ExplainedMeans(q.value, arrived);
    }
    var q2 := Added(Opened(q, p, expires), p);
    forall pos | 0 <= pos < q2.len
      ensures At(q2.frags, pos).Some?
    {
      HoldsWhatCame(history, pos);
      AddedCovers(q, p, expires, arrived, pos);
    }
    OutcomeOf(q, p, expires);
  }

  lemma ExplainedMeans(q: Ipq, arrived: seq<Packet>)
    requires Explained(q, arrived)
    ensures Sane(q) && AllOk(q.frags) && q.len == LatestEnd(arrived)
  {
    hide Carried, LatestEnd, LatestHeader;
  }

  /** The same of an entry whose list covers the datagram. */
  lemma OutcomeOf(q: Option<Ipq>, p: Packet, expires: int)
    requires (q.Some? ==> Sane(q.value)) && !p.Oversized()
    requires var q2 := Added(Opened(q, p, expires), p);
      q2.len > 0 && AllOk(q2.frags) && Covered(q2.frags, q2.len)
    ensures var q2 := Added(Opened(q, p, expires), p);
      && Sane(q2)
      && Deliver(q, p, expires) ==
         if Clean(q2) then
           (None, Some(Datagram(q2.header, Payload(q2.frags, q2.len), q2.header.Length() + q2.len)))
         else if Scans(q2.frags, 0, q2.len) then (None, None)
         else (Some(q2), None)
  {
    var q2 := Added(Opened(q, p, expires), p);
    OpenedSane(q, p, expires);
    AddedSane(Opened(q, p, expires), p);
    hide Added, Opened;
    CoveredIsDone(q2.frags, 0, q2.len);
    if Clean(q2) {
      CleanScans(q2);
      GlueIs(q2);
    }
    hide Payload, Scans, Sane;
  }

  lemma CleanScans(q: Ipq)
    requires Clean(q)
    ensures Scans(q.frags, 0, q.len)
  {
    forall i | 0 <= i < |q.frags|
      ensures q.frags[i].Len() >= 0 && q.frags[i].offset <= q.len
    {
      assert q.frags[i] in q.frags;
    }
  }

  /** An arriving fragment gets a negative length exactly if it ends before its predecessor does. */
  lemma NegativeIfInside(frags: seq<Frag>, f: Frag)
    requires WellFormed(frags) && f.offset <= f.end
    ensures var k := Place(frags, f.offset);
      Aligned(frags, f).Len() < 0 <==> k > 0 && f.end < frags[k - 1].end
  {
    hide Place;
  }

  // Two histories in which every byte comes and the datagram does not

  function Piece(key: Key, header: Header, off: nat, mf: bool, bytes: seq<byte>): Packet {
    Packet(key, header, off, mf, bytes, 0)
  }

  lemma AfterOne(history: seq<(Packet, int)>, p: Packet, expires: int)
    ensures After(history + [(p, expires)]).0 == Deliver(After(history).0, p, expires).0
  {
    assert (history + [(p, expires)])[..|history|] == history;
  }

  /** A fragment that leaves its datagram incomplete. */
  lemma Waits(history: seq<(Packet, int)>, q0: Option<Ipq>, p: Packet, expires: int, q: Ipq)
    requires After(history).0 == q0 && !p.Oversized() && !Done(q.frags, q.len)
    requires q == Added(Opened(q0, p, expires), p)
    ensures After(history + [(p, expires)]).0 == Some(q)
  {
    AfterOne(history, p, expires);
    hide Added, Opened, Done, Sane, Glue, After;
  }

  /** Insertion behind all others. */
  lemma InsertLast(frags: seq<Frag>, f: Frag)
    requires forall i :: 0 <= i < |frags| ==> frags[i].offset < f.offset
    requires frags != [] ==> frags[|frags| - 1].end <= f.offset
    ensures Insert(frags, f) == frags + [f]
  {
    PlaceLast(frags, f.offset);
    hide Place;
    assert frags[|frags|..] == [];
  }

  lemma {:induction false} PlaceLast(frags: seq<Frag>, offset: int)
    requires forall i :: 0 <= i < |frags| ==> frags[i].offset < offset
    ensures Place(frags, offset) == |frags|
  {
    if frags == [] {
    } else {
      PlaceLast(frags[1..], offset);
    }
  }

  /** Insertion of a fragment that lies inside the first one. */
  lemma InsertInner(a: Frag, rest: seq<Frag>, f: Frag)
    requires a.offset < f.offset < f.end < a.end
    requires rest != [] ==> rest[0].offset >= a.end
    ensures var inner := f.(offset := a.end, ptr := f.ptr + (a.end - f.offset));
      inner.Len() < 0 && Insert([a] + rest, f) == [a, inner] + rest
  {
    var frags := [a] + rest;
    assert frags[1..] == rest && frags[..1] == [a];
    assert Place(rest, f.offset) == 0;
    assert Place(frags, f.offset) == 1;
    assert Trim(rest, f.end) == rest;
    hide Place, Trim;
  }

  /**
   A fragment inside another can keep its datagram waiting: after these four fragments every
   byte has come, also the last one, and ip_done does not see it.
   */
  lemma InnerFragmentBlocks(key: Key, header: Header, x: seq<byte>, y: seq<byte>, expires: int)
    requires |x| == 24 && |y| == 8 && header.Length() + 40 <= MAX_DATAGRAM
    ensures var q := After([(Piece(key, header, 0, true, x), expires), (Piece(key, header, 3, true, y), expires),
                            (Piece(key, header, 1, true, y), expires), (Piece(key, header, 4, false, y), expires)]).0;
      q.Some? && q.value.len == 40 && Covered(q.value.frags, 40)
  {
    var a, c := Piece(key, header, 0, true, x), Piece(key, header, 3, true, y);
    var i, l := Piece(key, header, 1, true, y), Piece(key, header, 4, false, y);
    var inner := i.Fragment().(offset := 24, ptr := 16);
    var frags := [a.Fragment(), inner, c.Fragment(), l.Fragment()];
    BlockedList(a.Fragment(), c.Fragment(), i.Fragment(), l.Fragment());
    EmptyHistory();
    NotYet();
    hide Insert, After, Covered, Done, AllOk;
    var e := expires;
    var q1, q2 := Ipq(header, 0, [a.Fragment()], e), Ipq(header, 0, [a.Fragment(), c.Fragment()], e);
    var q3, q4 := Ipq(header, 0, [a.Fragment(), inner, c.Fragment()], e), Ipq(header, 40, frags, e);
    var h1, h2, h3, h4 := [(a, e)], [(a, e), (c, e)], [(a, e), (c, e), (i, e)], [(a, e), (c, e), (i, e), (l, e)];
    assert [] + [(a, e)] == h1 && h1 + [(c, e)] == h2 && h2 + [(i, e)] == h3 && h3 + [(l, e)] == h4;
    Waits([], None, a, e, q1);
    Waits(h1, Some(q1), c, e, q2);
    Waits(h2, Some(q2), i, e, q3);
    Waits(h3, Some(q3), l, e, q4);
  }

  lemma EmptyHistory()
    ensures After([]) == (None, [])
  {
  }

  lemma NotYet()
    ensures forall frags :: !Done(frags, 0)
  {
  }

  lemma BlockedList(a: Frag, c: Frag, i: Frag, l: Frag)
    requires a.Ok() && c.Ok() && i.Ok() && l.Ok() && a.ptr == c.ptr == i.ptr == l.ptr == 0
    requires a.offset == 0 && a.end == 24 && c.offset == 24 && c.end == 32
    requires i.offset == 8 && i.end == 16 && l.offset == 32 && l.end == 40
    ensures var inner := i.(offset := 24, ptr := 16);
      && Insert([], a) == [a] && Insert([a], c) == [a, c] && Insert([a, c], i) == [a, inner, c]
      && Insert([a, inner, c], l) == [a, inner, c, l]
      && AllOk([a, inner, c, l]) && Covered([a, inner, c, l], 40) && !Done([a, inner, c, l], 40)
  {
    hide Insert, Covered, Done, AllOk;
    var inner := i.(offset := 24, ptr := 16);
    BlockedFront(a, c, i);
    InsertLast([a, inner, c], l);
    assert [a, inner, c] + [l] == [a, inner, c, l];
    FourOk(a, inner, c, l);
    BlockedCovers(a, inner, c, l);
  }

  lemma BlockedFront(a: Frag, c: Frag, i: Frag)
    requires a.offset == 0 && a.end == 24 && c.offset == 24 && i.offset == 8 && i.end == 16 && i.ptr == 0
    ensures Insert([], a) == [a] && Insert([a], c) == [a, c]
    ensures Insert([a, c], i) == [a, i.(offset := 24, ptr := 16), c]
  {
    hide Insert;
    InsertLast([], a);
    InsertLast([a], c);
    InsertInner(a, [c], i);
    assert [] + [a] == [a] && [a] + [c] == [a, c];
    assert [a, i.(offset := 24, ptr := 16)] + [c] == [a, i.(offset := 24, ptr := 16), c];
  }

  lemma FourOk(a: Frag, b: Frag, c: Frag, d: Frag)
    requires a.Ok() && b.Ok() && c.Ok() && d.Ok()
    ensures AllOk([a, b, c, d])
  {
  }

  lemma BlockedCovers(a: Frag, inner: Frag, c: Frag, l: Frag)
    requires AllOk([a, inner, c, l]) && inner.offset == 24 && inner.end == 16
    requires a.offset == 0 && a.end == 24 && c.offset == 24 && c.end == 32 && l.offset == 32 && l.end == 40
    ensures Covered([a, inner, c, l], 40) && !Done([a, inner, c, l], 40)
  {
    var frags := [a, inner, c, l];
    assert frags[1..] == [inner, c, l] && frags[1..][1..] == [c, l] && [c, l][1..] == [l] && [l][1..] == [];
    assert !Connected([c, l], 16);
    assert !Connected([inner, c, l], 24);
    forall p | 0 <= p < 40
      ensures At(frags, p).Some?
    {
      assert At([l], p).Some? <==> 32 <= p;
      assert At([c, l], p).Some? <==> 24 <= p;
      assert At(frags[1..], p) == At([c, l], p);
    }
  }

  /**
   And it can lose the datagram, though all fragments agree with it: here the fragment at the
   front comes last, the scan is satisfied, and ip_glue refuses the one inside.
   */
  lemma InnerFragmentLoses(key: Key, header: Header, d: seq<byte>, expires: int)
    requires |d| == 32 && header.Length() + 32 <= MAX_DATAGRAM
    ensures var a, i := Piece(key, header, 1, false, d[8..]), Piece(key, header, 2, true, d[16..24]);
      var f := Piece(key, header, 0, true, d[..8]);
      var q := After([(a, expires), (i, expires)]).0;
      && q.Some? && Sane(q.value)
      && (forall p :: 0 <= p < 32 ==> AllOk(Added(Opened(q, f, expires), f).frags)
                                      && At(Added(Opened(q, f, expires), f).frags, p) == Some(d[p]))
      && Deliver(q, f, expires) == (None, None)
  {
    var a, i := Piece(key, header, 1, false, d[8..]), Piece(key, header, 2, true, d[16..24]);
    var f := Piece(key, header, 0, true, d[..8]);
    var inner := i.Fragment().(offset := 32, ptr := 16);
    LostList(d, a.Fragment(), i.Fragment(), f.Fragment());
    hide Insert, After, Done, Connected;
    EmptyHistory();
    assert [] + [(a, expires)] == [(a, expires)];
    assert [(a, expires)] + [(i, expires)] == [(a, expires), (i, expires)];
    var q1 := Ipq(header, 32, [a.Fragment()], expires);
    Waits([], None, a, expires, q1);
    Waits([(a, expires)], Some(q1), i, expires, Ipq(header, 32, [a.Fragment(), inner], expires));
    var q := After([(a, expires), (i, expires)]).0;
    var q2 := Ipq(header, 32, [f.Fragment(), a.Fragment(), inner], expires);
    assert Added(Opened(q, f, expires), f) == q2;
    assert inner in q2.frags && inner.Len() < 0;
    OutcomeOf(q, f, expires);
  }

  lemma LostList(d: seq<byte>, a: Frag, i: Frag, f: Frag)
    requires |d| == 32 && a.payload == d[8..] && i.payload == d[16..24] && f.payload == d[..8]
    requires a.ptr == i.ptr == f.ptr == 0 && a.offset == 8 && a.end == 32 && i.offset == 16 && i.end == 24
    requires f.offset == 0 && f.end == 8
    ensures var inner := i.(offset := 32, ptr := 16);
      && Insert([], a) == [a] && Insert([a], i) == [a, inner] && Insert([a, inner], f) == [f, a, inner]
      && !Done([a], 32) && !Done([a, inner], 32)
      && AllOk([f, a, inner]) && Scans([f, a, inner], 0, 32)
      && forall p :: 0 <= p < 32 ==> At([f, a, inner], p) == Some(d[p])
  {
    hide Insert, At;
    var inner := i.(offset := 32, ptr := 16);
    InsertLast([], a);
    InsertInner(a, [], i);
    assert [a] + [] == [a] && [a, inner] + [] == [a, inner];
    InsertFirst(f, a, inner);
    var frags := [f, a, inner];
    assert frags[1..] == [a, inner] && frags[2..] == [inner];
    forall p | 0 <= p < 32
      ensures At(frags, p) == Some(d[p])
    {
      assert [f, a] + [inner] == frags;
      LostAt(d, f, a, [inner], p);
    }
  }

  lemma InsertFirst(f: Frag, a: Frag, inner: Frag)
    requires f.offset == 0 && f.end == 8 && a.offset == 8
    ensures Insert([a, inner], f) == [f, a, inner]
  {
  }

  lemma LostAt(d: seq<byte>, f: Frag, a: Frag, rest: seq<Frag>, p: nat)
    requires |d| == 32 && a.payload == d[8..] && f.payload == d[..8] && f.ptr == a.ptr == 0
    requires f.offset == 0 && f.end == 8 == a.offset && a.end == 32 && AllOk([f, a] + rest) && p < 32
    ensures At([f, a] + rest, p) == Some(d[p])
  {
    assert ([f, a] + rest)[1..] == [a] + rest;
  }
}

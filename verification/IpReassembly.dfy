/**
 IP reassembly over the whole life of a datagram: what any history of fragments can lead to,
 and what the fragments of one datagram lead to in any order of arrival.
 */
module IpReassembly {
  import opened Base
  import opened IpModel

  // Any history of fragments

  /** The entry after the fragments in `history`, and those of them that came since it was opened. */
  function After(history: seq<(Packet, int)>): (r: (Option<Ipq>, seq<Packet>))
    ensures r.0.None? ==> r.1 == []
    ensures r.0.Some? ==> Sane(r.0.value) && r.1 != []
  {
    if history == [] then (None, [])
    else
      var (q, arrived) := After(history[..|history| - 1]);
      var (p, expires) := history[|history| - 1];
      DeliverSane(q, p, expires);
      var next := Deliver(q, p, expires).0;
      (next, if next.None? then [] else arrived + [p])
  }

  lemma DeliverSane(q: Option<Ipq>, p: Packet, expires: int)
    requires q.Some? ==> Sane(q.value)
    ensures Deliver(q, p, expires).0.Some? ==> Sane(Deliver(q, p, expires).0.value)
  {
    OpenedSane(q, p, expires);
    AddedSane(Opened(q, p, expires), p);
    hide Opened, Added, Sane, Glue, Done;
  }

  /** Whatever came, an entry holds nothing but what its fragments brought. */
  lemma {:induction false} AfterExplained(history: seq<(Packet, int)>)
    ensures After(history).0.Some? ==> Explained(After(history).0.value, After(history).1)
  {
    if history == [] {
    } else {
      var (q, arrived) := After(history[..|history| - 1]);
      var (p, expires) := history[|history| - 1];
      AfterExplained(history[..|history| - 1]);
      DeliverExplained(q, p, expires, arrived);
      hide Deliver, Explained, Sane;
    }
  }

  lemma {:induction false} AtFrom(frags: seq<Frag>, p: int)
    requires AllOk(frags) && At(frags, p).Some?
    ensures exists f :: f in frags && f.Covers(p) && At(frags, p) == Some(f.ByteAt(p))
  {
    if frags[0].Covers(p) {
      assert frags[0] in frags;
    } else {
      AtFrom(frags[1..], p);
    }
  }

  /** A packet that carries a byte of the datagram at the right position. */
  ghost predicate Brought(p: Packet, pos: int, b: byte) {
    8 * p.off <= pos < 8 * p.off + |p.payload| && p.payload[pos - 8 * p.off] == b
  }

  /**
   A glued datagram is sound whatever fragments led to it: it ends where the latest fragment
   without MF ends, every byte was carried at its position by a fragment that arrived since
   the entry was opened, its header came with a fragment at offset 0, and its length is that
   of header and payload, at most 65535.
   */
  lemma GluedIsSound(history: seq<(Packet, int)>, p: Packet, expires: int)
    ensures var (q, arrived) := After(history);
      var d := Deliver(q, p, expires).1;
      d.Some? ==>
        && |d.value.payload| == LatestEnd(arrived + [p]) > 0
        && d.value.header == LatestHeader(arrived + [p])
        && (exists src :: src in arrived + [p] && src.off == 0 && src.header == d.value.header)
        && d.value.ipLen == d.value.header.Length() + |d.value.payload| <= MAX_DATAGRAM
        && forall pos :: 0 <= pos < |d.value.payload| ==>
             exists src :: src in arrived + [p] && Brought(src, pos, d.value.payload[pos])
  {
    AfterExplained(history);
    var (q, arrived) := After(history);
    var d := Deliver(q, p, expires).1;
    if d.Some? {
      DeliveredFrom(q, p, expires, arrived);
      hide Explained, Added, Opened, Deliver;
      var q2 := Added(Opened(q, p, expires), p);
      var more := arrived + [p];
      GluedFrom(q2, more);
    }
  }

  /** A datagram is only made from an entry that the arrived fragments explain. */
  lemma DeliveredFrom(q: Option<Ipq>, p: Packet, expires: int, arrived: seq<Packet>)
    requires if q.None? then arrived == [] else Explained(q.value, arrived)
    requires Deliver(q, p, expires).1.Some?
    ensures var q2 := Added(Opened(q, p, expires), p);
      && Explained(q2, arrived + [p]) && Done(q2.frags, q2.len)
      && Deliver(q, p, expires).1 == Glue(q2)
  {
    AddedExplained(q, p, expires, arrived);
    hide Added, Opened, Glue, Done, Explained;
  }

  lemma GluedFrom(q: Ipq, arrived: seq<Packet>)
    requires Explained(q, arrived) && Done(q.frags, q.len) && Glue(q).Some?
    ensures var d := Glue(q).value;
      && |d.payload| == LatestEnd(arrived) > 0
      && d.header == LatestHeader(arrived)
      && (exists src :: src in arrived && src.off == 0 && src.header == d.header)
      && d.ipLen == d.header.Length() + |d.payload| <= MAX_DATAGRAM
      && forall pos :: 0 <= pos < |d.payload| ==> exists src :: src in arrived && Brought(src, pos, d.payload[pos])
  {
    GlueSound(q.frags, q.len);
    hide Done, TotalLen, LatestEnd, Tile, LatestHeader;
    var d := Glue(q).value;
    forall pos | 0 <= pos < |d.payload|
      ensures exists src :: src in arrived && Brought(src, pos, d.payload[pos])
    {
      var _ := CarrierOf(q.frags, arrived, pos);
    }
    var first := CarrierOf(q.frags, arrived, 0);
    HeaderAtZero(arrived, first);
  }

  lemma CarrierOf(frags: seq<Frag>, arrived: seq<Packet>, pos: nat) returns (src: Packet)
    requires AllOk(frags) && Carried(frags, arrived) && At(frags, pos).Some?
    ensures src in arrived && Brought(src, pos, At(frags, pos).value)
  {
    AtFrom(frags, pos);
    var f :| f in frags && f.Covers(pos) && At(frags, pos) == Some(f.ByteAt(pos));
    hide At;
    assert FromPacket(f, arrived);
    src :| src in arrived && f.Origin() == 8 * src.off && f.payload == src.payload;
  }

  lemma {:induction false} HeaderAtZero(arrived: seq<Packet>, src: Packet)
    requires src in arrived && src.off == 0
    ensures exists first :: first in arrived && first.off == 0 && first.header == LatestHeader(arrived)
  {
    var last := arrived[|arrived| - 1];
    if last.off != 0 && |arrived| > 1 {
      HeaderAtZero(arrived[..|arrived| - 1], src);
      var first :| first in arrived[..|arrived| - 1] && first.off == 0 && first.header
        == LatestHeader(arrived[..|arrived| - 1]);
      assert first in arrived;
    }
  }

  // The fragments of one datagram, in any order

  /** The datagram cut into fragments: each non-empty, all but the last with MF, none oversized. */
  ghost predicate Cut(ps: seq<Packet>, payload: seq<byte>) {
    && |ps| >= 2 && ps[0].off == 0
    && (forall i :: 0 <= i < |ps| ==> ps[i].payload != [] && !ps[i].Oversized() && (ps[i].mf <==> i < |ps| - 1))
    && (forall i, j :: 0 <= i && j == i + 1 < |ps| ==> 8 * ps[j].off == Stop(ps[i]))
    && |payload| == Stop(ps[|ps| - 1])
    && (forall i :: 0 <= i < |ps| ==> Stop(ps[i]) <= |payload|)
    && (forall i :: 0 <= i < |ps| ==> payload[8 * ps[i].off..Stop(ps[i])] == ps[i].payload)
    && ps[0].header.Length() + |payload| <= MAX_DATAGRAM
  }

  function Stop(p: Packet): nat {
    8 * p.off + |p.payload|
  }

  /** The list that holds the pieces in `has`, from one index to another. */
  function Pieces(ps: seq<Packet>, has: set<nat>, lo: nat, hi: nat): seq<Frag>
    requires hi <= |ps|
    decreases hi - lo
  {
    if lo >= hi then [] else (if lo in has then [ps[lo].Fragment()] else []) + Pieces(ps, has, lo + 1, hi)
  }

  lemma {:induction false} Ordered(ps: seq<Packet>, payload: seq<byte>, i: nat, j: nat)
    requires Cut(ps, payload) && i < j < |ps|
    ensures Stop(ps[i]) <= 8 * ps[j].off
    decreases j - i
  {
    assert 8 * ps[i + 1].off == Stop(ps[i]);
    if i + 1 >= j {
    } else {
      Ordered(ps, payload, i + 1, j);
    }
  }

  /** What the cut says of one piece. */
  lemma OnePiece(ps: seq<Packet>, payload: seq<byte>, i: nat)
    requires Cut(ps, payload) && i < |ps|
    ensures 8 * ps[i].off < Stop(ps[i]) <= |payload| && !ps[i].Oversized() && (ps[i].mf <==> i < |ps| - 1)
    ensures payload[8 * ps[i].off..Stop(ps[i])] == ps[i].payload
    ensures i + 1 < |ps| ==> 8 * ps[i + 1].off == Stop(ps[i])
    ensures i > 0 ==> 8 * ps[i].off == Stop(ps[i - 1])
    ensures i == |ps| - 1 ==> Stop(ps[i]) == |payload|
  {
  }

  lemma {:induction false} PiecesSplit(ps: seq<Packet>, has: set<nat>, lo: nat, mid: nat, hi: nat)
    requires lo <= mid <= hi <= |ps|
    ensures Pieces(ps, has, lo, hi) == Pieces(ps, has, lo, mid) + Pieces(ps, has, mid, hi)
    decreases mid - lo
  {
    if lo >= mid {
    } else {
      PiecesSplit(ps, has, lo + 1, mid, hi);
    }
  }

  lemma {:induction false} PiecesAgree(ps: seq<Packet>, a: set<nat>, b: set<nat>, lo: nat, hi: nat)
    requires hi <= |ps| && forall i :: lo <= i < hi ==> (i in a <==> i in b)
    ensures Pieces(ps, a, lo, hi) == Pieces(ps, b, lo, hi)
    decreases hi - lo
  {
    if lo >= hi {
    } else {
      PiecesAgree(ps, a, b, lo + 1, hi);
    }
  }

  /** Where the pieces between two indices lie. */
  lemma {:induction false} PiecesLie(ps: seq<Packet>, payload: seq<byte>, has: set<nat>, lo: nat, hi: nat)
    requires Cut(ps, payload) && lo <= hi <= |ps|
    ensures forall f :: f in Pieces(ps, has, lo, hi) ==> Lies(ps, lo, hi, f)
    decreases hi - lo
  {
    hide Cut;
    if lo >= hi {
    } else {
      OnePiece(ps, payload, lo);
      PiecesLie(ps, payload, has, lo + 1, hi);
      if lo + 1 < hi {
        Ordered(ps, payload, lo, hi - 1);
        OnePiece(ps, payload, hi - 1);
      }
    }
  }

  ghost predicate Lies(ps: seq<Packet>, lo: nat, hi: nat, f: Frag)
    requires hi <= |ps|
  {
    lo < hi && 8 * ps[lo].off <= f.offset && f.offset < f.end <= Stop(ps[hi - 1]) && f.Ok()
  }

  lemma {:induction false} PlaceBehind(front: seq<Frag>, tail: seq<Frag>, offset: int)
    requires forall f :: f in front ==> f.offset < offset
    requires tail == [] || tail[0].offset >= offset
    ensures Place(front + tail, offset) == |front|
  {
    if front == [] {
      assert front + tail == tail;
    } else {
      assert (front + tail)[1..] == front[1..] + tail;
      PlaceBehind(front[1..], tail, offset);
    }
  }

  /** A piece of the datagram goes to its place among the others, or replaces itself. */
  lemma InsertPiece(ps: seq<Packet>, payload: seq<byte>, has: set<nat>, i: nat)
    requires Cut(ps, payload) && i < |ps|
    ensures Insert(Pieces(ps, has, 0, |ps|), ps[i].Fragment()) == Pieces(ps, has + {i}, 0, |ps|)
  {
    var n, f := |ps|, ps[i].Fragment();
    var front, tail, rest := Pieces(ps, has, 0, i), Pieces(ps, has, i, n), Pieces(ps, has, i + 1, n);
    PiecesSplit(ps, has, 0, i, n);
    PiecesSplit(ps, has + {i}, 0, i, n);
    PiecesAgree(ps, has, has + {i}, 0, i);
    PiecesAgree(ps, has, has + {i}, i + 1, n);
    assert tail == (if i in has then [f] else []) + rest;
    assert Pieces(ps, has + {i}, 0, n) == front + ([f] + rest);
    OnePiece(ps, payload, i);
    PiecesLie(ps, payload, has, 0, i);
    PiecesLie(ps, payload, has, i + 1, n);
    hide Pieces, Cut;
    InsertBetween(front, f, tail, rest);
  }

  lemma InsertBetween(front: seq<Frag>, f: Frag, tail: seq<Frag>, rest: seq<Frag>)
    requires tail == rest || tail == [f] + rest
    requires forall h :: h in front ==> h.offset < f.offset && h.end <= f.offset
    requires forall h :: h in rest ==> h.offset >= f.end
    requires f.offset < f.end
    ensures Insert(front + tail, f) == front + ([f] + rest)
  {
    var frags, k := front + tail, |front|;
    TrimToRest(f, tail, rest);
    PlaceBehind(front, tail, f.offset);
    hide Trim, Place;
    assert Aligned(frags, f) == f by {
      assert k > 0 ==> frags[k - 1] == front[k - 1] && front[k - 1] in front;
    }
    hide Aligned;
    assert frags[..k] == front && frags[k..] == tail;
    assert Insert(frags, f) == front + [f] + rest;
  }

  lemma TrimToRest(f: Frag, tail: seq<Frag>, rest: seq<Frag>)
    requires tail == rest || tail == [f] + rest
    requires (forall h :: h in rest ==> h.offset >= f.end) && f.offset < f.end
    ensures Trim(tail, f.end) == rest
    ensures tail == [] || tail[0].offset >= f.offset
  {
    assert rest != [] ==> rest[0] in rest;
    assert ([f] + rest)[1..] == rest;
  }

  /** Once the last piece is there, the list connects exactly when no piece is missing. */
  lemma {:induction false} ConnectedIfAll(ps: seq<Packet>, payload: seq<byte>, has: set<nat>, lo: nat)
    requires Cut(ps, payload) && lo < |ps| && |ps| - 1 in has
    ensures Connected(Pieces(ps, has, lo, |ps|), 8 * ps[lo].off) <==> forall i :: lo <= i < |ps| ==> i in has
    decreases |ps| - lo
  {
    var rest := Pieces(ps, has, lo + 1, |ps|);
    OnePiece(ps, payload, lo);
    hide Cut;
    if lo + 1 == |ps| {
      assert rest == [];
    } else {
      ConnectedIfAll(ps, payload, has, lo + 1);
      if lo in has {
        assert Pieces(ps, has, lo, |ps|) == [ps[lo].Fragment()] + rest;
      } else {
        PiecesSplit(ps, has, lo + 1, |ps| - 1, |ps|);
        assert Pieces(ps, has, |ps| - 1, |ps|) == [ps[|ps| - 1].Fragment()];
        assert rest != [];
        PiecesLie(ps, payload, has, lo + 1, |ps|);
        assert rest[0] in rest;
        hide Pieces;
      }
    }
  }

  /** All pieces together hold the payload. */
  lemma {:induction false} PiecesHold(ps: seq<Packet>, payload: seq<byte>, has: set<nat>, lo: nat, p: nat)
    requires Cut(ps, payload) && lo < |ps| && (forall i :: 0 <= i < |ps| ==> i in has)
    requires 8 * ps[lo].off <= p < |payload|
    requires AllOk(Pieces(ps, has, lo, |ps|))
    ensures At(Pieces(ps, has, lo, |ps|), p) == Some(payload[p])
    decreases |ps| - lo
  {
    var f := ps[lo].Fragment();
    assert lo in has;
    if p < f.end {
      assert payload[8 * ps[lo].off..Stop(ps[lo])][p - f.offset] == payload[p];
    } else {
      var rest := Pieces(ps, has, lo + 1, |ps|);
      assert Pieces(ps, has, lo, |ps|)[1..] == rest;
      forall i | 0 <= i < |rest|
        ensures rest[i].Ok()
      {
        assert rest[i] == Pieces(ps, has, lo, |ps|)[i + 1];
      }
      assert 8 * ps[lo + 1].off == Stop(ps[lo]);
      PiecesHold(ps, payload, has, lo + 1, p);
    }
  }

  /** The entry when the pieces in `has` have come. */
  ghost predicate Holds(q: Option<Ipq>, ps: seq<Packet>, payload: seq<byte>, has: set<nat>)
    requires ps != []
  {
    if has == {} then q.None?
    else
      && q.Some? && Sane(q.value)
      && q.value.frags == Pieces(ps, has, 0, |ps|)
      && q.value.len == (if |ps| - 1 in has then |payload| else 0)
      && (0 in has ==> q.value.header == ps[0].header)
  }

  ghost predicate Whole(ps: seq<Packet>, has: set<nat>) {
    forall i :: 0 <= i < |ps| ==> i in has
  }

  lemma PayloadAll(ps: seq<Packet>, payload: seq<byte>, has: set<nat>)
    requires Cut(ps, payload) && Whole(ps, has) && AllOk(Pieces(ps, has, 0, |ps|))
    ensures Payload(Pieces(ps, has, 0, |ps|), |payload|) == payload
  {
    hide Pieces;
    assert ps[0].off == 0;
    var frags := Pieces(ps, has, 0, |ps|);
    forall p | 0 <= p < |payload|
      ensures Payload(frags, |payload|)[p] == payload[p]
    {
      PiecesHold(ps, payload, has, 0, p);
    }
  }

  lemma GluableAll(ps: seq<Packet>, payload: seq<byte>, has: set<nat>)
    requires Cut(ps, payload)
    ensures Gluable(Pieces(ps, has, 0, |ps|), |payload|)
  {
    PiecesLie(ps, payload, has, 0, |ps|);
    OnePiece(ps, payload, |ps| - 1);
    hide Pieces, Cut;
  }

  lemma GlueIs(q: Ipq)
    requires Sane(q) && Done(q.frags, q.len) && Gluable(q.frags, q.len) && q.header.Length() + q.len <= MAX_DATAGRAM
    ensures AllOk(q.frags)
    ensures Glue(q) == Some(Datagram(q.header, Payload(q.frags, q.len), q.header.Length() + q.len))
  {
    GlueSound(q.frags, q.len);
    hide Done, Gluable, Payload, TotalLen, Reaches;
  }

  lemma DoneAll(ps: seq<Packet>, payload: seq<byte>, has: set<nat>)
    requires Cut(ps, payload) && Whole(ps, has)
    ensures Done(Pieces(ps, has, 0, |ps|), |payload|)
    ensures |ps| - 1 in has && 0 in has && ps[0].header.Length() + |payload| <= MAX_DATAGRAM
  {
    assert |ps| - 1 in has && ps[0].off == 0 && ps[0].header.Length() + |payload| <= MAX_DATAGRAM;
    OnePiece(ps, payload, 0);
    hide Pieces, Cut, Connected;
    ConnectedIfAll(ps, payload, has, 0);
  }

  /** Gluing all the pieces gives the datagram. */
  lemma GlueAll(q: Ipq, ps: seq<Packet>, payload: seq<byte>, has: set<nat>)
    requires Cut(ps, payload) && Whole(ps, has) && Holds(Some(q), ps, payload, has)
    ensures Done(q.frags, q.len)
    ensures Glue(q) == Some(Datagram(ps[0].header, payload, ps[0].header.Length() + |payload|))
  {
    hide Pieces, Gluable, Payload, Cut, AllOk, Done, Sane, Glue, Whole;
    DoneAll(ps, payload, has);
    GluableAll(ps, payload, has);
    GlueIs(q);
    PayloadAll(ps, payload, has);
  }

  /** The entry that a piece finds or makes. */
  lemma OpenedHolds(q: Option<Ipq>, ps: seq<Packet>, payload: seq<byte>, has: set<nat>, i: nat, expires: int)
    requires Cut(ps, payload) && i < |ps| && Holds(q, ps, payload, has)
    ensures var q1 := Opened(q, ps[i], expires);
      && Sane(q1) && q1.frags == Pieces(ps, has, 0, |ps|)
      && q1.len == (if |ps| - 1 in has then |payload| else 0)
      && (0 in has || i == 0 ==> q1.header == ps[0].header)
  {
    hide Pieces, Sane, Cut;
    OpenedSane(q, ps[i], expires);
    NoPieces(ps, 0, |ps|);
    OffsetZero(ps, payload, i);
  }

  lemma AddedHolds(q: Ipq, ps: seq<Packet>, payload: seq<byte>, has: set<nat>, i: nat)
    requires Cut(ps, payload) && i < |ps| && Sane(q) && q.frags == Pieces(ps, has, 0, |ps|)
    requires q.len == (if |ps| - 1 in has then |payload| else 0)
    requires 0 in has || i == 0 ==> q.header == ps[0].header
    ensures Holds(Some(Added(q, ps[i])), ps, payload, has + {i})
  {
    hide Pieces, Insert, Sane, Cut;
    AddedSane(q, ps[i]);
    InsertPiece(ps, payload, has, i);
    OnePiece(ps, payload, i);
    assert i in has + {i};
  }

  lemma OffsetZero(ps: seq<Packet>, payload: seq<byte>, i: nat)
    requires Cut(ps, payload) && i < |ps|
    ensures ps[i].off == 0 <==> i == 0
  {
    if i > 0 {
      OnePiece(ps, payload, i - 1);
      OnePiece(ps, payload, i);
    }
    hide Stop;
  }

  /** What one more piece does. */
  lemma DeliverPiece(q: Option<Ipq>, ps: seq<Packet>, payload: seq<byte>, has: set<nat>, i: nat, expires: int)
    requires Cut(ps, payload) && i < |ps| && !Whole(ps, has) && Holds(q, ps, payload, has)
    ensures q.Some? ==> Sane(q.value)
    ensures var (left, d) := Deliver(q, ps[i], expires);
      if Whole(ps, has + {i}) then
        left.None? && d == Some(Datagram(ps[0].header, payload, ps[0].header.Length() + |payload|))
      else
        d.None? && Holds(left, ps, payload, has + {i})
  {
    var n, more := |ps|, has + {i};
    var q2 := Added(Opened(q, ps[i], expires), ps[i]);
    hide Pieces, Insert, Sane, Cut, Added, Opened, Glue;
    OpenedHolds(q, ps, payload, has, i, expires);
    AddedHolds(Opened(q, ps[i], expires), ps, payload, has, i);
    OnePiece(ps, payload, i);
    assert i in more;
    if Whole(ps, more) {
      GlueAll(q2, ps, payload, more);
      hide Done, Holds;
    } else {
      DoneOnlyIfAll(q2, ps, payload, more);
      hide Done, Holds;
    }
  }

  lemma DoneOnlyIfAll(q: Ipq, ps: seq<Packet>, payload: seq<byte>, has: set<nat>)
    requires Cut(ps, payload) && has != {} && Holds(Some(q), ps, payload, has) && !Whole(ps, has)
    ensures !Done(q.frags, q.len)
  {
    assert ps[0].off == 0;
    hide Pieces, Sane, Cut;
    if |ps| - 1 in has {
      ConnectedIfAll(ps, payload, has, 0);
    }
  }

  lemma {:induction false} NoPieces(ps: seq<Packet>, lo: nat, hi: nat)
    requires hi <= |ps|
    ensures Pieces(ps, {}, lo, hi) == []
    decreases hi - lo
  {
    if lo >= hi {
    } else {
      NoPieces(ps, lo + 1, hi);
    }
  }

  /** A run: at each step some piece arrives, and the entry's timer is set. */
  type Arrival = (nat, int)

  ghost predicate Arrivals(ps: seq<Packet>, run: seq<Arrival>) {
    forall k :: 0 <= k < |run| ==> run[k].0 < |ps|
  }

  /** The pieces that have come since the datagram was last completed. */
  ghost function Collected(ps: seq<Packet>, run: seq<Arrival>): set<nat> {
    if run == [] then {}
    else
      var has := Collected(ps, run[..|run| - 1]) + {run[|run| - 1].0};
      if Whole(ps, has) then {} else has
  }

  function History(ps: seq<Packet>, run: seq<Arrival>): seq<(Packet, int)>
    requires Arrivals(ps, run)
  {
    seq(|run|, k requires 0 <= k < |run| && Arrivals(ps, run) => (ps[run[k].0], run[k].1))
  }

  lemma NothingHolds(ps: seq<Packet>, payload: seq<byte>)
    requires Cut(ps, payload)
    ensures Holds(None, ps, payload, {}) && !Whole(ps, {})
  {
    var has: set<nat> := {};
    assert |ps| > 0 && 0 !in has && !Whole(ps, has);
  }

  /** In every run the entry holds exactly the pieces collected so far. */
  lemma {:induction false} RunHolds(ps: seq<Packet>, payload: seq<byte>, run: seq<Arrival>)
    requires Cut(ps, payload) && Arrivals(ps, run)
    ensures Holds(After(History(ps, run)).0, ps, payload, Collected(ps, run))
    ensures !Whole(ps, Collected(ps, run))
  {
    hide Deliver, Cut, Holds, Whole;
    if run == [] {
      NothingHolds(ps, payload);
    } else {
      var init, last := run[..|run| - 1], run[|run| - 1];
      RunHolds(ps, payload, init);
      assert History(ps, run)[..|run| - 1] == History(ps, init);
      DeliverPiece(After(History(ps, init)).0, ps, payload, Collected(ps, init), last.0, last.1);
      NothingHolds(ps, payload);
    }
  }

  /**
   Reassembly in any order: however the pieces of a datagram arrive, repeated as they may be,
   the piece that completes the set gives the datagram, with the header of the piece at
   offset 0, and no other piece gives anything.
   */
  lemma AnyOrder(ps: seq<Packet>, payload: seq<byte>, run: seq<Arrival>, i: nat, expires: int)
    requires Cut(ps, payload) && Arrivals(ps, run) && i < |ps|
    ensures Deliver(After(History(ps, run)).0, ps[i], expires).1
         == if Whole(ps, Collected(ps, run) + {i})
            then Some(Datagram(ps[0].header, payload, ps[0].header.Length() + |payload|))
            else None
  {
    RunHolds(ps, payload, run);
    hide Deliver, Cut, Holds, Whole;
    DeliverPiece(After(History(ps, run)).0, ps, payload, Collected(ps, run), i, expires);
  }
}

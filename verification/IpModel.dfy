/**
 IP reassembly (section 3.2 of RFC 791) for one datagram: the list of fragments, what an
 arriving fragment does to it, when it is complete, and what it is glued to.
 */
module IpModel {
  import opened Base

  /**
   A fragment in the list of a datagram. `ptr` points into the payload of the packet that
   carried it; the length of the C struct is always end - offset, and may be negative.
   */
  datatype Frag = Frag(offset: int, end: int, payload: seq<byte>, ptr: int, truesize: nat) {
    function Len(): int {
      end - offset
    }

    /** The datagram position of the first byte of the packet's payload. */
    function Origin(): int {
      offset - ptr
    }

    predicate Covers(p: int) {
      offset <= p < end
    }

    /** The fragment's bytes lie in its packet. */
    predicate Ok() {
      0 <= ptr <= offset && end - Origin() <= |payload|
    }

    function ByteAt(p: int): byte
      requires Ok() && Covers(p)
    {
      payload[p - Origin()]
    }
  }

  /** Every fragment starts no earlier than the starts and the ends of those before it. */
  ghost predicate WellFormed(frags: seq<Frag>) {
    && (forall i :: 0 <= i < |frags| ==> frags[i].Ok())
    && (forall i, j :: 0 <= i < j < |frags| ==> frags[i].offset <= frags[j].offset && frags[i].end <= frags[j].offset)
  }

  /** The byte map that a list of fragments stands for. */
  function At(frags: seq<Frag>, p: int): Option<byte>
    requires forall i :: 0 <= i < |frags| ==> frags[i].Ok()
  {
    if frags == [] then None
    else if frags[0].Covers(p) then Some(frags[0].ByteAt(p))
    else At(frags[1..], p)
  }

  /** Where a new fragment goes: in front of the first that does not start before it. */
  function Place(frags: seq<Frag>, offset: int): (k: nat)
    ensures k <= |frags|
  {
    if frags == [] || frags[0].offset >= offset then 0 else 1 + Place(frags[1..], offset)
  }

  /** The new fragment, cut so that it does not overlap the one in front of it. */
  function Aligned(frags: seq<Frag>, f: Frag): Frag {
    var k := Place(frags, f.offset);
    if k > 0 && f.offset < frags[k - 1].end then
      f.(offset := frags[k - 1].end, ptr := f.ptr + (frags[k - 1].end - f.offset))
    else f
  }

  /** The fragments behind it, cut or dropped so that they do not overlap it. */
  function Trim(tail: seq<Frag>, end: int): seq<Frag> {
    if tail == [] || tail[0].offset >= end then tail
    else if tail[0].end <= end then Trim(tail[1..], end)
    else [tail[0].(offset := end, ptr := tail[0].ptr + (end - tail[0].offset))] + tail[1..]
  }

  function Insert(frags: seq<Frag>, f: Frag): seq<Frag> {
    var k := Place(frags, f.offset);
    frags[..k] + [Aligned(frags, f)] + Trim(frags[k..], f.end)
  }

  /** The first position that an arriving fragment is allowed to write. */
  function WriteFrom(frags: seq<Frag>, f: Frag): int {
    Aligned(frags, f).offset
  }

  // The byte map

  ghost predicate From(frags: seq<Frag>, lo: int) {
    forall i :: 0 <= i < |frags| ==> frags[i].offset >= lo
  }

  ghost predicate Until(frags: seq<Frag>, hi: int) {
    forall i :: 0 <= i < |frags| ==> frags[i].offset <= hi && frags[i].end <= hi
  }

  ghost predicate AllOk(frags: seq<Frag>) {
    forall i :: 0 <= i < |frags| ==> frags[i].Ok()
  }

  lemma Split(frags: seq<Frag>, k: nat)
    requires WellFormed(frags) && k <= |frags|
    ensures WellFormed(frags[..k]) && WellFormed(frags[k..])
    ensures k < |frags| ==> Until(frags[..k], frags[k].offset) && From(frags[k..], frags[k].offset)
    ensures k > 0 ==> From(frags[k..], frags[k - 1].offset) && From(frags[k..], frags[k - 1].end)
                      && Until(frags[..k - 1], frags[k - 1].offset)
  {
  }

  lemma JoinFrags(a: seq<Frag>, m: int, b: seq<Frag>)
    requires WellFormed(a) && WellFormed(b) && Until(a, m) && From(b, m)
    ensures WellFormed(a + b)
  {
  }

  lemma {:induction false} PlaceSplits(frags: seq<Frag>, offset: int)
    requires WellFormed(frags)
    ensures var k := Place(frags, offset);
      && (forall i :: 0 <= i < k ==> frags[i].offset < offset)
      && From(frags[k..], offset)
  {
    if frags == [] {
    } else if frags[0].offset >= offset {
      assert frags[0..] == frags;
    } else {
      PlaceSplits(frags[1..], offset);
      var k := Place(frags[1..], offset);
      assert frags[1 + k..] == frags[1..][k..];
      forall i | 0 <= i < 1 + k
        ensures frags[i].offset < offset
      {
        if i > 0 {
          assert frags[i] == frags[1..][i - 1];
        }
      }
    }
  }

  lemma {:induction false} NothingBefore(frags: seq<Frag>, lo: int, p: int)
    requires AllOk(frags) && From(frags, lo) && p < lo
    ensures At(frags, p) == None
  {
    if frags == [] {
    } else {
      NothingBefore(frags[1..], lo, p);
    }
  }

  lemma {:induction false} NothingBehind(frags: seq<Frag>, hi: int, p: int)
    requires AllOk(frags) && Until(frags, hi) && p >= hi
    ensures At(frags, p) == None
  {
    if frags == [] {
    } else {
      NothingBehind(frags[1..], hi, p);
    }
  }

  lemma {:induction false} AtConcat(a: seq<Frag>, b: seq<Frag>, p: int)
    requires AllOk(a) && AllOk(b)
    ensures AllOk(a + b)
    ensures At(a + b, p) == if At(a, p).Some? then At(a, p) else At(b, p)
  {
    if a == [] {
      assert a + b == b;
    } else {
      assert (a + b)[1..] == a[1..] + b;
      AtConcat(a[1..], b, p);
    }
  }

  /** Trimming leaves only what starts at or after the end of the new fragment. */
  lemma {:induction false} TrimKeeps(tail: seq<Frag>, end: int, lo: int)
    requires WellFormed(tail) && From(tail, lo)
    ensures WellFormed(Trim(tail, end)) && From(Trim(tail, end), end) && From(Trim(tail, end), lo)
  {
    if tail == [] {
    } else if tail[0].offset >= end {
    } else if tail[0].end <= end {
      Split(tail, 1);
      TrimKeeps(tail[1..], end, lo);
    } else {
      Split(tail, 1);
      var cut := tail[0].(offset := end, ptr := tail[0].ptr + (end - tail[0].offset));
      assert cut.Ok() && cut.Origin() == tail[0].Origin();
      JoinFrags([cut], cut.end, tail[1..]);
    }
  }

  lemma {:induction false} TrimAt(tail: seq<Frag>, end: int, p: int)
    requires WellFormed(tail)
    ensures AllOk(Trim(tail, end))
    ensures At(Trim(tail, end), p) == if p < end then None else At(tail, p)
  {
    hide WellFormed, At;
    if tail == [] {
      assert At(tail, p) == None by {
        NothingBefore(tail, p + 1, p);
      }
    } else {
      HeadFits(tail, end);
      if tail[0].offset >= end {
        if p < end {
          NothingBefore(tail, end, p);
        }
      } else if tail[0].end <= end {
        TrimAt(tail[1..], end, p);
        if p >= end {
          AtRest(tail, p);
        }
      } else {
        CutAt(tail[0], tail[1..], end, p);
        assert tail == [tail[0]] + tail[1..];
      }
    }
  }

  lemma AtRest(frags: seq<Frag>, p: int)
    requires AllOk(frags) && frags != [] && !frags[0].Covers(p)
    ensures AllOk(frags[1..]) && At(frags, p) == At(frags[1..], p)
  {
  }

  lemma HeadFits(tail: seq<Frag>, end: int)
    requires WellFormed(tail) && tail != []
    ensures AllOk(tail) && AllOk(tail[1..]) && WellFormed(tail[1..])
    ensures From(tail[1..], tail[0].end) && (tail[0].offset >= end ==> From(tail, end))
  {
    Split(tail, 1);
  }

  /** Cutting the front of the first fragment takes just the positions in front of the cut. */
  lemma CutAt(h: Frag, rest: seq<Frag>, end: int, p: int)
    requires h.Ok() && AllOk(rest) && From(rest, h.end) && h.offset < end < h.end
    ensures var cut := h.(offset := end, ptr := h.ptr + (end - h.offset));
      && AllOk([cut] + rest) && AllOk([h] + rest)
      && At([cut] + rest, p) == if p < end then None else At([h] + rest, p)
  {
    var cut := h.(offset := end, ptr := h.ptr + (end - h.offset));
    assert ([cut] + rest)[1..] == rest && ([h] + rest)[1..] == rest;
    if p < end {
      NothingBefore(rest, h.end, p);
    }
  }

  /** The parts of the list around an arriving fragment. */
  lemma AlignedFits(frags: seq<Frag>, f: Frag)
    requires WellFormed(frags) && f.Ok()
    ensures var k := Place(frags, f.offset);
      var g := Aligned(frags, f);
      && g.Ok() && g.Origin() == f.Origin() && g.payload == f.payload && g.end == f.end && g.offset >= f.offset
      && WellFormed(frags[..k]) && Until(frags[..k], g.offset)
      && WellFormed(frags[k..]) && From(frags[k..], g.offset)
  {
    PlaceSplits(frags, f.offset);
    var k := Place(frags, f.offset);
    Split(frags, k);
  }

  /** An arriving fragment keeps the list in order. */
  lemma InsertKeeps(frags: seq<Frag>, f: Frag)
    requires WellFormed(frags) && f.Ok()
    ensures WellFormed(Insert(frags, f))
  {
    AlignedFits(frags, f);
    hide Aligned, Place;
    var k := Place(frags, f.offset);
    var g := Aligned(frags, f);
    var t := Trim(frags[k..], f.end);
    TrimKeeps(frags[k..], f.end, g.offset);
    JoinFrags(frags[..k], g.offset, [g]);
    var m := if g.end > g.offset then g.end else g.offset;
    JoinFrags(frags[..k] + [g], m, t);
  }

  /**
   Insertion refines the byte map: an arriving fragment writes its bytes to the positions
   from the end of its predecessor on, whatever was there, and to no other position.
   */
  lemma InsertWrites(frags: seq<Frag>, f: Frag, p: int)
    requires WellFormed(frags) && f.Ok()
    ensures WellFormed(Insert(frags, f))
    ensures At(Insert(frags, f), p)
         == if WriteFrom(frags, f) <= p < f.end then Some(f.ByteAt(p)) else At(frags, p)
  {
    hide Place, Aligned, At, Trim, WellFormed;
    InsertKeeps(frags, f);
    AlignedFits(frags, f);
    var k := Place(frags, f.offset);
    var g := Aligned(frags, f);
    var front, tail := frags[..k], frags[k..];
    assert frags == front + tail;
    TrimAt(tail, f.end, p);
    AtConcat(front, tail, p);
    AtConcat(front, [g], p);
    AtConcat(front + [g], Trim(tail, f.end), p);
    AtOne(g, p);
    if p >= g.offset {
      NothingBehind(front, g.offset, p);
    } else {
      NothingBefore(tail, g.offset, p);
    }
    assert Insert(frags, f) == front + [g] + Trim(tail, f.end);
  }

  lemma AtOne(g: Frag, p: int)
    requires g.Ok()
    ensures At([g], p) == if g.Covers(p) then Some(g.ByteAt(p)) else None
  {
    assert [g][1..] == [];
  }

  // Completion and gluing

  /** The scan of ip_done over the list. */
  predicate Connected(frags: seq<Frag>, offset: int) {
    frags == [] || (frags[0].offset <= offset && Connected(frags[1..], frags[0].end))
  }

  /** ip_done. */
  predicate Done(frags: seq<Frag>, len: int) {
    len != 0 && Connected(frags, 0)
  }

  /** ip_glue takes no fragment of negative length, and none that ends behind the datagram. */
  predicate Gluable(frags: seq<Frag>, len: int) {
    forall f :: f in frags ==> f.Len() >= 0 && f.end <= len
  }

  function TotalLen(frags: seq<Frag>): int {
    if frags == [] then 0 else frags[0].Len() + TotalLen(frags[1..])
  }

  /** The fragments lie end to end from one position to another. */
  ghost predicate Tile(frags: seq<Frag>, from: int, to: int)
    decreases |frags|
  {
    if frags == [] then from == to
    else frags[0].offset == from && frags[0].offset <= frags[0].end && Tile(frags[1..], frags[0].end, to)
  }

  /** Some fragment reaches the position where the datagram ends. */
  ghost predicate Reaches(frags: seq<Frag>, len: int) {
    exists f :: f in frags && f.end >= len
  }

  /** What the list consists of after an insertion. */
  lemma InsertMembers(frags: seq<Frag>, f: Frag, h: Frag)
    ensures var k := Place(frags, f.offset);
      && (h in Insert(frags, f) <==> h in frags[..k] || h == Aligned(frags, f) || h in Trim(frags[k..], f.end))
      && (h in frags <==> h in frags[..k] || h in frags[k..])
  {
    hide Place, Aligned, Trim;
    var k := Place(frags, f.offset);
    assert frags == frags[..k] + frags[k..];
  }

  /** The list never loses its reach: what removes a fragment ends no earlier. */
  lemma InsertReaches(frags: seq<Frag>, f: Frag, len: int)
    requires WellFormed(frags) && f.Ok()
    ensures Reaches(frags, len) ==> Reaches(Insert(frags, f), len)
    ensures Reaches(Insert(frags, f), f.end)
  {
    var k := Place(frags, f.offset);
    var g := Aligned(frags, f);
    assert g.end == f.end;
    InsertMembers(frags, f, g);
    Split(frags, k);
    hide Insert, Place, Aligned, Trim;
    if Reaches(frags, len) {
      var h :| h in frags && h.end >= len;
      InsertMembers(frags, f, h);
      if h !in frags[..k] && h.end > f.end {
        TrimReaches(frags[k..], f.end, h);
        var h' :| h' in Trim(frags[k..], f.end) && h'.end == h.end;
        InsertMembers(frags, f, h');
      }
    }
  }

  lemma {:induction false} TrimReaches(tail: seq<Frag>, end: int, h: Frag)
    requires WellFormed(tail) && h in tail && h.end > end
    ensures exists h' :: h' in Trim(tail, end) && h'.end == h.end
  {
    if tail[0].offset >= end {
    } else if tail[0].end <= end {
      Split(tail, 1);
      TrimReaches(tail[1..], end, h);
    } else {
      var cut := tail[0].(offset := end, ptr := tail[0].ptr + (end - tail[0].offset));
      assert cut in Trim(tail, end);
      if h != tail[0] {
        assert h in tail[1..];
        assert h in Trim(tail, end);
      }
    }
  }

  /** A list that ip_done and ip_glue accept tiles the datagram up to the end of a fragment. */
  lemma {:induction false} ConnectedTiles(frags: seq<Frag>, from: int, len: int) returns (to: int)
    requires WellFormed(frags) && Gluable(frags, len) && From(frags, from) && from <= len
    requires Connected(frags, from)
    ensures from <= to <= len && Tile(frags, from, to) && TotalLen(frags) == to - from
    ensures forall f :: f in frags ==> f.end <= to
  {
    if frags == [] {
      to := from;
    } else {
      Split(frags, 1);
      assert frags[0] in frags;
      forall f | f in frags[1..]
        ensures f in frags
      {
      }
      hide WellFormed;
      to := ConnectedTiles(frags[1..], frags[0].end, len);
    }
  }

  lemma {:induction false} TileCovers(frags: seq<Frag>, from: int, to: int, p: int)
    requires AllOk(frags) && Tile(frags, from, to) && from <= p < to
    ensures At(frags, p).Some?
  {
    if !frags[0].Covers(p) {
      TileCovers(frags[1..], frags[0].end, to, p);
    }
  }

  /**
   Gluing is sound for arbitrary fragments: what passes the tests of ip_done and ip_glue
   tiles [0, len) without a gap or an overlap, so that every position has its byte.
   */
  lemma GlueSound(frags: seq<Frag>, len: int)
    requires WellFormed(frags) && From(frags, 0) && len > 0
    requires Done(frags, len) && Gluable(frags, len) && Reaches(frags, len)
    ensures Tile(frags, 0, len) && TotalLen(frags) == len
    ensures forall p :: 0 <= p < len ==> At(frags, p).Some?
  {
    var to := ConnectedTiles(frags, 0, len);
    var f :| f in frags && f.end >= len;
    assert to == len;
    forall p | 0 <= p < len
      ensures At(frags, p).Some?
    {
      TileCovers(frags, 0, len, p);
    }
  }

  // One datagram

  /** What of the IP header the reassembler uses, besides its bytes. */
  datatype Header = Header(hl: nat, bytes: seq<byte>) {
    function Length(): nat {
      4 * hl
    }
  }

  /** The identity of a datagram. */
  datatype Key = Key(dst: nat, src: nat, id: nat, proto: nat)

  /** A fragment as it arrives; `off` counts units of 8 bytes. */
  datatype Packet = Packet(key: Key, header: Header, off: nat, mf: bool, payload: seq<byte>, truesize: nat) {
    predicate IsFragment() {
      mf || off != 0
    }

    /** ip_len. */
    function TotalLength(): nat {
      header.Length() + |payload|
    }

    predicate Oversized() {
      TotalLength() + 8 * off > MAX_DATAGRAM
    }

    function Fragment(): (f: Frag)
      ensures f.Ok()
    {
      Frag(8 * off, 8 * off + |payload|, payload, 0, truesize)
    }
  }

  /** struct ipq: an incomplete datagram. */
  datatype Ipq = Ipq(header: Header, len: int, frags: seq<Frag>, expires: int)

  /** What ip_glue returns: ip_off is 0, and ip_len is rewritten. */
  datatype Datagram = Datagram(header: Header, payload: seq<byte>, ipLen: int)

  /** The entry as ip_create makes it, or as it is found, with its timer restarted. */
  function Opened(q: Option<Ipq>, p: Packet, expires: int): Ipq {
    match q
    case None => Ipq(p.header, 0, [], expires)
    case Some(q) => q.(header := if p.off == 0 then p.header else q.header, expires := expires)
  }

  /** The entry with a fragment put in. */
  function Added(q: Ipq, p: Packet): Ipq {
    q.(len := if p.mf then q.len else 8 * p.off + |p.payload|, frags := Insert(q.frags, p.Fragment()))
  }

  /** The bytes that the fragments hold, position by position. */
  function Payload(frags: seq<Frag>, len: nat): seq<byte>
    requires AllOk(frags)
  {
    seq(len, p requires AllOk(frags) => match At(frags, p) case None => 0 case Some(b) => b)
  }

  /** ip_glue; it takes the entry out of the queue whether or not it succeeds. */
  function Glue(q: Ipq): Option<Datagram>
    requires AllOk(q.frags) && q.len >= 0
  {
    if q.header.Length() + q.len > MAX_DATAGRAM || !Gluable(q.frags, q.len) then None
    else Some(Datagram(q.header, Payload(q.frags, q.len), q.header.Length() + TotalLen(q.frags)))
  }

  /** What the fragments of an entry always satisfy. */
  ghost predicate Sane(q: Ipq) {
    && WellFormed(q.frags) && From(q.frags, 0) && q.len >= 0
    && (q.len > 0 ==> Reaches(q.frags, q.len))
  }

  lemma OpenedSane(q: Option<Ipq>, p: Packet, expires: int)
    requires q.Some? ==> Sane(q.value)
    ensures Sane(Opened(q, p, expires))
  {
  }

  lemma AddedSane(q: Ipq, p: Packet)
    requires Sane(q)
    ensures Sane(Added(q, p))
  {
    var f := p.Fragment();
    InsertKeeps(q.frags, f);
    InsertFrom(q.frags, f);
    InsertReaches(q.frags, f, q.len);
    hide Insert, Reaches, WellFormed;
  }

  lemma InsertFrom(frags: seq<Frag>, f: Frag)
    requires WellFormed(frags) && f.Ok() && From(frags, 0)
    ensures From(Insert(frags, f), 0)
  {
    var k := Place(frags, f.offset);
    AlignedFits(frags, f);
    TrimKeeps(frags[k..], f.end, 0);
    hide Place, Aligned, Trim;
  }

  /** What comes of a fragment at an entry: the entry that stays, and the datagram handed up. */
  function Deliver(q: Option<Ipq>, p: Packet, expires: int): (Option<Ipq>, Option<Datagram>)
    requires q.Some? ==> Sane(q.value)
  {
    var q1 := Opened(q, p, expires);
    OpenedSane(q, p, expires);
    if p.Oversized() then (Some(q1), None)
    else
      var q2 := Added(q1, p);
      AddedSane(q1, p);
      if Done(q2.frags, q2.len) then (None, Glue(q2)) else (Some(q2), None)
  }

  /** Every fragment in the list is part of a packet from `arrived`, at the position that packet gave it. */
  ghost predicate Carried(frags: seq<Frag>, arrived: seq<Packet>) {
    forall f :: f in frags ==> FromPacket(f, arrived)
  }

  ghost predicate FromPacket(f: Frag, arrived: seq<Packet>) {
    exists p :: p in arrived && f.Origin() == 8 * p.off && f.payload == p.payload
  }

  /** len is 0 until a fragment without MF has come, and then the end of the latest. */
  function LatestEnd(arrived: seq<Packet>): nat {
    if arrived == [] then 0
    else
      var p := arrived[|arrived| - 1];
      if p.mf || p.Oversized() then LatestEnd(arrived[..|arrived| - 1]) else 8 * p.off + |p.payload|
  }

  /** The header kept is that of the latest fragment at offset 0, or else of the first to come. */
  function LatestHeader(arrived: seq<Packet>): Header
    requires arrived != []
  {
    var p := arrived[|arrived| - 1];
    if p.off == 0 || |arrived| == 1 then p.header else LatestHeader(arrived[..|arrived| - 1])
  }

  /** All that is known of an entry after the packets in `arrived`, whatever they were. */
  ghost predicate Explained(q: Ipq, arrived: seq<Packet>) {
    && Sane(q) && Carried(q.frags, arrived)
    && q.len == LatestEnd(arrived) && arrived != [] && q.header == LatestHeader(arrived)
  }

  lemma TrimCarried(tail: seq<Frag>, end: int, arrived: seq<Packet>)
    requires Carried(tail, arrived)
    ensures Carried(Trim(tail, end), arrived)
  {
    if tail == [] || tail[0].offset >= end {
    } else if tail[0].end <= end {
      TrimCarried(tail[1..], end, arrived);
    } else {
      var cut := tail[0].(offset := end, ptr := tail[0].ptr + (end - tail[0].offset));
      assert FromPacket(tail[0], arrived);
      assert cut.Origin() == tail[0].Origin();
      assert FromPacket(cut, arrived);
    }
  }

  lemma InsertCarried(frags: seq<Frag>, p: Packet, arrived: seq<Packet>)
    requires WellFormed(frags) && Carried(frags, arrived)
    ensures Carried(Insert(frags, p.Fragment()), arrived + [p])
  {
    var f, more := p.Fragment(), arrived + [p];
    forall h | FromPacket(h, arrived)
      ensures FromPacket(h, more)
    {
      var src :| src in arrived && h.Origin() == 8 * src.off && h.payload == src.payload;
      assert src in more;
    }
    var k := Place(frags, f.offset);
    TrimCarried(frags[k..], f.end, more);
    AlignedFits(frags, f);
    assert Aligned(frags, f).payload == p.payload;
    assert p in more;
    assert FromPacket(Aligned(frags, f), more);
    hide Place, Aligned, Trim, FromPacket;
    forall h | h in Insert(frags, f)
      ensures FromPacket(h, more)
    {
      InsertMembers(frags, f, h);
    }
  }

  lemma OpenedHeader(q: Option<Ipq>, p: Packet, expires: int, arrived: seq<Packet>)
    requires if q.None? then arrived == [] else arrived != [] && q.value.header == LatestHeader(arrived)
    ensures Opened(q, p, expires).header == LatestHeader(arrived + [p])
  {
    assert (arrived + [p])[..|arrived|] == arrived;
  }

  /** Putting a fragment in keeps the explanation. */
  lemma AddedExplained(q: Option<Ipq>, p: Packet, expires: int, arrived: seq<Packet>)
    requires if q.None? then arrived == [] else Explained(q.value, arrived)
    ensures Sane(Opened(q, p, expires)) && Sane(Added(Opened(q, p, expires), p))
    ensures p.Oversized() ==> Explained(Opened(q, p, expires), arrived + [p])
    ensures !p.Oversized() ==> Explained(Added(Opened(q, p, expires), p), arrived + [p])
  {
    var q1 := Opened(q, p, expires);
    OpenedSane(q, p, expires);
    AddedSane(q1, p);
    InsertCarried(q1.frags, p, arrived);
    LatestEndNext(arrived, p);
    OpenedHeader(q, p, expires, arrived);
    CarriedMore(q1.frags, arrived, p);
    hide Insert, Sane, Carried, LatestEnd, LatestHeader;
  }

  /** A fragment keeps the explanation of its entry. */
  lemma DeliverExplained(q: Option<Ipq>, p: Packet, expires: int, arrived: seq<Packet>)
    requires if q.None? then arrived == [] else Explained(q.value, arrived)
    ensures Deliver(q, p, expires).0.Some? ==> Explained(Deliver(q, p, expires).0.value, arrived + [p])
  {
    AddedExplained(q, p, expires, arrived);
    hide Explained, Glue, Done, Added, Opened;
  }

  lemma LatestEndNext(arrived: seq<Packet>, p: Packet)
    ensures LatestEnd(arrived + [p])
         == if p.mf || p.Oversized() then LatestEnd(arrived) else 8 * p.off + |p.payload|
  {
    assert (arrived + [p])[..|arrived|] == arrived;
  }

  lemma CarriedMore(frags: seq<Frag>, arrived: seq<Packet>, p: Packet)
    requires Carried(frags, arrived)
    ensures Carried(frags, arrived + [p])
  {
    forall h | h in frags
      ensures FromPacket(h, arrived + [p])
    {
      assert FromPacket(h, arrived);
      var src :| src in arrived && h.Origin() == 8 * src.off && h.payload == src.payload;
      assert src in arrived + [p];
    }
  }
}

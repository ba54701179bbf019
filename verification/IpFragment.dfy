/**
 The IP defragmenter: fragments come in, datagrams go out, and the tables of hosts, queues
 and timers are changed step by step.
 */
module IpFragment {
  import opened Base
  import opened IpModel
  import opened IpTables

  /** Copying a fragment into the datagram. */
  method CopyFragment(buffer: array<byte>, f: Frag)
    requires f.Ok() && f.offset <= f.end <= buffer.Length
    modifies buffer
    ensures forall p :: 0 <= p < buffer.Length ==>
              buffer[p] == if f.Covers(p) then f.ByteAt(p) else old(buffer[p])
  {
    var i := 0;
    while i < f.Len()
      invariant 0 <= i <= f.Len()
      invariant forall p :: 0 <= p < buffer.Length ==>
                  buffer[p] == if f.offset <= p < f.offset + i then f.ByteAt(p) else old(buffer[p])
    {
      buffer[f.offset + i] := f.payload[f.ptr + i];
      i := i + 1;
    }
  }

  /** The scan of ip_done. */
  method IpDone(q: Ipq) returns (done: bool)
    ensures done == Done(q.frags, q.len)
  {
    if q.len == 0 {
      return false;
    }
    var offset, i := 0, 0;
    while i < |q.frags|
      invariant 0 <= i <= |q.frags|
      invariant Connected(q.frags, 0) <==> Connected(q.frags[i..], offset)
    {
      if q.frags[i].offset > offset {
        return false;
      }
      offset := q.frags[i].end;
      i := i + 1;
    }
    return true;
  }

  /** The buffer holds what the first fragments of the list stand for. */
  ghost predicate Filled(buffer: seq<byte>, frags: seq<Frag>)
    requires AllOk(frags)
  {
    forall p :: 0 <= p < |buffer| && At(frags, p).Some? ==> buffer[p] == At(frags, p).value
  }

  lemma FilledNext(before: seq<byte>, after: seq<byte>, frags: seq<Frag>, i: nat)
    requires WellFormed(frags) && i < |frags| && Filled(before, frags[..i]) && |before| == |after|
    requires forall p :: 0 <= p < |after| ==> after[p] == if frags[i].Covers(p) then frags[i].ByteAt(p) else before[p]
    ensures Filled(after, frags[..i + 1])
  {
    assert frags[..i + 1] == frags[..i] + [frags[i]];
    assert [frags[i]][1..] == [];
    Split(frags, i);
    forall p | 0 <= p < |after| && At(frags[..i + 1], p).Some?
      ensures after[p] == At(frags[..i + 1], p).value
    {
      AtConcat(frags[..i], [frags[i]], p);
      if frags[i].Covers(p) {
        NothingBehind(frags[..i], frags[i].offset, p);
      }
    }
  }

  lemma FilledIsPayload(buffer: seq<byte>, frags: seq<Frag>)
    requires AllOk(frags) && Filled(buffer, frags) && forall p :: 0 <= p < |buffer| ==> At(frags, p).Some?
    ensures buffer == Payload(frags, |buffer|)
  {
  }

  lemma TotalLenNext(frags: seq<Frag>, i: nat)
    requires i < |frags|
    ensures TotalLen(frags[..i + 1]) == TotalLen(frags[..i]) + frags[i].Len()
    decreases i
  {
    if i == 0 {
      assert frags[..1] == [frags[0]] && frags[..1][1..] == [];
    } else {
      TotalLenNext(frags[1..], i - 1);
      assert frags[..i + 1][1..] == frags[1..][..i] && frags[..i][1..] == frags[1..][..i - 1];
    }
  }

  lemma GluableNext(frags: seq<Frag>, i: nat, len: int)
    requires i < |frags|
    ensures Gluable(frags[..i + 1], len) <==> Gluable(frags[..i], len) && frags[i].Len() >= 0 && frags[i].end <= len
  {
    assert frags[..i + 1] == frags[..i] + [frags[i]];
    if Gluable(frags[..i + 1], len) {
      assert frags[i] in frags[..i + 1];
      assert forall f :: f in frags[..i] ==> f in frags[..i + 1];
    }
  }

  lemma GluableFails(frags: seq<Frag>, i: nat, len: int)
    requires i <= |frags| && !Gluable(frags[..i], len)
    ensures !Gluable(frags, len)
  {
  }

  /** The next fragment is copied. */
  method CopyNext(buffer: array<byte>, frags: seq<Frag>, i: nat)
    requires WellFormed(frags) && i < |frags| && 0 <= frags[i].offset <= frags[i].end <= buffer.Length
    requires Filled(buffer[..], frags[..i])
    modifies buffer
    ensures Filled(buffer[..], frags[..i + 1])
  {
    ghost var before := buffer[..];
    assert frags[i].Ok();
    hide WellFormed, Filled;
    CopyFragment(buffer, frags[i]);
    FilledNext(before, buffer[..], frags, i);
  }

  /** ip_glue's copying; ip_done has accepted the list. */
  method Gather(q: Ipq) returns (d: Option<Datagram>)
    requires Sane(q) && Done(q.frags, q.len)
    ensures d == Glue(q)
  {
    hide Done, WellFormed, Gluable, TotalLen, Payload, Filled, Reaches, At, Tile;
    SaneFrags(q);
    var len := q.header.Length() + q.len;
    if len > MAX_DATAGRAM {
      return None;
    }
    GlueSoundIfGluable(q);
    var buffer := new byte[q.len];
    var count, i := 0, 0;
    FilledFirst(buffer[..], q.len);
    while i < |q.frags|
      invariant 0 <= i <= |q.frags| && fresh(buffer)
      invariant Gluable(q.frags[..i], q.len) && count == TotalLen(q.frags[..i])
      invariant Filled(buffer[..], q.frags[..i])
    {
      var f := q.frags[i];
      GluableNext(q.frags, i, q.len);
      if f.Len() < 0 || f.offset + q.header.Length() + f.Len() > len {
        GluableFails(q.frags, i + 1, q.len);
        return None;
      }
      CopyNext(buffer, q.frags, i);
      TotalLenNext(q.frags, i);
      count := count + f.Len();
      i := i + 1;
    }
    assert q.frags[..i] == q.frags;
    FilledIsPayload(buffer[..], q.frags);
    return Some(Datagram(q.header, buffer[..], q.header.Length() + count));
  }

  lemma SaneFrags(q: Ipq)
    requires Sane(q)
    ensures WellFormed(q.frags) && AllOk(q.frags)
  {
  }

  lemma GlueSoundIfGluable(q: Ipq)
    requires Sane(q) && Done(q.frags, q.len)
    ensures q.len > 0 && (Gluable(q.frags, q.len) ==> forall p :: 0 <= p < q.len ==> At(q.frags, p).Some?)
  {
    hide Gluable, Tile, TotalLen, At, WellFormed, Reaches;
    if Gluable(q.frags, q.len) {
      GlueSound(q.frags, q.len);
    }
  }

  lemma FilledFirst(buffer: seq<byte>, len: int)
    ensures Filled(buffer, []) && Gluable([], len) && TotalLen([]) == 0
  {
  }

  function RoundUp16(n: nat): nat {
    (n + 15) / 16 * 16
  }

  class Defragmenter {
    const sizes: Sizes
    const devAddon: nat
    const skBuffSize: nat

    var hosts: Hosts
    var queues: Queues
    var timers: seq<Key>
    var thisHost: Option<nat>
    ghost var clock: int

    /** The tables are in order; the timers of the queues in `off` are stopped. */
    ghost predicate Ready(off: set<Key>)
      reads this
    {
      InOrder(sizes, hosts, queues, timers, clock, off)
    }

    /** What a packet is charged with at most, together with the queue it may open. */
    function PacketCharge(truesize: nat): nat {
      sizes.ipq + HEADER_ROOM + sizes.frag + truesize
    }

    function Truesize(length: nat): nat {
      RoundUp16(length + 16 + devAddon) + skBuffSize
    }

    /** Between packets. */
    ghost predicate Valid()
      reads this
    {
      && Ready({}) && Busy(hosts)
      && Bounded(hosts, HIGH_MARK + PacketCharge(Truesize(MAX_DATAGRAM)))
    }

    constructor (sizes: Sizes, devAddon: nat, skBuffSize: nat, now: int)
      ensures Valid() && queues == map[] && clock == now
      ensures this.sizes == sizes && this.devAddon == devAddon && this.skBuffSize == skBuffSize
    {
      this.sizes, this.devAddon, this.skBuffSize := sizes, devAddon, skBuffSize;
      hosts, queues, timers, thisHost, clock := map[], map[], [], None, now;
    }

    method AddTimer(k: Key)
      modifies `timers
      ensures timers == old(timers) + [k]
    {
      timers := timers + [k];
    }

    method DelTimer(k: Key)
      modifies `timers
      ensures timers == Without(old(timers), k)
    {
      timers := Without(timers, k);
    }

    /** The host table with one counter changed. */
    static function Adjusted(hosts: Hosts, host: Option<nat>, n: int): Hosts
      requires host.Some? ==> host.value in hosts
    {
      match host
      case None => hosts
      case Some(ip) => hosts[ip := hosts[ip].(mem := hosts[ip].mem + n)]
    }

    /** Taking a charge off this_host, if there is one. */
    method Release(n: nat)
      requires thisHost.Some? ==> thisHost.value in hosts
      modifies `hosts
      ensures hosts == Adjusted(old(hosts), thisHost, 0 - n)
    {
      if thisHost.Some? {
        var host := hosts[thisHost.value];
        hosts := hosts[thisHost.value := host.(mem := host.mem - n)];
      }
    }

    method Charge(n: nat)
      requires thisHost.Some? && thisHost.value in hosts
      modifies `hosts
      ensures hosts == Adjusted(old(hosts), thisHost, n)
    {
      var host := hosts[thisHost.value];
      hosts := hosts[thisHost.value := host.(mem := host.mem + n)];
    }

    method HostfragFind(ip: nat) returns (found: bool)
      modifies `thisHost
      ensures found == (ip in hosts) && thisHost == if found then Some(ip) else None
    {
      thisHost := if ip in hosts then Some(ip) else None;
      found := thisHost.Some?;
    }

    method HostfragCreate(ip: nat)
      modifies `thisHost, `hosts
      ensures hosts == old(hosts)[ip := Host([], 0)] && thisHost == Some(ip)
    {
      hosts := hosts[ip := Host([], 0)];
      thisHost := Some(ip);
    }

    method RmthisHost()
      requires thisHost.Some?
      modifies `thisHost, `hosts
      ensures hosts == old(hosts) - {old(thisHost).value} && thisHost == None
    {
      hosts := hosts - {thisHost.value};
      thisHost := None;
    }

    method ReleaseFragments(frags: seq<Frag>)
      requires thisHost.Some? ==> thisHost.value in hosts
      modifies `hosts
      ensures hosts == Adjusted(old(hosts), thisHost, 0 - FragsCharge(sizes, frags))
    {
      var i := 0;
      while i < |frags|
        invariant 0 <= i <= |frags|
        invariant hosts == Adjusted(old(hosts), thisHost, FragsCharge(sizes, frags[i..]) - FragsCharge(sizes, frags))
      {
        Release(frags[i].truesize);
        Release(sizes.frag);
        assert frags[i..][1..] == frags[i + 1..];
        i := i + 1;
      }
    }

    static lemma AdjustedTwice(hosts: Hosts, host: Option<nat>, a: int, b: int)
      requires host.Some? ==> host.value in hosts
      ensures Adjusted(Adjusted(hosts, host, a), host, b) == Adjusted(hosts, host, a + b)
    {
    }

    /** Taking a queue out of its host's list, and the host out of the table if it was the only one. */
    method Unlink(k: Key)
      requires thisHost == Some(k.dst) && k.dst in hosts
      modifies `hosts, `thisHost
      ensures var others := Without(old(hosts)[k.dst].ipqueue, k);
        if others == [] then hosts == old(hosts) - {k.dst} && thisHost == None
        else hosts == old(hosts)[k.dst := Host(others, old(hosts)[k.dst].mem)] && thisHost == old(thisHost)
    {
      hide Without;
      var host := hosts[k.dst];
      var others := Without(host.ipqueue, k);
      hosts := hosts[k.dst := host.(ipqueue := others)];
      if others == [] {
        RmthisHost();
      }
    }

    /** Releasing the fragments, the header and the descriptor of a queue. */
    method ReleaseQueue(q: Ipq)
      requires thisHost.Some? ==> thisHost.value in hosts
      modifies `hosts
      ensures hosts == Adjusted(old(hosts), thisHost, 0 - QueueCharge(sizes, q))
    {
      hide FragsCharge, Adjusted;
      ghost var n := FragsCharge(sizes, q.frags);
      ReleaseFragments(q.frags);
      KeepsHost(old(hosts), thisHost, 0 - n);
      Release(HEADER_ROOM);
      AdjustedTwice(old(hosts), thisHost, 0 - n, 0 - HEADER_ROOM);
      KeepsHost(old(hosts), thisHost, 0 - n - HEADER_ROOM);
      Release(sizes.ipq);
      AdjustedTwice(old(hosts), thisHost, 0 - n - HEADER_ROOM, 0 - sizes.ipq);
    }

    /** A queue is freed: its timer, its place in the host's list, and all it is charged with. */
    method IpFree(k: Key)
      requires Books(sizes, hosts, queues) && k in queues && thisHost == Some(k.dst)
      modifies this
      ensures queues == old(queues) - {k} && timers == Without(old(timers), k) && clock == old(clock)
      ensures hosts == Freed(sizes, old(hosts), old(queues), k)
      ensures thisHost == if k.dst in hosts then old(thisHost) else None
    {
      var q := queues[k];
      assert k.dst in hosts;
      hide Books, Without, QueueCharge;
      DelTimer(k);
      Unlink(k);
      ReleaseQueue(q);
      queues := queues - {k};
    }

    /** A queue that gains a fragment changes the charge by what its fragments cost. */
    static lemma RechargedIs(z: Sizes, hosts: Hosts, queues: Queues, k: Key, q: Ipq)
      requires k in queues && k.dst in hosts
      ensures Recharged(z, hosts, queues, k, q)
           == Adjusted(hosts, Some(k.dst), FragsCharge(z, q.frags) - FragsCharge(z, queues[k].frags))
    {
    }

    static lemma KeepsHost(hosts: Hosts, host: Option<nat>, n: int)
      requires host.Some? ==> host.value in hosts
      ensures host.Some? ==> host.value in Adjusted(hosts, host, n)
    {
    }

    /**
     Freeing a host's queues from the head of its list until its counter is at or under the
     low mark. A host that is over it has a queue to free, so the loop cannot run dry.
     */
    method IpEvictor()
      requires Ready({}) && Busy(hosts) && thisHost.Some? && thisHost.value in hosts
      modifies this
      ensures Ready({}) && Busy(hosts) && clock == old(clock)
      ensures var ip := old(thisHost).value;
        && EvictedTo(sizes, old(hosts), old(queues), ip, hosts, queues)
        && thisHost == (if ip in hosts then Some(ip) else None)
    {
      ghost var ip := thisHost.value;
      EvictStart(sizes, hosts, queues, timers, clock, ip);
      hide Evicting, InOrder, Busy, EvictedTo;
      while thisHost.Some? && hosts[thisHost.value].mem > LOW_MARK
        invariant Evicting(sizes, old(hosts), old(queues), ip, hosts, queues, timers, clock) && clock == old(clock)
        invariant thisHost == if ip in hosts then Some(ip) else None
        decreases |ListOf(hosts, ip)|
      {
        EvictStep(sizes, old(hosts), old(queues), ip, hosts, queues, timers, clock);
        var ipqueue := hosts[thisHost.value].ipqueue;
        if ipqueue == [] {
          assert false;
        }
        IpFree(ipqueue[0]);
      }
      EvictEnd(sizes, old(hosts), old(queues), ip, hosts, queues, timers, clock);
    }

    /** Finding the queue of a datagram; its timer is stopped. */
    method IpFind(key: Key) returns (found: bool)
      requires thisHost.Some? && thisHost.value in hosts
      modifies `timers
      ensures found == (key in hosts[thisHost.value].ipqueue)
      ensures timers == if found then Without(old(timers), key) else old(timers)
    {
      var ipqueue := hosts[thisHost.value].ipqueue;
      var i := 0;
      while i < |ipqueue|
        invariant 0 <= i <= |ipqueue| && key !in ipqueue[..i]
      {
        var qp := ipqueue[i];
        if key.id == qp.id && key.src == qp.src && key.dst == qp.dst && key.proto == qp.proto {
          DelTimer(key);
          return true;
        }
        i := i + 1;
      }
      return false;
    }

    /** A queue for the first fragment of a datagram. */
    method IpCreate(p: Packet, now: int)
      requires thisHost == Some(p.key.dst) && p.key.dst in hosts
      modifies this
      ensures var q := Opened(None, p, now + LIFETIME);
        && queues == old(queues)[p.key := q]
        && hosts == Enlisted(sizes, old(hosts), p.key, q)
        && timers == old(timers) + [p.key]
      ensures thisHost == old(thisHost) && clock == old(clock)
    {
      Charge(sizes.ipq);
      Charge(HEADER_ROOM);
      queues := queues[p.key := Ipq(p.header, 0, [], now + LIFETIME)];
      AddTimer(p.key);
      var host := hosts[p.key.dst];
      hosts := hosts[p.key.dst := host.(ipqueue := [p.key] + host.ipqueue)];
    }

    /**
     Cutting the fragments behind a new one. `next` is the fragment whose offset says how much
     there is to cut; one that nothing is left of is dropped.
     */
    method TrimFollowing(list: seq<Frag>, at: nat, end: int) returns (frags: seq<Frag>)
      requires at <= |list| && WellFormed(list[at..]) && thisHost.Some? && thisHost.value in hosts
      modifies `hosts
      ensures frags == list[..at] + Trim(list[at..], end)
      ensures hosts == Adjusted(old(hosts), thisHost, FragsCharge(sizes, frags) - FragsCharge(sizes, list))
    {
      hide Trim, WellFormed, FragsCharge;
      frags := list;
      var next, tmp := at, at;
      while tmp < |frags|
        invariant at == next <= tmp <= |frags| && frags[..at] == list[..at]
        invariant tmp == at || tmp == at + 1
        invariant tmp == at ==> WellFormed(frags[at..]) && Trim(frags[at..], end) == Trim(list[at..], end)
        invariant tmp == at + 1 ==> frags[at..] == Trim(list[at..], end) && (tmp < |frags| ==> frags[tmp].offset >= end)
        invariant hosts == Adjusted(old(hosts), thisHost, FragsCharge(sizes, frags) - FragsCharge(sizes, list))
        decreases |frags| - tmp
      {
        if frags[tmp].offset >= end {
          break;
        }
        var i := end - frags[next].offset;
        var f := frags[tmp];
        f := f.(offset := f.offset + i, ptr := f.ptr + i);
        TrimOne(frags, at, end);
        TrimOneCharge(sizes, frags, at, f);
        if f.Len() <= 0 {
          Release(f.truesize);
          Release(sizes.frag);
          frags := frags[..tmp] + frags[tmp + 1..];
          next := tmp;
        } else {
          frags := frags[tmp := f];
          tmp := tmp + 1;
        }
      }
      if tmp == at {
        TrimNothing(frags[at..], end);
      }
      assert frags == frags[..at] + frags[at..];
    }

    /** A fragment goes into a list; what it is charged with is added, what it covers is released. */
    method PutFragment(list: seq<Frag>, p: Packet) returns (frags: seq<Frag>)
      requires WellFormed(list) && thisHost.Some? && thisHost.value in hosts
      modifies `hosts
      ensures frags == Insert(list, p.Fragment())
      ensures hosts == Adjusted(old(hosts), thisHost, FragsCharge(sizes, frags) - FragsCharge(sizes, list))
    {
      hide Place, Trim, WellFormed, FragsCharge, Insert, Aligned;
      var next, tfp := Align(list, p);
      WellFormedTail(list, next);
      InsertCharge(sizes, list, p.Fragment());
      var rest := TrimFollowing(list, next, 8 * p.off + |p.payload|);
      hide Adjusted;
      ghost var n := FragsCharge(sizes, rest) - FragsCharge(sizes, list);
      KeepsHost(old(hosts), thisHost, n);
      Charge(sizes.frag);
      AdjustedTwice(old(hosts), thisHost, n, sizes.frag);
      KeepsHost(old(hosts), thisHost, n + sizes.frag);
      Charge(p.truesize);
      AdjustedTwice(old(hosts), thisHost, n + sizes.frag, p.truesize);
      InsertIs(list, p.Fragment(), next, tfp, rest);
      frags := rest[..next] + [tfp] + rest[next..];
    }

    /** Putting a fragment into its queue; without MF it says where the datagram ends. */
    method AddFragment(p: Packet)
      requires p.key in queues && thisHost == Some(p.key.dst) && p.key.dst in hosts && Sane(queues[p.key])
      modifies `hosts, `queues
      ensures var q := Added(old(queues)[p.key], p);
        && queues == old(queues)[p.key := q]
        && hosts == Recharged(sizes, old(hosts), old(queues), p.key, q)
    {
      hide FragsCharge, Insert, WellFormed, Adjusted;
      var q := queues[p.key];
      if !p.mf {
        q := q.(len := 8 * p.off + |p.payload|);
      }
      var frags := PutFragment(q.frags, p);
      q := q.(frags := frags);
      queues := queues[p.key := q];
      RechargedIs(sizes, old(hosts), old(queues), p.key, q);
    }

    /** Completing a datagram: it is glued if it can be, and its queue is freed. */
    method IpGlue(k: Key) returns (d: Option<Datagram>)
      requires Ready({}) && Busy(hosts) && k in queues && thisHost == Some(k.dst)
      requires Done(queues[k].frags, queues[k].len)
      modifies this
      ensures Ready({}) && Busy(hosts) && clock == old(clock)
      ensures d == Glue(old(queues)[k]) && queues == old(queues) - {k}
      ensures hosts == Freed(sizes, old(hosts), old(queues), k)
    {
      FreedInOrder(sizes, hosts, queues, timers, clock, {}, k);
      FreedKeeps(sizes, hosts, queues, k);
      assert Sane(queues[k]) && Books(sizes, hosts, queues);
      hide InOrder, Books, Busy, Glue, Done, Sane, Freed;
      d := Gather(queues[k]);
      IpFree(k);
    }

    /** The first fragment brings the header to keep, and every fragment restarts the timer. */
    method RestartQueue(p: Packet, now: int)
      requires p.key in queues
      modifies `queues, `timers
      ensures queues == old(queues)[p.key := Opened(Some(old(queues)[p.key]), p, now + LIFETIME)]
      ensures timers == Without(old(timers), p.key) + [p.key]
    {
      hide Without;
      var q := queues[p.key];
      if p.off == 0 {
        q := q.(header := p.header);
      }
      DelTimer(p.key);
      q := q.(expires := now + LIFETIME);
      queues := queues[p.key := q];
      AddTimer(p.key);
    }

    /** The queue for a fragment: found, with its timer restarted, or made. */
    method OpenQueue(p: Packet, now: int, found: bool)
      requires Ready(if found then {p.key} else {}) && found == (p.key in queues) && clock <= now
      requires thisHost == Some(p.key.dst) && p.key.dst in hosts
      requires forall ip :: ip in hosts && ip != p.key.dst ==> hosts[ip].ipqueue != []
      requires found ==> Busy(hosts)
      modifies this
      ensures OpenedTo(sizes, old(hosts), old(queues), p, now, hosts, queues, timers)
      ensures clock == now && thisHost == old(thisHost)
    {
      hide InOrder, Busy, Opened, Enlisted, Without, OpenedTo;
      if found {
        Reopened(sizes, hosts, queues, timers, clock, now, p);
        RestartQueue(p, now);
      } else {
        Created(sizes, hosts, queues, timers, clock, now, p);
        IpCreate(p, now);
      }
      clock := now;
    }

    /** A fragment once its queue is open: stored unless it is oversized, and glued if that completes it. */
    method Store(p: Packet) returns (d: Option<Datagram>)
      requires Ready({}) && Busy(hosts) && p.key in queues
      requires thisHost == Some(p.key.dst) && p.key.dst in hosts
      modifies this
      ensures Ready({}) && Busy(hosts) && clock == old(clock)
      ensures StoredTo(sizes, old(hosts), old(queues), p, hosts, queues, d)
    {
      hide InOrder, Busy, Added, Done, Glue, StoredTo, Recharged, Freed, Sane, Elsewhere;
      if p.Oversized() {
        StoredOversized(sizes, hosts, queues, timers, clock, p);
        return None;
      }
      StoredInOrder(sizes, hosts, queues, timers, clock, p);
      AddFragment(p);
      var done := IpDone(queues[p.key]);
      if done {
        StoredDone(sizes, old(hosts), old(queues), p, hosts, queues);
        d := IpGlue(p.key);
      } else {
        StoredWaiting(sizes, old(hosts), old(queues), p, hosts, queues);
        d := None;
      }
    }

    /**
     this_host for a packet: looked up, or made for a fragment, and brought under the low mark if
     over the high one.
     */
    method FindHost(p: Packet)
      requires Ready({}) && Busy(hosts)
      modifies this
      ensures Ready({}) && clock == old(clock)
      ensures LocatedTo(sizes, old(hosts), old(queues), p, hosts, queues)
      ensures thisHost == if p.key.dst in hosts then Some(p.key.dst) else None
    {
      hide InOrder, Busy, LocatedTo, EvictedTo;
      var known := HostfragFind(p.key.dst);
      if !known {
        LocatedAbsent(sizes, hosts, queues, timers, clock, p);
        if p.IsFragment() {
          HostfragCreate(p.key.dst);
        }
      } else {
        LocatedHere(sizes, hosts, queues, timers, clock, p);
      }
      if thisHost.Some? && hosts[thisHost.value].mem > HIGH_MARK {
        IpEvictor();
        LocatedEvicted(sizes, old(hosts), old(queues), p, hosts, queues);
      }
    }

    /**
     A packet: what it does to its queue and what datagram it completes is what the model of
     one datagram says, after eviction; its host's counter stays under the high mark plus
     what one packet is charged with.
     */
    method IpDefrag(p: Packet, now: int) returns (d: Option<Datagram>)
      requires Ready({}) && Busy(hosts) && clock <= now
      modifies this
      ensures Ready({}) && Busy(hosts) && clock == now
      ensures Known(ListOf(old(hosts), p.key.dst), old(queues))
      ensures Outcome(sizes, ListOf(old(hosts), p.key.dst), old(queues), queues, p, now, d)
      ensures Elsewhere(old(hosts), hosts, p.key.dst)
      ensures p.key.dst in hosts ==>
                hosts[p.key.dst].mem <= Capped(MemOf(old(hosts), p.key.dst)) + PacketCharge(p.truesize)
    {
      hide InOrder, Busy, LocatedTo, OpenedTo, StoredTo, Outcome;
      FindHost(p);
      ghost var hosts1, queues1 := hosts, queues;
      LocatedFinds(sizes, old(hosts), old(queues), p, hosts, queues, timers, clock);
      var found := false;
      if thisHost.Some? {
        found := IpFind(p.key);
      }
      if !p.IsFragment() {
        Replaced(sizes, old(hosts), old(queues), p, now, hosts1, queues1, timers, clock);
        if found {
          IpFree(p.key);
        } else {
          assert queues - {p.key} == queues;
        }
        clock := now;
        return None;
      }
      if thisHost.None? {
        HostfragCreate(p.key.dst);
      }
      ghost var hosts2 := hosts;
      OpenQueue(p, now, found);
      ghost var hosts3, queues3, timers3 := hosts, queues, timers;
      OpenedGives(sizes, hosts2, queues1, p, now, hosts3, queues3, timers3);
      d := Store(p);
      Composed(sizes, old(hosts), old(queues), p, now, hosts1, queues1, hosts2, hosts3, queues3, timers3, hosts,
        queues, d);
    }

    /**
     The timer loop looks at the head of the timer list only, and yet frees exactly the queues
     whose time has run out, because the list is in the order of expiry.
     */
    method ExpireQueues(now: int)
      requires Ready({}) && Busy(hosts) && clock <= now
      modifies this
      ensures Ready({}) && Busy(hosts) && clock == now
      ensures ExpiredTo(old(hosts), old(queues), now, hosts, queues)
    {
      hide Expiring, InOrder, Busy, ExpiredTo;
      ExpireStart(sizes, hosts, queues, timers, clock, now);
      while timers != [] && queues[timers[0]].expires < now
        invariant Expiring(sizes, old(hosts), old(queues), now, hosts, queues, timers, clock)
        invariant clock == old(clock)
        invariant timers != [] ==> timers[0] in queues
        decreases |timers|
      {
        var qp := timers[0];
        ExpireStep(sizes, old(hosts), old(queues), now, hosts, queues, timers, clock);
        thisHost := Some(qp.dst);
        IpFree(qp);
      }
      ExpireEnd(sizes, old(hosts), old(queues), now, hosts, queues, timers, clock);
      clock := now;
    }

    /**
     ip_defrag_stub: queues that have run out go first, then the packet is dealt with, and the
     caller learns whether it was a fragment and whether it completed a datagram.
     */
    method IpDefragStub(packet: Packet, now: int) returns (verdict: Verdict, d: Option<Datagram>)
      requires Valid() && clock <= now && packet.TotalLength() <= MAX_DATAGRAM
      modifies this
      ensures Valid() && clock == now
      ensures verdict == if !packet.IsFragment() then NotFragment else if d.Some? then NewDatagram else Fragment
      ensures var p := packet.(truesize := Truesize(packet.TotalLength()));
        && Known(ListOf(old(hosts), p.key.dst), old(queues))
        && Known(Live(ListOf(old(hosts), p.key.dst), old(queues), now), LiveQueues(old(queues), now))
        && Outcome(sizes, Live(ListOf(old(hosts), p.key.dst), old(queues), now), LiveQueues(old(queues), now),
                   queues, p, now, d)
        && forall ip :: ip in hosts ==>
             hosts[ip].mem <= MemOf(old(hosts), ip) + if ip == p.key.dst then PacketCharge(p.truesize) else 0
    {
      hide InOrder, Busy, Outcome, ExpiredTo;
      var p := packet.(truesize := Truesize(packet.TotalLength()));
      NoNegative(sizes, hosts, queues, timers, clock, p.key.dst);
      ExpireQueues(now);
      ghost var hosts1 := hosts;
      ExpiredBound(old(hosts), old(queues), now, hosts, queues, HIGH_MARK + PacketCharge(Truesize(MAX_DATAGRAM)));
      ExpiredAt(old(hosts), old(queues), now, hosts, queues, p.key.dst);
      d := IpDefrag(p, now);
      MemAfter(old(hosts), old(queues), now, hosts1, LiveQueues(old(queues), now), hosts, p.key.dst,
               PacketCharge(p.truesize));
      assert Truesize(packet.TotalLength()) <= Truesize(MAX_DATAGRAM);
      verdict := if !packet.IsFragment() then NotFragment else if d.Some? then NewDatagram else Fragment;
    }
  }

  datatype Verdict = NotFragment | NewDatagram | Fragment

  /** Between two queues running out. */
  ghost predicate Expiring(z: Sizes, hosts0: Hosts, queues0: Queues, now: int,
                           hosts: Hosts, queues: Queues, timers: seq<Key>, clock: int)
  {
    && InOrder(z, hosts, queues, timers, clock, {}) && Busy(hosts) && clock <= now
    && LiveQueues(queues, now) == LiveQueues(queues0, now)
    && (forall ip :: SameLive(hosts0, queues0, now, hosts, queues, ip))
  }

  /** A host has the same live queues as before, and is charged no more. */
  ghost predicate SameLive(hosts0: Hosts, queues0: Queues, now: int, hosts: Hosts, queues: Queues, ip: nat) {
    && Known(ListOf(hosts0, ip), queues0) && Known(ListOf(hosts, ip), queues)
    && Live(ListOf(hosts, ip), queues, now) == Live(ListOf(hosts0, ip), queues0, now)
    && (ip in hosts ==> ip in hosts0 && hosts[ip].mem <= hosts0[ip].mem)
  }

  /** Exactly the queues that have not run out are left, in the same order. */
  ghost predicate ExpiredTo(hosts0: Hosts, queues0: Queues, now: int, hosts: Hosts, queues: Queues) {
    && queues == LiveQueues(queues0, now)
    && forall ip :: Known(ListOf(hosts0, ip), queues0)
                    && ListOf(hosts, ip) == Live(ListOf(hosts0, ip), queues0, now)
                    && (ip in hosts ==> ip in hosts0 && hosts[ip].mem <= hosts0[ip].mem)
  }

  lemma ExpireStart(z: Sizes, hosts: Hosts, queues: Queues, timers: seq<Key>, clock: int, now: int)
    requires InOrder(z, hosts, queues, timers, clock, {}) && Busy(hosts) && clock <= now
    ensures Expiring(z, hosts, queues, now, hosts, queues, timers, clock)
    ensures timers != [] ==> timers[0] in queues
  {
    hide Live, Distinct, Sorted, Charged;
  }

  lemma ExpireStep(z: Sizes, hosts0: Hosts, queues0: Queues, now: int,
                   hosts: Hosts, queues: Queues, timers: seq<Key>, clock: int)
    requires Expiring(z, hosts0, queues0, now, hosts, queues, timers, clock)
    requires timers != [] && timers[0] in queues && queues[timers[0]].expires < now
    ensures var k := timers[0];
      && Books(z, hosts, queues) && k.dst in hosts
      && Expiring(z, hosts0, queues0, now, Freed(z, hosts, queues, k), queues - {k}, Without(timers, k), clock)
      && |Without(timers, k)| < |timers|
      && (Without(timers, k) != [] ==> Without(timers, k)[0] in queues - {k})
  {
    var k := timers[0];
    hide InOrder, Books, Busy, Live, LiveQueues, QueueCharge, SameLive, Freed;
    InOrderBooks(z, hosts, queues, timers, clock, k);
    FreedInOrder(z, hosts, queues, timers, clock, {}, k);
    FreedKeeps(z, hosts, queues, k);
    LiveQueuesWithout(queues, now, k);
    assert {} - {k} == {};
    forall ip: nat
      ensures SameLive(hosts0, queues0, now, Freed(z, hosts, queues, k), queues - {k}, ip)
    {
      ExpireAt(z, hosts0, queues0, now, hosts, queues, k, ip);
    }
    TimersShorter(z, hosts, queues, timers, clock);
  }

  lemma InOrderBooks(z: Sizes, hosts: Hosts, queues: Queues, timers: seq<Key>, clock: int, k: Key)
    requires InOrder(z, hosts, queues, timers, clock, {}) && k in queues
    ensures Books(z, hosts, queues) && k.dst in hosts
  {
    hide Charged, Timed, AllSane, Punctual;
  }

  lemma LiveQueuesWithout(queues: Queues, now: int, k: Key)
    requires k in queues && queues[k].expires < now
    ensures LiveQueues(queues - {k}, now) == LiveQueues(queues, now)
  {
  }

  lemma TimersShorter(z: Sizes, hosts: Hosts, queues: Queues, timers: seq<Key>, clock: int)
    requires InOrder(z, hosts, queues, timers, clock, {}) && timers != []
    ensures var rest := Without(timers, timers[0]);
      |rest| < |timers| && (rest != [] ==> rest[0] in queues - {timers[0]})
  {
    var rest := Without(timers, timers[0]);
    assert rest != [] ==> rest[0] in rest;
    hide Books, AllSane, Sorted;
  }

  lemma ExpireAt(z: Sizes, hosts0: Hosts, queues0: Queues, now: int, hosts: Hosts, queues: Queues, k: Key, ip: nat)
    requires SameLive(hosts0, queues0, now, hosts, queues, ip) && Books(z, hosts, queues)
    requires k in queues && queues[k].expires < now && k.dst in hosts
    ensures SameLive(hosts0, queues0, now, Freed(z, hosts, queues, k), queues - {k}, ip)
  {
    var list := ListOf(hosts, ip);
    LiveWithout(list, queues, now, k);
    assert ip != k.dst ==> k !in list;
    WithoutElsewhere(list, k);
    hide Books, Live, QueueCharge;
  }

  lemma WithoutElsewhere(list: seq<Key>, k: Key)
    ensures k !in list ==> Without(list, k) == list
  {
    if k !in list {
      WithoutAbsent(list, k);
    }
  }

  lemma ExpireEnd(z: Sizes, hosts0: Hosts, queues0: Queues, now: int,
                  hosts: Hosts, queues: Queues, timers: seq<Key>, clock: int)
    requires Expiring(z, hosts0, queues0, now, hosts, queues, timers, clock)
    requires timers == [] || (timers[0] in queues && queues[timers[0]].expires >= now)
    ensures InOrder(z, hosts, queues, timers, now, {}) && Busy(hosts)
    ensures ExpiredTo(hosts0, queues0, now, hosts, queues)
  {
    AllLive(z, hosts, queues, timers, clock, now);
    hide InOrder, Live, Busy, LiveQueues;
    forall ip: nat
      ensures Known(ListOf(hosts0, ip), queues0) && ListOf(hosts, ip) == Live(ListOf(hosts0, ip), queues0, now)
      ensures ip in hosts ==> ip in hosts0 && hosts[ip].mem <= hosts0[ip].mem
    {
      assert SameLive(hosts0, queues0, now, hosts, queues, ip);
      LiveAll(ListOf(hosts, ip), queues, now);
    }
  }

  lemma AllLive(z: Sizes, hosts: Hosts, queues: Queues, timers: seq<Key>, clock: int, now: int)
    requires InOrder(z, hosts, queues, timers, clock, {}) && clock <= now
    requires timers == [] || (timers[0] in queues && queues[timers[0]].expires >= now)
    ensures InOrder(z, hosts, queues, timers, now, {})
    ensures LiveQueues(queues, now) == queues && forall k :: k in queues ==> queues[k].expires >= now
  {
    hide Books, AllSane;
    if timers != [] {
      HeadDecides(timers, queues, now);
    }
    hide Timed;
  }

  lemma ExpiredBound(hosts0: Hosts, queues0: Queues, now: int, hosts: Hosts, queues: Queues, most: int)
    requires ExpiredTo(hosts0, queues0, now, hosts, queues) && Bounded(hosts0, most)
    ensures Bounded(hosts, most)
  {
  }

  lemma NoNegative(z: Sizes, hosts: Hosts, queues: Queues, timers: seq<Key>, clock: int, ip: nat)
    requires InOrder(z, hosts, queues, timers, clock, {})
    ensures MemOf(hosts, ip) >= 0
  {
    hide Timed, AllSane, Punctual, Distinct;
  }

  /** What the host of a packet, and any other, is charged with at most after the packet. */
  lemma MemAfter(hosts0: Hosts, queues0: Queues, now: int, hosts1: Hosts, queues1: Queues, hosts: Hosts,
                 dst: nat, charge: nat)
    requires ExpiredTo(hosts0, queues0, now, hosts1, queues1) && Elsewhere(hosts1, hosts, dst)
    requires MemOf(hosts0, dst) >= 0
    requires dst in hosts ==> hosts[dst].mem <= Capped(MemOf(hosts1, dst)) + charge
    ensures forall ip :: ip in hosts ==> hosts[ip].mem <= MemOf(hosts0, ip) + if ip == dst then charge else 0
  {
  }

  lemma ExpiredAt(hosts0: Hosts, queues0: Queues, now: int, hosts: Hosts, queues: Queues, ip: nat)
    requires ExpiredTo(hosts0, queues0, now, hosts, queues)
    ensures Known(ListOf(hosts0, ip), queues0) && queues == LiveQueues(queues0, now)
    ensures ListOf(hosts, ip) == Live(ListOf(hosts0, ip), queues0, now)
    ensures Known(Live(ListOf(hosts0, ip), queues0, now), LiveQueues(queues0, now))
  {
  }

  /** The tables once the host of a packet is found. */
  ghost predicate LocatedTo(z: Sizes, hosts0: Hosts, queues0: Queues, p: Packet, hosts: Hosts, queues: Queues) {
    var ip := p.key.dst;
    && Known(ListOf(hosts0, ip), queues0)
    && ListOf(hosts, ip) == Room(z, ListOf(hosts0, ip), queues0)
    && queues == Kept(queues0, ip, ListOf(hosts, ip))
    && Elsewhere(hosts0, hosts, ip) && Busy(hosts0) && MemOf(hosts0, ip) >= 0
    && (ip in hosts ==> hosts[ip].mem <= Capped(MemOf(hosts0, ip)) && (p.IsFragment() || hosts[ip].ipqueue != []))
  }

  /** A new host has no queue and no charge. */
  lemma HostMade(z: Sizes, hosts: Hosts, queues: Queues, timers: seq<Key>, clock: int, ip: nat)
    requires InOrder(z, hosts, queues, timers, clock, {}) && ip !in hosts
    ensures InOrder(z, hosts[ip := Host([], 0)], queues, timers, clock, {})
    ensures forall k :: k in queues ==> k.dst != ip
  {
    hide Timed, Punctual, AllSane;
    var hosts1 := hosts[ip := Host([], 0)];
    assert Listed(hosts1, queues);
    assert Charged(z, hosts1, queues);
  }

  /** What looking for the queue of a packet finds. */
  lemma LocatedFinds(z: Sizes, hosts0: Hosts, queues0: Queues, p: Packet,
                     hosts: Hosts, queues: Queues, timers: seq<Key>, clock: int)
    requires LocatedTo(z, hosts0, queues0, p, hosts, queues) && InOrder(z, hosts, queues, timers, clock, {})
    ensures p.key in queues <==> p.key in ListOf(hosts, p.key.dst)
    ensures forall ip :: ip in hosts && ip != p.key.dst ==> hosts[ip].ipqueue != []
    ensures p.key in queues ==>
              && InOrder(z, hosts, queues, Without(timers, p.key), clock, {p.key})
              && p.key.dst in hosts && Busy(hosts) && Sane(queues[p.key])
    ensures p.key.dst !in hosts ==>
              InOrder(z, hosts[p.key.dst := Host([], 0)], queues, timers, clock, {}) && p.key !in queues
  {
    InListed(z, hosts, queues, timers, clock, p.key);
    Stopped(timers, queues, p.key);
    if p.key.dst !in hosts {
      HostMade(z, hosts, queues, timers, clock, p.key.dst);
    }
    hide Sorted, Distinct, Without, HostCharge, Sane, Room, Kept, Punctual, Books, Timed;
  }

  lemma InListed(z: Sizes, hosts: Hosts, queues: Queues, timers: seq<Key>, clock: int, k: Key)
    requires InOrder(z, hosts, queues, timers, clock, {})
    ensures k in queues <==> k in ListOf(hosts, k.dst)
  {
    hide Timed, Punctual, AllSane, Charged, Distinct;
  }

  lemma Stopped(timers: seq<Key>, queues: Queues, k: Key)
    requires Timed(timers, queues, {})
    ensures Timed(Without(timers, k), queues, {k})
  {
    SortedWithout(timers, queues, k);
    WithoutDistinct(timers, k);
    SortedSame(Without(timers, k), queues - {k}, queues);
    hide Sorted, Distinct, Without;
  }

  /** An unfragmented packet replaces the queue of its datagram, if there is one. */
  lemma Replaced(z: Sizes, hosts0: Hosts, queues0: Queues, p: Packet, now: int,
                 hosts: Hosts, queues: Queues, timers: seq<Key>, clock: int)
    requires LocatedTo(z, hosts0, queues0, p, hosts, queues) && !p.IsFragment() && clock <= now
    requires InOrder(z, hosts, queues, timers, clock, if p.key in queues then {p.key} else {})
    ensures Books(z, hosts, queues) && (p.key in queues ==> p.key.dst in hosts)
    ensures Known(ListOf(hosts0, p.key.dst), queues0)
    ensures var hosts1 := if p.key in queues then Freed(z, hosts, queues, p.key) else hosts;
      var timers1 := if p.key in queues then Without(timers, p.key) else timers;
      && InOrder(z, hosts1, queues - {p.key}, timers1, now, {}) && Busy(hosts1)
      && Outcome(z, ListOf(hosts0, p.key.dst), queues0, queues - {p.key}, p, now, None)
      && Elsewhere(hosts0, hosts1, p.key.dst)
      && (p.key.dst in hosts1 ==> hosts1[p.key.dst].mem <= Capped(MemOf(hosts0, p.key.dst)))
  {
    var k := p.key;
    ReplacedInOrder(z, hosts, queues, timers, clock, now, k);
    ReplacedOutcome(z, hosts0, queues0, p, now, hosts, queues);
    assert Books(z, hosts, queues) && Busy(hosts) && (k in queues ==> k.dst in hosts);
    hide InOrder, Books, Busy, Room, QueueCharge, Without, Outcome, Kept;
    if k in queues {
      FreedKeeps(z, hosts, queues, k);
      FreedElsewhere(z, hosts, queues, k);
      ElsewhereTwice(hosts0, hosts, Freed(z, hosts, queues, k), k.dst);
    }
  }

  lemma ReplacedOutcome(z: Sizes, hosts0: Hosts, queues0: Queues, p: Packet, now: int, hosts: Hosts, queues: Queues)
    requires LocatedTo(z, hosts0, queues0, p, hosts, queues) && !p.IsFragment() && AllSane(queues)
    ensures Known(ListOf(hosts0, p.key.dst), queues0)
    ensures Outcome(z, ListOf(hosts0, p.key.dst), queues0, queues - {p.key}, p, now, None)
  {
    hide Room, Sane, Busy, Elsewhere, Deliver;
    var k := p.key;
    assert k in Room(z, ListOf(hosts0, k.dst), queues0) ==> k in queues && queues[k] == queues0[k];
  }

  lemma ReplacedInOrder(z: Sizes, hosts: Hosts, queues: Queues, timers: seq<Key>, clock: int, now: int, k: Key)
    requires InOrder(z, hosts, queues, timers, clock, if k in queues then {k} else {}) && clock <= now
    ensures var hosts1 := if k in queues then Freed(z, hosts, queues, k) else hosts;
      var timers1 := if k in queues then Without(timers, k) else timers;
      InOrder(z, hosts1, queues - {k}, timers1, now, {})
  {
    if k in queues {
      FreedInOrder(z, hosts, queues, timers, clock, {k}, k);
      assert {k} - {k} == {};
    } else {
      assert queues - {k} == queues;
    }
    hide Books, Timed, Sane, Without, Freed;
  }

  lemma OpenedGives(z: Sizes, hosts0: Hosts, queues0: Queues, p: Packet, now: int,
                    hosts: Hosts, queues: Queues, timers: seq<Key>)
    requires OpenedTo(z, hosts0, queues0, p, now, hosts, queues, timers)
    ensures InOrder(z, hosts, queues, timers, now, {}) && Busy(hosts)
    ensures p.key in queues && p.key.dst in hosts
  {
    hide InOrder, Busy, Opened, Elsewhere;
  }

  /** The steps of a fragment, together. */
  lemma Composed(z: Sizes, hosts0: Hosts, queues0: Queues, p: Packet, now: int,
                 hosts1: Hosts, queues1: Queues, hosts2: Hosts, hosts3: Hosts, queues3: Queues, timers: seq<Key>,
                 hosts4: Hosts, queues4: Queues, d: Option<Datagram>)
    requires LocatedTo(z, hosts0, queues0, p, hosts1, queues1) && p.IsFragment()
    requires hosts2 == if p.key.dst in hosts1 then hosts1 else hosts1[p.key.dst := Host([], 0)]
    requires OpenedTo(z, hosts2, queues1, p, now, hosts3, queues3, timers)
    requires StoredTo(z, hosts3, queues3, p, hosts4, queues4, d)
    requires p.key in queues1 ==> Sane(queues1[p.key])
    ensures Known(ListOf(hosts0, p.key.dst), queues0)
    ensures Outcome(z, ListOf(hosts0, p.key.dst), queues0, queues4, p, now, d)
    ensures Elsewhere(hosts0, hosts4, p.key.dst)
    ensures p.key.dst in hosts4 ==>
              hosts4[p.key.dst].mem <= Capped(MemOf(hosts0, p.key.dst)) + z.ipq + HEADER_ROOM + z.frag + p.truesize
  {
    hide InOrder, Busy, Opened, Added, Done, Glue, Sane, Room, Deliver, Kept;
    var k := p.key;
    HostMadeElsewhere(hosts0, hosts1, k.dst);
    ElsewhereTwice(hosts0, hosts2, hosts3, k.dst);
    ElsewhereTwice(hosts0, hosts3, hosts4, k.dst);
    hide Elsewhere;
    LocatedEntries(z, hosts0, queues0, p, hosts1, queues1);
    DeliverIs(Entry(queues1, k), p, now + LIFETIME);
  }

  lemma HostMadeElsewhere(hosts0: Hosts, hosts: Hosts, ip: nat)
    requires Elsewhere(hosts0, hosts, ip)
    ensures Elsewhere(hosts0, hosts[ip := Host([], 0)], ip)
  {
  }

  /** Eviction leaves the other queues, and of the host those that there is room for. */
  lemma LocatedEntries(z: Sizes, hosts0: Hosts, queues0: Queues, p: Packet, hosts: Hosts, queues: Queues)
    requires LocatedTo(z, hosts0, queues0, p, hosts, queues)
    ensures var ip := p.key.dst;
      && Known(ListOf(hosts0, ip), queues0)
      && var room := Room(z, ListOf(hosts0, ip), queues0);
         && Entry(queues, p.key) == (if p.key in room then Some(queues0[p.key]) else None)
         && forall k :: Entry(queues, k) == if k.dst == ip && k !in room then None else Entry(queues0, k)
  {
    hide Room, Busy, Elsewhere;
  }

  lemma DeliverIs(q: Option<Ipq>, p: Packet, expires: int)
    requires q.Some? ==> Sane(q.value)
    ensures var q2 := Added(Opened(q, p, expires), p);
      Deliver(q, p, expires) ==
      if p.Oversized() then (Some(Opened(q, p, expires)), None)
      else if Done(q2.frags, q2.len) then (None, if Sane(q2) then Glue(q2) else None)
      else (Some(q2), None)
  {
    OpenedSane(q, p, expires);
    AddedSane(Opened(q, p, expires), p);
    hide Opened, Added, Done, Sane, Glue;
  }

  lemma LocatedAbsent(z: Sizes, hosts: Hosts, queues: Queues, timers: seq<Key>, clock: int, p: Packet)
    requires InOrder(z, hosts, queues, timers, clock, {}) && Busy(hosts) && p.key.dst !in hosts
    ensures LocatedTo(z, hosts, queues, p, hosts, queues)
    ensures var hosts1 := hosts[p.key.dst := Host([], 0)];
      && InOrder(z, hosts1, queues, timers, clock, {})
      && (p.IsFragment() ==> LocatedTo(z, hosts, queues, p, hosts1, queues))
  {
    assert Books(z, hosts, queues);
    hide InOrder, Books, Kept;
    HostMade(z, hosts, queues, timers, clock, p.key.dst);
    KeptAll(z, hosts, queues, p.key.dst);
  }

  lemma LocatedHere(z: Sizes, hosts: Hosts, queues: Queues, timers: seq<Key>, clock: int, p: Packet)
    requires InOrder(z, hosts, queues, timers, clock, {}) && Busy(hosts) && p.key.dst in hosts
    ensures Known(hosts[p.key.dst].ipqueue, queues)
    ensures hosts[p.key.dst].mem == HostCharge(z, hosts[p.key.dst].ipqueue, queues)
    ensures hosts[p.key.dst].mem <= HIGH_MARK ==> LocatedTo(z, hosts, queues, p, hosts, queues)
  {
    assert Books(z, hosts, queues);
    hide InOrder, Books, Listed, Charged, HostCharge, Kept, Evicted;
    HostMem(z, hosts, queues, p.key.dst);
    KeptAll(z, hosts, queues, p.key.dst);
  }

  lemma KeptAll(z: Sizes, hosts: Hosts, queues: Queues, ip: nat)
    requires Books(z, hosts, queues)
    ensures Kept(queues, ip, ListOf(hosts, ip)) == queues && Known(ListOf(hosts, ip), queues)
  {
    hide Charged, Distinct;
  }

  lemma LocatedEvicted(z: Sizes, hosts0: Hosts, queues0: Queues, p: Packet, hosts: Hosts, queues: Queues)
    requires EvictedTo(z, hosts0, queues0, p.key.dst, hosts, queues) && Busy(hosts0) && Busy(hosts)
    requires HostCharge(z, ListOf(hosts0, p.key.dst), queues0) > HIGH_MARK && MemOf(hosts0, p.key.dst) > HIGH_MARK
    ensures LocatedTo(z, hosts0, queues0, p, hosts, queues)
  {
    hide HostCharge, Evicted, Kept;
  }

  /** What storing a fragment does to its queue and to its host's counter. */
  ghost predicate StoredTo(z: Sizes, hosts0: Hosts, queues0: Queues, p: Packet,
                           hosts: Hosts, queues: Queues, d: Option<Datagram>)
  {
    && p.key in queues0 && p.key.dst in hosts0 && Sane(queues0[p.key])
    && Elsewhere(hosts0, hosts, p.key.dst)
    && (p.key.dst in hosts ==> hosts[p.key.dst].mem <= hosts0[p.key.dst].mem + z.frag + p.truesize)
    && var q := Added(queues0[p.key], p);
      if p.Oversized() then queues == queues0 && d == None
      else if Done(q.frags, q.len) then queues == queues0 - {p.key} && Sane(q) && d == Glue(q)
      else queues == queues0[p.key := q] && d == None
  }

  lemma StoredOversized(z: Sizes, hosts: Hosts, queues: Queues, timers: seq<Key>, clock: int, p: Packet)
    requires InOrder(z, hosts, queues, timers, clock, {})
    requires p.key in queues && p.key.dst in hosts && p.Oversized()
    ensures StoredTo(z, hosts, queues, p, hosts, queues, None)
  {
    hide Sane, Books, Timed, Added;
  }

  /** The tables after a fragment is stored. */
  lemma StoredInOrder(z: Sizes, hosts: Hosts, queues: Queues, timers: seq<Key>, clock: int, p: Packet)
    requires InOrder(z, hosts, queues, timers, clock, {}) && Busy(hosts) && p.key in queues && p.key.dst in hosts
    ensures var q := Added(queues[p.key], p);
      var hosts1 := Recharged(z, hosts, queues, p.key, q);
      && InOrder(z, hosts1, queues[p.key := q], timers, clock, {}) && Busy(hosts1) && Sane(q) && Sane(queues[p.key])
      && Elsewhere(hosts, hosts1, p.key.dst) && p.key.dst in hosts1
      && hosts1[p.key.dst].mem <= hosts[p.key.dst].mem + z.frag + p.truesize
  {
    var k, q := p.key, Added(queues[p.key], p);
    assert Sane(queues[k]);
    hide InOrder, Busy, Sane, Added, QueueCharge, Elsewhere, Recharged;
    AddedSane(queues[k], p);
    AddedInOrder(z, hosts, queues, timers, clock, p);
    AddedCharge(z, queues[k], p);
    RechargedElsewhere(z, hosts, queues, k, q);
  }

  lemma StoredDone(z: Sizes, hosts0: Hosts, queues0: Queues, p: Packet, hosts: Hosts, queues: Queues)
    requires p.key in queues0 && p.key.dst in hosts0 && Sane(queues0[p.key]) && !p.Oversized()
    requires Elsewhere(hosts0, hosts, p.key.dst) && p.key.dst in hosts
    requires hosts[p.key.dst].mem <= hosts0[p.key.dst].mem + z.frag + p.truesize
    requires var q := Added(queues0[p.key], p); queues == queues0[p.key := q] && Done(q.frags, q.len) && Sane(q)
    ensures StoredTo(z, hosts0, queues0, p, Freed(z, hosts, queues, p.key), queues - {p.key}, Glue(queues[p.key]))
  {
    hide Sane, Added, Done, Glue, Elsewhere, Freed;
    FreedElsewhere(z, hosts, queues, p.key);
    assert queues - {p.key} == queues0 - {p.key};
    ElsewhereTwice(hosts0, hosts, Freed(z, hosts, queues, p.key), p.key.dst);
  }

  lemma StoredWaiting(z: Sizes, hosts0: Hosts, queues0: Queues, p: Packet, hosts: Hosts, queues: Queues)
    requires p.key in queues0 && p.key.dst in hosts0 && Sane(queues0[p.key]) && !p.Oversized()
    requires Elsewhere(hosts0, hosts, p.key.dst) && p.key.dst in hosts
    requires hosts[p.key.dst].mem <= hosts0[p.key.dst].mem + z.frag + p.truesize
    requires var q := Added(queues0[p.key], p); queues == queues0[p.key := q] && !Done(q.frags, q.len)
    ensures StoredTo(z, hosts0, queues0, p, hosts, queues, None)
  {
    hide Sane, Added, Done, Glue, Elsewhere;
  }

  lemma RechargedElsewhere(z: Sizes, hosts: Hosts, queues: Queues, k: Key, q: Ipq)
    requires k in queues && k.dst in hosts
    ensures var hosts1 := Recharged(z, hosts, queues, k, q);
      && Elsewhere(hosts, hosts1, k.dst) && k.dst in hosts1
      && hosts1[k.dst].mem == hosts[k.dst].mem - QueueCharge(z, queues[k]) + QueueCharge(z, q)
  {
  }

  /** Finding the place of a fragment, and cutting it where it overlaps the one in front. */
  method Align(frags: seq<Frag>, p: Packet) returns (next: nat, tfp: Frag)
    ensures next == Place(frags, p.Fragment().offset) && tfp == Aligned(frags, p.Fragment())
  {
    var offset, end, ptr := 8 * p.off, 8 * p.off + |p.payload|, 0;
    next := 0;
    while next < |frags| && frags[next].offset < offset
      invariant 0 <= next <= |frags|
      invariant Place(frags, offset) == next + Place(frags[next..], offset)
    {
      assert frags[next..][1..] == frags[next + 1..];
      next := next + 1;
    }
    PlaceEnds(frags, offset, next);
    if next > 0 && offset < frags[next - 1].end {
      var i := frags[next - 1].end - offset;
      offset := offset + i;
      ptr := ptr + i;
    }
    tfp := Frag(offset, end, p.payload, ptr, p.truesize);
  }

  lemma WellFormedTail(frags: seq<Frag>, k: nat)
    requires WellFormed(frags) && k <= |frags|
    ensures WellFormed(frags[k..])
  {
  }

  lemma InsertIs(frags: seq<Frag>, f: Frag, next: nat, tfp: Frag, rest: seq<Frag>)
    requires next == Place(frags, f.offset) && tfp == Aligned(frags, f)
    requires rest == frags[..next] + Trim(frags[next..], f.end)
    ensures rest[..next] + [tfp] + rest[next..] == Insert(frags, f)
  {
    hide Aligned, Trim, Place;
    assert rest[..next] == frags[..next];
  }

  lemma PlaceEnds(frags: seq<Frag>, offset: int, next: nat)
    requires next <= |frags| && Place(frags, offset) == next + Place(frags[next..], offset)
    requires next == |frags| || frags[next].offset >= offset
    ensures Place(frags, offset) == next
  {
  }

  /** What cutting one fragment does to the rest of the list. */
  lemma TrimOne(frags: seq<Frag>, at: nat, end: int)
    requires at < |frags| && WellFormed(frags[at..]) && frags[at].offset < end
    ensures var f := frags[at];
      var cut := f.(offset := end, ptr := f.ptr + (end - f.offset));
      var without := frags[..at] + frags[at + 1..];
      && without[..at] == frags[..at] == frags[at := cut][..at]
      && (f.end <= end ==> WellFormed(without[at..]) && Trim(without[at..], end) == Trim(frags[at..], end))
      && (f.end > end ==>
            && frags[at := cut][at..] == Trim(frags[at..], end)
            && (at + 1 < |frags| ==> frags[at + 1].offset >= end))
  {
    var f, tail := frags[at], frags[at..];
    var cut := f.(offset := end, ptr := f.ptr + (end - f.offset));
    var without := frags[..at] + frags[at + 1..];
    assert tail[1..] == frags[at + 1..] && without[at..] == tail[1..];
    assert frags[at := cut][at..] == [cut] + tail[1..];
    Split(tail, 1);
    assert at + 1 < |frags| ==> frags[at + 1] == tail[1];
    hide WellFormed;
  }

  lemma TrimNothing(tail: seq<Frag>, end: int)
    requires tail == [] || tail[0].offset >= end
    ensures Trim(tail, end) == tail
  {
  }

  lemma TrimOneCharge(z: Sizes, frags: seq<Frag>, at: nat, cut: Frag)
    requires at < |frags| && cut.truesize == frags[at].truesize
    ensures FragsCharge(z, frags[..at] + frags[at + 1..]) == FragsCharge(z, frags) - FragCharge(z, frags[at])
    ensures FragsCharge(z, frags[at := cut]) == FragsCharge(z, frags)
  {
    var f, rest := frags[at], frags[at + 1..];
    assert frags == frags[..at] + ([f] + rest);
    assert frags[at := cut] == frags[..at] + ([cut] + rest);
    FragsChargeAppend(z, frags[..at], [f] + rest);
    FragsChargeAppend(z, frags[..at], [cut] + rest);
    FragsChargeAppend(z, frags[..at], rest);
    assert ([f] + rest)[1..] == rest && ([cut] + rest)[1..] == rest;
  }

  /** Some queues have been freed from the head of a host's list. */
  ghost predicate Evicting(z: Sizes, hosts0: Hosts, queues0: Queues, ip: nat,
                           hosts: Hosts, queues: Queues, timers: seq<Key>, clock: int)
  {
    && InOrder(z, hosts, queues, timers, clock, {}) && Busy(hosts)
    && Listed(hosts0, queues0)
    && Known(ListOf(hosts, ip), queues) && Known(ListOf(hosts0, ip), queues0)
    && Evicted(z, ListOf(hosts, ip), queues) == Evicted(z, ListOf(hosts0, ip), queues0)
    && queues == Kept(queues0, ip, ListOf(hosts, ip))
    && Elsewhere(hosts0, hosts, ip)
  }

  /** The result of eviction. */
  ghost predicate EvictedTo(z: Sizes, hosts0: Hosts, queues0: Queues, ip: nat, hosts: Hosts, queues: Queues) {
    && Known(ListOf(hosts0, ip), queues0)
    && ListOf(hosts, ip) == Evicted(z, ListOf(hosts0, ip), queues0)
    && queues == Kept(queues0, ip, ListOf(hosts, ip))
    && Elsewhere(hosts0, hosts, ip)
    && (ip in hosts ==> hosts[ip].mem <= LOW_MARK)
  }

  lemma EvictStart(z: Sizes, hosts: Hosts, queues: Queues, timers: seq<Key>, clock: int, ip: nat)
    requires InOrder(z, hosts, queues, timers, clock, {}) && Busy(hosts) && ip in hosts
    ensures Evicting(z, hosts, queues, ip, hosts, queues, timers, clock)
  {
    hide Evicted, Timed, Charged;
    assert Kept(queues, ip, ListOf(hosts, ip)) == queues;
  }

  lemma EvictStep(z: Sizes, hosts0: Hosts, queues0: Queues, ip: nat,
                  hosts: Hosts, queues: Queues, timers: seq<Key>, clock: int)
    requires Evicting(z, hosts0, queues0, ip, hosts, queues, timers, clock)
    requires ip in hosts && hosts[ip].mem > LOW_MARK
    ensures Books(z, hosts, queues) && hosts[ip].ipqueue != []
    ensures var k := hosts[ip].ipqueue[0];
      && k in queues && k.dst == ip
      && |ListOf(Freed(z, hosts, queues, k), ip)| < |ListOf(hosts, ip)|
      && Evicting(z, hosts0, queues0, ip, Freed(z, hosts, queues, k), queues - {k}, Without(timers, k), clock)
  {
    var list := hosts[ip].ipqueue;
    assert Books(z, hosts, queues) && Busy(hosts) && list != [];
    hide InOrder, Books, Listed, Charged, Busy, Evicted, Without, HostCharge, Freed, Kept, Distinct;
    HostMem(z, hosts, queues, ip);
    var k := list[0];
    FreeHead(z, hosts, queues, ip);
    FreedInOrder(z, hosts, queues, timers, clock, {}, k);
    FreedKeeps(z, hosts, queues, k);
    FreedElsewhere(z, hosts, queues, k);
    ElsewhereTwice(hosts0, hosts, Freed(z, hosts, queues, k), ip);
    KeptTail(queues0, ip, list);
    hide Elsewhere, Known;
    assert queues - {k} == Kept(queues0, ip, list[1..]);
  }

  lemma ElsewhereTwice(a: Hosts, b: Hosts, c: Hosts, ip: nat)
    requires Elsewhere(a, b, ip) && Elsewhere(b, c, ip)
    ensures Elsewhere(a, c, ip)
  {
  }

  lemma FreedElsewhere(z: Sizes, hosts: Hosts, queues: Queues, k: Key)
    requires k in queues && k.dst in hosts
    ensures Elsewhere(hosts, Freed(z, hosts, queues, k), k.dst)
    ensures var hosts1 := Freed(z, hosts, queues, k); k.dst in hosts1 ==> hosts1[k.dst].mem <= hosts[k.dst].mem
  {
  }

  lemma EvictEnd(z: Sizes, hosts0: Hosts, queues0: Queues, ip: nat,
                 hosts: Hosts, queues: Queues, timers: seq<Key>, clock: int)
    requires Evicting(z, hosts0, queues0, ip, hosts, queues, timers, clock)
    requires ip in hosts ==> hosts[ip].mem <= LOW_MARK
    ensures InOrder(z, hosts, queues, timers, clock, {}) && Busy(hosts)
    ensures EvictedTo(z, hosts0, queues0, ip, hosts, queues)
  {
    if ip in hosts {
      HostMem(z, hosts, queues, ip);
    }
    hide InOrder, Listed;
    assert Evicted(z, ListOf(hosts, ip), queues) == ListOf(hosts, ip);
  }

  lemma KeptTail(queues: Queues, ip: nat, list: seq<Key>)
    requires list != [] && Distinct(list) && list[0].dst == ip
    ensures Kept(queues, ip, list) - {list[0]} == Kept(queues, ip, list[1..])
  {
  }

  lemma HostMem(z: Sizes, hosts: Hosts, queues: Queues, ip: nat)
    requires Books(z, hosts, queues) && ip in hosts
    ensures Known(hosts[ip].ipqueue, queues)
    ensures hosts[ip].mem == HostCharge(z, hosts[ip].ipqueue, queues)
    ensures Distinct(hosts[ip].ipqueue)
  {
  }
}

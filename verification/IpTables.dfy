/**
 The bookkeeping of IP reassembly: which hosts have which incomplete datagrams, what memory
 each host is charged with, and in what order their timers run out. Everything here is about
 values; the class that keeps them is in IpFragment.
 */
module IpTables {
  import opened Base
  import opened IpModel

  const LIFETIME := 30 * 1000
  const HIGH_MARK := 256 * 1024
  const LOW_MARK := 192 * 1024
  const HEADER_ROOM := 64 + 8

  /** sizeof(struct ipq) and sizeof(struct ipfrag). */
  datatype Sizes = Sizes(ipq: nat, frag: nat)

  /** struct hostfrags: the queue of the host's datagrams, newest first, and ip_frag_mem. */
  datatype Host = Host(ipqueue: seq<Key>, mem: int)

  type Hosts = map<nat, Host>
  type Queues = map<Key, Ipq>

  // Charges

  function FragCharge(z: Sizes, f: Frag): nat {
    z.frag + f.truesize
  }

  function FragsCharge(z: Sizes, frags: seq<Frag>): nat {
    if frags == [] then 0 else FragCharge(z, frags[0]) + FragsCharge(z, frags[1..])
  }

  /** The descriptor, the room for the header, and the fragments. */
  function QueueCharge(z: Sizes, q: Ipq): nat {
    z.ipq + HEADER_ROOM + FragsCharge(z, q.frags)
  }

  ghost predicate Known(list: seq<Key>, queues: Queues) {
    forall k :: k in list ==> k in queues
  }

  function HostCharge(z: Sizes, list: seq<Key>, queues: Queues): nat
    requires Known(list, queues)
  {
    if list == [] then 0
    else
      assert Known(list[1..], queues);
      QueueCharge(z, queues[list[0]]) + HostCharge(z, list[1..], queues)
  }

  lemma {:induction false} FragsChargeAppend(z: Sizes, a: seq<Frag>, b: seq<Frag>)
    ensures FragsCharge(z, a + b) == FragsCharge(z, a) + FragsCharge(z, b)
  {
    if a == [] {
      assert a + b == b;
    } else {
      assert (a + b)[1..] == a[1..] + b;
      FragsChargeAppend(z, a[1..], b);
    }
  }

  // Lists of keys

  ghost predicate Distinct(list: seq<Key>) {
    list == [] || (list[0] !in list[1..] && Distinct(list[1..]))
  }

  /** Unlinking an entry. */
  function Without(list: seq<Key>, k: Key): (r: seq<Key>)
    ensures forall x :: x in r <==> x in list && x != k
    ensures |r| <= |list|
  {
    if list == [] then []
    else if list[0] == k then Without(list[1..], k)
    else [list[0]] + Without(list[1..], k)
  }

  lemma {:induction false} WithoutAbsent(list: seq<Key>, k: Key)
    requires k !in list
    ensures Without(list, k) == list
  {
    if list == [] {
    } else {
      WithoutAbsent(list[1..], k);
    }
  }

  lemma {:induction false} WithoutDistinct(list: seq<Key>, k: Key)
    requires Distinct(list)
    ensures Distinct(Without(list, k))
  {
    if list == [] {
    } else {
      WithoutDistinct(list[1..], k);
    }
  }

  lemma {:induction false} HostChargeSame(z: Sizes, list: seq<Key>, a: Queues, b: Queues)
    requires Known(list, a) && Known(list, b) && forall k :: k in list ==> a[k].frags == b[k].frags
    ensures HostCharge(z, list, a) == HostCharge(z, list, b)
  {
    if list == [] {
    } else {
      HostChargeSame(z, list[1..], a, b);
    }
  }

  /** Freeing a queue takes exactly its charge. */
  lemma {:induction false} HostChargeWithout(z: Sizes, list: seq<Key>, queues: Queues, k: Key)
    requires Known(list, queues) && Distinct(list) && k in list
    ensures Known(Without(list, k), queues - {k})
    ensures HostCharge(z, Without(list, k), queues - {k}) == HostCharge(z, list, queues) - QueueCharge(z, queues[k])
  {
    if list[0] == k {
      WithoutAbsent(list[1..], k);
      HostChargeSame(z, list[1..], queues, queues - {k});
    } else {
      HostChargeWithout(z, list[1..], queues, k);
      assert Without(list, k)[1..] == Without(list[1..], k);
    }
  }

  /** Changing a queue changes the host's charge by as much. */
  lemma {:induction false} HostChargeChange(z: Sizes, list: seq<Key>, queues: Queues, k: Key, q: Ipq)
    requires Known(list, queues) && Distinct(list) && k in list
    ensures HostCharge(z, list, queues[k := q])
         == HostCharge(z, list, queues) - QueueCharge(z, queues[k]) + QueueCharge(z, q)
  {
    if list[0] == k {
      HostChargeSame(z, list[1..], queues, queues[k := q]);
    } else {
      HostChargeChange(z, list[1..], queues, k, q);
    }
  }

  // The tables between steps

  /** The list of a host is that of exactly its queues. */
  ghost predicate Listed(hosts: Hosts, queues: Queues) {
    && (forall ip :: ip in hosts ==> Distinct(hosts[ip].ipqueue) && Known(hosts[ip].ipqueue, queues))
    && (forall ip :: ip in hosts ==> forall k :: k in hosts[ip].ipqueue ==> k.dst == ip)
    && (forall k :: k in queues ==> k.dst in hosts && k in hosts[k.dst].ipqueue)
  }

  /** ip_frag_mem is the sum of what the host's queues are charged with. */
  ghost predicate Charged(z: Sizes, hosts: Hosts, queues: Queues)
    requires Listed(hosts, queues)
  {
    forall ip :: ip in hosts ==> hosts[ip].mem == HostCharge(z, hosts[ip].ipqueue, queues)
  }

  ghost predicate Books(z: Sizes, hosts: Hosts, queues: Queues) {
    Listed(hosts, queues) && Charged(z, hosts, queues)
  }

  /** A host is in the table exactly when it has a queue. */
  ghost predicate Busy(hosts: Hosts) {
    forall ip :: ip in hosts ==> hosts[ip].ipqueue != []
  }

  function ListOf(hosts: Hosts, ip: nat): seq<Key> {
    if ip in hosts then hosts[ip].ipqueue else []
  }

  /** The host table after a queue is freed; a host without queues leaves it. */
  function Freed(z: Sizes, hosts: Hosts, queues: Queues, k: Key): Hosts
    requires k in queues && k.dst in hosts
  {
    var list := Without(hosts[k.dst].ipqueue, k);
    if list == [] then hosts - {k.dst}
    else hosts[k.dst := Host(list, hosts[k.dst].mem - QueueCharge(z, queues[k]))]
  }

  lemma FreedListed(z: Sizes, hosts: Hosts, queues: Queues, k: Key)
    requires Listed(hosts, queues) && k in queues
    ensures Listed(Freed(z, hosts, queues, k), queues - {k})
    ensures Busy(hosts) ==> Busy(Freed(z, hosts, queues, k))
  {
    WithoutDistinct(hosts[k.dst].ipqueue, k);
    hide Distinct, QueueCharge, Without;
  }

  lemma FreedKeeps(z: Sizes, hosts: Hosts, queues: Queues, k: Key)
    requires Books(z, hosts, queues) && k in queues
    ensures Books(z, Freed(z, hosts, queues, k), queues - {k})
    ensures Busy(hosts) ==> Busy(Freed(z, hosts, queues, k))
  {
    var hosts', queues' := Freed(z, hosts, queues, k), queues - {k};
    WithoutDistinct(hosts[k.dst].ipqueue, k);
    HostChargeWithout(z, hosts[k.dst].ipqueue, queues, k);
    hide Distinct, HostCharge, QueueCharge, Without;
    FreedListed(z, hosts, queues, k);
    hide Busy;
    forall ip | ip in hosts'
      ensures hosts'[ip].mem == HostCharge(z, hosts'[ip].ipqueue, queues')
    {
      if ip != k.dst {
        HostChargeSame(z, hosts[ip].ipqueue, queues, queues');
      }
    }
  }

  /** The host table after a queue changed. */
  function Recharged(z: Sizes, hosts: Hosts, queues: Queues, k: Key, q: Ipq): Hosts
    requires k in queues && k.dst in hosts
  {
    hosts[k.dst := hosts[k.dst].(mem := hosts[k.dst].mem - QueueCharge(z, queues[k]) + QueueCharge(z, q))]
  }

  lemma RechargedKeeps(z: Sizes, hosts: Hosts, queues: Queues, k: Key, q: Ipq)
    requires Books(z, hosts, queues) && k in queues
    ensures Books(z, Recharged(z, hosts, queues, k, q), queues[k := q])
    ensures Busy(hosts) ==> Busy(Recharged(z, hosts, queues, k, q))
  {
    var hosts', queues' := Recharged(z, hosts, queues, k, q), queues[k := q];
    HostChargeChange(z, hosts[k.dst].ipqueue, queues, k, q);
    hide Distinct, HostCharge, QueueCharge;
    assert Listed(hosts', queues');
    forall ip | ip in hosts'
      ensures hosts'[ip].mem == HostCharge(z, hosts'[ip].ipqueue, queues')
    {
      if ip != k.dst {
        HostChargeSame(z, hosts[ip].ipqueue, queues, queues');
      }
    }
  }

  /** The host table after a queue is made; its host is there already. */
  function Enlisted(z: Sizes, hosts: Hosts, k: Key, q: Ipq): Hosts
    requires k.dst in hosts
  {
    hosts[k.dst := Host([k] + hosts[k.dst].ipqueue, hosts[k.dst].mem + QueueCharge(z, q))]
  }

  lemma EnlistedKeeps(z: Sizes, hosts: Hosts, queues: Queues, k: Key, q: Ipq)
    requires Books(z, hosts, queues) && k !in queues && k.dst in hosts
    requires forall ip :: ip in hosts && ip != k.dst ==> hosts[ip].ipqueue != []
    ensures Books(z, Enlisted(z, hosts, k, q), queues[k := q]) && Busy(Enlisted(z, hosts, k, q))
  {
    var hosts', queues' := Enlisted(z, hosts, k, q), queues[k := q];
    var list := hosts[k.dst].ipqueue;
    assert ([k] + list)[1..] == list;
    assert Distinct([k] + list);
    HostChargeSame(z, list, queues, queues');
    assert HostCharge(z, [k] + list, queues') == QueueCharge(z, q) + HostCharge(z, list, queues');
    hide Distinct, HostCharge, QueueCharge;
    assert Listed(hosts', queues') && Busy(hosts');
    hide Busy;
    forall ip | ip in hosts'
      ensures hosts'[ip].mem == HostCharge(z, hosts'[ip].ipqueue, queues')
    {
      if ip != k.dst {
        HostChargeSame(z, hosts[ip].ipqueue, queues, queues');
      }
    }
  }

  // Eviction

  /** What is left of a host's list when queues are freed from its head until the low mark. */
  function Evicted(z: Sizes, list: seq<Key>, queues: Queues): (r: seq<Key>)
    requires Known(list, queues)
    ensures Known(r, queues)
  {
    if list == [] || HostCharge(z, list, queues) <= LOW_MARK then list
    else
      assert Known(list[1..], queues);
      Evicted(z, list[1..], queues)
  }

  /** Eviction frees the newest queues, as few as bring the host under the low mark. */
  lemma {:induction false} EvictedIsLongestSuffix(z: Sizes, list: seq<Key>, queues: Queues)
    requires Known(list, queues)
    ensures exists n :: 0 <= n <= |list| && Evicted(z, list, queues) == list[n..]
              && HostCharge(z, list[n..], queues) <= LOW_MARK
              && forall m :: 0 <= m < n ==> Known(list[m..], queues) && HostCharge(z, list[m..], queues) > LOW_MARK
  {
    if list == [] || HostCharge(z, list, queues) <= LOW_MARK {
      assert list[0..] == list;
    } else {
      EvictedIsLongestSuffix(z, list[1..], queues);
      var n :| 0 <= n <= |list[1..]| && Evicted(z, list[1..], queues) == list[1..][n..]
               && HostCharge(z, list[1..][n..], queues) <= LOW_MARK
               && forall m :: 0 <= m < n ==>
                    Known(list[1..][m..], queues) && HostCharge(z, list[1..][m..], queues) > LOW_MARK;
      assert list[1..][n..] == list[n + 1..];
      forall m | 0 <= m < n + 1
        ensures Known(list[m..], queues) && HostCharge(z, list[m..], queues) > LOW_MARK
      {
        if m == 0 {
          assert list[0..] == list;
        } else {
          assert list[m..] == list[1..][m - 1..];
        }
      }
    }
  }

  // Timers

  ghost predicate Sorted(timers: seq<Key>, queues: Queues)
    requires Known(timers, queues)
  {
    timers == [] ||
    (assert Known(timers[1..], queues);
     (forall k :: k in timers[1..] ==> queues[timers[0]].expires <= queues[k].expires) && Sorted(timers[1..], queues))
  }

  /** The timer list holds every queue but those in `off` once, in the order they run out. */
  ghost predicate Timed(timers: seq<Key>, queues: Queues, off: set<Key>) {
    && Distinct(timers) && Known(timers, queues) && Sorted(timers, queues)
    && forall k :: k in queues && k !in off ==> k in timers
  }

  lemma {:induction false} SortedWithout(timers: seq<Key>, queues: Queues, k: Key)
    requires Known(timers, queues) && Sorted(timers, queues)
    ensures Known(Without(timers, k), queues - {k}) && Sorted(Without(timers, k), queues - {k})
  {
    if timers == [] {
    } else {
      SortedWithout(timers[1..], queues, k);
      assert timers[0] != k ==> Without(timers, k)[1..] == Without(timers[1..], k);
    }
  }

  lemma {:induction false} SortedAppend(timers: seq<Key>, queues: Queues, k: Key, q: Ipq)
    requires Known(timers, queues) && Sorted(timers, queues) && k !in timers
    requires forall x :: x in timers ==> queues[x].expires <= q.expires
    ensures Known(timers + [k], queues[k := q]) && Sorted(timers + [k], queues[k := q])
  {
    if timers == [] {
      assert timers + [k] == [k] && [k][1..] == [];
      assert Known([k], queues[k := q]) && Sorted([], queues[k := q]);
    } else {
      SortedAppend(timers[1..], queues, k, q);
      assert (timers + [k])[1..] == timers[1..] + [k];
    }
  }

  lemma {:induction false} SortedSame(timers: seq<Key>, a: Queues, b: Queues)
    requires Known(timers, a) && Sorted(timers, a) && Known(timers, b)
    requires forall k :: k in timers ==> a[k].expires == b[k].expires
    ensures Sorted(timers, b)
  {
    if timers == [] {
    } else {
      SortedSame(timers[1..], a, b);
    }
  }

  lemma {:induction false} DistinctAppend(list: seq<Key>, k: Key)
    requires Distinct(list) && k !in list
    ensures Distinct(list + [k])
  {
    if list == [] {
    } else {
      DistinctAppend(list[1..], k);
      assert (list + [k])[1..] == list[1..] + [k];
    }
  }

  /** The queues of a list whose time has not run out. */
  function Live(list: seq<Key>, queues: Queues, now: int): (r: seq<Key>)
    requires Known(list, queues)
    ensures forall k :: k in r <==> k in list && queues[k].expires >= now
  {
    if list == [] then []
    else
      assert Known(list[1..], queues);
      (if queues[list[0]].expires >= now then [list[0]] else []) + Live(list[1..], queues, now)
  }

  lemma {:induction false} LiveWithout(list: seq<Key>, queues: Queues, now: int, k: Key)
    requires Known(list, queues) && k in queues && queues[k].expires < now
    ensures Known(Without(list, k), queues - {k})
    ensures Live(Without(list, k), queues - {k}, now) == Live(list, queues, now)
  {
    if list == [] {
    } else {
      LiveWithout(list[1..], queues, now, k);
      assert list[0] != k ==> Without(list, k)[1..] == Without(list[1..], k);
    }
  }

  lemma {:induction false} LiveAll(list: seq<Key>, queues: Queues, now: int)
    requires Known(list, queues) && forall k :: k in list ==> queues[k].expires >= now
    ensures Live(list, queues, now) == list
  {
    if list == [] {
    } else {
      LiveAll(list[1..], queues, now);
    }
  }

  /** If the timer at the head has not run out, none has. */
  lemma HeadDecides(timers: seq<Key>, queues: Queues, now: int)
    requires Timed(timers, queues, {}) && timers != [] && queues[timers[0]].expires >= now
    ensures forall k :: k in queues ==> queues[k].expires >= now
  {
    forall k | k in queues
      ensures queues[k].expires >= now
    {
      assert k in timers;
      assert k == timers[0] || k in timers[1..];
    }
  }

  // Steps over the tables

  function Entry(queues: Queues, k: Key): Option<Ipq> {
    if k in queues then Some(queues[k]) else None
  }

  /** The queues of all hosts, but of one host only those in its list. */
  function Kept(queues: Queues, ip: nat, list: seq<Key>): Queues {
    map k | k in queues && (k.dst != ip || k in list) :: queues[k]
  }

  lemma {:induction false} EvictedSame(z: Sizes, list: seq<Key>, a: Queues, b: Queues)
    requires Known(list, a) && Known(list, b) && forall k :: k in list ==> a[k] == b[k]
    ensures Evicted(z, list, a) == Evicted(z, list, b)
  {
    HostChargeSame(z, list, a, b);
    if list == [] {
    } else {
      EvictedSame(z, list[1..], a, b);
    }
  }

  /** What is left of a host's list when a packet for it comes. */
  function Room(z: Sizes, list: seq<Key>, queues: Queues): (r: seq<Key>)
    requires Known(list, queues)
    ensures Known(r, queues)
  {
    if HostCharge(z, list, queues) > HIGH_MARK then Evicted(z, list, queues) else list
  }

  ghost predicate AllSane(queues: Queues) {
    forall k :: k in queues ==> Sane(queues[k])
  }

  ghost predicate Punctual(queues: Queues, clock: int) {
    forall k :: k in queues ==> queues[k].expires <= clock + LIFETIME
  }

  ghost predicate InOrder(z: Sizes, hosts: Hosts, queues: Queues, timers: seq<Key>, clock: int, off: set<Key>) {
    && Books(z, hosts, queues) && Timed(timers, queues, off)
    && AllSane(queues) && Punctual(queues, clock)
  }

  ghost predicate Bounded(hosts: Hosts, most: int) {
    forall ip :: ip in hosts ==> hosts[ip].mem <= most
  }

  /** ip_frag_mem of a host, which is 0 before it has one. */
  function MemOf(hosts: Hosts, ip: nat): int {
    if ip in hosts then hosts[ip].mem else 0
  }

  /** What eviction leaves of it at most. */
  function Capped(mem: int): int {
    if mem <= HIGH_MARK then mem else HIGH_MARK
  }

  /** Nothing changed but at one host. */
  ghost predicate Elsewhere(hosts0: Hosts, hosts: Hosts, ip: nat) {
    forall i :: i != ip ==> (i in hosts <==> i in hosts0) && (i in hosts ==> hosts[i] == hosts0[i])
  }

  /** Freeing a queue keeps the tables in order. */
  lemma FreedInOrder(z: Sizes, hosts: Hosts, queues: Queues, timers: seq<Key>, clock: int, off: set<Key>, k: Key)
    requires InOrder(z, hosts, queues, timers, clock, off) && k in queues
    ensures InOrder(z, Freed(z, hosts, queues, k), queues - {k}, Without(timers, k), clock, off - {k})
    ensures forall most: int :: Bounded(hosts, most) ==> Bounded(Freed(z, hosts, queues, k), most)
  {
    FreedKeeps(z, hosts, queues, k);
    SortedWithout(timers, queues, k);
    WithoutDistinct(timers, k);
    hide Books, Without, Sorted, Distinct, QueueCharge, Sane;
  }

  /** Freeing the head of a host's list. */
  lemma FreeHead(z: Sizes, hosts: Hosts, queues: Queues, ip: nat)
    requires Books(z, hosts, queues) && ip in hosts && hosts[ip].ipqueue != []
    ensures var list := hosts[ip].ipqueue;
      && list[0] in queues && list[0].dst == ip
      && ListOf(Freed(z, hosts, queues, list[0]), ip) == list[1..]
      && Known(list[1..], queues - {list[0]})
      && (HostCharge(z, list, queues) > LOW_MARK ==>
            Evicted(z, list[1..], queues - {list[0]}) == Evicted(z, list, queues))
  {
    var list := hosts[ip].ipqueue;
    assert list[0] in list;
    WithoutAbsent(list[1..], list[0]);
    assert Without(list, list[0]) == list[1..];
    EvictedSame(z, list[1..], queues, queues - {list[0]});
  }

  /** A new fragment costs at most its own charge; what it covers is released. */
  lemma InsertCharge(z: Sizes, frags: seq<Frag>, f: Frag)
    ensures FragsCharge(z, Insert(frags, f)) <= FragsCharge(z, frags) + FragCharge(z, f)
    ensures var k := Place(frags, f.offset);
      FragsCharge(z, Insert(frags, f))
      == FragsCharge(z, frags[..k] + Trim(frags[k..], f.end)) + FragCharge(z, f)
  {
    var k := Place(frags, f.offset);
    var g := Aligned(frags, f);
    assert FragsCharge(z, [g]) == FragCharge(z, f) by {
      assert [g][1..] == [];
    }
    assert Insert(frags, f) == frags[..k] + [g] + Trim(frags[k..], f.end);
    hide Insert, Aligned, Place, FragCharge;
    TrimCharge(z, frags[k..], f.end);
    assert frags == frags[..k] + frags[k..];
    FragsChargeAppend(z, frags[..k], frags[k..]);
    FragsChargeAppend(z, frags[..k], Trim(frags[k..], f.end));
    FragsChargeAppend(z, frags[..k] + [g], Trim(frags[k..], f.end));
    FragsChargeAppend(z, frags[..k], [g]);
  }

  lemma {:induction false} TrimCharge(z: Sizes, tail: seq<Frag>, end: int)
    ensures FragsCharge(z, Trim(tail, end)) <= FragsCharge(z, tail)
  {
    if tail == [] || tail[0].offset >= end {
    } else if tail[0].end <= end {
      TrimCharge(z, tail[1..], end);
    } else {
      assert Trim(tail, end)[1..] == tail[1..];
    }
  }

  /** A stopped or new timer goes to the end of the list, where it belongs. */
  lemma Restarted(timers: seq<Key>, queues: Queues, clock: int, now: int, off: set<Key>, k: Key, q: Ipq)
    requires Timed(timers, queues, off) && off <= {k} && Punctual(queues, clock) && clock <= now
    requires q.expires == now + LIFETIME
    ensures Timed(Without(timers, k) + [k], queues[k := q], {}) && Punctual(queues[k := q], now)
  {
    var rest := Without(timers, k);
    SortedWithout(timers, queues, k);
    WithoutDistinct(timers, k);
    SortedAppend(rest, queues - {k}, k, q);
    DistinctAppend(rest, k);
    hide Without, Sorted, Distinct;
    assert (queues - {k})[k := q] == queues[k := q];
  }

  /** The tables once the queue for a fragment is open. */
  ghost predicate OpenedTo(z: Sizes, hosts0: Hosts, queues0: Queues, p: Packet, now: int,
                           hosts: Hosts, queues: Queues, timers: seq<Key>)
  {
    && InOrder(z, hosts, queues, timers, now, {}) && Busy(hosts)
    && queues == queues0[p.key := Opened(Entry(queues0, p.key), p, now + LIFETIME)]
    && Elsewhere(hosts0, hosts, p.key.dst) && p.key.dst in hosts0 && p.key.dst in hosts
    && hosts[p.key.dst].mem <= hosts0[p.key.dst].mem + z.ipq + HEADER_ROOM
  }

  lemma ReopenedInOrder(z: Sizes, hosts: Hosts, queues: Queues, timers: seq<Key>, clock: int, now: int, p: Packet)
    requires InOrder(z, hosts, queues, timers, clock, {p.key}) && p.key in queues && clock <= now
    ensures var q := Opened(Some(queues[p.key]), p, now + LIFETIME);
      InOrder(z, hosts, queues[p.key := q], Without(timers, p.key) + [p.key], now, {})
    ensures p.key.dst in hosts
  {
    hide Books, Sane, Timed, Without, HostCharge, FragsCharge, AllSane, Punctual, Busy, WellFormed;
    var k, q := p.key, Opened(Some(queues[p.key]), p, now + LIFETIME);
    HasHost(z, hosts, queues, k);
    OneSane(queues, k);
    OpenedSane(Some(queues[k]), p, now + LIFETIME);
    PutSane(queues, k, q);
    Restarted(timers, queues, clock, now, {k}, k, q);
    RechargedKeeps(z, hosts, queues, k, q);
    assert Recharged(z, hosts, queues, k, q) == hosts;
  }

  lemma HasHost(z: Sizes, hosts: Hosts, queues: Queues, k: Key)
    requires Books(z, hosts, queues) && k in queues
    ensures k.dst in hosts
  {
    hide HostCharge, Distinct;
  }

  lemma OneSane(queues: Queues, k: Key)
    requires AllSane(queues) && k in queues
    ensures Sane(queues[k])
  {
    hide Sane;
  }

  lemma PutSane(queues: Queues, k: Key, q: Ipq)
    requires AllSane(queues) && Sane(q)
    ensures AllSane(queues[k := q])
  {
    hide Sane;
  }

  lemma Reopened(z: Sizes, hosts: Hosts, queues: Queues, timers: seq<Key>, clock: int, now: int, p: Packet)
    requires InOrder(z, hosts, queues, timers, clock, {p.key}) && Busy(hosts) && p.key in queues && clock <= now
    ensures var q := Opened(Some(queues[p.key]), p, now + LIFETIME);
      OpenedTo(z, hosts, queues, p, now, hosts, queues[p.key := q], Without(timers, p.key) + [p.key])
  {
    hide InOrder, Busy, Opened, Without;
    ReopenedInOrder(z, hosts, queues, timers, clock, now, p);
  }

  lemma Created(z: Sizes, hosts: Hosts, queues: Queues, timers: seq<Key>, clock: int, now: int, p: Packet)
    requires InOrder(z, hosts, queues, timers, clock, {}) && p.key !in queues && p.key.dst in hosts && clock <= now
    requires forall ip :: ip in hosts && ip != p.key.dst ==> hosts[ip].ipqueue != []
    ensures var q := Opened(None, p, now + LIFETIME);
      OpenedTo(z, hosts, queues, p, now, Enlisted(z, hosts, p.key, q), queues[p.key := q], timers + [p.key])
  {
    hide Books, Sane, Timed, Without, HostCharge, Busy, AllSane, Punctual, WellFormed;
    var k, q := p.key, Opened(None, p, now + LIFETIME);
    NoTimer(timers, queues, k);
    OpenedSane(None, p, now + LIFETIME);
    PutSane(queues, k, q);
    Restarted(timers, queues, clock, now, {}, k, q);
    WithoutAbsent(timers, k);
    EnlistedKeeps(z, hosts, queues, k, q);
  }

  lemma NoTimer(timers: seq<Key>, queues: Queues, k: Key)
    requires Timed(timers, queues, {}) && k !in queues
    ensures k !in timers
  {
    hide Distinct, Sorted;
  }

  lemma AddedKeepsTime(timers: seq<Key>, queues: Queues, p: Packet)
    requires Timed(timers, queues, {}) && p.key in queues
    ensures Timed(timers, queues[p.key := Added(queues[p.key], p)], {})
  {
    hide Distinct, Sorted, Insert;
    SortedSame(timers, queues, queues[p.key := Added(queues[p.key], p)]);
  }

  lemma AddedInOrder(z: Sizes, hosts: Hosts, queues: Queues, timers: seq<Key>, clock: int, p: Packet)
    requires InOrder(z, hosts, queues, timers, clock, {}) && p.key in queues && p.key.dst in hosts
    ensures var q := Added(queues[p.key], p);
      && InOrder(z, Recharged(z, hosts, queues, p.key, q), queues[p.key := q], timers, clock, {})
      && (Busy(hosts) ==> Busy(Recharged(z, hosts, queues, p.key, q)))
  {
    hide Timed, Books, Sane, HostCharge, FragsCharge, Insert, Recharged, Busy, WellFormed, AllSane;
    var k, q := p.key, Added(queues[p.key], p);
    AddedKeepsTime(timers, queues, p);
    OneSane(queues, k);
    AddedSane(queues[k], p);
    PutSane(queues, k, q);
    RechargedKeeps(z, hosts, queues, k, q);
  }

  lemma AddedCharge(z: Sizes, q: Ipq, p: Packet)
    ensures QueueCharge(z, Added(q, p)) <= QueueCharge(z, q) + z.frag + p.truesize
  {
    InsertCharge(z, q.frags, p.Fragment());
    hide Insert, FragsCharge;
  }

  function LiveQueues(queues: Queues, now: int): Queues {
    map k | k in queues && queues[k].expires >= now :: queues[k]
  }

  /**
   What a packet does: its host's newest queues are evicted if the host is over the high mark;
   then a fragment is delivered to its queue, if that is left, and an unfragmented packet
   replaces it; no other queue changes.
   */
  ghost predicate Outcome(z: Sizes, list: seq<Key>, before: Queues, after: Queues, p: Packet, now: int,
                          d: Option<Datagram>)
    requires Known(list, before)
  {
    var room := Room(z, list, before);
    var q := if p.key in room then Some(before[p.key]) else None;
    && (q.Some? ==> Sane(q.value))
    && (forall k :: k != p.key ==>
          Entry(after, k) == if k.dst == p.key.dst && k !in room then None else Entry(before, k))
    && if p.IsFragment() then
         d == Deliver(q, p, now + LIFETIME).1 && Entry(after, p.key) == Deliver(q, p, now + LIFETIME).0
       else
         d == None && p.key !in after
  }
}

/**
 TCP stream reassembly as tcp.c does it, in 32-bit sequence numbers. Every method is
 tied to the unbounded reassembler of TcpModel, under the one condition that an
 arriving segment starts within half the number space of the expected position.
 */
module TcpStream {
  import opened Base
  import opened Seq32
  import opened ListenerBuffer
  import M = TcpModel

  /** A queued packet. */
  datatype Skb = Skb(sequence: u32, data: seq<byte>, fin: bool, urg: bool, urgPtr: nat, truesize: nat)

  const MAX_LEN := 65535

  /** A packet stands for a segment whose position its sequence number is the low half of. */
  ghost predicate Stands(p: Skb, s: M.Segment, first: u32) {
    && p.sequence == Wrap(first + s.off)
    && p.data == s.data && p.fin == s.fin && p.urg == s.urg && p.urgPtr == s.urp && p.truesize == s.truesize
    && |p.data| <= MAX_LEN && p.urgPtr <= MAX_LEN
  }

  ghost predicate AllStand(list: seq<Skb>, queue: seq<M.Segment>, first: u32) {
    |list| == |queue| && forall i :: 0 <= i < |list| ==> Stands(list[i], queue[i], first)
  }

  lemma ItemStands(list: seq<Skb>, queue: seq<M.Segment>, first: u32, i: nat)
    requires AllStand(list, queue, first) && i < |list|
    ensures list[i].sequence == Wrap(first + queue[i].off)
  {
    assert Stands(list[i], queue[i], first);
  }

  lemma InsertStands(list: seq<Skb>, queue: seq<M.Segment>, first: u32, p: Skb, s: M.Segment, k: nat)
    requires AllStand(list, queue, first) && k <= |list| && Stands(p, s, first)
    ensures AllStand(list[..k] + [p] + list[k..], queue[..k] + [s] + queue[k..], first)
  {
  }

  lemma StandsMeans(p: Skb, s: M.Segment, first: u32)
    requires Stands(p, s, first)
    ensures p.sequence == Wrap(first + s.off) && p.truesize == s.truesize && p.fin == s.fin
  {
  }

  lemma HeadStands(list: seq<Skb>, queue: seq<M.Segment>, first: u32)
    requires AllStand(list, queue, first) && M.Sorted(queue) && list != []
    ensures var p, s := list[0], queue[0];
      && p.sequence == Wrap(first + s.off)
      && p.data == s.data && p.fin == s.fin && p.urg == s.urg && p.urgPtr == s.urp && p.truesize == s.truesize
      && |p.data| <= MAX_LEN && p.urgPtr <= MAX_LEN
    ensures AllStand(list[1..], queue[1..], first) && M.Sorted(queue[1..])
    ensures forall s :: s in queue[1..] ==> s in queue && queue[0].off <= s.off
  {
    assert Stands(list[0], queue[0], first);
  }

  lemma {:induction false} NormalsAppend(items: seq<M.Item>, s: seq<byte>)
    ensures M.Normals(items + M.Plain(s)) == M.Normals(items) + s
    decreases |s|
  {
    if s == [] {
      assert items + M.Plain(s) == items;
      assert M.Normals(items) + s == M.Normals(items);
    } else {
      var front, b := s[..|s| - 1], s[|s| - 1];
      var all := items + M.Plain(s);
      assert all[..|all| - 1] == items + M.Plain(front);
      assert all[|all| - 1] == M.Normal(b);
      NormalsAppend(items, front);
      assert M.Normals(items) + front + [b] == M.Normals(items) + s;
    }
  }

  lemma NormalsUrgent(items: seq<M.Item>, b: byte)
    ensures M.Normals(items + [M.Urgent(b)]) == M.Normals(items)
  {
    assert (items + [M.Urgent(b)])[..|items|] == items;
  }

  /** The test of add_from_skb for an urgent byte among the new bytes of a packet. */
  predicate UrgentAmong(thisSeq: u32, lost: int, len: nat, urgPtr: u32) {
    After(Wrap(urgPtr + 1), Wrap(thisSeq + lost)) && Before(urgPtr, Wrap(thisSeq + len))
  }

  /** The test finds the byte exactly when it is there. */
  lemma UrgentInside(first: u32, off: int, len: nat, n: int, p: int)
    requires off <= n <= off + len <= off + MAX_LEN && n <= p <= n + MAX_LEN
    ensures UrgentAmong(Wrap(first + off), n - off, len, Wrap(first + p)) <==> p < off + len
  {
    hide Wrap, Signed, After;
    WrapAbsorbs(first + p, 1);
    WrapAbsorbs(first + off, len);
    WrapAbsorbs(first + off, n - off);
    assert first + off + (n - off) == first + n;
    Offsets(first, p + 1, n);
    Offsets(first, off + len, p);
    BeforeIsAfter(Wrap(first + p), Wrap(first + (off + len)));
  }

  /** Where the data of a packet is cut around its urgent byte. */
  datatype Cut = Cut(upTo: int, at: u32, from: int, rest: int)

  function CutAround(thisSeq: u32, lost: int, len: nat, urgPtr: u32): Cut {
    var toCopy := Signed(Wrap(urgPtr - Wrap(thisSeq + lost)));
    var toCopy2 := Signed(Wrap(Wrap(thisSeq + len) - urgPtr - 1));
    Cut(lost + toCopy, Wrap(urgPtr - thisSeq), lost + toCopy + 1, toCopy2)
  }

  /** Where the byte is there, the 32-bit lengths and indices are the true ones. */
  lemma CutsAroundUrgent(first: u32, off: int, len: nat, n: int, p: int)
    requires off <= n <= p < off + len <= off + MAX_LEN
    ensures CutAround(Wrap(first + off), n - off, len, Wrap(first + p))
         == Cut(p - off, p - off, p - off + 1, off + len - p - 1)
  {
    hide Wrap, Signed, After;
    WrapAbsorbs(first + off, n - off);
    assert first + off + (n - off) == first + n;
    Offsets(first, p, n);
    Offsets(first, p, off);
    RestAfterUrgent(first, off + len, p);
    WrapAbsorbs(first + off, len);
  }

  lemma RestAfterUrgent(first: u32, end: int, p: int)
    requires 0 < end - p <= MAX_LEN
    ensures Signed(Wrap(Wrap(first + end) - Wrap(first + p) - 1)) == end - p - 1
  {
    var i, j := (first + end) / MODULUS, (first + p) / MODULUS;
    WrapShift(end - p - 1, i - j);
  }

  /** The receiving half of a stream, with the two fields of the sending half that its queue uses. */
  class HalfStream {
    const buf: Buffer
    var rmemAlloc: int
    var urgCount: int
    var countNewUrg: int
    var urgSeen: bool
    var urgPtr: u32
    var list: seq<Skb>
    var sender: M.SenderState
    const firstDataSeq: u32

    ghost var model: M.Half

    /** The buffer and the counters hold what the model says was taken. */
    ghost predicate TakenValid()
      reads this, buf, buf.data
    {
      && buf.Valid() && buf.ToldUpTo(buf.count)
      && buf.stream == M.Normals(model.taken)
      && urgCount == |model.taken| - buf.count >= 0
    }

    ghost predicate UrgentValid()
      reads this
    {
      && urgSeen == model.urgSeen
      && (urgSeen ==> && urgPtr == Wrap(firstDataSeq + model.urgPos)
                      && |model.taken| <= model.urgPos < |model.taken| + MAX_LEN)
    }

    ghost predicate QueueValid()
      reads this
    {
      && AllStand(list, model.queue, firstDataSeq)
      && M.Sorted(model.queue)
      && rmemAlloc == model.rmem
      && sender == model.sender
    }

    ghost predicate Valid()
      reads this, buf, buf.data
    {
      TakenValid() && UrgentValid() && QueueValid()
    }

    /** Between packets, everything queued lies ahead by at most half the number space. */
    ghost predicate Settled()
      reads this
    {
      forall s :: s in model.queue ==> |model.taken| < s.off <= |model.taken| + HALF
    }

    constructor (firstDataSeq: u32, oneLoopLess: bool)
      ensures Valid() && Settled() && fresh(buf) && fresh(buf.data)
      ensures model == M.START && this.firstDataSeq == firstDataSeq
    {
      buf := new Buffer(oneLoopLess);
      rmemAlloc, urgCount, countNewUrg := 0, 0, 0;
      urgSeen, urgPtr := false, 0;
      list := [];
      sender := M.Open;
      this.firstDataSeq := firstDataSeq;
      model := M.START;
    }

    /** EXP_SEQ. */
    function ExpSeq(): u32
      reads this, buf
    {
      Wrap(firstDataSeq + buf.count + urgCount)
    }

    lemma Expected()
      requires TakenValid()
      ensures ExpSeq() == Wrap(firstDataSeq + |model.taken|)
    {
      hide Wrap, M.Normals, GapFree, Truthful;
    }

    method HandOn(bytes: seq<byte>, listener: Listener)
      requires TakenValid()
      modifies this`model, buf, buf.data
      ensures TakenValid() && (buf.data == old(buf.data) || fresh(buf.data))
      ensures model == old(model).(taken := old(model.taken) + M.Plain(bytes))
    {
      if |bytes| > 0 {
        NormalsAppend(model.taken, bytes);
        buf.HandOn(bytes, listener);
        model := model.(taken := model.taken + M.Plain(bytes));
      } else {
        assert model.taken + M.Plain(bytes) == model.taken;
      }
    }

    method HandOnUrgent(b: byte, listener: Listener)
      requires TakenValid()
      modifies this`model, this`countNewUrg, this`urgSeen, this`urgCount, buf
      ensures TakenValid() && buf.data == old(buf.data)
      ensures !urgSeen
      ensures model == old(model).(taken := old(model.taken) + [M.Urgent(b)], urgSeen := false)
    {
      hide M.Normals, GapFree, Truthful;
      buf.urgdata := b;
      countNewUrg := 1;
      buf.NotifyUrgent(listener);
      countNewUrg := 0;
      urgSeen := false;
      urgCount := urgCount + 1;
      NormalsUrgent(model.taken, b);
      model := model.(taken := model.taken + [M.Urgent(b)], urgSeen := false);
    }

    /** The first step of add_from_skb: remember the latest urgent pointer that is still ahead. */
    method NoteUrgent(urg: bool, urgPtr: u32, ghost s: M.Segment)
      requires TakenValid() && UrgentValid()
      requires urgPtr == Wrap(firstDataSeq + s.UrgentAt()) && urg == s.urg
      requires s.off <= |model.taken| <= s.End() <= s.off + MAX_LEN && s.urp <= MAX_LEN
      modifies this`urgPtr, this`urgSeen, this`model
      ensures TakenValid() && UrgentValid()
      ensures model == M.NoteUrgent(old(model), s)
    {
      hide M.Normals, GapFree, Truthful, Wrap;
      ghost var n := |model.taken|;
      Offsets(firstDataSeq, s.UrgentAt(), n - 1);
      Offsets(firstDataSeq, s.UrgentAt(), model.urgPos);
      WrapAbsorbs(firstDataSeq + n, 1);
      if urg && After(urgPtr, Wrap(ExpSeq() - 1)) && (!urgSeen || After(urgPtr, this.urgPtr)) {
        this.urgPtr := urgPtr;
        urgSeen := true;
      }
      model := M.NoteUrgent(model, s);
    }

    /** The new bytes around an urgent byte at position model.urgPos, as add_from_skb cuts them. */
    method TakeAroundUrgent(data: seq<byte>, thisSeq: u32, lost: u32, ghost s: M.Segment, listener: Listener)
      requires TakenValid() && UrgentValid() && urgSeen
      requires s.off <= |model.taken| <= model.urgPos < s.End()
      requires thisSeq == Wrap(firstDataSeq + s.off) && lost == |model.taken| - s.off
      requires data == s.data && |data| <= MAX_LEN
      modifies this`model, this`countNewUrg, this`urgSeen, this`urgCount, buf, buf.data
      ensures TakenValid() && !urgSeen
      ensures buf.data == old(buf.data) || fresh(buf.data)
      ensures var u := old(model.urgPos) - s.off;
        model == old(model).(taken := old(model.taken) + M.Plain(data[lost..u]) + [M.Urgent(data[u])]
                                      + M.Plain(data[u + 1..]),
                             urgSeen := false)
    {
      hide CutAround, Wrap, M.Plain, M.Normals;
      CutsAroundUrgent(firstDataSeq, s.off, |data|, |model.taken|, model.urgPos);
      var cut := CutAround(thisSeq, lost, |data|, urgPtr);
      HandOn(data[lost..cut.upTo], listener);
      HandOnUrgent(data[cut.at], listener);
      assert cut.from + cut.rest == |data|;
      HandOn(data[cut.from..], listener);
    }

    /** The new bytes of a packet without an urgent byte among them. */
    method TakePlain(data: seq<byte>, lost: u32, listener: Listener)
      requires TakenValid() && lost <= |data| <= MAX_LEN
      modifies this`model, buf, buf.data
      ensures TakenValid() && (buf.data == old(buf.data) || fresh(buf.data))
      ensures model == old(model).(taken := old(model.taken) + M.Plain(data[lost..]))
    {
      if Wrap(|data| - lost) > 0 {
        HandOn(data[lost..], listener);
      } else {
        assert model.taken + M.Plain(data[lost..]) == model.taken;
      }
    }

    /** The middle of add_from_skb: every byte from the expected position to the end of the packet. */
    method TakeNew(data: seq<byte>, thisSeq: u32, ghost s: M.Segment, listener: Listener)
      requires TakenValid() && UrgentValid()
      requires s.off <= |model.taken| <= s.End()
      requires thisSeq == Wrap(firstDataSeq + s.off) && data == s.data && |data| <= MAX_LEN
      modifies this`model, this`countNewUrg, this`urgSeen, this`urgCount, buf, buf.data
      ensures TakenValid() && UrgentValid()
      ensures buf.data == old(buf.data) || fresh(buf.data)
      ensures model == M.TakeNew(old(model), s)
    {
      hide Wrap, UrgentAmong, M.Plain, TakenValid, ExpSeq;
      Expected();
      ghost var n := |model.taken|;
      var lost := Wrap(ExpSeq() - thisSeq);
      Offsets(firstDataSeq, n, s.off);
      if urgSeen {
        UrgentInside(firstDataSeq, s.off, |data|, n, model.urgPos);
      }
      if urgSeen && UrgentAmong(thisSeq, lost, |data|, urgPtr) {
        TakeAroundUrgent(data, thisSeq, lost, s, listener);
      } else {
        TakePlain(data, lost, listener);
      }
    }

    /** add_from_skb. */
    method AddFromSkb(data: seq<byte>, thisSeq: u32, fin: bool, urg: bool, urgPtr: u32,
                      ghost s: M.Segment, listener: Listener)
      requires TakenValid() && UrgentValid() && sender == model.sender
      requires s.off <= |model.taken| <= s.End()
      requires thisSeq == Wrap(firstDataSeq + s.off) && urgPtr == Wrap(firstDataSeq + s.UrgentAt())
      requires data == s.data && |data| <= MAX_LEN && fin == s.fin && urg == s.urg && s.urp <= MAX_LEN
      modifies this, buf, buf.data
      ensures TakenValid() && UrgentValid() && sender == model.sender
      ensures buf.data == old(buf.data) || fresh(buf.data)
      ensures model == M.Take(old(model), s)
      ensures unchanged(`list, `rmemAlloc)
    {
      hide Wrap, M.TakeNew, M.NoteUrgent;
      NoteUrgent(urg, urgPtr, s);
      TakeNew(data, thisSeq, s, listener);
      if fin {
        sender := M.FinSent;
        model := model.(sender := M.FinSent);
      }
    }

    /** While the queue is drained, what is left in it starts at most one packet behind. */
    ghost predicate Near()
      reads this
    {
      forall s :: s in model.queue ==> |model.taken| - MAX_LEN <= s.off <= |model.taken| + HALF
    }

    /** One turn of the loop that goes forward from the packet just taken. */
    method DrainHead(listener: Listener)
      requires Valid() && Near()
      requires list != [] && model.queue[0].off <= |model.taken|
      modifies this, buf, buf.data
      ensures Valid() && Near() && (buf.data == old(buf.data) || fresh(buf.data))
      ensures model == M.DrainHead(old(model))
      ensures list == old(list)[1..]
    {
      hide Wrap, After, M.Take, Stands, M.Sorted, TakenValid, ExpSeq;
      Expected();
      var pakiet := list[0];
      ghost var s, n := model.queue[0], |model.taken|;
      HeadStands(list, model.queue, firstDataSeq);
      var len := |pakiet.data| + if pakiet.fin then 1 else 0;
      WrapAbsorbs(firstDataSeq + s.off, len);
      WrapAbsorbs(firstDataSeq + s.off, s.urp - 1);
      Offsets(firstDataSeq, s.EndWithFin(), n);
      if After(Wrap(pakiet.sequence + len), ExpSeq()) {
        AddFromSkb(pakiet.data, pakiet.sequence, pakiet.fin, pakiet.urg,
                   Wrap(pakiet.sequence + (pakiet.urgPtr - 1)), s, listener);
      }
      Unlink();
    }

    /** The first packet leaves the queue. */
    method Unlink()
      requires TakenValid() && UrgentValid() && list != [] && model.queue != []
      modifies `rmemAlloc, `list, `model
      ensures TakenValid() && UrgentValid() && list == old(list[1..])
      ensures rmemAlloc == old(rmemAlloc) - old(list[0].truesize)
      ensures model == old(model).(queue := old(model.queue[1..]),
                                   rmem := old(model.rmem) - old(model.queue[0].truesize))
    {
      hide Wrap, M.Normals, GapFree, Truthful;
      rmemAlloc := rmemAlloc - list[0].truesize;
      model := model.(queue := model.queue[1..], rmem := model.rmem - model.queue[0].truesize);
      list := list[1..];
    }

    /** The loop over the queue after a packet was taken. */
    method Drain(listener: Listener)
      requires Valid() && Near()
      modifies this, buf, buf.data
      ensures Valid() && Near() && (buf.data == old(buf.data) || fresh(buf.data))
      ensures model == M.Drain(old(model))
    {
      hide Wrap, M.DrainHead;
      while true
        invariant Valid() && Near() && (buf.data == old(buf.data) || fresh(buf.data))
        invariant M.Drain(model) == M.Drain(old(model))
        decreases |list|
      {
        if list == [] {
          break;
        }
        HeadStands(list, model.queue, firstDataSeq);
        Offsets(firstDataSeq, model.queue[0].off, |model.taken|);
        if After(list[0].sequence, ExpSeq()) {
          break;
        }
        DrainHead(listener);
      }
    }

    /** Where a packet that came early goes: the loop from the tail of the queue. */
    method InsertAt(thisSeq: u32, ghost off: int) returns (k: nat)
      requires AllStand(list, model.queue, firstDataSeq) && thisSeq == Wrap(firstDataSeq + off)
      requires forall s :: s in model.queue ==> -HALF < s.off - off < HALF
      ensures k == M.InsertAt(model.queue, off)
    {
      hide Wrap, After, Stands;
      k := |list|;
      assert model.queue[..k] == model.queue;
      while k > 0
        invariant 0 <= k <= |list|
        invariant M.InsertAt(model.queue[..k], off) == M.InsertAt(model.queue, off)
      {
        assert model.queue[k - 1] in model.queue;
        ItemStands(list, model.queue, firstDataSeq, k - 1);
        Offsets(firstDataSeq, model.queue[k - 1].off, off);
        if !After(list[k - 1].sequence, thisSeq) {
          break;
        }
        assert model.queue[..k][..k - 1] == model.queue[..k - 1];
        k := k - 1;
      }
    }

    /** A packet that came early is queued. */
    method Enqueue(pakiet: Skb, ghost s: M.Segment)
      requires Valid() && Settled()
      requires Stands(pakiet, s, firstDataSeq)
      requires |model.taken| < s.off <= |model.taken| + HALF
      modifies this`list, this`rmemAlloc, this`sender, this`model
      ensures Valid() && Settled()
      ensures model == M.Enqueue(old(model), s)
    {
      hide Wrap, Stands, M.Sorted, M.InsertAt;
      StandsMeans(pakiet, s, firstDataSeq);
      var k := InsertAt(pakiet.sequence, s.off);
      M.EnqueueSorts(model, s);
      InsertStands(list, model.queue, firstDataSeq, pakiet, s, k);
      rmemAlloc := rmemAlloc + pakiet.truesize;
      if pakiet.fin {
        sender := M.Closing;
      }
      list := list[..k] + [pakiet] + list[k..];
      model := M.Enqueue(model, s);
    }

    /**
     tcp_queue, refining the unbounded reassembler: provided the packet starts within
     half the number space of the expected position, the 32-bit comparisons decide
     exactly as comparisons of stream positions would.
     */
    method TcpQueue(pakiet: Skb, ghost s: M.Segment, listener: Listener)
      requires Valid() && Settled()
      requires Stands(pakiet, s, firstDataSeq)
      requires -HALF < s.off - |model.taken| <= HALF
      modifies this, buf, buf.data
      ensures Valid() && Settled() && (buf.data == old(buf.data) || fresh(buf.data))
      ensures model == M.Arrive(old(model), s)
    {
      hide Wrap, After, M.Drain, M.Take, M.Enqueue;
      ghost var n := |model.taken|;
      var len := |pakiet.data| + if pakiet.fin then 1 else 0;
      Offsets(firstDataSeq, s.off, n);
      if !After(pakiet.sequence, ExpSeq()) {
        WrapAbsorbs(firstDataSeq + s.off, len);
        Offsets(firstDataSeq, s.EndWithFin(), n);
        if After(Wrap(pakiet.sequence + len), ExpSeq()) {
          WrapAbsorbs(firstDataSeq + s.off, s.urp - 1);
          AddFromSkb(pakiet.data, pakiet.sequence, pakiet.fin, pakiet.urg,
                     Wrap(pakiet.sequence + (pakiet.urgPtr - 1)), s, listener);
          ghost var taken := model;
          Drain(listener);
          M.DrainSettles(taken);
        }
      } else {
        Enqueue(pakiet, s);
      }
    }

    /** The end of process_tcp: the queue is pruned when it holds too much. */
    method PruneQueue()
      requires Valid() && Settled()
      modifies this`list, this`rmemAlloc, this`model
      ensures Valid() && Settled()
      ensures model == M.Prune(old(model))
    {
      if rmemAlloc > M.RMEM_LIMIT {
        list := [];
        rmemAlloc := 0;
        model := M.Prune(model);
      }
    }

    /** An acknowledgement confirms a FIN that was seen. */
    method ConfirmFin()
      requires Valid() && Settled()
      modifies this`sender, this`model
      ensures Valid() && Settled()
      ensures model == if old(model.sender) == M.FinSent then old(model).(sender := M.FinConfirmed) else old(model)
    {
      if sender == M.FinSent {
        sender := M.FinConfirmed;
        model := model.(sender := M.FinConfirmed);
      }
    }

    /** The end of process_tcp for a packet with data or a FIN. */
    method ProcessTcp(pakiet: Skb, ghost s: M.Segment, listener: Listener)
      requires Valid() && Settled()
      requires Stands(pakiet, s, firstDataSeq)
      requires -HALF < s.off - |model.taken| <= HALF
      modifies this, buf, buf.data
      ensures Valid() && Settled() && (buf.data == old(buf.data) || fresh(buf.data))
      ensures model == M.Prune(M.Arrive(old(model), s))
    {
      hide Stands, M.Arrive;
      TcpQueue(pakiet, s, listener);
      PruneQueue();
    }
  }

  /** Every segment arrives within half the number space of the position expected then. */
  ghost predicate InWindow(segments: seq<M.Segment>)
    decreases |segments|
  {
    segments == [] ||
    var front, s := segments[..|segments| - 1], segments[|segments| - 1];
    InWindow(front) && -HALF < s.off - |M.Run(M.START, front).taken| <= HALF
  }

  lemma {:induction false} InWindowPrefix(segments: seq<M.Segment>, k: nat)
    requires InWindow(segments) && k <= |segments|
    ensures InWindow(segments[..k])
    decreases |segments|
  {
    if k < |segments| {
      assert segments[..|segments| - 1][..k] == segments[..k];
      InWindowPrefix(segments[..|segments| - 1], k);
    } else {
      assert segments[..k] == segments;
    }
  }

  lemma RunStart(segments: seq<M.Segment>)
    ensures M.Run(M.START, segments[..0]) == M.START
  {
  }

  lemma RunNext(segments: seq<M.Segment>, i: nat)
    requires InWindow(segments) && i < |segments|
    ensures -HALF < segments[i].off - |M.Run(M.START, segments[..i]).taken| <= HALF
    ensures M.Run(M.START, segments[..i + 1]) == M.Prune(M.Arrive(M.Run(M.START, segments[..i]), segments[i]))
  {
    InWindowPrefix(segments, i + 1);
    assert segments[..i + 1][..i] == segments[..i];
  }

  /**
   A whole direction of a connection, from the packets alone. However the sequence
   numbers wrap, the stream that the listeners were told of, without gaps, is what the
   unbounded reassembler delivers: the normal bytes of a prefix of the sent stream.
   */
  method Reassemble(packets: seq<Skb>, firstDataSeq: u32, oneLoopLess: bool, collect: int, listener: Listener,
                    ghost segments: seq<M.Segment>, ghost sent: seq<byte>)
    returns (half: HalfStream)
    requires AllStand(packets, segments, firstDataSeq) && InWindow(segments)
    requires forall s :: s in segments ==> M.CutFrom(sent, s)
    ensures half.Valid() && half.Settled()
    ensures half.model == M.Run(M.START, segments)
    ensures half.buf.stream == M.Normals(half.model.taken) && half.buf.ToldUpTo(|half.buf.stream|)
    ensures M.Bytes(half.model.taken) <= sent
    ensures half.ExpSeq() == Wrap(firstDataSeq + |half.model.taken|)
  {
    hide M.Arrive, M.Prune, Wrap, M.Sorted, M.Run, M.Bytes, M.Normals, InWindow;
    half := new HalfStream(firstDataSeq, oneLoopLess);
    half.buf.collect := collect;
    RunStart(segments);
    for i := 0 to |packets|
      invariant half.Valid() && half.Settled() && half.firstDataSeq == firstDataSeq
      invariant fresh(half) && fresh(half.buf) && fresh(half.buf.data)
      invariant half.model == M.Run(M.START, segments[..i])
    {
      RunNext(segments, i);
      half.ProcessTcp(packets[i], segments[i], listener);
    }
    assert segments[..|packets|] == segments;
    M.Prefix(sent, segments);
  }
}

/**
 process_tcp on 32-bit sequence numbers, for a connection that is established, proved to
 decide as the model on unbounded positions does.
 */
module TcpProcess {
  import opened Base
  import opened Seq32
  import opened ListenerBuffer
  import opened TcpStream
  import C = TcpConnection

  /** The test at the entrance, with the 32-bit comparisons. */
  predicate PassesTest(thisSeq: u32, len: nat, ackSeq: u32, window: nat) {
    (len == 0 && thisSeq == ackSeq)
    || (Before(thisSeq, Wrap(ackSeq + window)) && !Before(Wrap(thisSeq + len), ackSeq))
  }

  /** How far a packet may be from what its direction has taken, acknowledged and announced. */
  ghost predicate InReach(d: C.Direction, s: M.Segment) {
    && -HALF <= s.off - (d.acked + d.window) < HALF
    && -HALF <= s.End() - d.acked < HALF
    && -HALF < s.off - |d.half.taken| <= HALF
  }

  lemma BeforeExact(first: int, a: int, b: int)
    requires -HALF <= a - b < HALF
    ensures Before(Wrap(first + a), Wrap(first + b)) <==> a < b
  {
    hide Wrap, Signed;
    Offsets(first, a, b);
  }

  lemma SameExact(first: int, a: int, b: int)
    requires -MODULUS < a - b < MODULUS
    ensures Wrap(first + a) == Wrap(first + b) <==> a == b
  {
  }

  /** Within reach the test decides as it would on positions. */
  lemma TestExact(first: u32, d: C.Direction, s: M.Segment)
    requires InReach(d, s) && |s.data| <= MAX_LEN
    ensures PassesTest(Wrap(first + s.off), |s.data|, Wrap(first + d.acked), d.window) <==> C.Passes(d, s)
  {
    hide Wrap, Before;
    WrapAbsorbs(first + d.acked, d.window);
    WrapAbsorbs(first + s.off, |s.data|);
    assert first + d.acked + d.window == first + (d.acked + d.window);
    assert first + s.off + |s.data| == first + s.End();
    BeforeExact(first, s.off, d.acked + d.window);
    BeforeExact(first, s.End(), d.acked);
    SameExact(first, s.off, d.acked);
  }

  lemma WrapSame(x: u32)
    ensures Wrap(x + 0) == x
  {
  }

  /** One direction, with the two fields of its receiving half that process_tcp looks at first. */
  class Way {
    const half: HalfStream
    var ackSeq: u32
    var window: nat

    ghost var acked: int

    ghost predicate Valid()
      reads this, half, half.buf, half.buf.data
    {
      half.Valid() && half.Settled() && ackSeq == Wrap(half.firstDataSeq + acked)
    }

    ghost function Model(): C.Direction
      reads this, half
    {
      C.Direction(half.model, acked, window)
    }

    constructor (firstDataSeq: u32, window: nat, oneLoopLess: bool)
      ensures Valid() && Model() == C.Direction(M.START, 0, window)
      ensures half.firstDataSeq == firstDataSeq && fresh(half) && fresh(half.buf) && fresh(half.buf.data)
    {
      half := new HalfStream(firstDataSeq, oneLoopLess);
      ackSeq, acked := firstDataSeq, 0;
      this.window := window;
      new;
      hide HalfStream.Valid, HalfStream.Settled, Wrap;
      WrapSame(firstDataSeq);
    }

    /** handle_ack, and the FIN that any acknowledgement confirms. */
    method HandleAck(acknum: u32, ghost ack: int)
      requires Valid() && acknum == Wrap(half.firstDataSeq + ack) && -HALF <= ack - acked < HALF
      modifies this`ackSeq, this`acked, half`sender, half`model
      ensures Valid() && Model() == C.Acknowledge(old(Model()), ack)
    {
      hide Wrap, Signed;
      Offsets(half.firstDataSeq, ack, acked);
      if Signed(Wrap(acknum - ackSeq)) > 0 {
        ackSeq, acked := acknum, ack;
      }
      half.ConfirmFin();
    }

    /** The data of a packet, if it has any, and the pruning behind them. */
    method Receive(pakiet: Skb, ghost s: M.Segment, listener: Listener)
      requires Valid() && Stands(pakiet, s, half.firstDataSeq)
      requires -HALF < s.off - |half.model.taken| <= HALF
      modifies half, half.buf, half.buf.data
      ensures Valid() && (half.buf.data == old(half.buf.data) || fresh(half.buf.data))
      ensures Model() == old(Model()).(half := C.Receive(old(half.model), s))
    {
      hide Wrap, M.Arrive, M.Prune;
      StandsMeans(pakiet, s, half.firstDataSeq);
      if |pakiet.data| > 0 || pakiet.fin {
        half.ProcessTcp(pakiet, s, listener);
      } else {
        half.PruneQueue();
      }
    }
  }

  /** The two directions of a connection share nothing. */
  ghost predicate Apart(a: Way, b: Way)
    reads a, a.half, a.half.buf, b, b.half, b.half.buf
  {
    a != b && a.half != b.half && a.half.buf != b.half.buf && a.half.buf.data != b.half.buf.data
  }

  /** A packet with neither SYN nor RST, in 32-bit numbers. */
  datatype Arrival = Arrival(from: C.Side, skb: Skb, ack: Option<u32>, window: nat)

  /** It stands for a packet of the model, given the first numbers of its direction and the one back. */
  ghost predicate StandsFor(a: Arrival, p: C.Packet, first: u32, back: u32) {
    && a.from == p.from && a.window == p.window
    && Stands(a.skb, p.segment, first)
    && (a.ack.Some? <==> p.ack.Some?)
    && (a.ack.Some? ==> a.ack.value == Wrap(back + p.ack.value))
  }

  ghost predicate Near(d: C.Direction, back: C.Direction, p: C.Packet) {
    && InReach(d, p.segment)
    && (p.ack.Some? ==> -HALF <= p.ack.value - back.acked < HALF)
  }

  /** process_tcp, on the half that a packet is for and the other. */
  method Exchange(rcv: Way, snd: Way, a: Arrival, listener: Listener, ghost p: C.Packet) returns (close: bool)
    requires rcv.Valid() && snd.Valid() && Apart(rcv, snd)
    requires StandsFor(a, p, rcv.half.firstDataSeq, snd.half.firstDataSeq) && Near(rcv.Model(), snd.Model(), p)
    modifies snd, snd.half`sender, snd.half`model
    modifies rcv.half, rcv.half.buf, rcv.half.buf.data
    ensures rcv.Valid() && snd.Valid() && Apart(rcv, snd)
    ensures rcv.half.buf.data == old(rcv.half.buf.data) || fresh(rcv.half.buf.data)
    ensures (rcv.Model(), snd.Model(), close) == C.Exchange(old(rcv.Model()), old(snd.Model()), p)
  {
    hide Wrap, PassesTest, C.Passes, C.Acknowledge, C.Receive, Stands;
    StandsMeans(a.skb, p.segment, rcv.half.firstDataSeq);
    DataStand(a.skb, p.segment, rcv.half.firstDataSeq);
    TestExact(rcv.half.firstDataSeq, rcv.Model(), p.segment);
    close := false;
    if !PassesTest(a.skb.sequence, |a.skb.data|, rcv.ackSeq, rcv.window) {
      return;
    }
    if a.ack.Some? {
      snd.HandleAck(a.ack.value, p.ack.value);
      if rcv.half.sender == M.FinConfirmed && snd.half.sender == M.FinConfirmed {
        return true;
      }
    }
    rcv.Receive(a.skb, p.segment, listener);
    snd.window := a.window;
  }

  lemma DataStand(p: Skb, s: M.Segment, first: u32)
    requires Stands(p, s, first)
    ensures p.data == s.data && |s.data| <= MAX_LEN
  {
  }

  class Conversation {
    const client: Way
    const server: Way
    var closed: bool

    ghost predicate Valid()
      reads this, client, client.half, client.half.buf, client.half.buf.data
      reads server, server.half, server.half.buf, server.half.buf.data
    {
      Apart(client, server) && client.Valid() && server.Valid()
    }

    ghost function Model(): C.Connection
      reads this, client, client.half, server, server.half
    {
      C.Connection(client.Model(), server.Model(), closed)
    }

    /** The state behind the handshake. */
    constructor (clientSeq: u32, serverSeq: u32, clientWindow: nat, serverWindow: nat, oneLoopLess: bool)
      ensures Valid() && Model() == C.Established(clientWindow, serverWindow)
      ensures client.half.firstDataSeq == clientSeq && server.half.firstDataSeq == serverSeq
      ensures fresh(client) && fresh(client.half) && fresh(client.half.buf) && fresh(client.half.buf.data)
      ensures fresh(server) && fresh(server.half) && fresh(server.half.buf) && fresh(server.half.buf.data)
    {
      client := new Way(clientSeq, clientWindow, oneLoopLess);
      server := new Way(serverSeq, serverWindow, oneLoopLess);
      closed := false;
    }

    ghost predicate Fits(a: Arrival, p: C.Packet)
      reads this, client, client.half, server, server.half
    {
      && Near(Model().Of(p.from), Model().Of(C.Other(p.from)), p)
      && (if p.from.Client? then StandsFor(a, p, client.half.firstDataSeq, server.half.firstDataSeq)
          else StandsFor(a, p, server.half.firstDataSeq, client.half.firstDataSeq))
    }

    /** A stream that was closed is not found any more. */
    method ProcessTcp(a: Arrival, listener: Listener, ghost p: C.Packet)
      requires Valid() && Fits(a, p)
      modifies this, client, client.half, client.half.buf, client.half.buf.data
      modifies server, server.half, server.half.buf, server.half.buf.data
      ensures Valid() && Model() == C.Process(old(Model()), p)
      ensures client.half.buf.data == old(client.half.buf.data) || fresh(client.half.buf.data)
      ensures server.half.buf.data == old(server.half.buf.data) || fresh(server.half.buf.data)
    {
      hide Near, Stands, C.Exchange, HalfStream.Valid, HalfStream.Settled, Wrap;
      if closed {
        return;
      }
      if a.from.Client? {
        closed := Exchange(client, server, a, listener, p);
      } else {
        closed := Exchange(server, client, a, listener, p);
      }
    }
  }

  /** Every packet of a run stays near what the model has come to before it. */
  ghost predicate AllNear(c: C.Connection, packets: seq<C.Packet>)
    decreases |packets|
  {
    packets == [] ||
    var front, p := packets[..|packets| - 1], packets[|packets| - 1];
    AllNear(c, front) && Near(C.Run(c, front).Of(p.from), C.Run(c, front).Of(C.Other(p.from)), p)
  }

  ghost predicate AllStandFor(arrivals: seq<Arrival>, packets: seq<C.Packet>, client: u32, server: u32) {
    && |arrivals| == |packets|
    && forall i :: 0 <= i < |packets| ==>
         StandsFor(arrivals[i], packets[i], if packets[i].from.Client? then client else server,
                   if packets[i].from.Client? then server else client)
  }

  lemma {:induction false} NextNear(c: C.Connection, packets: seq<C.Packet>, i: nat)
    requires AllNear(c, packets) && i < |packets|
    ensures var r, p := C.Run(c, packets[..i]), packets[i];
      && Near(r.Of(p.from), r.Of(C.Other(p.from)), p)
      && C.Run(c, packets[..i + 1]) == C.Process(r, p)
    decreases |packets|
  {
    hide Near, C.Process;
    assert packets[..i + 1][..i] == packets[..i];
    if i >= |packets| - 1 {
    } else {
      var front := packets[..|packets| - 1];
      assert front[..i] == packets[..i] && front[..i + 1] == packets[..i + 1];
      NextNear(c, front, i);
    }
  }

  /**
   A whole connection behind its handshake, from the packets alone: it comes to what the
   model comes to, and if it is closed, both streams were taken to their ends.
   */
  method Follow(clientSeq: u32, serverSeq: u32, clientWindow: nat, serverWindow: nat, oneLoopLess: bool,
                arrivals: seq<Arrival>, listener: Listener,
                ghost packets: seq<C.Packet>, ghost client: seq<byte>, ghost server: seq<byte>)
    returns (c: Conversation)
    requires AllStandFor(arrivals, packets, clientSeq, serverSeq)
    requires AllNear(C.Established(clientWindow, serverWindow), packets)
    requires C.CutFrom(client, C.Sent(packets, C.Client)) && C.CutFrom(server, C.Sent(packets, C.Server))
    ensures c.Valid() && c.Model() == C.Run(C.Established(clientWindow, serverWindow), packets)
    ensures c.closed ==> M.Bytes(c.client.half.model.taken) == client && M.Bytes(c.server.half.model.taken) == server
  {
    hide C.Process, C.Run, C.CutFrom, Near, StandsFor, HalfStream.Valid, HalfStream.Settled, Wrap, M.Bytes, AllNear;
    ghost var start := C.Established(clientWindow, serverWindow);
    c := new Conversation(clientSeq, serverSeq, clientWindow, serverWindow, oneLoopLess);
    C.NothingRun(start);
    assert packets[..0] == [];
    for i := 0 to |arrivals|
      invariant c.Valid() && c.Model() == C.Run(start, packets[..i])
      invariant c.client.half.firstDataSeq == clientSeq && c.server.half.firstDataSeq == serverSeq
      invariant fresh(c) && fresh(c.client) && fresh(c.client.half) && fresh(c.client.half.buf)
      invariant fresh(c.client.half.buf.data) && fresh(c.server) && fresh(c.server.half)
      invariant fresh(c.server.half.buf) && fresh(c.server.half.buf.data)
    {
      NextNear(start, packets, i);
      c.ProcessTcp(arrivals[i], listener, packets[i]);
    }
    assert packets[..|packets|] == packets;
    if c.closed {
      C.ClosedIsTaken(client, server, start, packets);
    }
  }
}

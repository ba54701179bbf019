/**
 What process_tcp does with a packet of an established connection around the queue of
 TcpModel: the test against what was acknowledged and the window, the acknowledgement, and
 the states that end the connection. Positions stand for sequence numbers, as there.
 */
module TcpConnection {
  import opened Base
  import M = TcpModel

  datatype Side = Client | Server

  function Other(side: Side): Side {
    if side.Client? then Server else Client
  }

  /**
   What one side sends: the half that takes it, the highest acknowledgement of it, and the
   window that its receiver announced last.
   */
  datatype Direction = Direction(half: M.Half, acked: int, window: nat)

  datatype Connection = Connection(client: Direction, server: Direction, closed: bool) {
    function Of(side: Side): Direction {
      if side.Client? then client else server
    }

    function With(side: Side, d: Direction): (c: Connection)
      ensures c.closed == closed && c.Of(side) == d && c.Of(Other(side)) == Of(Other(side))
    {
      if side.Client? then this.(client := d) else this.(server := d)
    }
  }

  /** A packet with neither SYN nor RST; `window` is the window that its sender announces. */
  datatype Packet = Packet(from: Side, segment: M.Segment, ack: Option<int>, window: nat)

  /**
   The test at the entrance: the segment must not lie in front of what was acknowledged, nor start
   behind the window.
   */
  predicate Passes(d: Direction, s: M.Segment) {
    (s.data == [] && s.off == d.acked) || (s.off < d.acked + d.window && !(s.End() < d.acked))
  }

  /** handle_ack, and the FIN that any acknowledgement confirms. */
  function Acknowledge(d: Direction, ack: int): Direction {
    d.(acked := if ack > d.acked then ack else d.acked,
       half := if d.half.sender == M.FinSent then d.half.(sender := M.FinConfirmed) else d.half)
  }

  function Confirm(back: Direction, ack: Option<int>): Direction {
    match ack
    case None => back
    case Some(a) => Acknowledge(back, a)
  }

  predicate Closes(d: Direction, back: Direction, p: Packet) {
    p.ack.Some? && d.half.sender == M.FinConfirmed && back.half.sender == M.FinConfirmed
  }

  /** The data of a packet, if it has any, and the pruning behind them. */
  function Receive(h: M.Half, s: M.Segment): M.Half {
    M.Prune(if s.data != [] || s.fin then M.Arrive(h, s) else h)
  }

  /** process_tcp on the packet's own direction and the one back, and whether it closes the connection. */
  function Exchange(d: Direction, back: Direction, p: Packet): (Direction, Direction, bool) {
    if !Passes(d, p.segment) then (d, back, false)
    else
      var back1 := Confirm(back, p.ack);
      if Closes(d, back1, p) then (d, back1, true)
      else (d.(half := Receive(d.half, p.segment)), back1.(window := p.window), false)
  }

  /** A stream that was closed is not found any more. */
  function Process(c: Connection, p: Packet): Connection {
    if c.closed then c
    else
      var (d, back, closed) := Exchange(c.Of(p.from), c.Of(Other(p.from)), p);
      c.With(p.from, d).With(Other(p.from), back).(closed := closed)
  }

  function Run(c: Connection, packets: seq<Packet>): Connection
    decreases |packets|
  {
    if packets == [] then c else Process(Run(c, packets[..|packets| - 1]), packets[|packets| - 1])
  }

  /** Behind the handshake nothing was taken, and nothing but the SYNs was acknowledged. */
  function Established(clientWindow: nat, serverWindow: nat): Connection {
    Connection(Direction(M.START, 0, clientWindow), Direction(M.START, 0, serverWindow), false)
  }

  // What a run keeps

  /** The segments that a side has sent. */
  function Sent(packets: seq<Packet>, side: Side): seq<M.Segment> {
    if packets == [] then []
    else
      var front, p := Sent(packets[..|packets| - 1], side), packets[|packets| - 1];
      if p.from == side then front + [p.segment] else front
  }

  /** The segments of a side are cut from its stream, and its FINs stand at the end of that. */
  ghost predicate CutFrom(stream: seq<byte>, segments: seq<M.Segment>) {
    forall s :: s in segments ==> M.CutFrom(stream, s) && (s.fin ==> s.End() == |stream|)
  }

  /** A direction holds what a run promises of it; a FIN that was confirmed has nothing missing in front of it. */
  ghost predicate Kept(stream: seq<byte>, h: M.Half, arrived: seq<M.Segment>) {
    && M.Sound(stream, h, arrived) && M.Settled(h)
    && (h.sender == M.FinConfirmed ==> M.FinReached(arrived, |h.taken|))
  }

  lemma {:induction false} DrainConfirmsNothing(h: M.Half)
    ensures M.Drain(h).sender == M.FinConfirmed ==> h.sender == M.FinConfirmed
    decreases |h.queue|
  {
    if h.queue == [] || h.queue[0].off > |h.taken| {
    } else {
      DrainConfirmsNothing(M.DrainHead(h));
    }
  }

  lemma ReceiveKept(stream: seq<byte>, h: M.Half, s: M.Segment, arrived: seq<M.Segment>)
    requires Kept(stream, h, arrived) && s in arrived && M.CutFrom(stream, s)
    ensures Kept(stream, Receive(h, s), arrived)
  {
    hide M.Arrive, Kept;
    ArriveKept(stream, h, s, arrived);
    PruneKept(stream, h, arrived);
    PruneKept(stream, M.Arrive(h, s), arrived);
  }

  lemma PruneKept(stream: seq<byte>, h: M.Half, arrived: seq<M.Segment>)
    requires Kept(stream, h, arrived)
    ensures Kept(stream, M.Prune(h), arrived)
  {
    hide M.Sound, M.Settled, M.FinReached, M.Prune;
    M.PruneKeeps(stream, h, arrived);
  }

  lemma ArriveKept(stream: seq<byte>, h: M.Half, s: M.Segment, arrived: seq<M.Segment>)
    requires Kept(stream, h, arrived) && s in arrived && M.CutFrom(stream, s)
    ensures Kept(stream, M.Arrive(h, s), arrived)
  {
    hide M.Arrive, M.CutFrom, M.Sound, M.Settled, M.FinReached;
    M.ArriveKeeps(stream, h, s, arrived);
    ArriveConfirmsNothing(h, s);
    if h.sender == M.FinConfirmed {
      StillReached(arrived, |h.taken|, |M.Arrive(h, s).taken|);
    }
  }

  lemma StillReached(arrived: seq<M.Segment>, n: int, later: int)
    requires M.FinReached(arrived, n) && n <= later
    ensures M.FinReached(arrived, later)
  {
  }

  lemma ArriveConfirmsNothing(h: M.Half, s: M.Segment)
    ensures M.Arrive(h, s).sender == M.FinConfirmed ==> h.sender == M.FinConfirmed
  {
    if s.off <= |h.taken| && s.EndWithFin() > |h.taken| {
      DrainConfirmsNothing(M.Take(h, s));
      TakeConfirmsNothing(h, s);
    }
  }

  lemma TakeConfirmsNothing(h: M.Half, s: M.Segment)
    requires s.off <= |h.taken| <= s.End()
    ensures M.Take(h, s).sender == if s.fin then M.FinSent else h.sender
  {
    hide M.TakeNew, M.NoteUrgent;
  }

  lemma MoreKept(stream: seq<byte>, h: M.Half, arrived: seq<M.Segment>, more: seq<M.Segment>)
    requires Kept(stream, h, arrived) && forall s :: s in arrived ==> s in more
    ensures Kept(stream, h, more)
  {
    M.SoundWeakens(stream, h, arrived, more);
    hide M.Sound;
  }

  lemma AcknowledgeKept(stream: seq<byte>, d: Direction, ack: int, arrived: seq<M.Segment>)
    requires Kept(stream, d.half, arrived)
    ensures Kept(stream, Acknowledge(d, ack).half, arrived)
  {
  }

  lemma SentAppend(packets: seq<Packet>, side: Side)
    requires packets != []
    ensures var front, p := packets[..|packets| - 1], packets[|packets| - 1];
      && (forall s :: s in Sent(front, side) ==> s in Sent(packets, side))
      && (p.from == side ==> p.segment in Sent(packets, side))
  {
  }

  /** In every run, whatever the two sides send, both directions keep what a run promises. */
  lemma {:induction false} RunKeeps(stream: seq<byte>, c: Connection, packets: seq<Packet>, side: Side)
    requires c == Established(c.client.window, c.server.window)
    requires CutFrom(stream, Sent(packets, side))
    ensures Kept(stream, Run(c, packets).Of(side).half, Sent(packets, side))
    decreases |packets|
  {
    if packets == [] {
    } else {
      var front, p := packets[..|packets| - 1], packets[|packets| - 1];
      hide M.Sound, M.Settled, M.Arrive, M.CutFrom, Kept;
      SentAppend(packets, side);
      RunKeeps(stream, c, front, side);
      MoreKept(stream, Run(c, front).Of(side).half, Sent(front, side), Sent(packets, side));
      ProcessKeeps(stream, Run(c, front), p, side, Sent(packets, side));
    }
  }

  lemma ProcessKeeps(stream: seq<byte>, c: Connection, p: Packet, side: Side, arrived: seq<M.Segment>)
    requires Kept(stream, c.Of(side).half, arrived)
    requires p.from == side ==> p.segment in arrived && M.CutFrom(stream, p.segment)
    ensures Kept(stream, Process(c, p).Of(side).half, arrived)
  {
    hide Kept, M.CutFrom, Receive, Passes, Acknowledge;
    if p.from == side {
      ReceiveKept(stream, c.Of(side).half, p.segment, arrived);
    } else if p.ack.Some? {
      AcknowledgeKept(stream, c.Of(side), p.ack.value, arrived);
    }
  }

  // The end of a connection

  /** A direction whose FIN was seen, or confirmed, was taken to its end, and has nothing queued. */
  lemma FinishedIsTaken(stream: seq<byte>, h: M.Half, arrived: seq<M.Segment>)
    requires Kept(stream, h, arrived) && CutFrom(stream, arrived)
    requires h.sender == M.FinSent || h.sender == M.FinConfirmed
    ensures M.Bytes(h.taken) == stream && h.queue == []
  {
    assert M.FinReached(arrived, |h.taken|);
    assert stream[..|stream|] == stream;
  }

  /**
   A connection is closed, and its listeners told so, only when both streams were taken to
   their ends.
   */
  lemma ClosedIsTaken(client: seq<byte>, server: seq<byte>, c: Connection, packets: seq<Packet>)
    requires c == Established(c.client.window, c.server.window)
    requires CutFrom(client, Sent(packets, Client)) && CutFrom(server, Sent(packets, Server))
    requires Run(c, packets).closed
    ensures var r := Run(c, packets); M.Bytes(r.client.half.taken) == client && M.Bytes(r.server.half.taken) == server
  {
    var r := Run(c, packets);
    hide M.Sound, M.Bytes, Kept, CutFrom;
    ClosedIsConfirmed(c, packets);
    RunKeeps(client, c, packets, Client);
    RunKeeps(server, c, packets, Server);
    FinishedIsTaken(client, r.client.half, Sent(packets, Client));
    FinishedIsTaken(server, r.server.half, Sent(packets, Server));
  }

  lemma {:induction false} ClosedIsConfirmed(c: Connection, packets: seq<Packet>)
    requires !c.closed && Run(c, packets).closed
    ensures Run(c, packets).client.half.sender == M.FinConfirmed == Run(c, packets).server.half.sender
    decreases |packets|
  {
    hide Passes, Acknowledge, Receive;
    if packets == [] {
    } else if Run(c, packets[..|packets| - 1]).closed {
      ClosedIsConfirmed(c, packets[..|packets| - 1]);
    }
  }

  /** A packet that acknowledges the other side's FIN, the sender's own being confirmed, ends the connection. */
  predicate EndsAll(back: Direction, p: Packet) {
    p.ack.Some? && (back.half.sender == M.FinSent || back.half.sender == M.FinConfirmed)
  }

  /** The FIN of a direction reaches the queue once more. */
  predicate ComesAgain(stream: seq<byte>, d: Direction, s: M.Segment) {
    && s.fin && d.acked <= |stream|
    && (s.off < d.acked + d.window || (s.data == [] && s.off == d.acked))
  }

  /** Where everything was taken, a segment lies behind nothing that is missing, and a FIN at the end. */
  lemma FinishedFits(stream: seq<byte>, h: M.Half, s: M.Segment, arrived: seq<M.Segment>)
    requires Kept(stream, h, arrived) && CutFrom(stream, arrived) && s in arrived
    requires h.sender == M.FinConfirmed
    ensures h.queue == [] && s.End() <= |h.taken| && (s.fin ==> s.End() == |h.taken|)
  {
    FinishedIsTaken(stream, h, arrived);
    assert |M.Bytes(h.taken)| == |h.taken|;
    assert M.CutFrom(stream, s);
  }

  /** There a segment changes the direction exactly if it is a FIN that comes again. */
  lemma FinishedReceives(h: M.Half, s: M.Segment)
    requires h.queue == [] && s.End() <= |h.taken| && (s.fin ==> s.End() == |h.taken|)
    requires h.sender == M.FinConfirmed
    ensures Receive(h, s).sender == if s.fin then M.FinSent else M.FinConfirmed
  {
    if s.fin {
      TakeConfirmsNothing(h, s);
    }
  }

  /**
   A confirmed direction goes back to FIN_SENT exactly if its FIN comes again while the
   highest acknowledgement held is no higher than the position of the FIN, inside the window,
   and in a packet that does not at once acknowledge a FIN of the other side. Otherwise it
   stays confirmed.
   */
  lemma ConfirmedGoesBack(stream: seq<byte>, c: Connection, packets: seq<Packet>, p: Packet)
    requires c == Established(c.client.window, c.server.window)
    requires CutFrom(stream, Sent(packets + [p], p.from))
    requires var r := Run(c, packets); !r.closed && r.Of(p.from).half.sender == M.FinConfirmed
    ensures var r, r' := Run(c, packets), Run(c, packets + [p]);
      var d, back := r.Of(p.from), r.Of(Other(p.from));
      && r'.Of(p.from).half.sender ==
         (if ComesAgain(stream, d, p.segment) && !EndsAll(back, p) then M.FinSent else M.FinConfirmed)
      && (r'.closed <==> Passes(d, p.segment) && EndsAll(back, p))
  {
    var all := packets + [p];
    assert all[..|all| - 1] == packets && all[|all| - 1] == p;
    hide Sent, Kept, Process, CutFrom, ComesAgain, EndsAll, Passes;
    SentAppend(all, p.from);
    KeptBefore(stream, c, packets, p);
    GoesBack(stream, Run(c, packets), p, Sent(all, p.from));
  }

  lemma GoesBack(stream: seq<byte>, c: Connection, p: Packet, arrived: seq<M.Segment>)
    requires Kept(stream, c.Of(p.from).half, arrived) && CutFrom(stream, arrived) && p.segment in arrived
    requires !c.closed && c.Of(p.from).half.sender == M.FinConfirmed
    ensures var d, back, r := c.Of(p.from), c.Of(Other(p.from)), Process(c, p);
      && r.Of(p.from).half.sender ==
         (if ComesAgain(stream, d, p.segment) && !EndsAll(back, p) then M.FinSent else M.FinConfirmed)
      && (r.closed <==> Passes(d, p.segment) && EndsAll(back, p))
  {
    hide Kept, Receive, CutFrom, Passes, ComesAgain;
    FinishedFits(stream, c.Of(p.from).half, p.segment, arrived);
    FinishedReceives(c.Of(p.from).half, p.segment);
    PassesAgain(stream, c.Of(p.from), p.segment, arrived);
  }

  lemma PassesAgain(stream: seq<byte>, d: Direction, s: M.Segment, arrived: seq<M.Segment>)
    requires CutFrom(stream, arrived) && s in arrived
    ensures Passes(d, s) && s.fin <==> ComesAgain(stream, d, s)
  {
    assert M.CutFrom(stream, s);
  }

  lemma KeptBefore(stream: seq<byte>, c: Connection, packets: seq<Packet>, p: Packet)
    requires c == Established(c.client.window, c.server.window)
    requires CutFrom(stream, Sent(packets + [p], p.from))
    ensures Kept(stream, Run(c, packets).Of(p.from).half, Sent(packets + [p], p.from))
  {
    var all := packets + [p];
    assert all[..|all| - 1] == packets;
    hide Kept, Run, M.CutFrom;
    SentAppend(all, p.from);
    RunKeeps(stream, c, packets, p.from);
    MoreKept(stream, Run(c, packets).Of(p.from).half, Sent(packets, p.from), Sent(all, p.from));
  }

  /** A packet of the other side does not take a confirmed direction back, and acknowledgements do not go back. */
  lemma ProcessOther(c: Connection, p: Packet, side: Side)
    ensures Process(c, p).Of(side).acked >= c.Of(side).acked
    ensures p.from != side && c.Of(side).half.sender == M.FinConfirmed ==>
              Process(c, p).Of(side).half.sender == M.FinConfirmed
  {
    hide Passes, Receive;
  }

  /** Once an acknowledgement has gone past the FIN, the direction stays confirmed for good. */
  lemma {:induction false} ConfirmedForGood(stream: seq<byte>, c: Connection, packets: seq<Packet>, side: Side, i: nat)
    requires c == Established(c.client.window, c.server.window)
    requires CutFrom(stream, Sent(packets, side)) && i <= |packets|
    requires var d := Run(c, packets[..i]).Of(side); d.half.sender == M.FinConfirmed && d.acked > |stream|
    ensures var d := Run(c, packets).Of(side); d.half.sender == M.FinConfirmed && d.acked > |stream|
    decreases |packets|
  {
    if i == |packets| {
      assert packets[..i] == packets;
    } else {
      var front, p := packets[..|packets| - 1], packets[|packets| - 1];
      assert front[..i] == packets[..i] && front + [p] == packets;
      hide Process;
      SentAppend(packets, side);
      ConfirmedForGood(stream, c, front, side, i);
      ProcessOther(Run(c, front), p, side);
      if p.from == side {
        if Run(c, front).closed {
          ClosedStays(Run(c, front), p);
        } else {
          ConfirmedGoesBack(stream, c, front, p);
        }
      }
    }
  }

  lemma ClosedStays(c: Connection, p: Packet)
    requires c.closed
    ensures Process(c, p) == c
  {
  }

  lemma RunStep(c: Connection, packets: seq<Packet>, p: Packet)
    ensures Run(c, packets + [p]) == Process(Run(c, packets), p)
  {
    assert (packets + [p])[..|packets|] == packets;
  }

  /**
   Both happen: a FIN is confirmed by an acknowledgement of any number, and sent again it
   takes the direction back exactly if that number did not cover it.
   */
  lemma FinSentAgain(c: Connection, window: nat, ack: int, p1: Packet, p2: Packet)
    requires c == Established(window, window)
    requires p1 == Packet(Client, M.Segment(0, [], true, false, 0, 0), Some(0), window)
    requires p2 == Packet(Server, M.Segment(0, [], false, false, 0, 0), Some(ack), window)
    ensures Run(c, [p1]).client.half.sender == M.FinSent
    ensures Run(c, [p1, p2]).client.half.sender == M.FinConfirmed
    ensures Run(c, [p1, p2, p1]).client.half.sender == (if ack <= 0 then M.FinSent else M.FinConfirmed)
  {
    hide Run, Process;
    assert [] + [p1] == [p1] && [p1] + [p2] == [p1, p2] && [p1, p2] + [p1] == [p1, p2, p1];
    NothingRun(c);
    RunStep(c, [], p1);
    RunStep(c, [p1], p2);
    RunStep(c, [p1, p2], p1);
    FinArrives(c, p1);
    FinConfirms(Process(c, p1), p2, ack);
    FinArrives(Process(Process(c, p1), p2), p1);
  }

  lemma NothingRun(c: Connection)
    ensures Run(c, []) == c
  {
  }

  lemma FinArrives(c: Connection, p: Packet)
    requires !c.closed && c.server.half == M.START && p.from == Client && p.ack == Some(0)
    requires c.client.half == M.START.(sender := c.client.half.sender) && c.client.acked >= 0 && c.server.acked == 0
    requires p.segment == M.Segment(0, [], true, false, 0, 0)
    ensures var r := Process(c, p);
      && !r.closed && r.server.half == M.START && r.server.acked == 0 && r.client.acked == c.client.acked
      && r.client.half == if c.client.acked == 0 then M.START.(sender := M.FinSent) else c.client.half
  {
    hide Receive;
    FinReceived(c.client.half, p.segment);
  }

  lemma FinConfirms(c: Connection, p: Packet, ack: int)
    requires !c.closed && c.server.half == M.START && p.from == Server && p.ack == Some(ack)
    requires c.client.half == M.START.(sender := M.FinSent) && c.client.acked == 0 && c.server.acked == 0
    requires p.segment == M.Segment(0, [], false, false, 0, 0)
    ensures var r := Process(c, p);
      && !r.closed && r.server.half == M.START && r.server.acked == 0
      && r.client.half == M.START.(sender := M.FinConfirmed) && r.client.acked == if ack > 0 then ack else 0
  {
  }

  lemma FinReceived(h: M.Half, s: M.Segment)
    requires h == M.START.(sender := h.sender) && s == M.Segment(0, [], true, false, 0, 0)
    ensures Receive(h, s) == h.(sender := M.FinSent)
  {
    FinTaken(h, s);
    hide M.Arrive;
  }

  lemma FinTaken(h: M.Half, s: M.Segment)
    requires h == M.START.(sender := h.sender) && s == M.Segment(0, [], true, false, 0, 0)
    ensures M.Arrive(h, s) == h.(sender := M.FinSent)
  {
    hide M.Take;
    TakeNothing(h, s);
  }

  lemma TakeNothing(h: M.Half, s: M.Segment)
    requires h == M.START.(sender := h.sender) && s == M.Segment(0, [], true, false, 0, 0)
    ensures M.Take(h, s) == h.(sender := M.FinSent)
  {
    assert M.Take(h, s).taken == [];
  }
}

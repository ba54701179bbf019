/**
 The log that the master writes into shared memory and a viewer follows: records are written
 one behind the other, a sentinel marks where a lap ends early, and the writer starts over at
 the beginning. The viewer keeps a position and the lap number it belongs to.
 */
module LogRing {
  import opened Base

  const LOG_BUF_SIZE := 8192
  const SENTINEL := 65535

  type Message = seq<byte>

  /** What the callers log: a C string shorter than the buffer it is made in. */
  predicate Loggable(m: Message) {
    |m| < LOG_BUF_SIZE && 0 !in m
  }

  /** The status block: the data area, the write position, and the number of the lap. */
  datatype Ring = Ring(data: seq<byte>, p: nat, life: int)

  datatype Reader = Reader(life: int, p: nat)

  /** What the viewer does at its position: wait, show a line, or go to the start of the lap. */
  datatype Seen = Idle | Line(text: Message) | Jump

  /** An unsigned short in memory; what does not fit is cut off. */
  function Short(n: nat): seq<byte> {
    [n % 256, n / 256 % 256]
  }

  function ShortAt(data: seq<byte>, p: nat): nat
    requires p + 2 <= |data|
  {
    data[p] as nat + 256 * data[p + 1] as nat
  }

  /** A record: its length with the closing zero, the text, and the zero. */
  function Record(m: Message): seq<byte> {
    Short(|m| + 1) + m + [0]
  }

  predicate AllLoggable(ms: seq<Message>) {
    forall i :: 0 <= i < |ms| ==> Loggable(ms[i])
  }

  function Records(ms: seq<Message>): seq<byte> {
    if ms == [] then [] else Record(ms[0]) + Records(ms[1..])
  }

  /** The lap number is a signed char that is counted modulo 255 before it is stored. */
  function NextLife(life: int): (r: int)
    requires -128 <= life <= 127
    ensures -128 <= r <= 127 && r != life
  {
    var n := life + 1;
    var rest := if n == 255 then 0 else n;
    if rest > 127 then rest - 256 else rest
  }

  function Overwrite(data: seq<byte>, p: nat, bytes: seq<byte>): (r: seq<byte>)
    requires p + |bytes| <= |data|
    ensures |r| == |data|
    ensures forall k :: 0 <= k < |r| ==> r[k] == if p <= k < p + |bytes| then bytes[k - p] else data[k]
  {
    data[..p] + bytes + data[p + |bytes|..]
  }

  predicate Wraps(r: Ring, m: Message) {
    |m| + r.p + 4 >= |r.data|
  }

  ghost predicate Sound(r: Ring) {
    r.p + 2 <= |r.data| && |r.data| > LOG_BUF_SIZE + 4 && -128 <= r.life <= 127
  }

  /** status_logpush. */
  function Push(r: Ring, m: Message): Ring
    requires Sound(r) && Loggable(m)
  {
    if Wraps(r, m) then
      var data := Overwrite(r.data, r.p, Short(SENTINEL));
      Ring(Overwrite(data, 0, Record(m)), |m| + 3, NextLife(r.life))
    else Ring(Overwrite(r.data, r.p, Record(m)), r.p + |m| + 3, r.life)
  }

  /** A C string in the data. */
  function Text(data: seq<byte>, p: nat): Message
    requires p <= |data|
    decreases |data| - p
  {
    if p == |data| || data[p] == 0 then [] else [data[p]] + Text(data, p + 1)
  }

  /** One turn of show_log. */
  function Look(r: Ring, v: Reader): (Reader, Seen)
    requires v.p + 2 <= |r.data|
  {
    if v.life == r.life && v.p == r.p then (v, Idle)
    else
      var l := ShortAt(r.data, v.p);
      if l > LOG_BUF_SIZE || (v.life != r.life && r.p > v.p) then (Reader(r.life, 0), Jump)
      else (Reader(v.life, v.p + 2 + l), Line(Text(r.data, v.p + 2)))
  }

  // What is in the ring

  /** The data up to a position, and what is left behind it of the lap before. */
  ghost predicate Stands(r: Ring, before: Option<seq<Message>>, now: seq<Message>) {
    && Sound(r) && AllLoggable(now) && r.p == |Records(now)| && r.data[..r.p] == Records(now)
    && (before.Some? ==> AllLoggable(before.value) && LeftOver(r, Records(before.value) + Short(SENTINEL)))
  }

  ghost predicate LeftOver(r: Ring, lap: seq<byte>) {
    |lap| <= |r.data| && forall k :: r.p <= k < |lap| ==> r.data[k] == lap[k]
  }

  lemma {:induction false} RecordsAppend(a: seq<Message>, b: seq<Message>)
    ensures Records(a + b) == Records(a) + Records(b)
  {
    hide Record;
    if a == [] {
      assert a + b == b;
    } else {
      RecordsAppend(a[1..], b);
      assert (a + b)[1..] == a[1..] + b;
      assert (a + b)[0] == a[0];
    }
  }

  lemma OneRecord(m: Message)
    ensures Records([m]) == Record(m) && |Record(m)| == |m| + 3
  {
    assert [m][1..] == [];
  }

  /** A push in the same lap puts a record behind the others. */
  lemma PushAppends(r: Ring, before: Option<seq<Message>>, now: seq<Message>, m: Message)
    requires Stands(r, before, now) && Loggable(m) && !Wraps(r, m)
    ensures Stands(Push(r, m), before, now + [m])
  {
    OneRecord(m);
    RecordsAppend(now, [m]);
    var r' := Push(r, m);
    hide Record, Records, Short;
    assert r'.data[..r'.p] == Records(now + [m]);
  }

  /**
   A push that does not fit ends the lap: the sentinel fits behind the last record, and what
   the push does not overwrite is the old lap.
   */
  lemma PushStartsLap(r: Ring, before: Option<seq<Message>>, now: seq<Message>, m: Message)
    requires Stands(r, before, now) && Loggable(m) && Wraps(r, m)
    ensures Stands(Push(r, m), Some(now), [m]) && Push(r, m).life != r.life
  {
    OneRecord(m);
    var r', lap := Push(r, m), Records(now) + Short(SENTINEL);
    assert |Short(SENTINEL)| == 2;
    hide Record, Records, Short;
    assert r'.data[..r'.p] == Records([m]);
    forall k | r'.p <= k < |lap|
      ensures r'.data[k] == lap[k]
    {
      assert k < r.p ==> r.data[k] == r.data[..r.p][k];
    }
  }

  // What the viewer sees

  /** A position in a lap: behind so many of its messages. */
  ghost predicate Mark(p: nat, ms: seq<Message>, n: nat) {
    n <= |ms| && p == |Records(ms[..n])|
  }

  lemma RecordsCut(ms: seq<Message>, k: nat)
    requires k <= |ms|
    ensures Records(ms) == Records(ms[..k]) + Records(ms[k..])
  {
    hide Records;
    assert ms == ms[..k] + ms[k..];
    RecordsAppend(ms[..k], ms[k..]);
  }

  /** The record at a position of a lap. */
  lemma RecordAt(ms: seq<Message>, n: nat)
    requires n < |ms|
    ensures Records(ms) == Records(ms[..n]) + Record(ms[n]) + Records(ms[n + 1..])
    ensures Records(ms[..n + 1]) == Records(ms[..n]) + Record(ms[n])
  {
    var front := ms[..n + 1];
    hide Record, Records;
    RecordsCut(ms, n + 1);
    RecordsCut(front, n);
    OneRecord(ms[n]);
    assert front[..n] == ms[..n] && front[n..] == [ms[n]];
  }

  lemma {:induction false} TextIs(data: seq<byte>, p: nat, m: Message)
    requires p + |m| + 1 <= |data| && 0 !in m && data[p..p + |m|] == m && data[p + |m|] == 0
    ensures Text(data, p) == m
    decreases |m|
  {
    if m == [] {
    } else {
      assert data[p] == data[p..p + |m|][0] == m[0];
      assert data[p + 1..p + 1 + |m[1..]|] == data[p..p + |m|][1..] == m[1..];
      TextIs(data, p + 1, m[1..]);
    }
  }

  lemma SliceOfSlice(s: seq<byte>, a: nat, b: nat, c: nat, d: nat)
    requires a <= b <= |s| && c <= d <= b - a
    ensures s[a..b][c..d] == s[a + c..a + d]
  {
    var l, r := s[a..b][c..d], s[a + c..a + d];
    assert |l| == |r| && forall k :: 0 <= k < |l| ==> l[k] == r[k];
  }

  /** Where a record lies in the data, it is read as what was pushed. */
  lemma ReadRecord(data: seq<byte>, p: nat, m: Message)
    requires Loggable(m) && p + |Record(m)| <= |data| && data[p..p + |Record(m)|] == Record(m)
    ensures ShortAt(data, p) == |m| + 1 <= LOG_BUF_SIZE && Text(data, p + 2) == m && |Record(m)| == |m| + 3
  {
    var rec := data[p..p + |Record(m)|];
    assert rec == Short(|m| + 1) + m + [0];
    assert data[p] == rec[0] && data[p + 1] == rec[1] && data[p + 2 + |m|] == rec[2 + |m|];
    assert (Short(|m| + 1) + m)[2..] == m;
    assert rec[..2 + |m|] == Short(|m| + 1) + m;
    assert rec[2..2 + |m|] == rec[..2 + |m|][2..] == m;
    SliceOfSlice(data, p, p + |rec|, 2, 2 + |m|);
    TextIs(data, p + 2, m);
  }

  /** The n-th record of a lap lies behind those in front of it. */
  lemma RecordLies(data: seq<byte>, ms: seq<Message>, rest: seq<byte>, n: nat, lo: nat)
    requires n < |ms| && |Records(ms) + rest| <= |data| && lo <= |Records(ms[..n])| && Loggable(ms[n])
    requires forall k :: lo <= k < |Records(ms) + rest| ==> data[k] == (Records(ms) + rest)[k]
    ensures |Records(ms[..n])| + |ms[n]| + 3 <= |Records(ms)|
    ensures var p := |Records(ms[..n])|;
      && ShortAt(data, p) == |ms[n]| + 1 <= LOG_BUF_SIZE && Text(data, p + 2) == ms[n]
      && |Records(ms[..n + 1])| == p + |ms[n]| + 3
  {
    hide Record, Records, Text, ShortAt, Loggable;
    RecordAt(ms, n);
    OneRecord(ms[n]);
    var front, rec, back := Records(ms[..n]), Record(ms[n]), Records(ms[n + 1..]);
    SliceLies(data, front, rec, back + rest, lo, Records(ms) + rest);
    ReadRecord(data, |front|, ms[n]);
  }

  /** What lies behind `front` in bytes that the data hold from position lo on. */
  lemma SliceLies(data: seq<byte>, front: seq<byte>, mid: seq<byte>, back: seq<byte>, lo: nat, all: seq<byte>)
    requires all == front + mid + back && |all| <= |data| && lo <= |front|
    requires forall k :: lo <= k < |all| ==> data[k] == all[k]
    ensures data[|front|..|front| + |mid|] == mid
  {
    var there := data[|front|..|front| + |mid|];
    forall k | 0 <= k < |mid|
      ensures there[k] == mid[k]
    {
      assert data[|front| + k] == all[|front| + k];
    }
  }

  /** In the writer's lap the viewer shows the next message, or waits when there is none. */
  lemma LookInLap(r: Ring, before: Option<seq<Message>>, now: seq<Message>, v: Reader, n: nat)
    requires Stands(r, before, now) && v.life == r.life && Mark(v.p, now, n)
    ensures v.p + 2 <= |r.data|
    ensures n == |now| ==> Look(r, v) == (v, Idle)
    ensures n < |now| ==> Look(r, v).1 == Line(now[n]) && Look(r, v).0.life == v.life
    ensures n < |now| ==> Mark(Look(r, v).0.p, now, n + 1)
  {
    hide Records, Text, ShortAt;
    if n == |now| {
      assert now[..n] == now;
    } else {
      assert forall k :: 0 <= k < r.p ==> r.data[k] == r.data[..r.p][k];
      RecordLies(r.data, now, [], n, 0);
    }
  }

  /**
   One lap behind, the viewer goes on with the old lap as long as the writer has not passed
   its position; then, or when the old lap is over, it goes to the start of the new one.
   */
  lemma LookBehind(r: Ring, before: seq<Message>, now: seq<Message>, v: Reader, n: nat)
    requires Stands(r, Some(before), now) && v.life != r.life && Mark(v.p, before, n)
    ensures v.p + 2 <= |r.data|
    ensures r.p > v.p || n == |before| ==> Look(r, v) == (Reader(r.life, 0), Jump)
    ensures r.p <= v.p && n < |before| ==> Look(r, v).1 == Line(before[n])
    ensures r.p <= v.p && n < |before| ==> Look(r, v).0.life == v.life && Mark(Look(r, v).0.p, before, n + 1)
  {
    hide Records, Text;
    var lap := Records(before) + Short(SENTINEL);
    RecordsCut(before, n);
    if n == |before| {
      assert before[..n] == before;
      assert lap[v.p] == 255 && lap[v.p + 1] == 255;
    } else if r.p <= v.p {
      hide ShortAt, Short;
      RecordLies(r.data, before, Short(SENTINEL), n, r.p);
    }
  }

  // The writer and the viewer

  class Log {
    const data: array<byte>
    var p: nat
    var life: int

    ghost function Status(): Ring
      reads this, data
    {
      Ring(data[..], p, life)
    }

    constructor (size: nat)
      requires size > LOG_BUF_SIZE + 4
      ensures fresh(data) && data.Length == size && Stands(Status(), None, [])
    {
      data := new byte[size](_ => 0);
      p, life := 0, 0;
    }

    /** A length and so many bytes at a position; the write position moves by as much. */
    method PushData(at: nat, m: Message)
      requires Loggable(m) && at + |m| + 3 <= data.Length
      modifies this`p, data
      ensures data[..] == Overwrite(old(data[..]), at, Record(m))
      ensures p == old(p) + |m| + 3
    {
      var bytes, size := m + [0], |m| + 1;
      data[at] := (size % 256) as byte;
      data[at + 1] := (size / 256) as byte;
      var i := 0;
      while i < size
        invariant 0 <= i <= size
        invariant forall k :: 0 <= k < data.Length ==>
                    data[k] == if at <= k < at + 2 + i then Record(m)[k - at] else old(data[k])
        modifies data
      {
        data[at + 2 + i] := bytes[i];
        i := i + 1;
      }
      p := p + size + 2;
    }

    method StatusLogpush(m: Message)
      requires Sound(Status()) && Loggable(m)
      modifies this, data
      ensures Status() == Push(old(Status()), m)
    {
      if |m| + p + 4 >= data.Length {
        data[p] := 255;
        data[p + 1] := 255;
        assert data[..] == Overwrite(old(data[..]), old(p), Short(SENTINEL));
        p := 0;
        life := NextLife(life);
        PushData(0, m);
      } else {
        PushData(p, m);
      }
    }

    /** One turn of the viewer. */
    method ShowLog(v: Reader) returns (next: Reader, seen: Seen)
      requires v.p + 2 <= data.Length
      ensures (next, seen) == Look(Status(), v)
    {
      if v.life == life && v.p == p {
        return v, Idle;
      }
      var l := data[v.p] as nat + 256 * data[v.p + 1] as nat;
      if l > LOG_BUF_SIZE || (v.life != life && p > v.p) {
        return Reader(life, 0), Jump;
      }
      var text, c := [], v.p + 2;
      while c < data.Length && data[c] != 0
        invariant v.p + 2 <= c <= data.Length && text + Text(data[..], c) == Text(data[..], v.p + 2)
      {
        text := text + [data[c]];
        c := c + 1;
      }
      assert text + [] == text;
      return Reader(v.life, v.p + 2 + l), Line(text);
    }
  }

  // Whole runs

  datatype Event = Pushed(m: Message) | Looked

  /** The ring and the viewer, all that was pushed, and all that was shown. */
  datatype World = World(ring: Ring, viewer: Reader, log: seq<Message>, out: seq<Message>)

  /** The writer starts a lap only when the viewer is in the one that ends. */
  ghost predicate Allowed(w: World, e: Event) {
    && Sound(w.ring) && w.viewer.p + 2 <= |w.ring.data|
    && (e.Pushed? ==> Loggable(e.m) && (Wraps(w.ring, e.m) ==> w.viewer.life == w.ring.life))
  }

  ghost function Exec(w: World, e: Event): World
    requires Allowed(w, e)
  {
    match e
    case Pushed(m) => w.(ring := Push(w.ring, m), log := w.log + [m])
    case Looked =>
      var (next, seen) := Look(w.ring, w.viewer);
      w.(viewer := next, out := if seen.Line? then w.out + [seen.text] else w.out)
  }

  ghost predicate AllowedRun(w: World, run: seq<Event>)
    decreases |run|
  {
    run == [] || (Allowed(w, run[0]) && AllowedRun(Exec(w, run[0]), run[1..]))
  }

  ghost function Final(w: World, run: seq<Event>): World
    requires AllowedRun(w, run)
    decreases |run|
  {
    if run == [] then w else Final(Exec(w, run[0]), run[1..])
  }

  /** The lap before, the lap that is written, how far the viewer is in its lap, and what it has shown. */
  datatype Track = Track(before: Option<seq<Message>>, now: seq<Message>, n: nat, shown: seq<nat>)

  /** Which of the messages pushed is the next to show. */
  ghost function Next(w: World, t: Track): int {
    |w.log| - |t.now| + t.n - (if w.viewer.life == w.ring.life || t.before.None? then 0 else |t.before.value|)
  }

  /** What was shown are messages that were pushed, each whole, in order, and none twice. */
  ghost predicate Shown(shown: seq<nat>, log: seq<Message>, out: seq<Message>, next: int) {
    && |shown| == |out|
    && (forall k :: 0 <= k < |shown| ==> shown[k] < |log| && shown[k] < next && out[k] == log[shown[k]])
    && (forall j, k :: 0 <= j < k < |shown| ==> shown[j] < shown[k])
  }

  ghost predicate Laps(log: seq<Message>, before: Option<seq<Message>>, now: seq<Message>) {
    && |now| <= |log| && log[|log| - |now|..] == now
    && (before.Some? ==>
          |before.value| + |now| <= |log|
          && log[|log| - |now| - |before.value|..|log| - |now|] == before.value)
  }

  ghost predicate Tracked(w: World, t: Track) {
    && Stands(w.ring, t.before, t.now) && Laps(w.log, t.before, t.now)
    && (if w.viewer.life == w.ring.life then Mark(w.viewer.p, t.now, t.n)
        else t.before.Some? && Mark(w.viewer.p, t.before.value, t.n))
    && Shown(t.shown, w.log, w.out, Next(w, t))
  }

  ghost predicate Started(w: World) {
    Stands(w.ring, None, []) && w.viewer == Reader(w.ring.life, 0) && w.log == [] && w.out == []
  }

  lemma LapsAppend(log: seq<Message>, before: Option<seq<Message>>, now: seq<Message>, m: Message)
    requires Laps(log, before, now)
    ensures Laps(log + [m], before, now + [m]) && Laps(log + [m], Some(now), [m])
  {
    var more := log + [m];
    assert more[|more| - |now + [m]|..] == log[|log| - |now|..] + [m];
    assert more[|more| - 1 - |now|..|more| - 1] == log[|log| - |now|..];
    if before.Some? {
      var b := before.value;
      assert more[|log| - |now| - |b|..|log| - |now|] == log[|log| - |now| - |b|..|log| - |now|];
    }
  }

  lemma MarkStays(p: nat, ms: seq<Message>, n: nat, m: Message)
    requires Mark(p, ms, n) && Loggable(m)
    ensures Mark(p, ms + [m], n)
  {
    assert (ms + [m])[..n] == ms[..n];
  }

  lemma ShownGrows(shown: seq<nat>, log: seq<Message>, out: seq<Message>, next: int, m: Message)
    requires Shown(shown, log, out, next)
    ensures Shown(shown, log + [m], out, next)
  {
  }

  lemma PushLife(r: Ring, m: Message)
    requires Sound(r) && Loggable(m)
    ensures Push(r, m).life == r.life <==> !Wraps(r, m)
  {
    hide Record;
  }

  /** A push keeps track: the viewer's lap goes on, or becomes the lap before. */
  lemma PushTracked(w: World, t: Track, m: Message) returns (t': Track)
    requires Tracked(w, t) && Allowed(w, Pushed(m))
    ensures Tracked(Exec(w, Pushed(m)), t') && Next(Exec(w, Pushed(m)), t') == Next(w, t)
  {
    hide Loggable, Mark, Push, Sound, Stands, Laps, Shown, Wraps;
    PushLife(w.ring, m);
    LapsAppend(w.log, t.before, t.now, m);
    ShownGrows(t.shown, w.log, w.out, Next(w, t), m);
    if Wraps(w.ring, m) {
      PushStartsLap(w.ring, t.before, t.now, m);
      t' := Track(Some(t.now), [m], t.n, t.shown);
    } else {
      PushAppends(w.ring, t.before, t.now, m);
      if w.viewer.life == w.ring.life {
        MarkStays(w.viewer.p, t.now, t.n, m);
      }
      t' := Track(t.before, t.now + [m], t.n, t.shown);
    }
  }

  /** The message that is the next to show, if the viewer is not passed by the writer. */
  lemma NextMessage(w: World, t: Track)
    requires Tracked(w, t)
    ensures w.viewer.life == w.ring.life && t.n < |t.now| ==>
        0 <= Next(w, t) < |w.log| && w.log[Next(w, t)] == t.now[t.n]
    ensures w.viewer.life != w.ring.life && t.n < |t.before.value| ==>
              0 <= Next(w, t) < |w.log| && w.log[Next(w, t)] == t.before.value[t.n]
  {
    hide Stands, Shown, Records;
    var a := |w.log| - |t.now|;
    assert t.n < |t.now| ==> w.log[a..][t.n] == t.now[t.n];
    if t.before.Some? {
      var b := a - |t.before.value|;
      assert t.n < |t.before.value| ==> w.log[b..a][t.n] == t.before.value[t.n];
    }
  }

  lemma ShowOne(shown: seq<nat>, log: seq<Message>, out: seq<Message>, next: nat)
    requires Shown(shown, log, out, next) && next < |log|
    ensures Shown(shown + [next], log, out + [log[next]], next + 1)
  {
  }

  lemma ShownLater(shown: seq<nat>, log: seq<Message>, out: seq<Message>, next: int, later: int)
    requires Shown(shown, log, out, next) && next <= later
    ensures Shown(shown, log, out, later)
  {
  }

  lemma LookInLapTracked(w: World, t: Track) returns (t': Track)
    requires Tracked(w, t) && w.viewer.life == w.ring.life
    ensures Allowed(w, Looked) && Tracked(Exec(w, Looked), t')
    ensures var w' := Exec(w, Looked);
      && |w'.out| == |w.out| + (if t.n < |t.now| then 1 else 0)
      && Next(w', t') - Next(w, t) == |w'.out| - |w.out|
  {
    hide Look, Mark, Stands, Laps, Record, Records, Shown, Sound;
    NextMessage(w, t);
    LookInLap(w.ring, t.before, t.now, w.viewer, t.n);
    InLapBounds(w.ring, t.before, t.now, w.viewer.p, t.n);
    if t.n < |t.now| {
      ShowOne(t.shown, w.log, w.out, Next(w, t));
      t' := t.(n := t.n + 1, shown := t.shown + [Next(w, t)]);
    } else {
      t' := t;
    }
  }

  lemma LookBehindTracked(w: World, t: Track) returns (t': Track)
    requires Tracked(w, t) && w.viewer.life != w.ring.life
    ensures Allowed(w, Looked) && Tracked(Exec(w, Looked), t')
    ensures var w' := Exec(w, Looked);
      && |w'.out| - |w.out| <= Next(w', t') - Next(w, t)
      && (Next(w', t') - Next(w, t) > |w'.out| - |w.out| ==> w.ring.p > w.viewer.p)
  {
    hide Look, Mark, Stands, Laps, Sound, Shown, Exec, Next;
    BehindBounds(w.ring, t.before.value, t.now, w.viewer.p, t.n);
    LookBehind(w.ring, t.before.value, t.now, w.viewer, t.n);
    if w.ring.p <= w.viewer.p && t.n < |t.before.value| {
      NextMessage(w, t);
      t' := t.(n := t.n + 1, shown := t.shown + [Next(w, t)]);
      LineTracked(w, t, Look(w.ring, w.viewer).0.p);
    } else {
      t' := t.(n := 0);
      JumpTracked(w, t);
    }
  }

  /** The viewer has shown the next line of the lap before. */
  lemma LineTracked(w: World, t: Track, p: nat)
    requires Tracked(w, t) && w.viewer.life != w.ring.life && Mark(p, t.before.value, t.n + 1)
    requires w.viewer.p + 2 <= |w.ring.data| && 0 <= Next(w, t) < |w.log| && t.n < |t.before.value|
    requires Look(w.ring, w.viewer) == (Reader(w.viewer.life, p), Line(t.before.value[t.n]))
    requires w.log[Next(w, t)] == t.before.value[t.n]
    ensures var w', t' := Exec(w, Looked), t.(n := t.n + 1, shown := t.shown + [Next(w, t)]);
      Tracked(w', t') && Next(w', t') == Next(w, t) + 1 && |w'.out| == |w.out| + 1
  {
    hide Look, Mark, Stands, Laps, Shown;
    ShowOne(t.shown, w.log, w.out, Next(w, t));
  }

  /** The viewer has gone to the start of the writer's lap. */
  lemma JumpTracked(w: World, t: Track)
    requires Tracked(w, t) && w.viewer.life != w.ring.life && t.n <= |t.before.value| && Mark(0, t.now, 0)
    requires w.viewer.p + 2 <= |w.ring.data| && Look(w.ring, w.viewer) == (Reader(w.ring.life, 0), Jump)
    ensures var w', t' := Exec(w, Looked), t.(n := 0);
      Tracked(w', t') && Next(w', t') == Next(w, t) + |t.before.value| - t.n && w'.out == w.out
  {
    hide Look, Mark, Stands, Laps, Shown;
    ShownLater(t.shown, w.log, w.out, Next(w, t), |w.log| - |t.now|);
  }

  lemma InLapBounds(r: Ring, before: Option<seq<Message>>, now: seq<Message>, p: nat, n: nat)
    requires Stands(r, before, now) && Mark(p, now, n)
    ensures n <= |now| && Sound(r)
  {
    hide Sound;
  }

  lemma BehindBounds(r: Ring, before: seq<Message>, now: seq<Message>, p: nat, n: nat)
    requires Stands(r, Some(before), now) && Mark(p, before, n)
    ensures n <= |before| && Mark(0, now, 0) && Sound(r)
  {
    hide Sound;
  }

  /**
   A turn of the viewer keeps track. It shows the message that is next, or nothing; it leaves
   messages out only when the writer, a lap ahead, has passed its position.
   */
  lemma LookTracked(w: World, t: Track) returns (t': Track)
    requires Tracked(w, t)
    ensures Allowed(w, Looked) && Tracked(Exec(w, Looked), t')
    ensures var w' := Exec(w, Looked);
      && |w'.out| - |w.out| <= Next(w', t') - Next(w, t)
      && (Next(w', t') - Next(w, t) > |w'.out| - |w.out| ==> w.viewer.life != w.ring.life && w.ring.p > w.viewer.p)
      && (w.viewer.life == w.ring.life && t.n < |t.now| ==> |w'.out| == |w.out| + 1)
  {
    hide Tracked, Exec, Allowed, Next;
    if w.viewer.life == w.ring.life {
      t' := LookInLapTracked(w, t);
    } else {
      t' := LookBehindTracked(w, t);
    }
  }

  /** The writer, a lap ahead, is past the viewer's position. */
  predicate Passed(w: World) {
    w.viewer.life != w.ring.life && w.ring.p > w.viewer.p
  }

  /** No look of the run finds the writer past the viewer. */
  ghost predicate NeverPassed(w: World, run: seq<Event>)
    requires AllowedRun(w, run)
    decreases |run|
  {
    run == [] || ((run[0].Looked? ==> !Passed(w)) && NeverPassed(Exec(w, run[0]), run[1..]))
  }

  lemma {:induction false} RunTracked(w: World, t: Track, run: seq<Event>) returns (t': Track)
    requires Tracked(w, t) && AllowedRun(w, run)
    ensures Tracked(Final(w, run), t')
    ensures NeverPassed(w, run) ==> Next(Final(w, run), t') - |Final(w, run).out| == Next(w, t) - |w.out|
    decreases |run|
  {
    hide Tracked, Allowed, Next;
    if run == [] {
      t' := t;
    } else {
      match run[0]
      case Pushed(m) =>
        var t1 := PushTracked(w, t, m);
        t' := RunTracked(Exec(w, run[0]), t1, run[1..]);
      case Looked =>
        var t1 := LookTracked(w, t);
        LookKeepsUp(w, t, t1);
        t' := RunTracked(Exec(w, run[0]), t1, run[1..]);
    }
  }

  lemma LookKeepsUp(w: World, t: Track, t': Track)
    requires Allowed(w, Looked)
    requires var w' := Exec(w, Looked);
      && |w'.out| - |w.out| <= Next(w', t') - Next(w, t)
      && (Next(w', t') - Next(w, t) > |w'.out| - |w.out| ==> w.viewer.life != w.ring.life && w.ring.p > w.viewer.p)
    ensures var w' := Exec(w, Looked); !Passed(w) ==> Next(w', t') - |w'.out| == Next(w, t) - |w.out|
  {
    hide Next, Exec, Allowed;
  }

  /**
   In every run in which the writer stays at most a lap ahead, the lines shown are whole
   pushed messages, in the order of the pushes, and no message twice; what was pushed in this
   lap is in the ring up to the write position. If no look finds the writer past the viewer,
   nothing is left out: the lines are the messages from the first on, and all of them when
   the viewer has come to the write position.
   */
  lemma FollowsTheLog(w: World, run: seq<Event>) returns (shown: seq<nat>, lap: seq<Message>)
    requires Started(w) && AllowedRun(w, run)
    ensures var w' := Final(w, run);
      && |shown| == |w'.out|
      && (forall k :: 0 <= k < |shown| ==> shown[k] < |w'.log| && w'.out[k] == w'.log[shown[k]])
      && (forall j, k :: 0 <= j < k < |shown| ==> shown[j] < shown[k])
    ensures var w' := Final(w, run);
      && |lap| <= |w'.log| && w'.log[|w'.log| - |lap|..] == lap
      && w'.ring.p <= |w'.ring.data| && w'.ring.data[..w'.ring.p] == Records(lap)
    ensures var w' := Final(w, run);
      NeverPassed(w, run) ==>
        w'.out <= w'.log && (w'.viewer == Reader(w'.ring.life, w'.ring.p) ==> w'.out == w'.log)
  {
    hide Final, NeverPassed, Tracked, Next;
    var t0 := Track(None, [], 0, []);
    StartTracked(w);
    var t := RunTracked(w, t0, run);
    shown, lap := t.shown, t.now;
    TrackedMeans(Final(w, run), t);
    if NeverPassed(w, run) {
      ShownAll(Final(w, run), t);
    }
  }

  lemma TrackedMeans(w: World, t: Track)
    requires Tracked(w, t)
    ensures Shown(t.shown, w.log, w.out, Next(w, t)) && Laps(w.log, t.before, t.now)
    ensures w.ring.p <= |w.ring.data| && w.ring.data[..w.ring.p] == Records(t.now)
  {
    hide Records, Shown, Laps;
  }

  lemma StartTracked(w: World)
    requires Started(w)
    ensures Tracked(w, Track(None, [], 0, [])) && Next(w, Track(None, [], 0, [])) == 0 == |w.out|
  {
  }

  lemma ShownAll(w: World, t: Track)
    requires Tracked(w, t) && Next(w, t) == |w.out|
    ensures w.out <= w.log
    ensures w.viewer == Reader(w.ring.life, w.ring.p) ==> w.out == w.log
  {
    hide Records, Stands, Laps;
    EveryOne(t.shown, |w.out|);
    if w.viewer == Reader(w.ring.life, w.ring.p) {
      AtWritePosition(w.ring, t.before, t.now, t.n);
      assert |t.now| <= |w.log| by {
        LapFits(w.log, t.before, t.now);
      }
    }
  }

  lemma LapFits(log: seq<Message>, before: Option<seq<Message>>, now: seq<Message>)
    requires Laps(log, before, now)
    ensures |now| <= |log|
  {
  }

  /** Numbers below n that increase, n of them, are all of them. */
  lemma {:induction false} EveryOne(shown: seq<nat>, n: nat)
    requires |shown| == n && forall k :: 0 <= k < n ==> shown[k] < n
    requires forall j, k :: 0 <= j < k < n ==> shown[j] < shown[k]
    ensures forall k :: 0 <= k < n ==> shown[k] == k
    decreases n
  {
    if n == 0 {
    } else {
      var front := shown[..n - 1];
      forall k | 0 <= k < n - 1
        ensures front[k] < n - 1
      {
        assert shown[k] < shown[n - 1] < n;
      }
      EveryOne(front, n - 1);
      assert n > 1 ==> shown[n - 2] == front[n - 2] == n - 2 && shown[n - 2] < shown[n - 1];
      forall k | 0 <= k < n
        ensures shown[k] == k
      {
        assert k < n - 1 ==> shown[k] == front[k];
      }
    }
  }

  /** The write position is behind all records of the lap, and behind no fewer. */
  lemma AtWritePosition(r: Ring, before: Option<seq<Message>>, now: seq<Message>, n: nat)
    requires Stands(r, before, now) && Mark(r.p, now, n)
    ensures n == |now|
  {
    hide Records, Record;
    if n < |now| {
      RecordAt(now, n);
      OneRecord(now[n]);
    }
  }
}

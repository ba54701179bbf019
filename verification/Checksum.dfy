/**
 The Internet checksum (section 1 of RFC 1071): the portable version, which adds 16-bit words
 in a signed 32-bit accumulator and folds the carries back in at the end.
 */
module Checksum {
  import opened Base

  newtype int32 = x: int | -0x8000_0000 <= x < 0x8000_0000

  const ONES := 65535
  const MIN_HEADER := 20

  /** How the machine reads two bytes in memory as a word. */
  datatype Order = LittleEndian | BigEndian {
    function Word(first: byte, second: byte): nat {
      match this
      case LittleEndian => first as nat + 256 * second as nat
      case BigEndian => 256 * first as nat + second as nat
    }
  }

  /** The sum of the words of some bytes; a last odd byte stands in front of a zero. */
  function Sum(o: Order, s: seq<byte>): nat {
    if s == [] then 0
    else if |s| == 1 then o.Word(s[0], 0)
    else o.Word(s[0], s[1]) + Sum(o, s[2..])
  }

  /** The one's-complement sum that a plain sum stands for: its residue, where 65535 is kept. */
  function Folded(n: nat): nat {
    if n == 0 then 0 else 1 + (n - 1) % ONES
  }

  /** The checksum: the complement of the one's-complement sum of bytes and addend. */
  function Check(o: Order, s: seq<byte>, addon: nat): nat {
    ONES - Folded(Sum(o, s) + addon)
  }

  lemma {:induction false} SumBound(o: Order, s: seq<byte>)
    ensures Sum(o, s) <= (|s| + 1) / 2 * ONES
  {
    if |s| <= 1 {
    } else {
      SumBound(o, s[2..]);
    }
  }

  /** Taking a word more into the sum. */
  lemma {:induction false} SumNext(o: Order, s: seq<byte>, i: nat)
    requires i % 2 == 0 && i <= |s|
    ensures i + 1 < |s| ==> Sum(o, s[..i + 2]) == Sum(o, s[..i]) + o.Word(s[i], s[i + 1])
    ensures i + 1 == |s| ==> Sum(o, s) == Sum(o, s[..i]) + o.Word(s[i], 0)
  {
    if i + 1 < |s| {
      SumSplit(o, s[..i], [s[i], s[i + 1]]);
      assert s[..i + 2] == s[..i] + [s[i], s[i + 1]];
      assert [s[i], s[i + 1]][2..] == [];
    } else if i + 1 == |s| {
      SumSplit(o, s[..i], [s[i]]);
      assert s == s[..i] + [s[i]];
    }
  }

  /** Sums of parts add up when the first has an even length. */
  lemma {:induction false} SumSplit(o: Order, a: seq<byte>, b: seq<byte>)
    requires |a| % 2 == 0
    ensures Sum(o, a + b) == Sum(o, a) + Sum(o, b)
  {
    if a == [] {
      assert a + b == b;
    } else {
      SumSplit(o, a[2..], b);
      assert (a + b)[2..] == a[2..] + b;
    }
  }

  /** Shifting right by 16 and masking 16 bits. */
  function High(n: int32): int32
    requires n >= 0
  {
    n / 65536
  }

  function Low(n: int32): int32
    requires n >= 0
  {
    n % 65536
  }

  /** Two folds are enough for any sum that the accumulator can hold. */
  method Fold(sum: int32) returns (answer: nat)
    requires sum >= 0
    ensures answer == ONES - Folded(sum as nat)
  {
    var s := High(sum) + Low(sum);
    FoldOnce(sum as nat);
    s := s + High(s);
    answer := (ONES - s as int) % 65536;
  }

  lemma FoldOnce(n: nat)
    requires n < 0x8000_0000
    ensures var s := n / 65536 + n % 65536;
      && s < 131071
      && Folded(n) == if s < 65536 then s else s - ONES
  {
    var q, r := n / 65536, n % 65536;
    assert n == q * ONES + (q + r);
    if n > 0 {
      ModAdd(q, q + r - 1);
      assert (n - 1) % ONES == (q + r - 1) % ONES;
    }
  }

  lemma ModAdd(q: nat, m: nat)
    ensures (q * ONES + m) % ONES == m % ONES
  {
  }

  /**
   The loop of ip_check_ext. For the data of an IP datagram and the sum of a pseudo-header as
   the addend the signed accumulator cannot overflow, and the result is the checksum.
   */
  method IpCheckExt(o: Order, s: seq<byte>, addon: int32) returns (answer: nat)
    requires |s| <= MAX_DATAGRAM - MIN_HEADER && 0 <= addon <= 6 * 65535
    ensures answer == Check(o, s, addon as nat)
  {
    var sum := addon;
    var nleft, w := |s|, 0;
    while nleft > 1
      invariant 0 <= w <= |s| && nleft == |s| - w && w % 2 == 0
      invariant sum as int == addon as int + Sum(o, s[..w])
    {
      SumNext(o, s, w);
      SumBound(o, s[..w + 2]);
      sum := sum + o.Word(s[w], s[w + 1]) as int32;
      nleft := nleft - 2;
      w := w + 2;
    }
    SumBound(o, s);
    if nleft == 1 {
      SumNext(o, s, w);
      sum := sum + o.Word(s[w], 0) as int32;
    } else {
      assert s[..w] == s;
    }
    answer := Fold(sum);
  }

  // What the checksum is for

  /** A check of 0 means that the words add up to a multiple of 65535, and not to nothing. */
  lemma PassesIff(o: Order, s: seq<byte>, addon: nat)
    ensures Check(o, s, addon) == 0 <==> Sum(o, s) + addon > 0 && (Sum(o, s) + addon) % ONES == 0
  {
    FoldedIsFull(Sum(o, s) + addon);
  }

  lemma FoldedIsFull(n: nat)
    ensures Folded(n) <= ONES && Folded(n) % ONES == n % ONES
    ensures Folded(n) == ONES <==> n > 0 && n % ONES == 0
    ensures Folded(n) == 0 <==> n == 0
  {
    if n > 0 {
      var m := n - 1;
      assert m == m / ONES * ONES + m % ONES;
      ModAdd(m / ONES, m % ONES + 1);
    }
  }

  /** The checksum of a packet can be taken in parts, the sum of an even first part as addend. */
  lemma CheckSplit(o: Order, a: seq<byte>, b: seq<byte>, addon: nat)
    requires |a| % 2 == 0
    ensures Check(o, a + b, addon) == Check(o, b, addon + Sum(o, a))
  {
    SumSplit(o, a, b);
  }

  /** The two bytes that a word is stored as. */
  function Stored(o: Order, w: nat): (byte, byte)
    requires w < 65536
  {
    match o
    case LittleEndian => ((w % 256) as byte, (w / 256) as byte)
    case BigEndian => ((w / 256) as byte, (w % 256) as byte)
  }

  function Put(o: Order, s: seq<byte>, k: nat, w: nat): seq<byte>
    requires k + 1 < |s| && w < 65536
  {
    s[k := Stored(o, w).0][k + 1 := Stored(o, w).1]
  }

  /** Writing a word over a zero word at an even position adds it to the sum. */
  lemma PutAdds(o: Order, s: seq<byte>, k: nat, w: nat)
    requires k % 2 == 0 && k + 1 < |s| && w < 65536 && s[k] == 0 && s[k + 1] == 0
    ensures Sum(o, Put(o, s, k, w)) == Sum(o, s) + w
  {
    var t := Put(o, s, k, w);
    var front, rest := s[..k], s[k + 2..];
    assert s == front + ([s[k], s[k + 1]] + rest) && t == front + ([t[k], t[k + 1]] + rest);
    SumSplit(o, front, [s[k], s[k + 1]] + rest);
    SumSplit(o, front, [t[k], t[k + 1]] + rest);
    assert ([s[k], s[k + 1]] + rest)[2..] == rest && ([t[k], t[k + 1]] + rest)[2..] == rest;
    assert o.Word(t[k], t[k + 1]) == w;
  }

  /** The sender's promise: storing the checksum in the zeroed word makes the packet check out. */
  lemma StoredCheckPasses(o: Order, s: seq<byte>, k: nat, addon: nat)
    requires k % 2 == 0 && k + 1 < |s| && s[k] == 0 && s[k + 1] == 0
    ensures Check(o, s, addon) < 65536
    ensures Check(o, Put(o, s, k, Check(o, s, addon)), addon) == 0
  {
    hide Sum, Folded, Put;
    var n := Sum(o, s) + addon;
    ComplementFills(n);
    PutAdds(o, s, k, ONES - Folded(n));
    hide Check;
    PassesIff(o, Put(o, s, k, ONES - Folded(n)), addon);
  }

  lemma ComplementFills(n: nat)
    ensures Folded(n) <= ONES
    ensures n + (ONES - Folded(n)) > 0 && (n + (ONES - Folded(n))) % ONES == 0
  {
    FoldedIsFull(n);
    if n > 0 {
      assert n - Folded(n) == (n - 1) / ONES * ONES;
      ModAdd((n - 1) / ONES + 1, 0);
    }
  }

  /** Reading words in the other byte order multiplies the sum by 256, modulo 65535. */
  lemma {:induction false} OtherOrder(s: seq<byte>)
    ensures (256 * Sum(BigEndian, s) - Sum(LittleEndian, s)) % ONES == 0
    ensures Sum(BigEndian, s) == 0 <==> Sum(LittleEndian, s) == 0
  {
    if |s| == 1 {
    } else if |s| > 1 {
      OtherOrder(s[2..]);
      var a, b := s[0] as nat, s[1] as nat;
      assert 256 * (256 * a + b) - (a + 256 * b) == ONES * a;
      var d := 256 * Sum(BigEndian, s[2..]) - Sum(LittleEndian, s[2..]);
      assert 256 * Sum(BigEndian, s) - Sum(LittleEndian, s) == ONES * a + d;
    }
  }

  /** Whether a packet checks out does not depend on the byte order of the machine. */
  lemma PassesInAnyOrder(s: seq<byte>)
    ensures Check(BigEndian, s, 0) == 0 <==> Check(LittleEndian, s, 0) == 0
  {
    OtherOrder(s);
    PassesIff(BigEndian, s, 0);
    PassesIff(LittleEndian, s, 0);
    SameMultiples(Sum(BigEndian, s), Sum(LittleEndian, s));
    hide Sum, Check;
  }

  lemma SameMultiples(b: nat, l: nat)
    requires (256 * b - l) % ONES == 0
    ensures b % ONES == 0 <==> l % ONES == 0
  {
    var q := (256 * b - l) / ONES;
    assert 256 * b == l + q * ONES;
    if b % ONES == 0 {
      MultipleOf(l, 256 * (b / ONES) - q);
    }
    if l % ONES == 0 {
      MultipleOf(b, 256 * (l / ONES + q) - b);
    }
  }

  lemma MultipleOf(n: int, k: int)
    requires n == ONES * k
    ensures n % ONES == 0
  {
  }

  // TCP and UDP

  /** The pseudo-header: the addresses, the protocol, and the length, high byte first. */
  function PseudoHeader(saddr: seq<byte>, daddr: seq<byte>, protocol: byte, len: nat): seq<byte>
    requires |saddr| == |daddr| == 4 && len < 65536
  {
    saddr + daddr + [0, protocol, (len / 256) as byte, (len % 256) as byte]
  }

  lemma SumNothing(o: Order, s: seq<byte>)
    ensures Sum(o, s[..0]) == 0
  {
  }

  /** my_tcp_check and my_udp_check: checks that the user has switched off always pass. */
  method TransportCheck(o: Order, s: seq<byte>, saddr: seq<byte>, daddr: seq<byte>, protocol: byte, dontCheck: bool)
    returns (answer: nat)
    requires |s| <= MAX_DATAGRAM - MIN_HEADER && |saddr| == |daddr| == 4
    ensures answer == if dontCheck then 0 else Check(o, PseudoHeader(saddr, daddr, protocol, |s|) + s, 0)
  {
    if dontCheck {
      return 0;
    }
    var hdr := PseudoHeader(saddr, daddr, protocol, |s|);
    assert |hdr| == 12;
    hide Check, PseudoHeader, Sum;
    var sum: int32 := 0;
    SumNothing(o, hdr);
    var i := 0;
    while i < |hdr|
      invariant 0 <= i <= 12 && i % 2 == 0 && |hdr| == 12
      invariant sum as int == Sum(o, hdr[..i])
    {
      SumNext(o, hdr, i);
      SumBound(o, hdr[..i + 2]);
      sum := sum + o.Word(hdr[i], hdr[i + 1]) as int32;
      i := i + 2;
    }
    assert hdr[..i] == hdr;
    SumBound(o, hdr);
    CheckSplit(o, hdr, s, 0);
    answer := IpCheckExt(o, s, sum);
  }
}

/**
 The table of TCP streams: a fixed pool of streams, each either free or alive; the live ones
 are in a hash chain by their tuple and in a list by age. Streams are numbers, and each of
 their link fields is a sequence indexed by them.
 */
module StreamTable {
  import opened DoublyLinked

  datatype Tuple4 = Tuple4(source: nat, dest: nat, saddr: nat, daddr: nat) {
    function Reverse(): Tuple4 {
      Tuple4(dest, source, daddr, saddr)
    }
  }

  // Hash chains

  ghost predicate ChainsLinked(next: seq<int>, prev: seq<int>, table: seq<int>, chains: seq<seq<nat>>) {
    && |table| == |chains| && |next| == |prev|
    && forall h :: 0 <= h < |chains| ==> Linked(next, prev, chains[h]) && table[h] == Head(chains[h])
  }

  /** Every stream in a chain is there because of its tuple. */
  ghost predicate KeyedIn(chain: seq<nat>, h: nat, hashIndex: seq<nat>, addr: seq<Tuple4>,
                          mkhash: Tuple4 -> nat, size: nat)
  {
    && |hashIndex| == |addr| && size > 0
    && forall x :: x in chain ==> x < |addr| && hashIndex[x] == h && mkhash(addr[x]) % size == h
  }

  ghost predicate Keyed(chains: seq<seq<nat>>, hashIndex: seq<nat>, addr: seq<Tuple4>, mkhash: Tuple4 -> nat) {
    forall h :: 0 <= h < |chains| ==> KeyedIn(chains[h], h, hashIndex, addr, mkhash, |chains|)
  }

  /** Taking a stream out of its chain. */
  lemma UnlinkChain(next: seq<int>, prev: seq<int>, table: seq<int>, chains: seq<seq<nat>>,
                    hashIndex: seq<nat>, addr: seq<Tuple4>, mkhash: Tuple4 -> nat, h: nat, i: nat)
    requires ChainsLinked(next, prev, table, chains) && Keyed(chains, hashIndex, addr, mkhash)
    requires h < |chains| && i < |chains[h]|
    ensures Sound(next, prev, chains[h][i])
    ensures var x := chains[h][i];
      var table' := if prev[x] == NIL then table[h := next[x]] else table;
      ChainsLinked(SkipNext(next, prev, x), SkipPrev(next, prev, x), table', chains[h := Remove(chains[h], i)])
  {
    var x := chains[h][i];
    LinkedSound(next, prev, chains[h], i);
    UnlinkKeeps(next, prev, chains[h], i);
    hide Linked, Remove;
    forall g | 0 <= g < |chains| && g != h
      ensures Linked(SkipNext(next, prev, x), SkipPrev(next, prev, x), chains[g])
    {
      assert next[x] != NIL ==> next[x] == chains[h][i + 1] && chains[h][i + 1] in chains[h] && hashIndex[next[x]] == h;
      assert prev[x] != NIL ==> prev[x] == chains[h][i - 1] && chains[h][i - 1] in chains[h] && hashIndex[prev[x]] == h;
      assert KeyedIn(chains[g], g, hashIndex, addr, mkhash, |chains|);
      assert KeyedIn(chains[h], h, hashIndex, addr, mkhash, |chains|);
      OthersKeep(next, prev, SkipNext(next, prev, x), SkipPrev(next, prev, x), chains[g]);
    }
  }

  /** Putting a stream in front of a chain. */
  lemma PushChain(next: seq<int>, prev: seq<int>, table: seq<int>, chains: seq<seq<nat>>,
                  hashIndex: seq<nat>, addr: seq<Tuple4>, mkhash: Tuple4 -> nat, h: nat, x: nat)
    requires ChainsLinked(next, prev, table, chains) && Keyed(chains, hashIndex, addr, mkhash)
    requires h < |chains| && x < |next| && forall g :: 0 <= g < |chains| ==> x !in chains[g]
    ensures Head(chains[h]) == NIL || Node(prev, Head(chains[h]))
    ensures ChainsLinked(PushNext(next, chains[h], x), PushPrev(prev, chains[h], x), table[h := x],
                         chains[h := [x] + chains[h]])
  {
    PushKeeps(next, prev, chains[h], x);
    hide Linked;
    forall g | 0 <= g < |chains| && g != h
      ensures Linked(PushNext(next, chains[h], x), PushPrev(prev, chains[h], x), chains[g])
    {
      assert Head(chains[h]) != NIL ==> chains[h][0] in chains[h] && hashIndex[chains[h][0]] == h;
      assert KeyedIn(chains[g], g, hashIndex, addr, mkhash, |chains|);
      assert KeyedIn(chains[h], h, hashIndex, addr, mkhash, |chains|);
      OthersKeep(next, prev, PushNext(next, chains[h], x), PushPrev(prev, chains[h], x), chains[g]);
    }
  }

  // The free list

  /** The free list is singly linked. */
  ghost predicate FreeLinked(nextFree: seq<int>, free: seq<nat>, head: int) {
    && Apart(free) && head == Head(free)
    && forall i :: 0 <= i < |free| ==> FreeAt(nextFree, free, i)
  }

  ghost predicate FreeAt(nextFree: seq<int>, free: seq<nat>, i: nat)
    requires i < |free|
  {
    free[i] < |nextFree| && nextFree[free[i]] == At(free, i + 1)
  }

  lemma FirstFree(nextFree: seq<int>, free: seq<nat>, head: int, field: int)
    requires FreeLinked(nextFree, free, head) && free != []
    ensures head == free[0] && Node(nextFree, head) && free[0] !in free[1..]
    ensures FreeLinked(nextFree[head := field], free[1..], nextFree[head])
  {
    assert FreeAt(nextFree, free, 0);
    var r, next := free[1..], nextFree[head := field];
    forall i | 0 <= i < |r|
      ensures FreeAt(next, r, i)
    {
      assert FreeAt(nextFree, free, i + 1) && r[i] == free[i + 1];
    }
  }

  lemma GiveFree(nextFree: seq<int>, free: seq<nat>, head: int, x: nat)
    requires FreeLinked(nextFree, free, head) && x !in free && x < |nextFree|
    ensures FreeLinked(nextFree[x := head], [x] + free, x)
  {
    var r, next := [x] + free, nextFree[x := head];
    forall i | 0 <= i < |r|
      ensures FreeAt(next, r, i)
    {
      if i > 0 {
        assert FreeAt(nextFree, free, i - 1) && r[i] == free[i - 1];
      }
    }
  }

  // The pool

  /** Every stream of the pool is either alive, and then in its chain, or free. */
  ghost predicate Partition(count: nat, chains: seq<seq<nat>>, hashIndex: seq<nat>, age: seq<nat>, free: seq<nat>) {
    && |hashIndex| == count && |age| + |free| == count
    && (forall x: nat :: x < count ==> (x in age <==> x !in free))
    && (forall x: nat :: x in age || x in free ==> x < count)
    && (forall x: nat :: x in age ==> hashIndex[x] < |chains| && x in chains[hashIndex[x]])
    && (forall h, x :: 0 <= h < |chains| && x in chains[h] ==> x in age)
  }

  ghost predicate Within(list: seq<nat>, count: nat) {
    forall i :: 0 <= i < |list| ==> list[i] < count
  }

  /** No two live streams have the same tuple or the reverse of each other's. */
  ghost predicate Unique(age: seq<nat>, addr: seq<Tuple4>) {
    && Within(age, |addr|)
    && forall x: nat, y: nat :: x in age && y in age && x != y ==> addr[x] != addr[y] && addr[x] != addr[y].Reverse()
  }

  /** The tuples of the live streams, newest first. */
  ghost function Tuples(age: seq<nat>, addr: seq<Tuple4>): seq<Tuple4>
    requires Within(age, |addr|)
  {
    seq(|age|, i requires 0 <= i < |age| && Within(age, |addr|) => addr[age[i]])
  }

  /** The finite map from tuples to streams that the table stands for. */
  ghost function Directory(age: seq<nat>, addr: seq<Tuple4>): map<Tuple4, nat>
    requires Within(age, |addr|)
  {
    if age == [] then map[]
    else
      Directory(age[1..], addr)[addr[age[0]] := age[0]]
  }

  lemma {:induction false} DirectoryHolds(age: seq<nat>, addr: seq<Tuple4>, t: Tuple4)
    requires Unique(age, addr)
    ensures t in Directory(age, addr) <==> exists i :: 0 <= i < |age| && addr[age[i]] == t
    ensures t in Directory(age, addr) ==> Directory(age, addr)[t] in age && addr[Directory(age, addr)[t]] == t
  {
    if age == [] {
    } else {
      assert age[0] in age && forall x :: x in age[1..] ==> x in age;
      DirectoryHolds(age[1..], addr, t);
      assert forall i :: 1 <= i < |age| ==> age[i] == age[1..][i - 1];
    }
  }

  /** Streams that stay as they are stay in the directory. */
  lemma {:induction false} DirectorySame(age: seq<nat>, a: seq<Tuple4>, b: seq<Tuple4>)
    requires Within(age, |a|) && Within(age, |b|) && forall i :: 0 <= i < |age| ==> a[age[i]] == b[age[i]]
    ensures Directory(age, a) == Directory(age, b)
  {
    if age == [] {
    } else {
      DirectorySame(age[1..], a, b);
    }
  }

  /** Two lists of streams that differ in one stream have directories that differ in its tuple. */
  lemma DirectoryLess(age: seq<nat>, less: seq<nat>, addr: seq<Tuple4>, x: nat)
    requires Unique(age, addr) && Unique(less, addr) && x in age && x < |addr|
    requires forall y :: y in less <==> y in age && y != x
    ensures Directory(less, addr) == Directory(age, addr) - {addr[x]}
  {
    hide Directory;
    forall t
      ensures t in Directory(less, addr) <==> t in Directory(age, addr) && t != addr[x]
      ensures t in Directory(less, addr) ==> Directory(less, addr)[t] == Directory(age, addr)[t]
    {
      DirectoryIs(less, addr, t);
      DirectoryIs(age, addr, t);
    }
  }

  /** The directory as a relation. */
  lemma DirectoryIs(age: seq<nat>, addr: seq<Tuple4>, t: Tuple4)
    requires Unique(age, addr)
    ensures t in Directory(age, addr) <==> exists x :: x in age && x < |addr| && addr[x] == t
    ensures t in Directory(age, addr) ==>
              Directory(age, addr)[t] in age && Directory(age, addr)[t] < |addr| && addr[Directory(age, addr)[t]] == t
  {
    DirectoryHolds(age, addr, t);
    hide Directory;
    if x :| x in age && x < |addr| && addr[x] == t {
      var i :| 0 <= i < |age| && age[i] == x;
      assert addr[age[i]] == t;
    }
  }

  /** Taking a stream off the age list takes its tuple out of the directory. */
  lemma DirectoryRemove(age: seq<nat>, addr: seq<Tuple4>, i: nat)
    requires Unique(age, addr) && Apart(age) && i < |age|
    ensures Unique(Remove(age, i), addr)
    ensures Directory(Remove(age, i), addr) == Directory(age, addr) - {addr[age[i]]}
  {
    RemoveMembers(age, i);
    assert Within(Remove(age, i), |addr|);
    hide Remove, Apart, Directory;
    assert age[i] in age;
    DirectoryLess(age, Remove(age, i), addr, age[i]);
  }

  lemma RemoveMembers(list: seq<nat>, i: nat)
    requires Apart(list) && i < |list|
    ensures forall x :: x in Remove(list, i) <==> x in list && x != list[i]
  {
    var r := Remove(list, i);
    forall x | x in list && x != list[i]
      ensures x in r
    {
      var j :| 0 <= j < |list| && list[j] == x;
      assert r[if j < i then j else j - 1] == x;
    }
  }

  ghost predicate Pool(count: nat, chains: seq<seq<nat>>, hashIndex: seq<nat>, addr: seq<Tuple4>,
                       mkhash: Tuple4 -> nat, age: seq<nat>, free: seq<nat>)
  {
    && |addr| == count && |chains| > 0 && Keyed(chains, hashIndex, addr, mkhash)
    && Partition(count, chains, hashIndex, age, free) && Unique(age, addr)
  }

  class Streams {
    const mkhash: Tuple4 -> nat
    const maxStream: nat

    var table: seq<int>
    var addr: seq<Tuple4>
    var hashIndex: seq<nat>
    var nextNode: seq<int>
    var prevNode: seq<int>
    var nextTime: seq<int>
    var prevTime: seq<int>
    var nextFree: seq<int>
    var latest: int
    var oldest: int
    var freeStreams: int
    var tcpNum: int

    ghost var chains: seq<seq<nat>>
    ghost var age: seq<nat>
    ghost var free: seq<nat>

    ghost predicate Valid()
      reads this
    {
      && |addr| == |hashIndex| == |nextNode| == |prevNode| == |nextTime| == |prevTime| == |nextFree| == maxStream + 1
      && ChainsLinked(nextNode, prevNode, table, chains)
      && Linked(nextTime, prevTime, age) && latest == Head(age) && oldest == Last(age)
      && FreeLinked(nextFree, free, freeStreams)
      && Pool(maxStream + 1, chains, hashIndex, addr, mkhash, age, free) && tcpNum == |age|
    }

    ghost function Live(): map<Tuple4, nat>
      requires Valid()
      reads this
    {
      Directory(age, addr)
    }

    ghost function Order(): seq<Tuple4>
      requires Valid()
      reads this
    {
      Tuples(age, addr)
    }

    function Bucket(a: Tuple4): nat
      requires |table| > 0
      reads this`table
    {
      mkhash(a) % |table|
    }

    constructor (size: nat, mkhash: Tuple4 -> nat)
      requires size > 0
      ensures Valid() && Live() == map[] && Order() == [] && maxStream == 3 * size / 4 && |table| == size
      ensures this.mkhash == mkhash
    {
      this.mkhash := mkhash;
      var max := 3 * size / 4;
      maxStream := max;
      table := seq(size, _ => NIL);
      addr, hashIndex := seq(max + 1, _ => Tuple4(0, 0, 0, 0)), seq(max + 1, _ => 0);
      nextNode, prevNode := seq(max + 1, _ => NIL), seq(max + 1, _ => NIL);
      nextTime, prevTime := seq(max + 1, _ => NIL), seq(max + 1, _ => NIL);
      nextFree := seq(max + 1, _ => NIL);
      latest, oldest, freeStreams, tcpNum := NIL, NIL, 0, 0;
      chains, age, free := seq(size, _ => []), [], seq(max + 1, i => i);
      new;
      var i := 0;
      while i < maxStream
        invariant 0 <= i <= maxStream && |nextFree| == maxStream + 1
        invariant forall j :: 0 <= j < i ==> nextFree[j] == j + 1
        invariant nextFree[maxStream] == NIL
        modifies `nextFree
      {
        nextFree := nextFree[i := i + 1];
        i := i + 1;
      }
      EmptyPool(maxStream + 1, chains, hashIndex, addr, mkhash, free);
      assert forall j :: 0 <= j < |free| ==> FreeAt(nextFree, free, j);
    }

    /** Walking the chain of a tuple finds its stream, if it is alive. */
    method FindTcpStream(a: Tuple4) returns (x: int)
      requires Valid()
      ensures x == if a in Live() then Live()[a] else NIL
      ensures x != NIL ==> 0 <= x && x in age && addr[x] == a
    {
      ghost var h := Bucket(a);
      ghost var chain := chains[h];
      ChainHolds(chains, hashIndex, addr, mkhash, age, free, a);
      assert Linked(nextNode, prevNode, chain) && table[h] == Head(chain);
      assert h == mkhash(a) % |chains| && Within(chain, |addr|);
      hide Bucket, Valid, Partition, FreeLinked, Unique, Directory, Apart, Keyed, KeyedIn, ChainsLinked;
      x := Walk(table[Bucket(a)], a, chain);
    }

    method Walk(head: int, a: Tuple4, ghost chain: seq<nat>) returns (x: int)
      requires Linked(nextNode, prevNode, chain) && head == Head(chain) && Within(chain, |addr|)
      ensures x == NIL ==> forall i :: 0 <= i < |chain| ==> addr[chain[i]] != a
      ensures x != NIL ==> exists i :: 0 <= i < |chain| && chain[i] == x && addr[chain[i]] == a
    {
      ghost var i := 0;
      x := head;
      while x != NIL && addr[x] != a
        invariant 0 <= i <= |chain| && x == At(chain, i)
        invariant forall j :: 0 <= j < i ==> addr[chain[j]] != a
        invariant x != NIL ==> i < |chain| && x < |addr|
        decreases |chain| - i
      {
        assert LinkedAt(nextNode, prevNode, chain, i);
        x := nextNode[x];
        i := i + 1;
        assert i < |chain| ==> LinkedAt(nextNode, prevNode, chain, i);
      }
    }

    /** A packet belongs to a live stream in one of two directions. */
    method FindStream(a: Tuple4) returns (x: int, fromClient: bool)
      requires Valid()
      ensures x == if a in Live() then Live()[a] else if a.Reverse() in Live() then Live()[a.Reverse()] else NIL
      ensures x != NIL ==> 0 <= x && x in age && addr[x] == if fromClient then a else a.Reverse()
    {
      hide Valid, Directory;
      x := FindTcpStream(a);
      fromClient := true;
      if x == NIL {
        x := FindTcpStream(a.Reverse());
        fromClient := false;
      }
    }

    /** Taking a stream out of its hash chain. */
    method UnlinkNode(x: nat, ghost i: nat)
      requires ChainsLinked(nextNode, prevNode, table, chains) && Keyed(chains, hashIndex, addr, mkhash)
      requires x < |hashIndex| && hashIndex[x] < |chains| && i < |chains[hashIndex[x]]| && chains[hashIndex[x]][i] == x
      modifies `nextNode, `prevNode, `table, `chains
      ensures ChainsLinked(nextNode, prevNode, table, chains)
      ensures |nextNode| == old(|nextNode|) && |prevNode| == old(|prevNode|) && |table| == old(|table|)
      ensures chains == old(chains)[hashIndex[x] := Remove(old(chains)[hashIndex[x]], i)]
    {
      var h := hashIndex[x];
      UnlinkChain(nextNode, prevNode, table, chains, hashIndex, addr, mkhash, h, i);
      NotItsOwnNeighbour(nextNode, prevNode, chains[h], i);
      hide ChainsLinked, Keyed, Remove;
      if nextNode[x] != NIL {
        prevNode := prevNode[nextNode[x] := prevNode[x]];
      }
      if prevNode[x] != NIL {
        nextNode := nextNode[prevNode[x] := nextNode[x]];
      } else {
        table := table[h := nextNode[x]];
      }
      chains := chains[h := Remove(chains[h], i)];
    }

    /** Taking a stream out of the list by age. */
    method UnlinkTime(x: nat, ghost k: nat)
      requires Linked(nextTime, prevTime, age) && latest == Head(age) && oldest == Last(age)
      requires k < |age| && age[k] == x
      modifies `nextTime, `prevTime, `latest, `oldest, `age
      ensures Linked(nextTime, prevTime, age) && latest == Head(age) && oldest == Last(age)
      ensures age == Remove(old(age), k) && |nextTime| == old(|nextTime|) && |prevTime| == old(|prevTime|)
    {
      LinkedSound(nextTime, prevTime, age, k);
      UnlinkKeeps(nextTime, prevTime, age, k);
      NotItsOwnNeighbour(nextTime, prevTime, age, k);
      hide Linked, Remove;
      if nextTime[x] != NIL {
        prevTime := prevTime[nextTime[x] := prevTime[x]];
      }
      if prevTime[x] != NIL {
        nextTime := nextTime[prevTime[x] := nextTime[x]];
      }
      if x == oldest {
        oldest := prevTime[x];
      }
      if x == latest {
        latest := nextTime[x];
      }
      age := Remove(age, k);
    }

    /** A stream is freed: it leaves its chain and the age list and becomes the first free one. */
    method FreeTcpStream(x: nat)
      requires Valid() && x in age
      modifies this
      ensures Valid() && addr == old(addr) && |table| == old(|table|)
      ensures x < |addr|
      ensures Live() == old(Live()) - {old(addr[x])}
      ensures age == Remove(old(age), Position(old(age), x)) && free == [x] + old(free)
    {
      hide ChainsLinked, Keyed, Linked, FreeLinked, Directory, Remove, Pool, Position, Within;
      ghost var k := Position(age, x);
      FreedPool(maxStream + 1, chains, hashIndex, addr, mkhash, age, free, x, nextNode, prevNode, table, nextTime,
        prevTime);
      ghost var i := Position(chains[hashIndex[x]], x);
      UnlinkNode(x, i);
      UnlinkTime(x, k);
      GiveBack(x);
    }

    /** The freed stream becomes the first free one. */
    method GiveBack(x: nat)
      requires x < |nextFree| && x !in free && FreeLinked(nextFree, free, freeStreams)
      modifies `nextFree, `freeStreams, `free, `tcpNum
      ensures FreeLinked(nextFree, free, freeStreams) && |nextFree| == old(|nextFree|)
      ensures free == [x] + old(free) && tcpNum == old(tcpNum) - 1
    {
      GiveFree(nextFree, free, freeStreams, x);
      nextFree := nextFree[x := freeStreams];
      freeStreams := x;
      free := [x] + free;
      tcpNum := tcpNum - 1;
    }

    /** The first free stream; there is one when the caller has made room. */
    method TakeFree() returns (x: nat)
      requires FreeLinked(nextFree, free, freeStreams) && free != []
      modifies `nextFree, `freeStreams, `free, `tcpNum
      ensures x == old(free)[0] && free == old(free)[1..] && tcpNum == old(tcpNum) + 1
      ensures FreeLinked(nextFree, free, freeStreams) && |nextFree| == old(|nextFree|)
    {
      FirstFree(nextFree, free, freeStreams, NIL);
      x := freeStreams;
      freeStreams := nextFree[x];
      nextFree := nextFree[x := NIL];
      tcpNum := tcpNum + 1;
      free := free[1..];
    }

    /** A new stream goes to the front of its chain. */
    method PushNode(x: nat, h: nat)
      requires ChainsLinked(nextNode, prevNode, table, chains) && Keyed(chains, hashIndex, addr, mkhash)
      requires h < |chains| && x < |nextNode| && forall g :: 0 <= g < |chains| ==> x !in chains[g]
      modifies `nextNode, `prevNode, `table, `chains
      ensures ChainsLinked(nextNode, prevNode, table, chains)
      ensures chains == old(chains)[h := [x] + old(chains)[h]]
      ensures |nextNode| == old(|nextNode|) && |prevNode| == old(|prevNode|) && |table| == old(|table|)
    {
      PushChain(nextNode, prevNode, table, chains, hashIndex, addr, mkhash, h, x);
      assert table[h] == Head(chains[h]) && |prevNode| == |nextNode|;
      hide ChainsLinked, Keyed;
      var tolink := table[h];
      nextNode := nextNode[x := tolink];
      prevNode := prevNode[x := NIL];
      if tolink != NIL {
        prevNode := prevNode[tolink := x];
      }
      table := table[h := x];
      chains := chains[h := [x] + chains[h]];
    }

    /** A new stream goes to the front of the list by age. */
    method PushTime(x: nat)
      requires Linked(nextTime, prevTime, age) && latest == Head(age) && oldest == Last(age)
      requires x !in age && x < |nextTime|
      modifies `nextTime, `prevTime, `latest, `oldest, `age
      ensures Linked(nextTime, prevTime, age) && latest == Head(age) && oldest == Last(age)
      ensures age == [x] + old(age) && |nextTime| == old(|nextTime|) && |prevTime| == old(|prevTime|)
    {
      PushKeeps(nextTime, prevTime, age, x);
      assert |nextTime| == |prevTime|;
      hide Linked;
      nextTime := nextTime[x := latest];
      prevTime := prevTime[x := NIL];
      if oldest == NIL {
        oldest := x;
      }
      if latest != NIL {
        prevTime := prevTime[latest := x];
      }
      latest := x;
      age := [x] + age;
    }

    /** When the whole pool is alive the oldest stream is freed, and so one is free. */
    method MakeRoom()
      requires Valid()
      modifies this
      ensures Valid() && free != []
      ensures Live() == AfterEviction(old(Live()), old(Order()), maxStream)
      ensures Order() == Newest(old(Order()), maxStream)
    {
      hide ChainsLinked, Keyed, Linked, FreeLinked, Directory, Remove, Pool, Position, Within, Tuples;
      PoolCount(maxStream + 1, chains, hashIndex, addr, mkhash, age, free, nextTime, prevTime);
      if tcpNum > maxStream {
        FreeTcpStream(oldest);
      }
    }

    /** The first free stream gets the tuple and is linked in. */
    method LinkNew(a: Tuple4) returns (x: nat)
      requires Valid() && free != [] && a !in Live() && a.Reverse() !in Live()
      modifies this
      ensures Valid() && age == [x] + old(age) && x < |addr| && addr[x] == a
      ensures Live() == old(Live())[a := x] && Order() == [a] + old(Order())
    {
      hide ChainsLinked, Keyed, Linked, FreeLinked, Directory, Remove, Pool, Position, Within, Tuples;
      SameBuckets(nextNode, prevNode, table, chains);
      PoolRoom(nextFree, free, freeStreams);
      AddedPool(maxStream + 1, chains, hashIndex, addr, mkhash, age, free, a);
      var h := Bucket(a);
      if freeStreams == NIL {
        assert false;
      }
      x := TakeFree();
      PushNode(x, h);
      addr, hashIndex := addr[x := a], hashIndex[x := h];
      PushTime(x);
    }

    /**
     A stream for a new connection. When the whole pool is alive the oldest stream is freed
     first, and so the pool is never found empty.
     */
    method AddNewTcp(a: Tuple4) returns (x: nat)
      requires Valid() && a !in Live() && a.Reverse() !in Live()
      modifies this
      ensures Valid() && x in age && x < |addr| && addr[x] == a
      ensures Live() == AfterEviction(old(Live()), old(Order()), maxStream)[a := x]
      ensures Order() == [a] + Newest(old(Order()), maxStream)
    {
      MakeRoom();
      hide Directory, Tuples, Newest, Valid;
      x := LinkNew(a);
    }

    /** A first SYN: a connection that is known in either direction is left alone, another is added. */
    method OnSyn(a: Tuple4) returns (x: int)
      requires Valid()
      modifies this
      ensures Valid() && x in age && 0 <= x < |addr| && (addr[x] == a || addr[x] == a.Reverse())
      ensures if a in old(Live()) || a.Reverse() in old(Live())
              then Live() == old(Live()) && Order() == old(Order())
              else Live() == AfterEviction(old(Live()), old(Order()), maxStream)[a := x]
                   && Order() == [a] + Newest(old(Order()), maxStream)
    {
      hide Directory, Tuples, Newest;
      WithinAll(age, |addr|);
      var fromClient;
      x, fromClient := FindStream(a);
      if x == NIL {
        x := AddNewTcp(a);
      }
    }
  }

  /** What is left of a list when all but so many of its first elements are dropped. */
  ghost function Newest(order: seq<Tuple4>, most: nat): seq<Tuple4> {
    if |order| > most then order[..most] else order
  }

  lemma EmptyPool(count: nat, chains: seq<seq<nat>>, hashIndex: seq<nat>, addr: seq<Tuple4>, mkhash: Tuple4 -> nat,
                  free: seq<nat>)
    requires |chains| > 0 && |addr| == |hashIndex| == |free| == count
    requires (forall h :: 0 <= h < |chains| ==> chains[h] == []) && forall i :: 0 <= i < count ==> free[i] == i
    ensures Pool(count, chains, hashIndex, addr, mkhash, [], free)
  {
    forall x: nat | x < count
      ensures x in free
    {
      assert free[x] == x;
    }
  }

  /** How many streams there are, and which of them is the oldest. */
  lemma PoolCount(count: nat, chains: seq<seq<nat>>, hashIndex: seq<nat>, addr: seq<Tuple4>, mkhash: Tuple4 -> nat,
                  age: seq<nat>, free: seq<nat>, nextTime: seq<int>, prevTime: seq<int>)
    requires Pool(count, chains, hashIndex, addr, mkhash, age, free) && Linked(nextTime, prevTime, age)
    ensures Within(age, |addr|) && |Tuples(age, addr)| == |age| == count - |free|
    ensures age != [] ==>
              && Last(age) in age && Last(age) >= 0
              && Position(age, Last(age)) == |age| - 1
              && Tuples(Remove(age, |age| - 1), addr) == Tuples(age, addr)[..|age| - 1]
              && Tuples(age, addr)[|age| - 1] == addr[Last(age)]
              && |Remove(age, |age| - 1)| == |age| - 1
  {
    hide Keyed;
    if age != [] {
      assert age[|age| - 1] in age;
      assert Remove(age, |age| - 1) == age[..|age| - 1];
      var k := Position(age, Last(age));
      assert age[k] == age[|age| - 1];
    }
  }

  lemma PoolRoom(nextFree: seq<int>, free: seq<nat>, head: int)
    requires FreeLinked(nextFree, free, head)
    ensures Apart(free) && (free != [] ==> head != NIL)
  {
  }

  lemma SameBuckets(next: seq<int>, prev: seq<int>, table: seq<int>, chains: seq<seq<nat>>)
    requires ChainsLinked(next, prev, table, chains)
    ensures |table| == |chains|
  {
  }

  /** The pool after the first free stream is given to a new tuple. */
  lemma AddedPool(count: nat, chains: seq<seq<nat>>, hashIndex: seq<nat>, addr: seq<Tuple4>, mkhash: Tuple4 -> nat,
                  age: seq<nat>, free: seq<nat>, a: Tuple4)
    requires Pool(count, chains, hashIndex, addr, mkhash, age, free) && free != [] && Apart(free)
    requires a !in Directory(age, addr) && a.Reverse() !in Directory(age, addr)
    ensures Within(age, |addr|) && |chains| > 0 && Keyed(chains, hashIndex, addr, mkhash)
    ensures var x, h := free[0], mkhash(a) % |chains|;
      && x < |addr| && x < |hashIndex| && x !in age && (forall g :: 0 <= g < |chains| ==> x !in chains[g])
      && Within([x] + age, |addr|)
      && Pool(count, chains[h := [x] + chains[h]], hashIndex[x := h], addr[x := a], mkhash, [x] + age, free[1..])
      && Directory([x] + age, addr[x := a]) == Directory(age, addr)[a := x]
      && Tuples([x] + age, addr[x := a]) == [a] + Tuples(age, addr)
  {
    var x, h := free[0], mkhash(a) % |chains|;
    FirstIsFree(count, chains, hashIndex, age, free);
    hide Partition, Keyed, Unique, Directory, Apart;
    AddedPartition(count, chains, hashIndex, age, free, h);
    AddedKeyed(chains, hashIndex, addr, mkhash, x, a);
    AddedUnique(age, addr, x, a);
    WithinAll(age, |addr|);
    var addr' := addr[x := a];
    assert ([x] + age)[1..] == age;
    assert Directory([x] + age, addr') == Directory(age, addr)[a := x] by {
      DirectorySame(age, addr, addr');
      DirectoryCons(age, addr', x);
    }
    assert Tuples([x] + age, addr') == [a] + Tuples(age, addr);
  }

  lemma DirectoryCons(age: seq<nat>, addr: seq<Tuple4>, x: nat)
    requires Within(age, |addr|) && x < |addr|
    ensures Within([x] + age, |addr|) && Directory([x] + age, addr) == Directory(age, addr)[addr[x] := x]
  {
    assert ([x] + age)[1..] == age;
  }

  lemma WithinAll(list: seq<nat>, count: nat)
    requires Within(list, count)
    ensures forall x :: x in list ==> x < count
  {
  }

  /** The first free stream is nowhere else. */
  lemma FirstIsFree(count: nat, chains: seq<seq<nat>>, hashIndex: seq<nat>, age: seq<nat>, free: seq<nat>)
    requires Partition(count, chains, hashIndex, age, free) && free != []
    ensures var x := free[0];
      x < count && x !in age && forall g :: 0 <= g < |chains| ==> x !in chains[g]
  {
    assert free[0] in free;
  }

  lemma AddedPartition(count: nat, chains: seq<seq<nat>>, hashIndex: seq<nat>, age: seq<nat>, free: seq<nat>, h: nat)
    requires Partition(count, chains, hashIndex, age, free) && free != [] && Apart(free) && h < |chains|
    requires free[0] < |hashIndex|
    ensures var x := free[0];
      Partition(count, chains[h := [x] + chains[h]], hashIndex[x := h], [x] + age, free[1..])
  {
    var x := free[0];
    FirstIsFree(count, chains, hashIndex, age, free);
    assert forall y: nat :: y in free <==> y == x || y in free[1..];
    assert x !in free[1..];
    hide Apart;
    var chains' := chains[h := [x] + chains[h]];
    forall y: nat | y in [x] + age
      ensures hashIndex[x := h][y] < |chains'| && y in chains'[hashIndex[x := h][y]]
    {
      assert y == x || y in age;
    }
  }

  lemma AddedKeyed(chains: seq<seq<nat>>, hashIndex: seq<nat>, addr: seq<Tuple4>, mkhash: Tuple4 -> nat, x: nat,
                   a: Tuple4)
    requires |chains| > 0 && Keyed(chains, hashIndex, addr, mkhash) && x < |addr| && |addr| == |hashIndex|
    requires forall g :: 0 <= g < |chains| ==> x !in chains[g]
    ensures var h := mkhash(a) % |chains|;
      Keyed(chains[h := [x] + chains[h]], hashIndex[x := h], addr[x := a], mkhash)
  {
    var h := mkhash(a) % |chains|;
    var chains' := chains[h := [x] + chains[h]];
    forall g | 0 <= g < |chains|
      ensures KeyedIn(chains'[g], g, hashIndex[x := h], addr[x := a], mkhash, |chains|)
    {
      assert KeyedIn(chains[g], g, hashIndex, addr, mkhash, |chains|);
      assert x !in chains[g];
    }
  }

  lemma AddedUnique(age: seq<nat>, addr: seq<Tuple4>, x: nat, a: Tuple4)
    requires Unique(age, addr) && x < |addr| && x !in age
    requires a !in Directory(age, addr) && a.Reverse() !in Directory(age, addr)
    ensures Unique([x] + age, addr[x := a])
  {
    DirectoryHolds(age, addr, a);
    DirectoryHolds(age, addr, a.Reverse());
    hide Directory;
    forall y | y in age
      ensures y < |addr| && addr[y] != a && addr[y] != a.Reverse() && a != addr[y].Reverse()
    {
      var i :| 0 <= i < |age| && age[i] == y;
      assert addr[age[i]] != a;
    }
  }

  /** The directory when room has been made for one more stream. */
  ghost function AfterEviction(live: map<Tuple4, nat>, order: seq<Tuple4>, maxStream: nat): map<Tuple4, nat> {
    if |order| > maxStream then live - {order[|order| - 1]} else live
  }

  ghost function Position(list: seq<nat>, x: nat): (i: nat)
    requires x in list
    ensures i < |list| && list[i] == x
  {
    if list[0] == x then 0 else 1 + Position(list[1..], x)
  }

  /** Where a live stream is. */
  lemma PlacesOf(count: nat, chains: seq<seq<nat>>, hashIndex: seq<nat>, addr: seq<Tuple4>, mkhash: Tuple4 -> nat,
                 age: seq<nat>, free: seq<nat>, x: nat)
    requires Partition(count, chains, hashIndex, age, free) && Keyed(chains, hashIndex, addr, mkhash) && x in age
    ensures x < |hashIndex| && hashIndex[x] < |chains| && x in chains[hashIndex[x]] && x !in free
    ensures forall h, y :: 0 <= h < |chains| && y in chains[h] ==> y < |hashIndex| && hashIndex[y] == h
  {
    forall h, y | 0 <= h < |chains| && y in chains[h]
      ensures y < |hashIndex| && hashIndex[y] == h
    {
      assert KeyedIn(chains[h], h, hashIndex, addr, mkhash, |chains|);
    }
  }

  lemma FreedPool(count: nat, chains: seq<seq<nat>>, hashIndex: seq<nat>, addr: seq<Tuple4>, mkhash: Tuple4 -> nat,
                  age: seq<nat>, free: seq<nat>, x: nat,
                  nextNode: seq<int>, prevNode: seq<int>, table: seq<int>, nextTime: seq<int>, prevTime: seq<int>)
    requires Pool(count, chains, hashIndex, addr, mkhash, age, free) && x in age
    requires ChainsLinked(nextNode, prevNode, table, chains) && Linked(nextTime, prevTime, age)
    ensures Keyed(chains, hashIndex, addr, mkhash) && Within(age, |addr|) && |addr| == |hashIndex|
    ensures x < |hashIndex| && hashIndex[x] < |chains| && x in chains[hashIndex[x]] && x !in free
    ensures var h, k := hashIndex[x], Position(age, x);
      var i := Position(chains[h], x);
      && Pool(count, chains[h := Remove(chains[h], i)], hashIndex, addr, mkhash, Remove(age, k), [x] + free)
      && Directory(Remove(age, k), addr) == Directory(age, addr) - {addr[x]}
      && |Remove(age, k)| == |age| - 1
  {
    hide LinkedAt;
    var k := Position(age, x);
    PlacesOf(count, chains, hashIndex, addr, mkhash, age, free, x);
    var i := Position(chains[hashIndex[x]], x);
    assert Apart(age) && forall h :: 0 <= h < |chains| ==> Apart(chains[h]);
    hide Keyed, Partition, Unique, Directory, Remove, Apart, Position, Linked, ChainsLinked;
    FreedPartition(count, chains, hashIndex, age, free, i, k);
    FreedKeyed(chains, hashIndex, addr, mkhash, hashIndex[x], i);
    DirectoryRemove(age, addr, k);
  }

  /** A node is not its own neighbour, and it is an end of its list exactly if it has no neighbour there. */
  lemma NotItsOwnNeighbour(next: seq<int>, prev: seq<int>, list: seq<nat>, i: nat)
    requires Linked(next, prev, list) && i < |list|
    ensures list[i] < |next| && next[list[i]] != list[i] && prev[list[i]] != list[i]
    ensures next[list[i]] == NIL <==> list[i] == Last(list)
    ensures prev[list[i]] == NIL <==> list[i] == Head(list)
  {
    assert LinkedAt(next, prev, list, i);
  }

  /** The pool after a stream is freed. */
  lemma FreedPartition(count: nat, chains: seq<seq<nat>>, hashIndex: seq<nat>, age: seq<nat>, free: seq<nat>,
                       i: nat, k: nat)
    requires Partition(count, chains, hashIndex, age, free) && Apart(age) && k < |age|
    requires var x := age[k];
      && x < |hashIndex| && hashIndex[x] < |chains| && i < |chains[hashIndex[x]]| && chains[hashIndex[x]][i] == x
    requires forall h :: 0 <= h < |chains| ==> Apart(chains[h])
    requires forall h, x :: 0 <= h < |chains| && x in chains[h] ==> x < |hashIndex| && hashIndex[x] == h
    ensures Partition(count, chains[hashIndex[age[k]] := Remove(chains[hashIndex[age[k]]], i)], hashIndex,
                      Remove(age, k), [age[k]] + free)
  {
    var x := age[k];
    var h := hashIndex[x];
    RemoveMembers(age, k);
    RemoveMembers(chains[h], i);
    assert |Remove(age, k)| == |age| - 1;
    hide Remove, Apart;
    var chains' := chains[h := Remove(chains[h], i)];
    assert forall y: nat :: y in Remove(age, k) ==> hashIndex[y] < |chains'| && y in chains'[hashIndex[y]];
  }

  lemma FreedKeyed(chains: seq<seq<nat>>, hashIndex: seq<nat>, addr: seq<Tuple4>, mkhash: Tuple4 -> nat, h: nat, i: nat)
    requires Keyed(chains, hashIndex, addr, mkhash) && h < |chains| && i < |chains[h]| && Apart(chains[h])
    ensures Keyed(chains[h := Remove(chains[h], i)], hashIndex, addr, mkhash)
  {
    RemoveMembers(chains[h], i);
    hide Remove, Apart;
    assert KeyedIn(chains[h], h, hashIndex, addr, mkhash, |chains|);
  }

  /** A tuple is alive exactly if a stream in its chain has it. */
  lemma ChainHolds(chains: seq<seq<nat>>, hashIndex: seq<nat>, addr: seq<Tuple4>, mkhash: Tuple4 -> nat,
                   age: seq<nat>, free: seq<nat>, a: Tuple4)
    requires |chains| > 0 && Keyed(chains, hashIndex, addr, mkhash) && Unique(age, addr)
    requires Partition(|addr|, chains, hashIndex, age, free)
    ensures var chain := chains[mkhash(a) % |chains|];
      && Within(chain, |addr|)
      && (a in Directory(age, addr) ==> exists i :: 0 <= i < |chain| && addr[chain[i]] == a)
      && forall i :: 0 <= i < |chain| && addr[chain[i]] == a ==>
           chain[i] in age && a in Directory(age, addr) && Directory(age, addr)[a] == chain[i]
  {
    var h := mkhash(a) % |chains|;
    var chain := chains[h];
    assert KeyedIn(chain, h, hashIndex, addr, mkhash, |chains|);
    assert forall i :: 0 <= i < |chain| ==> chain[i] in chain;
    DirectoryHolds(age, addr, a);
    hide Directory;
    if a in Directory(age, addr) {
      var x := Directory(age, addr)[a];
      assert KeyedIn(chains[hashIndex[x]], hashIndex[x], hashIndex, addr, mkhash, |chains|);
      assert x in chain;
    }
    forall i | 0 <= i < |chain| && addr[chain[i]] == a
      ensures chain[i] in age && a in Directory(age, addr) && Directory(age, addr)[a] == chain[i]
    {
      assert chain[i] in age;
    }
  }
}

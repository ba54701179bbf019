/**
 Doubly linked lists as the C code keeps them: each node has a next and a prev field, a null
 pointer ends the list, and several lists may share the same nodes' fields. Nodes are numbers;
 `next` and `prev` are the fields of all nodes.
 */
module DoublyLinked {
  const NIL := -1

  /** The node at a position of a list; there is none outside it. */
  function At(list: seq<nat>, i: int): int {
    if 0 <= i < |list| then list[i] else NIL
  }

  function Head(list: seq<nat>): int {
    At(list, 0)
  }

  function Last(list: seq<nat>): int {
    At(list, |list| - 1)
  }

  ghost predicate Apart(list: seq<nat>) {
    forall i, j :: 0 <= i < j < |list| ==> list[i] != list[j]
  }

  /** The fields of the nodes of a list say what its order is. */
  ghost predicate Linked(next: seq<int>, prev: seq<int>, list: seq<nat>) {
    && |next| == |prev| && Apart(list)
    && (forall i :: 0 <= i < |list| ==> LinkedAt(next, prev, list, i))
  }

  ghost predicate LinkedAt(next: seq<int>, prev: seq<int>, list: seq<nat>, i: nat)
    requires i < |list| && |next| == |prev|
  {
    && list[i] < |next|
    && next[list[i]] == At(list, i + 1) && prev[list[i]] == At(list, i - 1)
  }

  predicate Node(fields: seq<int>, x: int) {
    0 <= x < |fields|
  }

  /** x's neighbours, if it has them, and x itself are nodes. */
  predicate Sound(next: seq<int>, prev: seq<int>, x: nat) {
    && |next| == |prev| && Node(next, x)
    && (next[x] == NIL || Node(prev, next[x])) && (prev[x] == NIL || Node(next, prev[x]))
  }

  /** The next fields after x is taken out: x->prev->next = x->next. */
  function SkipNext(next: seq<int>, prev: seq<int>, x: nat): (r: seq<int>)
    requires Sound(next, prev, x)
    ensures |r| == |next|
  {
    if prev[x] != NIL then next[prev[x] := next[x]] else next
  }

  /** The prev fields after x is taken out: x->next->prev = x->prev. */
  function SkipPrev(next: seq<int>, prev: seq<int>, x: nat): (r: seq<int>)
    requires Sound(next, prev, x)
    ensures |r| == |prev|
  {
    if next[x] != NIL then prev[next[x] := prev[x]] else prev
  }

  function Remove(list: seq<nat>, i: nat): seq<nat>
    requires i < |list|
  {
    list[..i] + list[i + 1..]
  }

  lemma LinkedSound(next: seq<int>, prev: seq<int>, list: seq<nat>, i: nat)
    requires Linked(next, prev, list) && i < |list|
    ensures Sound(next, prev, list[i])
    ensures next[list[i]] == At(list, i + 1) && prev[list[i]] == At(list, i - 1)
  {
    assert LinkedAt(next, prev, list, i);
    assert i > 0 ==> LinkedAt(next, prev, list, i - 1);
    assert i + 1 < |list| ==> LinkedAt(next, prev, list, i + 1);
  }

  lemma Removed(list: seq<nat>, i: nat, j: nat)
    requires i < |list| && j < |list| - 1 && Apart(list)
    ensures var r, k := Remove(list, i), if j < i then j else j + 1;
      && r[j] == list[k] && k != i
      && At(r, j + 1) == At(list, if j + 1 == i then i + 1 else k + 1)
      && At(r, j - 1) == At(list, if j == i then i - 1 else k - 1)
  {
  }

  lemma UnlinkKeepsAt(next: seq<int>, prev: seq<int>, list: seq<nat>, i: nat, j: nat)
    requires Linked(next, prev, list) && i < |list| && Sound(next, prev, list[i]) && j < |list| - 1
    ensures LinkedAt(SkipNext(next, prev, list[i]), SkipPrev(next, prev, list[i]), Remove(list, i), j)
  {
    var k := if j < i then j else j + 1;
    Removed(list, i, j);
    assert LinkedAt(next, prev, list, i) && LinkedAt(next, prev, list, k);
    hide Remove;
  }

  /** Taking a node out gives the list without it. */
  lemma UnlinkKeeps(next: seq<int>, prev: seq<int>, list: seq<nat>, i: nat)
    requires Linked(next, prev, list) && i < |list| && Sound(next, prev, list[i])
    ensures Linked(SkipNext(next, prev, list[i]), SkipPrev(next, prev, list[i]), Remove(list, i))
    ensures Head(Remove(list, i)) == if prev[list[i]] == NIL then next[list[i]] else Head(list)
    ensures Last(Remove(list, i)) == if next[list[i]] == NIL then prev[list[i]] else Last(list)
  {
    assert LinkedAt(next, prev, list, i);
    forall j | 0 <= j < |list| - 1
      ensures LinkedAt(SkipNext(next, prev, list[i]), SkipPrev(next, prev, list[i]), Remove(list, i), j)
    {
      UnlinkKeepsAt(next, prev, list, i, j);
    }
    hide LinkedAt, SkipNext, SkipPrev;
    assert Apart(Remove(list, i));
  }

  /** A node out of the list is still linked to where it was, so taking it out again does nothing. */
  lemma UnlinkTwice(next: seq<int>, prev: seq<int>, list: seq<nat>, i: nat)
    requires Linked(next, prev, list) && i < |list| && Sound(next, prev, list[i])
    ensures var x := list[i];
      var next', prev' := SkipNext(next, prev, x), SkipPrev(next, prev, x);
      && next'[x] == next[x] && prev'[x] == prev[x] && Sound(next', prev', x)
      && SkipNext(next', prev', x) == next' && SkipPrev(next', prev', x) == prev'
  {
    assert LinkedAt(next, prev, list, i);
  }

  /** Lists whose nodes' fields have not changed stay as they are. */
  lemma OthersKeep(next: seq<int>, prev: seq<int>, next': seq<int>, prev': seq<int>, list: seq<nat>)
    requires Linked(next, prev, list) && |next'| == |prev'| == |next|
    requires forall x :: x in list && x < |next| ==> next'[x] == next[x] && prev'[x] == prev[x]
    ensures Linked(next', prev', list)
  {
    forall i | 0 <= i < |list|
      ensures LinkedAt(next', prev', list, i)
    {
      assert LinkedAt(next, prev, list, i) && list[i] in list;
    }
  }

  function PushNext(next: seq<int>, list: seq<nat>, x: nat): seq<int>
    requires Node(next, x)
  {
    next[x := Head(list)]
  }

  function PushPrev(prev: seq<int>, list: seq<nat>, x: nat): seq<int>
    requires Node(prev, x) && (Head(list) == NIL || Node(prev, Head(list)))
  {
    if Head(list) != NIL then prev[x := NIL][Head(list) := x] else prev[x := NIL]
  }

  /** Putting a node in front of a list. */
  lemma PushKeeps(next: seq<int>, prev: seq<int>, list: seq<nat>, x: nat)
    requires Linked(next, prev, list) && x !in list && Node(next, x)
    ensures Head(list) == NIL || Node(prev, Head(list))
    ensures Linked(PushNext(next, list, x), PushPrev(prev, list, x), [x] + list)
  {
    var r := [x] + list;
    assert list != [] ==> LinkedAt(next, prev, list, 0);
    forall j | 0 <= j < |r|
      ensures LinkedAt(PushNext(next, list, x), PushPrev(prev, list, x), r, j)
    {
      if j > 0 {
        assert LinkedAt(next, prev, list, j - 1);
      }
    }
    hide LinkedAt, PushNext, PushPrev;
  }

  function AppendNext(next: seq<int>, list: seq<nat>, x: nat): seq<int>
    requires Node(next, x) && (Last(list) == NIL || Node(next, Last(list)))
  {
    if Last(list) != NIL then next[Last(list) := x][x := NIL] else next[x := NIL]
  }

  function AppendPrev(prev: seq<int>, list: seq<nat>, x: nat): seq<int>
    requires Node(prev, x)
  {
    prev[x := Last(list)]
  }

  /** Putting a node behind a list. */
  lemma AppendKeeps(next: seq<int>, prev: seq<int>, list: seq<nat>, x: nat)
    requires Linked(next, prev, list) && x !in list && Node(next, x)
    ensures Last(list) == NIL || Node(next, Last(list))
    ensures Linked(AppendNext(next, list, x), AppendPrev(prev, list, x), list + [x])
  {
    var r := list + [x];
    assert list != [] ==> LinkedAt(next, prev, list, |list| - 1);
    forall j | 0 <= j < |r|
      ensures LinkedAt(AppendNext(next, list, x), AppendPrev(prev, list, x), r, j)
    {
      if j < |list| {
        assert LinkedAt(next, prev, list, j);
      }
    }
    hide LinkedAt, AppendNext, AppendPrev;
  }
}

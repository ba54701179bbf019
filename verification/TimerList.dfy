/**
 The timer list of the IP defragmenter, pointer by pointer. A timer may be deleted twice in
 a row, once when its queue is found and once more when the queue is restarted or freed; the
 second time it is no longer in the list, but its own fields still point into it.
 */
module TimerList {
  import opened DoublyLinked

  class Timers {
    var next: seq<int>
    var prev: seq<int>
    var head: int
    var tail: int

    /** The fields stand for a list of timers. */
    ghost predicate Holds(list: seq<nat>)
      reads this
    {
      Linked(next, prev, list) && head == Head(list) && tail == Last(list)
    }

    constructor (count: nat)
      ensures Holds([]) && |next| == count
    {
      next, prev := seq(count, _ => NIL), seq(count, _ => NIL);
      head, tail := NIL, NIL;
    }

    method AddTimer(x: nat, ghost list: seq<nat>)
      requires Holds(list) && x < |next| && x !in list
      modifies this
      ensures Holds(list + [x]) && |next| == old(|next|)
    {
      AppendKeeps(next, prev, list, x);
      hide Linked, LinkedAt;
      if tail != NIL {
        next := next[tail := x];
        prev := prev[x := tail];
        next := next[x := NIL];
        tail := x;
      } else {
        prev := prev[x := NIL];
        next := next[x := NIL];
        tail, head := x, x;
      }
    }

    method DelTimer(x: nat)
      requires Sound(next, prev, x)
      modifies this
      ensures next == SkipNext(old(next), old(prev), x) && prev == SkipPrev(old(next), old(prev), x)
      ensures head == if old(prev[x]) == NIL then old(next[x]) else old(head)
      ensures tail == if old(next[x]) == NIL then old(prev[x]) else old(tail)
    {
      if prev[x] != NIL {
        next := next[prev[x] := next[x]];
      } else {
        head := next[x];
      }
      if next[x] != NIL {
        prev := prev[next[x] := prev[x]];
      } else {
        tail := prev[x];
      }
    }

    /** Deleting a timer twice takes it out of the list, as deleting it once does, and nothing else. */
    method DelTwice(i: nat, ghost list: seq<nat>, x: nat)
      requires Holds(list) && i < |list| && list[i] == x
      modifies this
      ensures Holds(Remove(list, i)) && |next| == old(|next|)
      ensures Sound(old(next), old(prev), x)
      ensures next == SkipNext(old(next), old(prev), x) && prev == SkipPrev(old(next), old(prev), x)
    {
      LinkedSound(next, prev, list, i);
      UnlinkKeeps(next, prev, list, i);
      UnlinkTwice(next, prev, list, i);
      hide Linked, SkipNext, SkipPrev, Sound, Remove;
      DelTimer(x);
      DelTimer(x);
    }

    /** A restarted timer goes from its place to the end of the list. */
    method Restart(i: nat, ghost list: seq<nat>, x: nat)
      requires Holds(list) && i < |list| && list[i] == x
      modifies this
      ensures Holds(Remove(list, i) + [x])
    {
      LinkedSound(next, prev, list, i);
      assert x !in Remove(list, i) && x < |next|;
      DelTwice(i, list, x);
      AddTimer(x, Remove(list, i));
    }
  }
}

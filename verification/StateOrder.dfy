/**
  The market data steps among the answers of a pass (`MdOrder` in src/client_core.rs): the client takes
  the marks of the runs of messages, and reads the steps up to a count at a time.
*/
module StateOrder {
  import opened Basics
  import opened MdQueues
  import AnswerOrder

  /** The count of a position: that of the last mark at or before it, and `count` before the first mark. */
  function CountFrom(marks: seq<Mark>, count: nat, p: nat): nat {
    if marks == [] || p < marks[0].0 then count else CountFrom(marks[1..], marks[0].1, p)
  }

  /** Marks that go up in both their position and their count, from `count` on and below position `head`. */
  ghost predicate GoUp(marks: seq<Mark>, count: nat, head: nat) {
    && (forall i :: 0 <= i < |marks| ==> count < marks[i].1 && marks[i].0 < head)
    && (forall i, j :: 0 <= i < j < |marks| ==> marks[i].0 < marks[j].0 && marks[i].1 < marks[j].1)
  }

  /** Counts go up with the positions. */
  lemma {:induction false} CountsGoUp(marks: seq<Mark>, count: nat, head: nat, p: nat, q: nat)
    requires GoUp(marks, count, head) && p <= q
    ensures count <= CountFrom(marks, count, p) <= CountFrom(marks, count, q)
    decreases |marks|
  {
    if marks != [] && marks[0].0 <= q {
      var p' := if p < marks[0].0 then marks[0].0 else p;
      CountsGoUp(marks[1..], marks[0].1, head, p', q);
    }
  }

  lemma {:induction false} CountFromMore(marks: seq<Mark>, count: nat, m: Mark, p: nat)
    requires forall i :: 0 <= i < |marks| ==> marks[i].0 < m.0
    ensures CountFrom(marks + [m], count, p) == if m.0 <= p then m.1 else CountFrom(marks, count, p)
    decreases |marks|
  {
    var all := marks + [m];
    if marks == [] {
      assert all[1..] == [];
    } else {
      assert all[1..] == marks[1..] + [m];
      CountFromMore(marks[1..], marks[0].1, m, p);
    }
  }

  /** With all marks since the start it is the count that `publish` gave the message of the position. */
  lemma {:induction false} CountFromIsCountOf(marks: seq<Mark>, p: nat)
    requires forall i, j :: 0 <= i < j < |marks| ==> marks[i].0 < marks[j].0
    ensures CountFrom(marks, 0, p) == AnswerOrder.CountOf(marks, p)
    decreases |marks|
  {
    if marks != [] {
      var front, m := marks[..|marks| - 1], marks[|marks| - 1];
      assert marks == front + [m];
      CountFromIsCountOf(front, p);
      CountFromMore(front, 0, m, p);
    }
  }

  /** With mark `i` the first one at or above `until`: just the positions before it are counted below. */
  lemma {:induction false} CountBelow(marks: seq<Mark>, count: nat, head: nat, until: nat, i: nat, p: nat)
    requires GoUp(marks, count, head) && count < until
    requires i <= |marks| && (forall j :: 0 <= j < i ==> marks[j].1 < until) && (i < |marks| ==> until <= marks[i].1)
    ensures CountFrom(marks, count, p) < until <==> i == |marks| || p < marks[i].0
    decreases |marks|
  {
    if marks != [] && marks[0].0 <= p {
      if i == 0 {
        CountsGoUp(marks[1..], marks[0].1, head, p, p);
      } else {
        CountBelow(marks[1..], marks[0].1, head, until, i - 1, p);
      }
    }
  }

  class MdOrder {
    /** The marks taken and not passed, and the count of the run before them. */
    var marks: seq<Mark>
    var count: nat
    /** The head of the ring when marks were last taken, and at the start of the pass. */
    var head: nat
    var passHead: nat

    ghost predicate Valid()
      reads this
    {
      GoUp(marks, count, head) && head <= passHead
    }

    /** There are steps to read, and the marks of all of them are taken. */
    ghost predicate Ready(tail: nat)
      reads this
    {
      tail < passHead ==> head == passHead
    }

    constructor ()
      ensures Valid() && marks == [] && count == 0 && head == passHead == 0
    {
      marks, count, head, passHead := [], 0, 0, 0;
    }

    /** `state_pass`; `taken` are the marks that the ring gives for the head `now`. */
    method StartPass(now: nat, tail: nat, taken: seq<Mark>)
      requires Valid() && passHead <= now && tail <= now && GoUp(marks + taken, count, now)
      modifies this
      ensures Valid() && Ready(tail) && passHead == now && count == old(count)
      ensures marks == if now == tail then old(marks) else old(marks) + taken
    {
      assert forall i :: 0 <= i < |marks| ==> marks[i] == (marks + taken)[i];
      passHead := now;
      if now == tail {
        return;
      }
      head := now;
      marks := marks + taken;
    }

    /** The marks at or before the reader's position are passed: no count from there on changes. */
    method PassMarks(tail: nat)
      requires Valid()
      modifies this`marks, this`count
      ensures Valid() && (marks != [] ==> tail < marks[0].0)
      ensures forall p: nat :: tail <= p ==> CountFrom(marks, count, p) == old(CountFrom(marks, count, p))
    {
      while marks != [] && marks[0].0 <= tail
        invariant Valid()
        invariant forall p: nat :: tail <= p ==> CountFrom(marks, count, p) == old(CountFrom(marks, count, p))
        decreases |marks|
      {
        marks, count := marks[1..], marks[0].1;
      }
    }

    /** `state_first`: the lowest count among the steps to read and the noted change of the other state. */
    method StateFirst(tail: nat, noted: Option<nat>) returns (first: Option<nat>)
      requires Valid() && Ready(tail)
      modifies this`marks, this`count
      ensures Valid() && Ready(tail)
      ensures forall p: nat :: tail <= p ==> CountFrom(marks, count, p) == old(CountFrom(marks, count, p))
      ensures first.None? <==> noted.None? && passHead <= tail
      ensures first.Some? && noted.Some? ==> first.value <= noted.value
      ensures first.Some? ==> forall p: nat :: tail <= p < passHead ==> first.value <= CountFrom(marks, count, p)
      ensures first.Some? ==> first == noted || (tail < passHead && first.value == CountFrom(marks, count, tail))
    {
      if tail >= passHead {
        return noted;
      }
      PassMarks(tail);
      forall p: nat | tail <= p ensures count <= CountFrom(marks, count, p) {
        CountsGoUp(marks, count, head, p, p);
      }
      var md := if tail < head then Some(count) else None;
      if md.Some? && noted.Some? {
        first := if md.value < noted.value then md else noted;
      } else {
        first := if md.Some? then md else noted;
      }
    }

    /** `state_read`: up to the position it gives, and no further, the steps are counted below `until`. */
    method StateRead(tail: nat, until: nat) returns (limit: nat)
      requires Valid() && Ready(tail)
      modifies this`marks, this`count
      ensures Valid() && Ready(tail) && tail <= limit && (tail <= passHead ==> limit <= passHead)
      ensures forall p: nat :: tail <= p ==> CountFrom(marks, count, p) == old(CountFrom(marks, count, p))
      ensures forall p: nat :: tail <= p < passHead ==> (p < limit <==> CountFrom(marks, count, p) < until)
    {
      if tail >= passHead {
        return tail;
      }
      PassMarks(tail);
      if count >= until {
        forall p: nat | tail <= p ensures count <= CountFrom(marks, count, p) {
          CountsGoUp(marks, count, head, p, p);
        }
        return tail;
      }
      var i := 0;
      while i < |marks| && marks[i].1 < until
        invariant i <= |marks| && forall j :: 0 <= j < i ==> marks[j].1 < until
      {
        i := i + 1;
      }
      limit := if i < |marks| then marks[i].0 else head;
      forall p: nat | tail <= p < passHead ensures p < limit <==> CountFrom(marks, count, p) < until {
        CountBelow(marks, count, head, until, i, p);
      }
    }
  }
}

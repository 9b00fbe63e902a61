/**
  One order for the answers of a session: the answer queues (`SeqQueue`) and the market data
  messages (`MdQueue::publish`) take their counts from one clock. The pushes, the publication of
  a message and the client's drains are interleaved access by access.
*/
module AnswerOrder {

  /** A queue's lock: free, or held by a push before or after it has taken its count. */
  datatype Lock = Free | Held | Counted(at: nat)

  datatype Queue = Queue(items: seq<nat>, lock: Lock)

  /** Where `publish` stands: the clock had moved (Counting), the mark is due (Marking), the head is due (Storing). */
  datatype Publish = Quiet | Counting | Marking(at: nat) | Storing

  /**
    What happened to the clock, in order: an answer of queue `q` took the count `at`; the message
    of the positions [from, to) took its place, with the count `at` of its run, when `publish` saw
    the clock at `saw` and it was at `clock`.
  */
  datatype Event = Answer(q: nat, at: int) | Message(from: nat, to: nat, at: int, saw: nat, clock: nat)

  /** A drain of queue `q` by a client that had read the clock as `bound` before. */
  datatype Drain = Drain(q: nat, bound: nat, stamps: seq<nat>)

  datatype State = State(
    clock: nat, queues: seq<Queue>,
    // The engine: positions, the clock it saw, and the marks it has made.
    pc: Publish, next: nat, head: nat, clockSeen: nat, marks: seq<(nat, nat)>,
    // The client: the clock as it read it last, and its drains.
    bound: nat, drains: seq<Drain>,
    history: seq<Event>)

  datatype Action =
    | Take(q: nat)
    | Count(q: nat)
    | Store(q: nat)
    | Tick
    | Write
    | PubLoad(saw: nat)
    | PubCount
    | PubMark
    | PubStore
    | ReadClock(b: nat)
    | DrainQueue(q: nat)

  ghost predicate Init(s: State) {
    && s.clock == s.clockSeen == 1 && (forall q :: 0 <= q < |s.queues| ==> s.queues[q] == Queue([], Free))
    && s.pc == Quiet && s.next == s.head == 0 && s.marks == []
    && s.bound == 0 && s.drains == [] && s.history == []
  }

  ghost predicate Enabled(s: State, a: Action) {
    match a
    case Take(q) => q < |s.queues| && s.queues[q].lock.Free?
    case Count(q) => q < |s.queues| && s.queues[q].lock.Held?
    case Store(q) => q < |s.queues| && s.queues[q].lock.Counted?
    case Tick => true
    case Write => s.pc.Quiet?
    // A relaxed load: any count from the last one the engine knows of on.
    case PubLoad(saw) => s.pc.Quiet? && s.head != s.next && s.clockSeen <= saw <= s.clock
    case PubCount => s.pc.Counting?
    case PubMark => s.pc.Marking?
    case PubStore => s.pc.Storing?
    // A relaxed load: any count the clock has had.
    case ReadClock(b) => b <= s.clock
    case DrainQueue(q) => q < |s.queues| && s.queues[q].lock.Free?
  }

  ghost function Apply(s: State, a: Action): State
    requires Enabled(s, a)
  {
    match a
    // ── SeqQueue::push ──
    case Take(q) => s.(queues := s.queues[q := s.queues[q].(lock := Held)])
    case Count(q) =>
      s.(queues := s.queues[q := s.queues[q].(lock := Counted(s.clock))], clock := s.clock + 1,
         history := s.history + [Answer(q, s.clock)])
    case Store(q) =>
      s.(queues := s.queues[q := Queue(s.queues[q].items + [s.queues[q].lock.at], Free)])
    // Another use of the clock: a state mark, an answer of the client itself.
    case Tick => s.(clock := s.clock + 1)
    // ── MdQueue ──
    case Write => s.(next := s.next + 1)
    case PubLoad(saw) =>
      if saw != s.clockSeen then s.(pc := Counting)
      else s.(pc := Storing, history := s.history + [Message(s.head, s.next, s.clockSeen - 1, saw, s.clock)])
    case PubCount =>
      s.(pc := Marking(s.clock), clock := s.clock + 1, clockSeen := s.clock + 1,
         history := s.history + [Message(s.head, s.next, s.clock, s.clock, s.clock)])
    case PubMark => s.(pc := Storing, marks := s.marks + [(s.head, s.pc.at)])
    case PubStore => s.(pc := Quiet, head := s.next)
    // ── The client ──
    case ReadClock(b) => s.(bound := b)
    case DrainQueue(q) =>
      s.(queues := s.queues[q := Queue([], Free)], drains := s.drains + [Drain(q, s.bound, s.queues[q].items)])
  }

  /** The count of a position: that of the last mark at or before it, 0 when there is none. */
  function CountOf(marks: seq<(nat, nat)>, p: nat): nat {
    if marks == [] then 0
    else if marks[|marks| - 1].0 <= p then marks[|marks| - 1].1
    else CountOf(marks[..|marks| - 1], p)
  }

  // ── The order of the history ──

  ghost predicate Before(a: Event, b: Event) {
    match (a, b)
    case (Answer(_, x), Answer(_, y)) => x < y
    case (Answer(_, x), Message(_, _, y, saw, clock)) => x < clock && (x < y || saw <= x)
    case (Message(_, _, x, saw, _), Answer(_, y)) => saw <= y
    case (Message(f, t, x, _, _), Message(f', t', y, _, _)) => x <= y && t <= f'
  }

  ghost predicate Ordered(h: seq<Event>) {
    forall i, j :: 0 <= i < j < |h| ==> Before(h[i], h[j])
  }

  ghost predicate HistoryInv(s: State) {
    && 1 <= s.clockSeen <= s.clock
    && Ordered(s.history)
    && (forall e <- s.history :: e.at < s.clock)
    && (forall e <- s.history :: e.Message? ==>
          e.from < e.to && e.at <= s.clockSeen - 1 && e.at <= e.saw <= s.clock)
    && (forall e <- s.history :: e.Answer? ==> e.at >= 1 && e.at != s.clockSeen - 1)
    && (forall e <- s.history :: e.Message? ==> e.to <= if s.pc.Quiet? || s.pc.Counting? then s.head else s.next)
    && s.head <= s.next && (!s.pc.Quiet? ==> s.head < s.next)
  }

  lemma OrderedMore(h: seq<Event>, e: Event)
    requires Ordered(h) && forall x <- h :: Before(x, e)
    ensures Ordered(h + [e])
  {
  }

  /** A new event stands after all before it. */
  lemma EventAdded(s: State, a: Action, e: Event)
    requires HistoryInv(s) && Enabled(s, a) && Apply(s, a).history == s.history + [e]
    ensures Ordered(Apply(s, a).history)
  {
    hide Ordered;
    assert e == Apply(s, a).history[|s.history|];
    forall x <- s.history ensures Before(x, e) {
    }
    OrderedMore(s.history, e);
  }

  lemma HistoryStep(s: State, a: Action)
    requires HistoryInv(s) && Enabled(s, a)
    ensures HistoryInv(Apply(s, a))
  {
    hide Ordered, Before;
    var s' := Apply(s, a);
    if |s'.history| > |s.history| {
      EventAdded(s, a, s'.history[|s.history|]);
    }
  }

  // ── The marks ──

  /** The marks made, with the one `publish` is about to add. */
  ghost function AllMarks(s: State): seq<(nat, nat)> {
    s.marks + if s.pc.Marking? then [(s.head, s.pc.at)] else []
  }

  ghost predicate MarksRise(marks: seq<(nat, nat)>) {
    forall i, j :: 0 <= i < j < |marks| ==> marks[i].0 < marks[j].0 && marks[i].1 < marks[j].1
  }

  ghost predicate MarksInv(s: State) {
    var marks := AllMarks(s);
    && MarksRise(marks)
    && (if marks == [] then s.clockSeen == 1 else marks[|marks| - 1].1 == s.clockSeen - 1)
    && (marks != [] ==> marks[|marks| - 1].0 <= s.head)
    && (marks != [] && (s.pc.Quiet? || s.pc.Counting?) ==> marks[|marks| - 1].0 < s.head)
    && forall e <- s.history, p: nat :: e.Message? && e.from <= p < e.to ==> CountOf(marks, p) == e.at
  }

  lemma CountOfMore(marks: seq<(nat, nat)>, m: (nat, nat), p: nat)
    ensures CountOf(marks + [m], p) == if m.0 <= p then m.1 else CountOf(marks, p)
  {
  }

  /** The message takes a count of its own. */
  lemma MarksCount(s: State)
    requires HistoryInv(s) && MarksInv(s) && Enabled(s, PubCount)
    ensures MarksInv(Apply(s, PubCount))
  {
    hide Ordered, CountOf;
    var s', marks := Apply(s, PubCount), AllMarks(s);
    assert AllMarks(s') == marks + [(s.head, s.clock)];
    forall p: nat ensures CountOf(AllMarks(s'), p) == if s.head <= p then s.clock else CountOf(marks, p) {
      CountOfMore(marks, (s.head, s.clock), p);
    }
  }

  /** The message goes with the run of the last mark. */
  lemma MarksLoad(s: State, saw: nat)
    requires HistoryInv(s) && MarksInv(s) && Enabled(s, PubLoad(saw))
    ensures MarksInv(Apply(s, PubLoad(saw)))
  {
    hide Ordered, CountOf;
    var marks := AllMarks(s);
    assert AllMarks(Apply(s, PubLoad(saw))) == marks;
    forall p: nat | s.head <= p ensures CountOf(marks, p) == s.clockSeen - 1 {
      CountAtEnd(marks, p);
    }
  }

  lemma MarksSame(s: State, a: Action)
    requires HistoryInv(s) && MarksInv(s) && Enabled(s, a) && !a.PubCount? && !a.PubLoad?
    ensures MarksInv(Apply(s, a))
  {
    hide Ordered, CountOf, MarksRise;
    var s' := Apply(s, a);
    assert AllMarks(s') == AllMarks(s);
    assert forall e <- s'.history :: e.Message? ==> e in s.history;
  }

  lemma MarksStep(s: State, a: Action)
    requires HistoryInv(s) && MarksInv(s) && Enabled(s, a)
    ensures MarksInv(Apply(s, a))
  {
    hide HistoryInv, MarksInv, Enabled;
    match a
    case PubCount => MarksCount(s);
    case PubLoad(saw) => MarksLoad(s, saw);
    case _ => MarksSame(s, a);
  }

  lemma CountAtEnd(marks: seq<(nat, nat)>, p: nat)
    requires marks == [] || marks[|marks| - 1].0 <= p
    ensures CountOf(marks, p) == if marks == [] then 0 else marks[|marks| - 1].1
  {
  }

  // ── The queues ──

  ghost function StampsOf(h: seq<Event>, q: nat): seq<int> {
    if h == [] then []
    else StampsOf(h[..|h| - 1], q) + if h[|h| - 1].Answer? && h[|h| - 1].q == q then [h[|h| - 1].at] else []
  }

  ghost function Drained(drains: seq<Drain>, q: nat): seq<int> {
    if drains == [] then []
    else Drained(drains[..|drains| - 1], q) + if drains[|drains| - 1].q == q then drains[|drains| - 1].stamps else []
  }

  ghost function InQueue(queue: Queue): seq<int> {
    queue.items + if queue.lock.Counted? then [queue.lock.at] else []
  }

  /** What was drained from a queue, then what is in it, is what was written to it, in order. */
  ghost predicate QueueInv(s: State, q: nat)
    requires q < |s.queues|
  {
    Drained(s.drains, q) + InQueue(s.queues[q]) == StampsOf(s.history, q)
  }

  lemma StampsOfMore(h: seq<Event>, e: Event, q: nat)
    ensures StampsOf(h + [e], q) == StampsOf(h, q) + if e.Answer? && e.q == q then [e.at] else []
  {
    assert (h + [e])[..|h|] == h;
  }

  lemma DrainedMore(drains: seq<Drain>, d: Drain, q: nat)
    ensures Drained(drains + [d], q) == Drained(drains, q) + if d.q == q then d.stamps else []
  {
    assert (drains + [d])[..|drains|] == drains;
  }

  /** A push: the count goes to the history and to the queue. */
  lemma QueuePushed(s: State, a: Action, q: nat)
    requires q < |s.queues| && QueueInv(s, q) && Enabled(s, a) && (a.Take? || a.Count? || a.Store?)
    ensures QueueInv(Apply(s, a), q)
  {
    hide StampsOf, Drained;
    var s' := Apply(s, a);
    if a.Count? {
      StampsOfMore(s.history, Answer(a.q, s.clock), q);
      assert a.q == q ==> InQueue(s'.queues[q]) == InQueue(s.queues[q]) + [s.clock];
    }
  }

  lemma QueueDrained(s: State, a: Action, q: nat)
    requires q < |s.queues| && QueueInv(s, q) && Enabled(s, a) && a.DrainQueue?
    ensures QueueInv(Apply(s, a), q)
  {
    hide StampsOf, Drained;
    DrainedMore(s.drains, Drain(a.q, s.bound, s.queues[a.q].items), q);
    assert a.q == q ==> InQueue(s.queues[q]) == s.queues[q].items;
  }

  lemma QueueStep(s: State, a: Action, q: nat)
    requires q < |s.queues| && QueueInv(s, q) && Enabled(s, a)
    ensures QueueInv(Apply(s, a), q)
  {
    hide StampsOf, Drained;
    if a.Take? || a.Count? || a.Store? {
      QueuePushed(s, a, q);
    } else if a.DrainQueue? {
      QueueDrained(s, a, q);
    } else {
      var s' := Apply(s, a);
      assert |s'.history| > |s.history| ==> s'.history == s.history + [s'.history[|s.history|]];
      if |s'.history| > |s.history| {
        StampsOfMore(s.history, s'.history[|s.history|], q);
      }
    }
  }

  ghost predicate Above(queue: Queue, bound: nat) {
    (forall x <- queue.items :: bound <= x) && (queue.lock.Counted? ==> bound <= queue.lock.at)
  }

  /** Nothing in a queue, now or later, is below the bound of a drain of that queue. */
  ghost predicate BoundInv(s: State) {
    && s.bound <= s.clock
    && (forall i :: 0 <= i < |s.drains| ==> s.drains[i].bound <= s.clock)
    && (forall i :: 0 <= i < |s.drains| && s.drains[i].q < |s.queues| ==>
        Above(s.queues[s.drains[i].q], s.drains[i].bound))
    && (forall i, j :: 0 <= i < j < |s.drains| && s.drains[i].q == s.drains[j].q ==>
        forall x <- s.drains[j].stamps :: s.drains[i].bound <= x)
  }

  lemma BoundPushed(s: State, a: Action)
    requires BoundInv(s) && Enabled(s, a) && (a.Take? || a.Count? || a.Store?)
    ensures BoundInv(Apply(s, a))
  {
    var s' := Apply(s, a);
    forall i | 0 <= i < |s'.drains| && s'.drains[i].q < |s'.queues|
      ensures Above(s'.queues[s'.drains[i].q], s'.drains[i].bound)
    {
      assert Above(s.queues[s.drains[i].q], s.drains[i].bound);
    }
  }

  lemma BoundDrained(s: State, a: Action)
    requires BoundInv(s) && Enabled(s, a) && a.DrainQueue?
    ensures BoundInv(Apply(s, a))
  {
    var s' := Apply(s, a);
    var n := |s.drains|;
    forall i | 0 <= i < |s'.drains| && s'.drains[i].q < |s'.queues|
      ensures Above(s'.queues[s'.drains[i].q], s'.drains[i].bound)
    {
      assert i < n ==> Above(s.queues[s.drains[i].q], s.drains[i].bound);
    }
    forall i, j | 0 <= i < j < |s'.drains| && s'.drains[i].q == s'.drains[j].q
      ensures forall x <- s'.drains[j].stamps :: s'.drains[i].bound <= x
    {
      assert j == n ==> Above(s.queues[s.drains[i].q], s.drains[i].bound);
    }
  }

  lemma BoundStep(s: State, a: Action)
    requires BoundInv(s) && Enabled(s, a)
    ensures BoundInv(Apply(s, a))
  {
    if a.Take? || a.Count? || a.Store? {
      BoundPushed(s, a);
    } else if a.DrainQueue? {
      BoundDrained(s, a);
    } else {
      hide Above;
    }
  }

  // ── Runs ──

  ghost predicate Inv(s: State) {
    && HistoryInv(s) && MarksInv(s) && BoundInv(s)
    && forall q: nat :: q < |s.queues| ==> QueueInv(s, q)
  }

  lemma StepInv(s: State, a: Action)
    requires Inv(s) && Enabled(s, a)
    ensures Inv(Apply(s, a)) && |Apply(s, a).queues| == |s.queues|
  {
    hide HistoryInv, MarksInv, BoundInv, QueueInv;
    HistoryStep(s, a);
    MarksStep(s, a);
    BoundStep(s, a);
    forall q: nat | q < |s.queues| ensures QueueInv(Apply(s, a), q) {
      QueueStep(s, a, q);
    }
  }

  lemma InitInv(s: State)
    requires Init(s)
    ensures Inv(s)
  {
    hide CountOf, Before;
    forall q: nat | q < |s.queues| ensures QueueInv(s, q) {
      NothingStamped(q);
      assert InQueue(s.queues[q]) == [];
    }
  }

  lemma NothingStamped(q: nat)
    ensures StampsOf([], q) == [] && Drained([], q) == []
  {
  }

  /** The actions `acts`, each enabled in turn, lead from `s` to `s'`. */
  ghost predicate Runs(s: State, acts: seq<Action>, s': State)
    decreases |acts|
  {
    if acts == [] then s' == s else Enabled(s, acts[0]) && Runs(Apply(s, acts[0]), acts[1..], s')
  }

  lemma {:induction false} RunInv(s: State, acts: seq<Action>, s': State)
    requires Inv(s) && Runs(s, acts, s')
    ensures Inv(s') && |s'.queues| == |s.queues|
    decreases |acts|
  {
    hide Inv, Enabled, Apply;
    if acts != [] {
      StepInv(s, acts[0]);
      RunInv(Apply(s, acts[0]), acts[1..], s');
    }
  }

  /**
    Messages and answers share one order: an answer that took its count before a published message took
    its place, and that `publish` saw, and no other, has a count below that of the message's positions;
    with the clock seen as it was, those are the answers before the message. Marks go up in both their
    position and their count.
  */
  lemma MessagesAndAnswersShareOneOrder(s0: State, acts: seq<Action>, s: State, i: nat, j: nat, p: nat)
    requires Init(s0) && Runs(s0, acts, s)
    requires i < |s.history| && j < |s.history| && s.history[i].Answer? && s.history[j].Message?
    requires s.history[j].from <= p < s.history[j].to && p < s.head
    ensures s.history[i].at < CountOf(s.marks, p) <==> i < j && s.history[i].at < s.history[j].saw
    ensures s.history[j].saw == s.history[j].clock ==> (s.history[i].at < CountOf(s.marks, p) <==> i < j)
    ensures MarksRise(s.marks)
  {
    InitInv(s0);
    RunInv(s0, acts, s);
    assert i != j;
    assert Before(s.history[if i < j then i else j], s.history[if i < j then j else i]);
    assert !s.pc.Marking? ==> AllMarks(s) == s.marks;
    if s.pc.Marking? {
      CountOfMore(s.marks, (s.head, s.pc.at), p);
      assert forall k :: 0 <= k < |s.marks| ==> s.marks[k] == AllMarks(s)[k];
    }
    assert CountOf(AllMarks(s), p) == s.history[j].at;
  }

  /** No later drain of a queue gives a count below the clock as it was read before an earlier drain. */
  lemma LaterDrainsAreAboveTheBound(s0: State, acts: seq<Action>, s: State, i: nat, j: nat)
    requires Init(s0) && Runs(s0, acts, s)
    requires i < j < |s.drains| && s.drains[i].q == s.drains[j].q
    ensures forall x <- s.drains[j].stamps :: s.drains[i].bound <= x
  {
    InitInv(s0);
    RunInv(s0, acts, s);
  }

  /**
    The answers' counts go up in the order the answers were written, so no two are equal and
    sorting by count gives that order; and what a client drained of a queue, with what is still in
    it, is everything written to it, once and in order.
  */
  lemma CountsGiveTheOrderOfWriting(s0: State, acts: seq<Action>, s: State)
    requires Init(s0) && Runs(s0, acts, s)
    ensures forall i, j :: 0 <= i < j < |s.history| && s.history[i].Answer? && s.history[j].Answer? ==>
      s.history[i].at < s.history[j].at
    ensures forall q: nat :: q < |s.queues| ==> Drained(s.drains, q) + InQueue(s.queues[q]) == StampsOf(s.history, q)
  {
    InitInv(s0);
    RunInv(s0, acts, s);
    assert forall i, j :: 0 <= i < j < |s.history| ==> Before(s.history[i], s.history[j]);
    forall q: nat | q < |s.queues| ensures Drained(s.drains, q) + InQueue(s.queues[q]) == StampsOf(s.history, q) {
      assert QueueInv(s, q);
    }
  }

  /**
    A message takes its place where `publish` looks at the clock, not where its head is stored: an
    answer counted in between is above the message although the reader could not see the message yet.
  */
  lemma AnAnswerMaySlipIn(s0: State) returns (acts: seq<Action>, s: State)
    requires Init(s0) && |s0.queues| > 0
    ensures Runs(s0, acts, s) && s.head == 0 && s.history == [Message(0, 1, 0, 1, 1), Answer(0, 1)]
    ensures Enabled(s, PubStore) && Apply(s, PubStore).head == 1
  {
    acts := [Write, PubLoad(1), Take(0), Count(0)];
    var s1 := Apply(s0, Write);
    var s2 := Apply(s1, PubLoad(1));
    var s3 := Apply(s2, Take(0));
    s := Apply(s3, Count(0));
    assert acts[1..] == [PubLoad(1), Take(0), Count(0)] && acts[1..][1..] == [Take(0), Count(0)]
      && acts[1..][1..][1..] == [Count(0)];
    assert [Count(0)][1..] == [];
    assert Runs(s3, [Count(0)], s);
    assert Runs(s2, [Take(0), Count(0)], s);
    assert Runs(s1, [PubLoad(1), Take(0), Count(0)], s);
  }

  /** An answer of another thread that `publish` does not see yet has a count above the message that follows it. */
  lemma AnAnswerMayBeUnseen(s0: State) returns (acts: seq<Action>, s: State)
    requires Init(s0) && |s0.queues| > 0
    ensures Runs(s0, acts, s) && s.history == [Answer(0, 1), Message(0, 1, 0, 1, 2)] && CountOf(s.marks, 0) == 0
  {
    acts := [Write, Take(0), Count(0), PubLoad(1)];
    var s1 := Apply(s0, Write);
    var s2 := Apply(s1, Take(0));
    var s3 := Apply(s2, Count(0));
    s := Apply(s3, PubLoad(1));
    assert acts[1..] == [Take(0), Count(0), PubLoad(1)] && acts[1..][1..] == [Count(0), PubLoad(1)]
      && acts[1..][1..][1..] == [PubLoad(1)];
    assert [PubLoad(1)][1..] == [];
    assert Runs(s3, [PubLoad(1)], s);
    assert Runs(s2, [Count(0), PubLoad(1)], s);
    assert Runs(s1, [Take(0), Count(0), PubLoad(1)], s);
  }

  // ── Answers and messages get through ──

  lemma {:induction false} OneStepMore(s: State, acts: seq<Action>, s1: State, a: Action)
    requires Runs(s, acts, s1) && Enabled(s1, a)
    ensures Runs(s, acts + [a], Apply(s1, a))
    decreases |acts|
  {
    hide Enabled, Apply;
    if acts == [] {
      assert ([] + [a])[1..] == [];
    } else {
      assert (acts + [a])[1..] == acts[1..] + [a];
      OneStepMore(Apply(s, acts[0]), acts[1..], s1, a);
    }
  }

  lemma Next(s0: State, acts: seq<Action>, s: State, a: Action) returns (acts': seq<Action>, s': State)
    requires Runs(s0, acts, s) && Enabled(s, a)
    ensures s' == Apply(s, a) && Runs(s0, acts', s')
  {
    OneStepMore(s0, acts, s, a);
    acts', s' := acts + [a], Apply(s, a);
  }

  /** A push of one answer. */
  lemma Pushed(s: State, q: nat) returns (acts: seq<Action>, s': State)
    requires q < |s.queues| && s.queues[q].lock.Free?
    ensures Runs(s, acts, s')
    ensures s' == s.(clock := s.clock + 1, history := s.history + [Answer(q, s.clock)],
                     queues := s.queues[q := Queue(s.queues[q].items + [s.clock], Free)])
  {
    assert Runs(s, [], s);
    hide Runs;
    acts, s' := Next(s, [], s, Take(q));
    acts, s' := Next(s, acts, s', Count(q));
    acts, s' := Next(s, acts, s', Store(q));
  }

  /** The clock is read, and then the queue is drained. */
  lemma DrainedNow(s0: State, acts: seq<Action>, s: State, q: nat) returns (acts': seq<Action>, s': State)
    requires Runs(s0, acts, s) && q < |s.queues| && s.queues[q].lock.Free?
    ensures Runs(s0, acts', s')
    ensures s' == s.(bound := s.clock, queues := s.queues[q := Queue([], Free)],
                     drains := s.drains + [Drain(q, s.clock, s.queues[q].items)])
  {
    hide Runs;
    acts', s' := Next(s0, acts, s, ReadClock(s.clock));
    acts', s' := Next(s0, acts', s', DrainQueue(q));
  }

  /** A push that has begun comes to its end. */
  lemma PushEnds(s: State, q: nat) returns (acts: seq<Action>, s': State)
    requires q < |s.queues|
    ensures Runs(s, acts, s') && |s'.queues| == |s.queues| && s'.queues[q].lock.Free?
    ensures s'.queues[q].items == s.queues[q].items + match s.queues[q].lock
      case Free => []
      case Held => [s.clock]
      case Counted(at) => [at]
  {
    assert Runs(s, [], s);
    hide Runs;
    acts, s' := [], s;
    if s'.queues[q].lock.Held? {
      acts, s' := Next(s, acts, s', Count(q));
    }
    if s'.queues[q].lock.Counted? {
      acts, s' := Next(s, acts, s', Store(q));
    }
  }

  /** A publication that has begun comes to its end. */
  lemma PublishEnds(s: State) returns (acts: seq<Action>, s': State)
    ensures Runs(s, acts, s') && s'.pc.Quiet? && s'.next == s.next && s'.head == if s.pc.Quiet? then s.head else s.next
  {
    assert Runs(s, [], s);
    hide Runs;
    acts, s' := [], s;
    if s'.pc.Counting? {
      acts, s' := Next(s, acts, s', PubCount);
    }
    if s'.pc.Marking? {
      acts, s' := Next(s, acts, s', PubMark);
    }
    if s'.pc.Storing? {
      acts, s' := Next(s, acts, s', PubStore);
    }
  }

  /**
    An answer can get through: from every reachable state with a queue's lock free, a push puts one
    answer in it with the clock's count, and a client that then reads the clock drains the queue with a
    bound above that count and has all that was ever written to it.
  */
  lemma AnAnswerGoesThrough(s0: State, acts0: seq<Action>, s: State, q: nat) returns (acts: seq<Action>, s': State)
    requires Init(s0) && Runs(s0, acts0, s) && q < |s.queues| && s.queues[q].lock.Free?
    ensures Runs(s, acts, s') && s'.history == s.history + [Answer(q, s.clock)]
    ensures s'.drains == s.drains + [Drain(q, s.clock + 1, s.queues[q].items + [s.clock])]
    ensures |s'.queues| == |s.queues| && s'.queues[q] == Queue([], Free)
    ensures Drained(s'.drains, q) == StampsOf(s'.history, q)
  {
    hide Runs, Inv, Init, StampsOf, Drained;
    InitInv(s0);
    RunInv(s0, acts0, s);
    acts, s' := Pushed(s, q);
    acts, s' := DrainedNow(s, acts, s', q);
    RunInv(s, acts, s');
    AllInOrder(s', q);
  }

  lemma AllInOrder(s: State, q: nat)
    requires Inv(s) && q < |s.queues| && InQueue(s.queues[q]) == []
    ensures Drained(s.drains, q) == StampsOf(s.history, q)
  {
    hide HistoryInv, MarksInv, BoundInv;
    assert QueueInv(s, q);
  }

  /** A step is written, and `publish` looks at the clock. */
  lemma LookedAtClock(s: State) returns (acts: seq<Action>, s': State)
    requires s.pc.Quiet? && s.head <= s.next && s.clockSeen <= s.clock
    ensures Runs(s, acts, s') && s'.next == s.next + 1 && s'.head == s.head && s'.clock == s.clock
    ensures s'.clockSeen == s.clockSeen
    ensures if s.clock != s.clockSeen then s'.pc.Counting? && s'.history == s.history else
      s'.pc.Storing? && s'.history == s.history + [Message(s.head, s.next + 1, s.clockSeen - 1, s.clock, s.clock)]
  {
    assert Runs(s, [], s);
    hide Runs;
    acts, s' := Next(s, [], s, Write);
    acts, s' := Next(s, acts, s', PubLoad(s.clock));
  }

  /** The message takes a count of its own, and the head is stored. */
  lemma CountedAndStored(s0: State, acts: seq<Action>, s: State) returns (acts': seq<Action>, s': State)
    requires Runs(s0, acts, s) && (s.pc.Counting? || s.pc.Storing?)
    ensures Runs(s0, acts', s') && s'.pc.Quiet? && s'.head == s'.next == s.next
    ensures s'.history == if s.pc.Storing? then s.history else
      s.history + [Message(s.head, s.next, s.clock, s.clock, s.clock)]
  {
    hide Runs;
    acts', s' := acts, s;
    if s'.pc.Counting? {
      acts', s' := Next(s0, acts', s', PubCount);
      acts', s' := Next(s0, acts', s', PubMark);
    }
    acts', s' := Next(s0, acts', s', PubStore);
  }

  /**
    A message can get through: from every reachable state with `publish` quiet, a step is written and all
    that is written is handed over as one message, which takes a count of its own if and only if the
    clock has moved since the engine looked last.
  */
  lemma AMessageGoesThrough(s0: State, acts0: seq<Action>, s: State) returns (acts: seq<Action>, s': State)
    requires Init(s0) && Runs(s0, acts0, s) && s.pc.Quiet?
    ensures Runs(s, acts, s') && s'.pc.Quiet? && s'.head == s'.next == s.next + 1
    ensures var at := if s.clock == s.clockSeen then s.clockSeen - 1 else s.clock;
      && s'.history == s.history + [Message(s.head, s.next + 1, at, s.clock, s.clock)]
      && forall p: nat :: s.head <= p <= s.next ==> CountOf(s'.marks, p) == at
  {
    hide Runs, Inv, Init, CountOf;
    InitInv(s0);
    RunInv(s0, acts0, s);
    QuietHeads(s);
    acts, s' := LookedAtClock(s);
    acts, s' := CountedAndStored(s, acts, s');
    RunInv(s, acts, s');
    MessageCounts(s', |s.history|);
  }

  lemma QuietHeads(s: State)
    requires Inv(s)
    ensures s.head <= s.next && 1 <= s.clockSeen <= s.clock
  {
  }

  lemma MessageCounts(s: State, i: nat)
    requires Inv(s) && s.pc.Quiet? && i < |s.history| && s.history[i].Message?
    ensures forall p: nat :: s.history[i].from <= p < s.history[i].to ==> CountOf(s.marks, p) == s.history[i].at
  {
    hide CountOf, Ordered;
    assert AllMarks(s) == s.marks;
    assert s.history[i] in s.history;
  }
}

/**
  The passes of a client over a session: each takes the client's own answers, reads the clock, drains the
  queues and gives what it has in hand, one answer after the other, each time the lowest in front. The
  pushes to the queues, the passes and the answers that other threads of the client make are interleaved.
*/
module Passes {
  import opened Basics
  import AnswerOrder
  import Merge

  type Queue = AnswerOrder.Queue

  /** A queue that nobody pushes to now. */
  function AtRest(items: seq<nat>): Queue {
    AnswerOrder.Queue.Queue(items, AnswerOrder.Free)
  }

  /** Another thread of the client, between the count of an answer of its own and its place in the list. */
  datatype Maker = Resting | Stamped(at: nat)

  /** Where a pass is: none, own answers taken, `k` queues drained with the clock read at `bound`, all in hand. */
  datatype Phase = Out | OwnTaken | Draining(bound: nat, k: nat) | Ready(bound: nat)

  /** Where an answer is written to. */
  datatype Home = InQueue(q: nat) | InOwn

  /** Answers are named by their counts. */
  datatype State = State(
    clock: nat, written: seq<nat>, home: map<nat, Home>,
    queues: seq<Queue>, makers: seq<Maker>, local: seq<nat>,
    // The pass: the own answers taken, what was drained, the clock of the last pass, and what was given.
    phase: Phase, own: seq<nat>, inbox: seq<seq<nat>>, last: nat, given: seq<nat>)

  datatype Action =
    | Take(q: nat)
    | Count(q: nat)
    | Store(q: nat)
    | Tick
    | Stamp(m: nat)
    | PushOwn(m: nat)
    | Later
    | StartPass
    | ReadClock(b: nat, skip: bool)
    | DrainQueue
    | Dispatch(out: seq<nat>, left: seq<seq<nat>>)

  ghost predicate Holds(queue: Queue, x: nat) {
    x in queue.items || queue.lock == AnswerOrder.Counted(x)
  }

  ghost predicate InQueues(queues: seq<Queue>, x: nat) {
    exists q :: 0 <= q < |queues| && Holds(queues[q], x)
  }

  ghost predicate InMakers(makers: seq<Maker>, x: nat) {
    exists m :: 0 <= m < |makers| && makers[m] == Stamped(x)
  }

  /** What the pass has in hand. */
  function Sources(s: State): seq<seq<nat>> {
    s.inbox + [s.own]
  }

  ghost predicate Waits(s: State, x: nat) {
    Merge.Has(Sources(s), x) || x in s.local || InQueues(s.queues, x) || InMakers(s.makers, x)
  }

  ghost predicate Init(s: State) {
    && s.clock == 1 && s.written == [] && s.home == map[] && s.local == [] && s.own == [] && s.given == []
    && s.last == 0
    && (forall q :: 0 <= q < |s.queues| ==> s.queues[q] == AtRest([]))
    && (forall m :: 0 <= m < |s.makers| ==> s.makers[m] == Resting)
    && s.phase == Out && |s.inbox| == |s.queues| && (forall k :: 0 <= k < |s.inbox| ==> s.inbox[k] == [])
  }

  ghost predicate Enabled(s: State, a: Action) {
    match a
    case Take(q) => q < |s.queues| && s.queues[q].lock.Free?
    case Count(q) => q < |s.queues| && s.queues[q].lock.Held?
    case Store(q) => q < |s.queues| && s.queues[q].lock.Counted?
    case Tick => true
    case Stamp(m) => m < |s.makers| && s.makers[m].Resting?
    case PushOwn(m) => m < |s.makers| && s.makers[m].Stamped?
    // The thread of the passes makes an answer itself: between passes, or from a callback.
    case Later => s.phase.Out? || s.phase.Ready?
    case StartPass => s.phase.Out?
    // A relaxed load: any count from that of the last pass on, and above the own answers taken, whose
    // list is locked. Draining may be left out when the clock has not moved.
    case ReadClock(b, skip) =>
      s.phase.OwnTaken? && s.last <= b <= s.clock && (forall x <- s.own :: x < b) && (skip ==> b == s.last)
    case DrainQueue =>
      s.phase.Draining? && s.phase.k < |s.queues| == |s.inbox| && s.queues[s.phase.k].lock.Free?
    // The loop of the dispatch of answers, as `Inboxes.Dispatch` runs it.
    case Dispatch(out, left) =>
      && (s.phase.Ready? || (s.phase.Draining? && s.phase.k == |s.queues|))
      && Merge.Gave(Sources(s), s.phase.bound, out, left) && Merge.Done(left, s.phase.bound)
      && |left| == |s.inbox| + 1
  }

  /** An answer takes the next count. */
  function Counted(s: State, home: Home): State {
    s.(clock := s.clock + 1, written := s.written + [s.clock], home := s.home[s.clock := home])
  }

  ghost function Apply(s: State, a: Action): State
    requires Enabled(s, a)
  {
    match a
    // ── The push to a queue ──
    case Take(q) => s.(queues := s.queues[q := s.queues[q].(lock := AnswerOrder.Held)])
    case Count(q) =>
      Counted(s, InQueue(q)).(queues := s.queues[q := s.queues[q].(lock := AnswerOrder.Counted(s.clock))])
    case Store(q) => s.(queues := s.queues[q := AtRest(s.queues[q].items + [s.queues[q].lock.at])])
    case Tick => s.(clock := s.clock + 1)
    // ── Own answers ──
    case Stamp(m) => Counted(s, InOwn).(makers := s.makers[m := Stamped(s.clock)])
    case PushOwn(m) => s.(makers := s.makers[m := Resting], local := s.local + [s.makers[m].at])
    case Later => Counted(s, InOwn).(local := s.local + [s.clock])
    // ── The pass ──
    case StartPass => s.(phase := OwnTaken, own := s.local, local := [])
    case ReadClock(b, skip) => s.(phase := if skip then Ready(b) else Draining(b, 0))
    case DrainQueue =>
      var Draining(b, k) := s.phase;
      s.(phase := if k + 1 == |s.queues| then Ready(b) else Draining(b, k + 1),
         inbox := s.inbox[k := s.inbox[k] + s.queues[k].items], queues := s.queues[k := AtRest([])])
    case Dispatch(out, left) =>
      s.(phase := Out, given := s.given + out, last := s.phase.bound,
         inbox := left[..|s.inbox|], own := [], local := left[|s.inbox|] + s.local)
  }

  // ── Every answer is given or waits ──

  ghost predicate Accounted(s: State) {
    forall x: nat :: x in s.written <==> x in s.given || Waits(s, x)
  }

  /** An answer waits where it was written to. */
  ghost predicate AtHome(s: State) {
    && (forall x: nat :: x in s.home ==> x < s.clock)
    && (forall k, x: nat :: 0 <= k < |s.inbox| && x in s.inbox[k] ==> x in s.home && s.home[x] == InQueue(k))
    && (forall q, x: nat :: 0 <= q < |s.queues| && Holds(s.queues[q], x) ==> x in s.home && s.home[x] == InQueue(q))
    && (forall x: nat :: x in s.own || x in s.local || InMakers(s.makers, x) ==> x in s.home && s.home[x] == InOwn)
  }

  /** What was drained from a queue and what is in it is in the order of the counts. */
  ghost predicate QueueUp(drained: seq<nat>, queue: Queue) {
    && Ascending(drained + queue.items)
    && (queue.lock.Counted? ==> forall x <- drained + queue.items :: x < queue.lock.at)
  }

  ghost predicate QueuesUp(s: State) {
    |s.inbox| == |s.queues| && forall k :: 0 <= k < |s.queues| ==> QueueUp(s.inbox[k], s.queues[k])
  }

  ghost predicate Inv(s: State) {
    && s.last <= s.clock && (s.phase.Out? ==> s.own == []) && (s.phase.Draining? ==> s.phase.k <= |s.queues|)
    && (s.phase.Draining? || s.phase.Ready? ==>
          s.last <= s.phase.bound <= s.clock && forall x <- s.own :: x < s.phase.bound)
    && Ascending(s.written) && (forall x <- s.written :: x < s.clock)
    && Accounted(s) && AtHome(s) && QueuesUp(s)
  }

  lemma QueueSet(queues: seq<Queue>, q: nat, queue: Queue, x: nat)
    requires q < |queues|
    ensures InQueues(queues[q := queue], x) <==>
      Holds(queue, x) || exists p :: 0 <= p < |queues| && p != q && Holds(queues[p], x)
    ensures InQueues(queues, x) <==>
      Holds(queues[q], x) || exists p :: 0 <= p < |queues| && p != q && Holds(queues[p], x)
  {
    var more := queues[q := queue];
    if p :| 0 <= p < |queues| && p != q && Holds(queues[p], x) {
      assert Holds(more[p], x);
    }
    assert more[q] == queue;
  }

  lemma MakerSet(makers: seq<Maker>, m: nat, maker: Maker, x: nat)
    requires m < |makers|
    ensures InMakers(makers[m := maker], x) <==>
      maker == Stamped(x) || exists p :: 0 <= p < |makers| && p != m && makers[p] == Stamped(x)
    ensures InMakers(makers, x) <==>
      makers[m] == Stamped(x) || exists p :: 0 <= p < |makers| && p != m && makers[p] == Stamped(x)
  {
    var more := makers[m := maker];
    if p :| 0 <= p < |makers| && p != m && makers[p] == Stamped(x) {
      assert more[p] == Stamped(x);
    }
    assert more[m] == maker;
  }

  /** Two lists of sources: the answers of the one are those of the other and `more` in source `k`. */
  lemma HasSet(sources: seq<seq<nat>>, k: nat, more: seq<nat>, x: nat)
    requires k < |sources|
    ensures Merge.Has(sources[k := sources[k] + more], x) <==> Merge.Has(sources, x) || x in more
  {
    var sources' := sources[k := sources[k] + more];
    assert x in more ==> x in sources'[k];
    if i :| 0 <= i < |sources| && x in sources[i] {
      assert x in sources'[i];
    }
  }

  lemma HasOwn(inbox: seq<seq<nat>>, own: seq<nat>, x: nat)
    ensures Merge.Has(inbox + [own], x) <==> Merge.Has(inbox, x) || x in own
  {
    var all := inbox + [own];
    assert all[|inbox|] == own;
    if i :| 0 <= i < |inbox| && x in inbox[i] {
      assert x in all[i];
    }
  }

  lemma PushAccounted(s: State, a: Action)
    requires Inv(s) && Enabled(s, a) && (a.Take? || a.Count? || a.Store?)
    ensures Accounted(Apply(s, a))
  {
    hide InQueues, Merge.Has, InMakers, AtHome, QueuesUp;
    var s' := Apply(s, a);
    forall x: nat ensures x in s'.written <==> x in s'.given || Waits(s', x) {
      QueueSet(s.queues, a.q, s'.queues[a.q], x);
      assert Holds(s'.queues[a.q], x) <==> Holds(s.queues[a.q], x) || (a.Count? && x == s.clock);
    }
  }

  lemma OwnAccounted(s: State, a: Action)
    requires Inv(s) && Enabled(s, a) && (a.Stamp? || a.PushOwn? || a.Later?)
    ensures Accounted(Apply(s, a))
  {
    hide InQueues, Merge.Has, InMakers, AtHome, QueuesUp;
    var s' := Apply(s, a);
    forall x: nat ensures x in s'.written <==> x in s'.given || Waits(s', x) {
      if a.Stamp? || a.PushOwn? {
        MakerSet(s.makers, a.m, s'.makers[a.m], x);
      }
    }
  }

  lemma DrainAccounted(s: State)
    requires Inv(s) && Enabled(s, Action.DrainQueue)
    ensures Accounted(Apply(s, Action.DrainQueue))
  {
    hide InQueues, Merge.Has, InMakers, AtHome, QueuesUp;
    var s', k := Apply(s, Action.DrainQueue), s.phase.k;
    forall x: nat ensures x in s'.written <==> x in s'.given || Waits(s', x) {
      QueueSet(s.queues, k, AtRest([]), x);
      HasSet(s.inbox, k, s.queues[k].items, x);
      HasOwn(s.inbox, s.own, x);
      HasOwn(s'.inbox, s.own, x);
      assert Holds(s.queues[k], x) <==> x in s.queues[k].items;
    }
  }

  lemma StartAccounted(s: State)
    requires Inv(s) && Enabled(s, StartPass)
    ensures Accounted(Apply(s, StartPass))
  {
    hide InQueues, Merge.Has, InMakers, AtHome, QueuesUp;
    var s' := Apply(s, StartPass);
    forall x: nat ensures x in s'.written <==> x in s'.given || Waits(s', x) {
      HasOwn(s.inbox, s.own, x);
      HasOwn(s.inbox, s.local, x);
    }
  }

  /** After a dispatch, what waits is what was left and what waited elsewhere. */
  lemma DispatchWaits(s: State, a: Action, x: nat)
    requires Inv(s) && Enabled(s, a) && a.Dispatch?
    ensures Waits(Apply(s, a), x) <==>
      Merge.Has(a.left, x) || x in s.local || InQueues(s.queues, x) || InMakers(s.makers, x)
  {
    hide InQueues, Merge.Has, InMakers, Merge.Gave, Accounted, AtHome, QueuesUp;
    var s', n := Apply(s, a), |s.inbox|;
    assert a.left == s'.inbox + [a.left[n]];
    HasOwn(s'.inbox, a.left[n], x);
    HasOwn(s'.inbox, [], x);
  }

  lemma DispatchAccounted(s: State, a: Action)
    requires Inv(s) && Enabled(s, a) && a.Dispatch?
    ensures Accounted(Apply(s, a))
  {
    hide InQueues, Merge.Has, InMakers, AtHome, QueuesUp;
    Merge.GaveKeeps(Sources(s), s.phase.bound, a.out, a.left);
    hide Merge.Gave;
    var s' := Apply(s, a);
    forall x: nat ensures x in s'.written <==> x in s'.given || Waits(s', x) {
      DispatchWaits(s, a, x);
    }
  }

  lemma AccountedStep(s: State, a: Action)
    requires Inv(s) && Enabled(s, a)
    ensures Accounted(Apply(s, a))
  {
    hide AtHome, QueuesUp;
    match a
    case DrainQueue => DrainAccounted(s);
    case StartPass => StartAccounted(s);
    case Dispatch(_, _) => DispatchAccounted(s, a);
    case Take(_) => PushAccounted(s, a);
    case Count(_) => PushAccounted(s, a);
    case Store(_) => PushAccounted(s, a);
    case Stamp(_) => OwnAccounted(s, a);
    case PushOwn(_) => OwnAccounted(s, a);
    case Later => OwnAccounted(s, a);
    case _ =>
      forall x: nat ensures x in Apply(s, a).written <==> x in Apply(s, a).given || Waits(Apply(s, a), x) {
        assert Waits(Apply(s, a), x) <==> Waits(s, x);
      }
  }

  lemma HomePush(s: State, a: Action)
    requires AtHome(s) && Enabled(s, a) && (a.Take? || a.Count? || a.Store?)
    ensures AtHome(Apply(s, a))
  {
    hide InMakers;
    var s' := Apply(s, a);
    forall q, x: nat | 0 <= q < |s'.queues| && Holds(s'.queues[q], x)
      ensures x in s'.home && s'.home[x] == InQueue(q)
    {
      if Holds(s.queues[q], x) {
        assert x in s.home && x < s.clock;
      } else {
        assert a.Count? && a.q == q && x == s.clock;
      }
    }
  }

  lemma HomeOwn(s: State, a: Action)
    requires AtHome(s) && Enabled(s, a) && (a.Stamp? || a.PushOwn? || a.Later?)
    ensures AtHome(Apply(s, a))
  {
    hide InMakers;
    var s' := Apply(s, a);
    assert forall x: nat :: x in s.home ==> x in s'.home && s'.home[x] == s.home[x];
    forall x: nat | x in s'.own || x in s'.local || InMakers(s'.makers, x) ensures x in s'.home && s'.home[x] == InOwn {
      if !a.Later? {
        MakerSet(s.makers, a.m, s'.makers[a.m], x);
      }
    }
  }

  lemma HomeDrain(s: State)
    requires AtHome(s) && Enabled(s, Action.DrainQueue)
    ensures AtHome(Apply(s, Action.DrainQueue))
  {
    hide InMakers;
    var s' := Apply(s, Action.DrainQueue);
    forall k, x: nat | 0 <= k < |s'.inbox| && x in s'.inbox[k] ensures x in s'.home && s'.home[x] == InQueue(k) {
      if x !in s.inbox[k] {
        assert x in s.queues[k].items && Holds(s.queues[k], x);
      }
    }
    forall q, x: nat | 0 <= q < |s'.queues| && Holds(s'.queues[q], x)
      ensures x in s'.home && s'.home[x] == InQueue(q)
    {
      assert Holds(s.queues[q], x);
    }
  }

  lemma HomeStep(s: State, a: Action)
    requires AtHome(s) && Enabled(s, a) && !a.Dispatch?
    ensures AtHome(Apply(s, a))
  {
    if a.Take? || a.Count? || a.Store? {
      HomePush(s, a);
    } else if a.Stamp? || a.PushOwn? || a.Later? {
      HomeOwn(s, a);
    } else if a.DrainQueue? {
      HomeDrain(s);
    } else {
      hide InMakers, Holds;
    }
  }

  lemma HomeDispatched(s: State, a: Action)
    requires Inv(s) && Enabled(s, a) && a.Dispatch?
    ensures AtHome(Apply(s, a))
  {
    hide Accounted, QueuesUp, InMakers, Merge.Has;
    LeftAreParts(s, a);
    hide Merge.Gave;
  }

  /** No two sources of a pass have one answer, and what is left of each is the end of it. */
  lemma LeftAreParts(s: State, a: Action)
    requires AtHome(s) && Enabled(s, a) && a.Dispatch?
    ensures Merge.Apart(Sources(s))
    ensures forall k, x: nat :: 0 <= k < |s.inbox| && x in a.left[k] ==> x in s.inbox[k]
    ensures forall x: nat :: x in a.left[|s.inbox|] ==> x in s.own
  {
    hide InMakers, InQueues, Merge.Has;
    SourcesApart(s);
    Merge.GavePart(Sources(s), s.phase.bound, a.out, a.left, 0);
    hide Merge.Gave, Merge.Apart;
    assert forall l, y :: 0 <= l < |a.left| && y in a.left[l] ==> y in Sources(s)[l];
    assert forall k :: 0 <= k < |s.inbox| ==> Sources(s)[k] == s.inbox[k];
    assert Sources(s)[|s.inbox|] == s.own;
  }

  lemma SourcesApart(s: State)
    requires AtHome(s)
    ensures Merge.Apart(Sources(s))
  {
    hide InMakers, InQueues;
    var all := Sources(s);
    forall k, l, i, j | 0 <= k < l < |all| && 0 <= i < |all[k]| && 0 <= j < |all[l]| ensures all[k][i] != all[l][j] {
      var x, y := all[k][i], all[l][j];
      assert x in s.inbox[k] && s.home[x] == InQueue(k);
      if l < |s.inbox| {
        assert y in s.inbox[l] && s.home[y] == InQueue(l);
      } else {
        assert y in s.own && s.home[y] == InOwn;
      }
    }
  }

  lemma UpStep(s: State, a: Action)
    requires Inv(s) && Enabled(s, a) && !a.Dispatch?
    ensures QueuesUp(Apply(s, a))
  {
    hide Accounted, InMakers, Merge.Has, InQueues;
    var s' := Apply(s, a);
    forall k | 0 <= k < |s'.queues| ensures QueueUp(s'.inbox[k], s'.queues[k]) {
      assert QueueUp(s.inbox[k], s.queues[k]);
      if a.Count? && a.q == k {
        CountedLast(s, k);
      } else if a.Store? && a.q == k {
        var drained, items, at := s.inbox[k], s.queues[k].items, s.queues[k].lock.at;
        assert drained + (items + [at]) == drained + items + [at];
        AscendingMore(drained + items, at);
      } else if a.DrainQueue? && s.phase.k == k {
        assert s'.inbox[k] + [] == s.inbox[k] + s.queues[k].items;
      }
    }
  }

  /** The clock is above all that a queue has and had. */
  lemma CountedLast(s: State, k: nat)
    requires AtHome(s) && |s.inbox| == |s.queues| && k < |s.queues|
    ensures forall x <- s.inbox[k] + s.queues[k].items :: x < s.clock
  {
    forall x | x in s.inbox[k] + s.queues[k].items ensures x < s.clock {
      assert x in s.inbox[k] || (x in s.queues[k].items && Holds(s.queues[k], x));
      assert x in s.home;
    }
  }

  lemma UpDispatched(s: State, a: Action)
    requires Inv(s) && Enabled(s, a) && a.Dispatch?
    ensures QueuesUp(Apply(s, a))
  {
    hide Accounted, InMakers, Merge.Has, InQueues;
    SourcesApart(s);
    var s' := Apply(s, a);
    forall k | 0 <= k < |s'.queues| ensures QueueUp(s'.inbox[k], s'.queues[k]) {
      assert QueueUp(s.inbox[k], s.queues[k]);
      Merge.GavePart(Sources(s), s.phase.bound, a.out, a.left, k);
      assert Sources(s)[k] == s.inbox[k];
      EndUp(Merge.Part(a.out, s.inbox[k]), a.left[k], s.queues[k]);
    }
  }

  lemma EndUp(gone: seq<nat>, drained: seq<nat>, queue: Queue)
    requires QueueUp(gone + drained, queue)
    ensures QueueUp(drained, queue)
  {
    var all, end := gone + drained + queue.items, drained + queue.items;
    assert forall i :: 0 <= i < |end| ==> end[i] == all[|gone| + i];
    assert forall x <- end :: x in all;
  }

  lemma StepInv(s: State, a: Action)
    requires Inv(s) && Enabled(s, a)
    ensures Inv(Apply(s, a))
  {
    AccountedStep(s, a);
    if a.Dispatch? {
      HomeDispatched(s, a);
      UpDispatched(s, a);
    } else {
      HomeStep(s, a);
      UpStep(s, a);
    }
    hide Accounted, AtHome, QueuesUp;
    if |Apply(s, a).written| > |s.written| {
      AscendingMore(s.written, s.clock);
    }
  }

  // ── In the order of the counts ──

  /** What was given is in the order of the counts and below the last bound; what waits is not below it. */
  ghost predicate Good(s: State) {
    && Ascending(s.given) && (forall x <- s.given :: x < s.last)
    && (forall x: nat :: Waits(s, x) ==> s.last <= x)
  }

  /** The queues drained in this pass hold nothing below its bound. */
  ghost predicate DrainedFrom(s: State) {
    match s.phase
    case Draining(b, k) => k <= |s.queues| && forall q, x: nat :: 0 <= q < k && Holds(s.queues[q], x) ==> b <= x
    case Ready(b) => forall q, x: nat :: 0 <= q < |s.queues| && Holds(s.queues[q], x) ==> b <= x
    case _ => true
  }

  lemma DrainedStep(s: State, a: Action)
    requires Inv(s) && Good(s) && DrainedFrom(s) && Enabled(s, a)
    ensures DrainedFrom(Apply(s, a))
  {
    hide Accounted, InMakers, AtHome, QueuesUp, Merge.Has, Merge.Gave;
    var s' := Apply(s, a);
    if s'.phase.Draining? || s'.phase.Ready? {
      var n := if s'.phase.Draining? then s'.phase.k else |s'.queues|;
      forall q, x: nat | 0 <= q < n && q < |s'.queues| && Holds(s'.queues[q], x) ensures s'.phase.bound <= x {
        assert Holds(s.queues[q], x) || x == s.clock;
        assert Holds(s.queues[q], x) ==> InQueues(s.queues, x) && Waits(s, x);
      }
    }
  }

  /** Only new answers, with counts above all before, come to what waits. */
  lemma WaitsMore(s: State, a: Action, x: nat)
    requires Inv(s) && Enabled(s, a) && !a.Dispatch? && Waits(Apply(s, a), x) && !Waits(s, x)
    ensures s.clock <= x
  {
    hide InQueues, Merge.Has, InMakers, Accounted, AtHome, QueuesUp;
    if a.Take? || a.Count? || a.Store? {
      QueueSet(s.queues, a.q, Apply(s, a).queues[a.q], x);
    } else if a.Stamp? || a.PushOwn? {
      MakerSet(s.makers, a.m, Apply(s, a).makers[a.m], x);
    } else if a.DrainQueue? {
      QueueSet(s.queues, s.phase.k, AtRest([]), x);
      HasSet(s.inbox, s.phase.k, s.queues[s.phase.k].items, x);
      HasOwn(s.inbox, s.own, x);
      HasOwn(Apply(s, a).inbox, s.own, x);
    } else if a.StartPass? {
      HasOwn(s.inbox, s.own, x);
      HasOwn(s.inbox, s.local, x);
    }
  }

  lemma GoodStep(s: State, a: Action)
    requires Inv(s) && Good(s) && Enabled(s, a) && !a.Dispatch?
    ensures Good(Apply(s, a))
  {
    hide Waits, Accounted, AtHome, QueuesUp;
    forall x: nat | Waits(Apply(s, a), x) ensures Apply(s, a).last <= x {
      if !Waits(s, x) {
        WaitsMore(s, a, x);
      }
    }
  }

  /** No own answer counted below the bound of the pass has come too late for it. */
  ghost predicate NoneLate(s: State)
    requires s.phase.Ready? || s.phase.Draining?
  {
    forall x: nat :: x in s.local || InMakers(s.makers, x) ==> s.phase.bound <= x
  }

  /** What the dispatch gives is in order just when the own answers are, and nothing below the bound is left. */
  lemma DispatchOrder(s: State, a: Action)
    requires Inv(s) && Enabled(s, a) && a.Dispatch?
    ensures Ascending(a.out) <==> Ascending(s.own)
    ensures a.left[|s.inbox|] == [] && forall x: nat :: Merge.Has(a.left, x) ==> s.phase.bound <= x
    ensures forall x: nat :: x in a.out ==> x < s.phase.bound && Merge.Has(Sources(s), x)
  {
    hide Accounted, InMakers, InQueues;
    var all, n, b := Sources(s), |s.inbox|, s.phase.bound;
    SourcesApart(s);
    forall k | 0 <= k < n ensures Ascending(all[k]) {
      assert QueueUp(s.inbox[k], s.queues[k]);
      FrontUp(s.inbox[k], s.queues[k].items);
    }
    assert all[n] == s.own;
    Merge.OneSourceIff(all, b, a.out, a.left, n);
    Merge.GaveKeeps(all, b, a.out, a.left);
    UpDispatched(s, a);
    forall x: nat | Merge.Has(a.left, x) ensures b <= x {
      var k :| 0 <= k < |a.left| && x in a.left[k];
      assert k < n && a.left[k] == Apply(s, a).inbox[k] && QueueUp(a.left[k], s.queues[k]);
      FrontUp(a.left[k], s.queues[k].items);
      FrontIsLowest(a.left[k], b, x);
    }
  }

  lemma FrontUp(xs: seq<nat>, more: seq<nat>)
    requires Ascending(xs + more)
    ensures Ascending(xs)
  {
    assert forall i :: 0 <= i < |xs| ==> (xs + more)[i] == xs[i];
  }

  lemma FrontIsLowest(xs: seq<nat>, b: nat, x: nat)
    requires Ascending(xs) && x in xs && b <= xs[0]
    ensures b <= x
  {
    var i :| 0 <= i < |xs| && xs[i] == x;
    assert i > 0 ==> xs[0] < xs[i];
  }

  lemma AscendingJoin(xs: seq<nat>, ys: seq<nat>, m: nat)
    requires Ascending(xs) && (forall x <- xs :: x < m) && (forall y <- ys :: m <= y)
    ensures Ascending(xs + ys) <==> Ascending(ys)
  {
    var all := xs + ys;
    assert forall i :: 0 <= i < |xs| ==> all[i] == xs[i] && xs[i] in xs;
    assert forall i :: 0 <= i < |ys| ==> all[|xs| + i] == ys[i] && ys[i] in ys;
  }

  /**
    A pass keeps the order, with no answer left out, if and only if the own answers it took are in the order
    of their counts, and none counted below its bound is on its way or came to the list after that.
  */
  lemma PassKeepsOrderIff(s: State, a: Action)
    requires Inv(s) && Good(s) && DrainedFrom(s) && Enabled(s, a) && a.Dispatch?
    ensures Good(Apply(s, a)) <==> NoneLate(s) && Ascending(s.own)
  {
    hide Accounted, AtHome, QueuesUp, Merge.Has, InMakers, Merge.Gave, Merge.Done;
    var s', b := Apply(s, a), s.phase.bound;
    DispatchOrder(s, a);
    forall x: nat ensures Waits(s', x) <==>
      Merge.Has(a.left, x) || x in s.local || InQueues(s.queues, x) || InMakers(s.makers, x)
    {
      DispatchWaits(s, a, x);
    }
    assert forall x: nat :: InQueues(s.queues, x) ==> b <= x;
    forall x <- a.out ensures s.last <= x < b {
      assert Merge.Has(Sources(s), x) && Waits(s, x);
    }
    AscendingJoin(s.given, a.out, s.last);
  }

  // ── Runs ──

  ghost predicate Runs(s: State, acts: seq<Action>, s': State)
    decreases |acts|
  {
    if acts == [] then s' == s else Enabled(s, acts[0]) && Runs(Apply(s, acts[0]), acts[1..], s')
  }

  /** The thread of the passes is the only one of the client that makes answers, so they are in order. */
  ghost predicate OneThread(s: State) {
    && (forall m :: 0 <= m < |s.makers| ==> s.makers[m] == Resting)
    && (s.phase.OwnTaken? || s.phase.Draining? ==> s.local == [])
    && (s.phase.Ready? ==> forall x <- s.local :: s.phase.bound <= x)
    && Ascending(s.own) && Ascending(s.local) && forall x <- s.local :: x < s.clock
  }

  lemma OneThreadStep(s: State, a: Action)
    requires Inv(s) && OneThread(s) && Enabled(s, a) && !a.Stamp?
    ensures OneThread(Apply(s, a))
  {
    hide Accounted, AtHome, QueuesUp, Merge.Has;
    if a.Later? {
      AscendingMore(s.local, s.clock);
    } else if a.Dispatch? {
      hide Inv;
      DispatchOrder(s, a);
      assert [] + s.local == s.local;
    }
  }

  lemma OneThreadNoneLate(s: State)
    requires OneThread(s) && (s.phase.Ready? || s.phase.Draining?)
    ensures NoneLate(s) && Ascending(s.own)
  {
  }

  lemma {:induction false} OneThreadRun(s: State, acts: seq<Action>, s': State)
    requires Inv(s) && Good(s) && DrainedFrom(s) && OneThread(s) && Runs(s, acts, s')
    requires forall i :: 0 <= i < |acts| ==> !acts[i].Stamp?
    ensures Inv(s') && Good(s')
    decreases |acts|
  {
    hide Inv, Good, DrainedFrom, OneThread, Apply, NoneLate;
    if acts != [] {
      var a := acts[0];
      StepInv(s, a);
      DrainedStep(s, a);
      OneThreadStep(s, a);
      if a.Dispatch? {
        OneThreadNoneLate(s);
        PassKeepsOrderIff(s, a);
      } else {
        GoodStep(s, a);
      }
      OneThreadRun(Apply(s, a), acts[1..], s');
    }
  }

  lemma InitGood(s: State)
    requires Init(s)
    ensures Inv(s) && Good(s) && DrainedFrom(s) && OneThread(s)
  {
    assert forall k :: 0 <= k < |s.inbox| ==> s.inbox[k] + s.queues[k].items == [];
  }

  /**
    Over any run of passes, with one thread of the client and any pushes of the engine in between: the
    answers given, queued ones and own ones, are in the order of their counts across all passes, and they
    are exactly the answers counted below the bound of the last pass: none is left out or given twice.
  */
  lemma PassesGiveInOrder(s0: State, acts: seq<Action>, s: State)
    requires Init(s0) && Runs(s0, acts, s) && forall i :: 0 <= i < |acts| ==> !acts[i].Stamp?
    ensures forall i, j :: 0 <= i < j < |s.given| ==> s.given[i] < s.given[j]
    ensures forall x: nat :: x in s.given <==> x in s.written && x < s.last
  {
    hide Waits, AtHome, QueuesUp;
    InitGood(s0);
    OneThreadRun(s0, acts, s);
  }

  // ── Every answer is given in the end ──

  /** Nobody pushes, and the run so far has one thread of the client. */
  ghost predicate Driven(s0: State, acts: seq<Action>, s: State) {
    && Runs(s0, acts, s) && Inv(s) && (forall i :: 0 <= i < |acts| ==> !acts[i].Stamp?)
    && forall q :: 0 <= q < |s.queues| ==> s.queues[q].lock.Free?
  }

  /** What a pass does next when it reads the clock fresh. */
  lemma NextInPass(s: State) returns (a: Action)
    requires Inv(s) && !s.phase.Out? && forall q :: 0 <= q < |s.queues| ==> s.queues[q].lock.Free?
    ensures Enabled(s, a)
    ensures a == ReadClock(s.clock, false) || a == DrainQueue || a.Dispatch?
  {
    hide Accounted, Merge.Gave;
    if s.phase.OwnTaken? {
      assert forall x <- s.own :: x in s.home;
      a := ReadClock(s.clock, false);
    } else if s.phase.Draining? && s.phase.k < |s.queues| {
      a := DrainQueue;
    } else {
      NothingGiven(Sources(s), s.phase.bound);
      var out, left := Merge.GivingEnds(Sources(s), s.phase.bound, [], Sources(s));
      Merge.GaveKeeps(Sources(s), s.phase.bound, out, left);
      a := Dispatch(out, left);
    }
  }

  lemma NothingGiven(sources: seq<seq<nat>>, b: nat)
    ensures Merge.Gave(sources, b, [], sources)
  {
  }

  lemma DrivenStep(s0: State, acts: seq<Action>, s: State, a: Action)
    requires Driven(s0, acts, s) && Enabled(s, a)
    requires a == StartPass || a.ReadClock? || a == DrainQueue || a.Dispatch?
    ensures var s' := Apply(s, a);
      Driven(s0, acts + [a], s') && s'.clock == s.clock && s'.written == s.written && |s'.queues| == |s.queues|
  {
    OneStepMore(s0, acts, s, a, Apply(s, a));
    StepInv(s, a);
    hide Inv, Runs, Merge.Gave, Merge.Done;
  }

  /** The clock of this pass, once read, is the present one. */
  ghost predicate Fresh(s: State) {
    match s.phase
    case Out => s.last == s.clock
    case OwnTaken => true
    case Draining(b, _) => b == s.clock
    case Ready(b) => b == s.clock
  }

  /** A pass that has begun comes to its end. */
  lemma {:induction false} PassEnds(s0: State, acts: seq<Action>, s: State) returns (acts': seq<Action>, s': State)
    requires Driven(s0, acts, s)
    ensures Driven(s0, acts', s') && acts <= acts' && s'.phase.Out?
    ensures s'.written == s.written && s'.clock == s.clock
    ensures Fresh(s) ==> s'.last == s.clock
    decreases match s.phase case OwnTaken => |s.queues| + 3 case Draining(_, k) => |s.queues| + 2 - k
                            case Ready(_) => 1 case Out => 0
  {
    hide Inv, Runs, Merge.Gave, Merge.Done;
    acts', s' := acts, s;
    if !s.phase.Out? {
      var a := NextInPass(s);
      DrivenStep(s0, acts, s, a);
      acts', s' := PassEnds(s0, acts + [a], Apply(s, a));
    }
  }

  /**
    Every answer can be given: from every reachable state with one thread of the client and no push
    under way, wherever the pass stands, some run of at most two passes gives all that was written.
  */
  lemma EveryAnswerCanBeGiven(s0: State, acts0: seq<Action>, s: State) returns (acts: seq<Action>, s': State)
    requires Init(s0) && Runs(s0, acts0, s) && forall i :: 0 <= i < |acts0| ==> !acts0[i].Stamp?
    requires forall q :: 0 <= q < |s.queues| ==> s.queues[q].lock.Free?
    ensures Runs(s0, acts, s') && acts0 <= acts && s'.phase.Out? && s'.written == s.written
    ensures forall x: nat :: x in s'.given <==> x in s.written
  {
    hide Runs, Inv, Init;
    InitGood(s0);
    OneThreadRun(s0, acts0, s);
    acts, s' := PassEnds(s0, acts0, s);
    DrivenStep(s0, acts, s', StartPass);
    acts, s' := PassEnds(s0, acts + [StartPass], Apply(s', StartPass));
    PassesGiveInOrder(s0, acts, s');
    WrittenBelow(s');
  }

  lemma WrittenBelow(s: State)
    requires Inv(s)
    ensures forall x <- s.written :: x < s.clock
  {
  }

  // ── Two threads ──

  lemma {:induction false} OneStepMore(s: State, acts: seq<Action>, s1: State, a: Action, s2: State)
    requires Runs(s, acts, s1) && Enabled(s1, a) && Apply(s1, a) == s2
    ensures Runs(s, acts + [a], s2)
    decreases |acts|
  {
    hide Enabled, Apply;
    if acts == [] {
      assert ([] + [a])[1..] == [];
    } else {
      assert (acts + [a])[1..] == acts[1..] + [a];
      OneStepMore(Apply(s, acts[0]), acts[1..], s1, a, s2);
    }
  }

  lemma NoSteps(s: State)
    ensures Runs(s, [], s)
  {
  }

  /** One source is given to its end. */
  lemma GivesAll(sources: seq<seq<nat>>, k: nat, b: nat)
    requires k < |sources| && (forall x <- sources[k] :: x < b)
    requires forall l :: 0 <= l < |sources| && l != k ==> sources[l] == []
    ensures Merge.Gave(sources, b, sources[k], sources[k := []]) && Merge.Done(sources[k := []], b)
  {
    assert Merge.Gave(sources, b, [], sources);
    assert sources[k] + [] == sources[k] && [] + sources[k] == sources[k];
    Merge.GaveRun(sources, b, [], sources, k, sources[k], [], b);
  }

  /** A dispatch when one source alone has answers. */
  lemma DispatchOne(s: State, k: nat) returns (a: Action)
    requires s.phase.Ready? && k <= |s.inbox| && (forall x <- Sources(s)[k] :: x < s.phase.bound)
    requires forall l :: 0 <= l <= |s.inbox| && l != k ==> Sources(s)[l] == []
    ensures a == Dispatch(Sources(s)[k], Sources(s)[k := []]) && Enabled(s, a)
  {
    GivesAll(Sources(s), k, s.phase.bound);
    a := Dispatch(Sources(s)[k], Sources(s)[k := []]);
  }

  /** A pass begins, another thread makes an own answer, and then the engine writes one. */
  lemma OwnAnswerMade() returns (s0: State, acts: seq<Action>, s: State)
    ensures Init(s0) && Runs(s0, acts, s)
    ensures var home := map[1 := InOwn, 2 := InQueue(0)];
      s == State(3, [1, 2], home, [AtRest([2])], [Resting], [1], OwnTaken, [], [[]], 0, [])
  {
    hide Runs, Merge.Gave, Merge.Done;
    assert [] + [2] == [2];
    var held := AnswerOrder.Queue.Queue([], AnswerOrder.Held);
    var counted := AnswerOrder.Queue.Queue([], AnswerOrder.Counted(2));
    var one, both := map[1 := InOwn], map[1 := InOwn, 2 := InQueue(0)];
    s0 := State(1, [], map[], [AtRest([])], [Resting], [], Out, [], [[]], 0, []);
    var s1 := s0.(phase := OwnTaken);
    var s2 := State(2, [1], one, [AtRest([])], [Stamped(1)], [], OwnTaken, [], [[]], 0, []);
    var s3 := State(2, [1], one, [AtRest([])], [Resting], [1], OwnTaken, [], [[]], 0, []);
    var s4 := State(2, [1], one, [held], [Resting], [1], OwnTaken, [], [[]], 0, []);
    var s5 := State(3, [1, 2], both, [counted], [Resting], [1], OwnTaken, [], [[]], 0, []);
    s := State(3, [1, 2], both, [AtRest([2])], [Resting], [1], OwnTaken, [], [[]], 0, []);
    NoSteps(s0);
    OneStepMore(s0, [], s0, StartPass, s1);
    acts := [] + [StartPass];
    OneStepMore(s0, acts, s1, Stamp(0), s2);
    acts := acts + [Stamp(0)];
    OneStepMore(s0, acts, s2, PushOwn(0), s3);
    acts := acts + [PushOwn(0)];
    OneStepMore(s0, acts, s3, Take(0), s4);
    acts := acts + [Take(0)];
    OneStepMore(s0, acts, s4, Count(0), s5);
    acts := acts + [Count(0)];
    OneStepMore(s0, acts, s5, Store(0), s);
    acts := acts + [Store(0)];
  }

  /** With a second thread an own answer may come late: it is given in the next pass, after a higher count. */
  lemma OwnAnswerMayComeLate() returns (s0: State, acts: seq<Action>, s: State)
    ensures Init(s0) && Runs(s0, acts, s) && s.phase.Out? && s.given == [2, 1]
  {
    hide Runs, Init;
    var s1;
    s0, acts, s1 := OwnAnswerMade();
    var s2 := s1.(phase := Draining(3, 0));
    OneStepMore(s0, acts, s1, ReadClock(3, false), s2);
    acts := acts + [ReadClock(3, false)];
    var s3 := s2.(phase := Ready(3), inbox := [[2]], queues := [AtRest([])]);
    assert [] + [2] == [2];
    OneStepMore(s0, acts, s2, Action.DrainQueue, s3);
    acts := acts + [Action.DrainQueue];
    assert Sources(s3) == [[2], []];
    var a := DispatchOne(s3, 0);
    var s4 := s3.(phase := Out, given := [2], last := 3, inbox := [[]]);
    OneStepMore(s0, acts, s3, a, s4);
    acts := acts + [a];
    var s5 := s4.(phase := OwnTaken, own := [1], local := []);
    OneStepMore(s0, acts, s4, StartPass, s5);
    acts := acts + [StartPass];
    var s6 := s5.(phase := Ready(3));
    OneStepMore(s0, acts, s5, ReadClock(3, true), s6);
    acts := acts + [ReadClock(3, true)];
    assert Sources(s6) == [[], [1]];
    a := DispatchOne(s6, 1);
    s := s6.(phase := Out, given := [2, 1], own := []);
    OneStepMore(s0, acts, s6, a, s);
    acts := acts + [a];
  }

  /** Another thread counts an own answer, and the thread of the passes makes one. */
  lemma TwoCounted() returns (s0: State, acts: seq<Action>, s: State)
    ensures Init(s0) && Runs(s0, acts, s)
    ensures s == State(3, [1, 2], map[1 := InOwn, 2 := InOwn], [], [Stamped(1)], [2], Out, [], [], 0, [])
  {
    hide Runs, Merge.Gave, Merge.Done, Sources;
    s0 := State(1, [], map[], [], [Resting], [], Out, [], [], 0, []);
    var s1 := State(2, [1], map[1 := InOwn], [], [Stamped(1)], [], Out, [], [], 0, []);
    s := State(3, [1, 2], map[1 := InOwn, 2 := InOwn], [], [Stamped(1)], [2], Out, [], [], 0, []);
    NoSteps(s0);
    OneStepMore(s0, [], s0, Stamp(0), s1);
    acts := [] + [Stamp(0)];
    OneStepMore(s0, acts, s1, Later, s);
    acts := acts + [Later];
  }

  /** The first one comes to the list after the second, and a pass takes them so. */
  lemma OwnAnswersSwapped() returns (s0: State, acts: seq<Action>, s: State)
    ensures Init(s0) && Runs(s0, acts, s) && s.phase == Draining(3, 0) && s.own == [2, 1] && s.local == []
    ensures s.makers == [Resting] && s.queues == [] && s.inbox == [] && s.given == [] && s.last == 0
  {
    hide Runs, Init, Merge.Gave, Merge.Done, Sources;
    var s2;
    s0, acts, s2 := TwoCounted();
    var s3 := s2.(makers := [Resting], local := [2, 1]);
    OneStepMore(s0, acts, s2, PushOwn(0), s3);
    acts := acts + [PushOwn(0)];
    var s4 := s3.(phase := OwnTaken, own := [2, 1], local := []);
    OneStepMore(s0, acts, s3, StartPass, s4);
    acts := acts + [StartPass];
    s := s4.(phase := Draining(3, 0));
    OneStepMore(s0, acts, s4, ReadClock(3, false), s);
    acts := acts + [ReadClock(3, false)];
  }

  /**
    With a second thread the own answers may also be in the list out of order, and no answer is late: the
    pass gives them as they stand.
  */
  lemma OwnAnswersMayBeOutOfOrder() returns (s0: State, acts: seq<Action>, s1: State, a: Action, s: State)
    ensures Init(s0) && Runs(s0, acts, s1) && Runs(s0, acts + [a], s)
    ensures s1.phase.Draining? && NoneLate(s1) && s1.own == [2, 1] && a.Dispatch? && s.given == [2, 1]
  {
    hide Runs, Init;
    s0, acts, s1 := OwnAnswersSwapped();
    assert Sources(s1) == [[2, 1]];
    GivesAll(Sources(s1), 0, 3);
    assert [[2, 1]][0 := []] == [[]];
    hide Merge.Gave, Merge.Done;
    a := Dispatch([2, 1], [[]]);
    s := s1.(phase := Out, given := [2, 1], last := 3, own := []);
    OneStepMore(s0, acts, s1, a, s);
  }
}

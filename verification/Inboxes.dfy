/** Giving the answers of all queues in the order of their counts (`Inbox`). */
module Inboxes {
  import opened Basics
  import Merge

  const U64_MAX: nat := 0xFFFF_FFFF_FFFF_FFFF

  /** A stamped answer: its count and itself. */
  type Item<T> = (nat, T)

  /** What comes next, up to a count, and which source it is taken from. */
  datatype Run = OfQueue(kind: nat, until: nat) | OfClient(until: nat) | OfState(until: nat)

  function Min(a: nat, b: nat): nat { if a < b then a else b }

  ghost predicate Sorted<T>(q: seq<Item<T>>) {
    forall i, j :: 0 <= i < j < |q| ==> q[i].0 < q[j].0
  }

  /** No two answers of different queues have the same count, and none has the largest. */
  ghost predicate Distinct<T>(queues: seq<seq<Item<T>>>) {
    && (forall k, i :: 0 <= k < |queues| && 0 <= i < |queues[k]| ==> queues[k][i].0 < U64_MAX)
    && (forall k, l, i, j :: 0 <= k < l < |queues| && 0 <= i < |queues[k]| && 0 <= j < |queues[l]| ==>
        queues[k][i].0 != queues[l][j].0)
  }

  /** Each queue goes up, too. */
  ghost predicate Stamped<T>(queues: seq<seq<Item<T>>>) {
    Distinct(queues) && forall k :: 0 <= k < |queues| ==> Sorted(queues[k])
  }

  /** `at` is at most the first count of every queue below `n` except `but`. */
  ghost predicate AtMostFronts<T>(at: nat, queues: seq<seq<Item<T>>>, n: nat, but: int) {
    forall k :: 0 <= k < n && k < |queues| && k != but && queues[k] != [] ==> at <= queues[k][0].0
  }

  /** `at` is the first count of some queue below `n` other than `but`. */
  ghost predicate IsFront<T>(at: nat, queues: seq<seq<Item<T>>>, n: nat, but: int) {
    exists k :: 0 <= k < n && k < |queues| && k != but && queues[k] != [] && queues[k][0].0 == at
  }

  /** The queue whose front is lowest, and the lowest front of all the others, found in one pass. */
  method FirstTwo<T>(queues: seq<seq<Item<T>>>) returns (first: Option<(nat, nat)>, second: nat)
    requires forall k :: 0 <= k < |queues| && queues[k] != [] ==> queues[k][0].0 <= U64_MAX
    ensures first.None? ==> second == U64_MAX && forall k :: 0 <= k < |queues| ==> queues[k] == []
    ensures first.Some? ==>
      var (kind, at) := first.value;
      && kind < |queues| && queues[kind] != [] && queues[kind][0].0 == at
      && AtMostFronts(at, queues, |queues|, kind) && AtMostFronts(second, queues, |queues|, kind)
      && (second == U64_MAX || IsFront(second, queues, |queues|, kind))
  {
    first, second := None, U64_MAX;
    for n := 0 to |queues|
      invariant first.None? ==> second == U64_MAX && forall k :: 0 <= k < n ==> queues[k] == []
      invariant first.Some? ==>
        var (kind, at) := first.value;
        && kind < n && queues[kind] != [] && queues[kind][0].0 == at
        && AtMostFronts(at, queues, n, kind) && AtMostFronts(second, queues, n, kind)
        && (second == U64_MAX || IsFront(second, queues, n, kind))
    {
      if queues[n] != [] {
        var at := queues[n][0].0;
        if first.Some? && at >= first.value.1 {
          second := Min(second, at);
        } else {
          second := if first.Some? then first.value.1 else second;
          first := Some((n, at));
        }
      }
    }
  }

  /** All the sources: the queues, the client's own, and the state (runs of market data messages). */
  function Sources<T>(queues: seq<seq<Item<T>>>, local: seq<Item<T>>, state: seq<Item<T>>): seq<seq<Item<T>>> {
    queues + [local, state]
  }

  function SourceOf(run: Run, queues: nat): nat {
    match run
    case OfQueue(kind, _) => kind
    case OfClient(_) => queues
    case OfState(_) => queues + 1
  }

  /** The run starts with the first answer of its source, and no other source has one below its end. */
  ghost predicate ToGive<T>(run: Run, queues: seq<seq<Item<T>>>, local: seq<Item<T>>, state: seq<Item<T>>,
      written: nat) {
    var sources, k := Sources(queues, local, state), SourceOf(run, |queues|);
    && (run.OfQueue? ==> run.kind < |queues|)
    && sources[k] != [] && sources[k][0].0 < run.until <= written
    && AtMostFronts(run.until, sources, |sources|, k)
  }

  /**
    What to give next. It ends where another source, or the bound `written`, begins; there is nothing to
    give when no queue and no own answer of the client is below the bound. The state is a source of its
    own only while something of another source stands after it.
  */
  method Next<T>(queues: seq<seq<Item<T>>>, local: seq<Item<T>>, state: seq<Item<T>>, written: nat)
    returns (run: Option<Run>)
    requires Distinct(Sources(queues, local, state)) && written <= U64_MAX
    ensures run.None? ==> AtMostFronts(written, Sources(queues, local, state), |queues| + 1, -1)
    ensures run.Some? ==> ToGive(run.value, queues, local, state, written)
  {
    hide Distinct, AtMostFronts, ToGive, IsFront;
    FrontsDiffer(queues, local, state);
    var queue, others := FirstTwo(queues);
    if queue.None? && local == [] {
      NoRun(queues, local, state, written, queue);
      return None;
    }
    var q := if queue.Some? then queue.value.1 else U64_MAX;
    var c := if local != [] then local[0].0 else U64_MAX;
    var first := Min(q, c);
    if first >= written {
      NoRun(queues, local, state, written, queue);
      return None;
    }
    var st := if state != [] then state[0].0 else U64_MAX;
    if st < first {
      StateRun(queues, local, state, written, queue, first);
      return Some(OfState(first));
    }
    if queue.Some? && queue.value.1 == first {
      run := Some(OfQueue(queue.value.0, Min(Min(Min(others, c), st), written)));
      SecondIsAbove(queues, local, state, queue.value.0, others);
      QueueRun(queues, local, state, written, queue.value.0, others, run.value.until);
    } else {
      run := Some(OfClient(Min(Min(q, st), written)));
      ClientRun(queues, local, state, written, queue, run.value.until);
    }
  }

  /** What `FirstTwo` says of the queues: the first kind and its count, or that all are empty. */
  ghost predicate FirstIs<T>(queues: seq<seq<Item<T>>>, queue: Option<(nat, nat)>) {
    match queue
    case None => forall k :: 0 <= k < |queues| ==> queues[k] == []
    case Some((kind, at)) =>
      && kind < |queues| && queues[kind] != [] && queues[kind][0].0 == at
      && AtMostFronts(at, queues, |queues|, kind)
  }

  lemma NoRun<T>(queues: seq<seq<Item<T>>>, local: seq<Item<T>>, state: seq<Item<T>>, written: nat,
      queue: Option<(nat, nat)>)
    requires FirstIs(queues, queue) && (queue.Some? ==> queue.value.1 >= written)
      && (local != [] ==> local[0].0 >= written)
    ensures AtMostFronts(written, Sources(queues, local, state), |queues| + 1, -1)
  {
  }

  lemma StateRun<T>(queues: seq<seq<Item<T>>>, local: seq<Item<T>>, state: seq<Item<T>>, written: nat,
      queue: Option<(nat, nat)>, until: nat)
    requires FirstIs(queues, queue) && (queue.Some? ==> queue.value.1 >= until) && (local != [] ==> local[0].0 >= until)
    requires state != [] && state[0].0 < until <= written
    ensures ToGive(OfState(until), queues, local, state, written)
  {
  }

  lemma QueueRun<T>(queues: seq<seq<Item<T>>>, local: seq<Item<T>>, state: seq<Item<T>>, written: nat, kind: nat,
      others: nat, until: nat)
    requires kind < |queues| && queues[kind] != [] && AtMostFronts(others, queues, |queues|, kind)
    requires queues[kind][0].0 < until <= written && until <= others
    requires (local != [] ==> until <= local[0].0) && (state != [] ==> until <= state[0].0)
    ensures ToGive(OfQueue(kind, until), queues, local, state, written)
  {
  }

  lemma SecondIsAbove<T>(queues: seq<seq<Item<T>>>, local: seq<Item<T>>, state: seq<Item<T>>, kind: nat, others: nat)
    requires Distinct(Sources(queues, local, state)) && kind < |queues| && queues[kind] != []
    requires AtMostFronts(queues[kind][0].0, queues, |queues|, kind)
      && (others == U64_MAX || IsFront(others, queues, |queues|, kind))
    ensures queues[kind][0].0 < others
  {
    hide Distinct;
    FrontsDiffer(queues, local, state);
  }

  lemma ClientRun<T>(queues: seq<seq<Item<T>>>, local: seq<Item<T>>, state: seq<Item<T>>, written: nat,
      queue: Option<(nat, nat)>, until: nat)
    requires FirstIs(queues, queue) && (queue.Some? ==> until <= queue.value.1)
    requires local != [] && local[0].0 < until <= written && (state != [] ==> until <= state[0].0)
    ensures ToGive(OfClient(until), queues, local, state, written)
  {
  }

  lemma SourcesAre<T>(queues: seq<seq<Item<T>>>, local: seq<Item<T>>, state: seq<Item<T>>)
    ensures var s := Sources(queues, local, state);
      |s| == |queues| + 2 && s[|queues|] == local && s[|queues| + 1] == state && forall k :: 0 <= k < |queues| ==>
        s[k] == queues[k]
  {
  }

  /** The first counts of the state, of the client and of a queue are different ones below the largest. */
  lemma FrontsDiffer<T>(queues: seq<seq<Item<T>>>, local: seq<Item<T>>, state: seq<Item<T>>)
    requires Distinct(Sources(queues, local, state))
    ensures state != [] ==> state[0].0 < U64_MAX
    ensures local != [] ==> local[0].0 < U64_MAX
    ensures state != [] && local != [] ==> state[0].0 != local[0].0
    ensures forall k :: 0 <= k < |queues| && queues[k] != [] ==> queues[k][0].0 < U64_MAX
    ensures forall k :: 0 <= k < |queues| && queues[k] != [] && local != [] ==> queues[k][0].0 != local[0].0
    ensures forall k :: 0 <= k < |queues| && queues[k] != [] && state != [] ==> queues[k][0].0 != state[0].0
    ensures forall k, l :: 0 <= k < l < |queues| && queues[k] != [] && queues[l] != [] ==>
      queues[k][0].0 != queues[l][0].0
  {
    var s := Sources(queues, local, state);
    SourcesAre(queues, local, state);
    var n := |queues|;
    assert s[n] == local && s[n + 1] == state;
    forall k | 0 <= k < n && queues[k] != [] ensures queues[k][0].0 < U64_MAX
      && (local != [] ==> queues[k][0].0 != local[0].0) && (state != [] ==> queues[k][0].0 != state[0].0) {
      assert s[k] == queues[k];
    }
    forall k, l | 0 <= k < l < |queues| && queues[k] != [] && queues[l] != [] ensures queues[k][0].0 != queues[l][0].0 {
      assert s[k] == queues[k] && s[l] == queues[l];
    }
  }

  ghost predicate Has<T>(sources: seq<seq<Item<T>>>, x: Item<T>) {
    exists k :: 0 <= k < |sources| && x in sources[k]
  }

  /** The answers in front of a queue with counts below `until`, and the rest. */
  method TakeRun<T>(queue: seq<Item<T>>, until: nat) returns (given: seq<Item<T>>, rest: seq<Item<T>>)
    ensures given + rest == queue
    ensures (forall x <- given :: x.0 < until) && (rest != [] ==> until <= rest[0].0)
    ensures Sorted(queue) ==> forall x <- rest :: until <= x.0
  {
    var n := 0;
    while n < |queue| && queue[n].0 < until
      invariant n <= |queue| && forall i :: 0 <= i < n ==> queue[i].0 < until
    {
      n := n + 1;
    }
    given, rest := queue[..n], queue[n..];
  }

  /** Every answer of the sources is at `at` or above. */
  ghost predicate AllFrom<T>(at: nat, sources: seq<seq<Item<T>>>) {
    forall k, i :: 0 <= k < |sources| && 0 <= i < |sources[k]| ==> at <= sources[k][i].0
  }

  lemma HasAfter<T>(sources: seq<seq<Item<T>>>, k: nat, given: seq<Item<T>>, rest: seq<Item<T>>, x: Item<T>)
    requires k < |sources| && sources[k] == given + rest
    ensures Has(sources, x) <==> x in given || Has(sources[k := rest], x)
  {
    var left: seq<seq<Item<T>>> := sources[k := rest];
    if Has(sources, x) {
      var l :| 0 <= l < |sources| && x in sources[l];
      assert l != k ==> x in left[l];
      assert l == k ==> x in given || x in left[k];
    }
    if Has(left, x) {
      var l :| 0 <= l < |left| && x in left[l];
      assert x in sources[l];
    }
    if x in given {
      assert x in sources[k];
    }
  }

  // ── Counts ──

  ghost function Counts<T>(queue: seq<Item<T>>): seq<nat> {
    seq(|queue|, i requires 0 <= i < |queue| => queue[i].0)
  }

  ghost function CountsOf<T>(sources: seq<seq<Item<T>>>): seq<seq<nat>> {
    seq(|sources|, k requires 0 <= k < |sources| => Counts(sources[k]))
  }

  lemma CountsJoin<T>(a: seq<Item<T>>, b: seq<Item<T>>)
    ensures Counts(a + b) == Counts(a) + Counts(b)
  {
  }

  /** A run is given: one answer after the other, each the lowest in front. */
  lemma GaveRun<T>(all: seq<seq<Item<T>>>, left: seq<seq<Item<T>>>, out: seq<Item<T>>, written: nat, k: nat, until: nat,
                   given: seq<Item<T>>, rest: seq<Item<T>>)
    requires Merge.Gave(CountsOf(all), written, Counts(out), CountsOf(left))
    requires k < |left| && left[k] == given + rest && until <= written && AtMostFronts(until, left, |left|, k)
    requires forall x <- given :: x.0 < until
    ensures Merge.Gave(CountsOf(all), written, Counts(out + given), CountsOf(left[k := rest]))
  {
    CountsJoin(given, rest);
    CountsJoin(out, given);
    assert CountsOf(left[k := rest]) == CountsOf(left)[k := Counts(rest)];
    forall x | x in Counts(given) ensures x < until {
      var i :| 0 <= i < |given| && Counts(given)[i] == x;
      assert given[i] in given;
    }
    Merge.GaveRun(CountsOf(all), written, Counts(out), CountsOf(left), k, Counts(given), Counts(rest), until);
  }

  lemma NothingGiven<T>(all: seq<seq<Item<T>>>, written: nat)
    ensures Merge.Gave(CountsOf(all), written, Counts<T>([]), CountsOf(all))
  {
    assert Counts<T>([]) == [];
  }

  lemma DistinctAfter<T>(sources: seq<seq<Item<T>>>, k: nat, given: seq<Item<T>>, rest: seq<Item<T>>)
    requires Distinct(sources) && k < |sources| && sources[k] == given + rest
    ensures Distinct(sources[k := rest])
  {
    var left: seq<seq<Item<T>>> := sources[k := rest];
    forall l, i | 0 <= l < |left| && 0 <= i < |left[l]|
      ensures left[l][i] == sources[l][if l == k then i + |given| else i]
    {
    }
  }

  /** With every source in the order of its counts, what was given is in order and below what is left. */
  lemma GivenInOrder<T>(all: seq<seq<Item<T>>>, left: seq<seq<Item<T>>>, out: seq<Item<T>>, written: nat)
    requires Merge.Gave(CountsOf(all), written, Counts(out), CountsOf(left)) && Merge.Done(CountsOf(left), written)
    requires Stamped(all)
    ensures Sorted(out) && AllFrom(written, left) && forall k :: 0 <= k < |left| ==> Sorted(left[k])
  {
    var a, l := CountsOf(all), CountsOf(left);
    assert Merge.Apart(a) && Merge.AllAscending(a) by {
      hide Merge.Gave;
    }
    hide Stamped;
    Merge.GaveKeeps(a, written, Counts(out), l);
    Merge.GaveAscending(a, written, Counts(out), l);
    hide Merge.Gave;
    forall i, j | 0 <= i < j < |out| ensures out[i].0 < out[j].0 {
      assert Counts(out)[i] < Counts(out)[j];
    }
    forall k, i, j | 0 <= k < |left| && 0 <= i < j < |left[k]| ensures left[k][i].0 < left[k][j].0 {
      assert Ascending(l[k]) && l[k][i] < l[k][j];
    }
    forall k, i | 0 <= k < |left| && 0 <= i < |left[k]| ensures written <= left[k][i].0 {
      assert Ascending(l[k]) && written <= l[k][0] && (i > 0 ==> l[k][0] < l[k][i]);
    }
  }

  /** The answers of a run, taken from its source. */
  method TakeFrom<T>(run: Run, queues: seq<seq<Item<T>>>, local: seq<Item<T>>, state: seq<Item<T>>)
    returns (given: seq<Item<T>>, ghost rest: seq<Item<T>>, queues': seq<seq<Item<T>>>, local': seq<Item<T>>,
      state': seq<Item<T>>)
    requires run.OfQueue? ==> run.kind < |queues|
    ensures var sources, k := Sources(queues, local, state), SourceOf(run, |queues|);
      && |queues'| == |queues|
      && Sources(queues', local', state') == sources[k := rest] && sources[k] == given + rest
      && (forall x <- given :: x.0 < run.until) && (rest != [] ==> run.until <= rest[0].0)
  {
    hide Sorted, Sources;
    SourcesAre(queues, local, state);
    queues', local', state' := queues, local, state;
    var left;
    match run {
      case OfQueue(kind, until) =>
        given, left := TakeRun(queues[kind], until);
        queues' := queues[kind := left];
        OneQueueLess(queues, local, state, kind, left);
      case OfClient(until) =>
        given, left := TakeRun(local, until);
        local' := left;
        OwnOrStateLess(queues, local, state, left);
      case OfState(until) =>
        given, left := TakeRun(state, until);
        state' := left;
        OwnOrStateLess(queues, local, state, left);
    }
    rest := left;
  }

  lemma OneQueueLess<T>(queues: seq<seq<Item<T>>>, local: seq<Item<T>>, state: seq<Item<T>>, k: nat, left: seq<Item<T>>)
    requires k < |queues|
    ensures k < |Sources(queues, local, state)|
    ensures Sources(queues[k := left], local, state) == Sources(queues, local, state)[k := left]
  {
  }

  lemma OwnOrStateLess<T>(queues: seq<seq<Item<T>>>, local: seq<Item<T>>, state: seq<Item<T>>, left: seq<Item<T>>)
    ensures |Sources(queues, local, state)| == |queues| + 2
    ensures Sources(queues, left, state) == Sources(queues, local, state)[|queues| := left]
    ensures Sources(queues, local, left) == Sources(queues, local, state)[|queues| + 1 := left]
  {
  }

  /**
    A pass gives the answers of all queues, of the client itself and of the state one after the other, each
    time the lowest in front, until none in front is below `written`. When each source is in the order of
    its counts, this is every answer below `written`, in order; an own answer that came late to the list
    of the client is given where it stands.
  */
  method Dispatch<T(!new)>(queues: seq<seq<Item<T>>>, local: seq<Item<T>>, state: seq<Item<T>>, written: nat)
    returns (out: seq<Item<T>>, queues': seq<seq<Item<T>>>, local': seq<Item<T>>, state': seq<Item<T>>)
    requires Distinct(Sources(queues, local, state)) && written <= U64_MAX
    ensures |queues'| == |queues|
    ensures var all, left := CountsOf(Sources(queues, local, state)), CountsOf(Sources(queues', local', state'));
      Merge.Gave(all, written, Counts(out), left) && Merge.Done(left, written)
    ensures forall x: Item<T> ::
      Has(Sources(queues, local, state), x) <==> x in out || Has(Sources(queues', local', state'), x)
    ensures Stamped(Sources(queues, local, state)) ==>
      && Sorted(out) && AllFrom(written, Sources(queues', local', state'))
      && forall k :: 0 <= k < |Sources(queues', local', state')| ==> Sorted(Sources(queues', local', state')[k])
  {
    hide Distinct, Stamped, Has, AtMostFronts, AllFrom, Sorted, Total, CountsOf, Counts, Merge.Gave, Sources;
    out, queues', local', state' := [], queues, local, state;
    ghost var all := Sources(queues, local, state);
    NothingGiven(all, written);
    var run := Next(queues', local', state', written);
    while run.Some?
      invariant |queues'| == |queues| && Distinct(Sources(queues', local', state'))
      invariant Merge.Gave(CountsOf(all), written, Counts(out), CountsOf(Sources(queues', local', state')))
      invariant forall x: Item<T> :: Has(all, x) <==> x in out || Has(Sources(queues', local', state'), x)
      invariant run.None? ==> AtMostFronts(written, Sources(queues', local', state'), |queues| + 1, -1)
      invariant run.Some? ==> ToGive(run.value, queues', local', state', written)
      decreases Total(Sources(queues', local', state'))
    {
      ghost var sources, k := Sources(queues', local', state'), SourceOf(run.value, |queues|);
      SourcesAre(queues', local', state');
      var given;
      ghost var rest;
      given, rest, queues', local', state' := TakeFrom(run.value, queues', local', state');
      GaveRun(all, sources, out, written, k, run.value.until, given, rest);
      HasRun(all, sources, out, k, given, rest);
      DistinctAfter(sources, k, given, rest);
      Taken(sources[k], given, rest, run.value.until);
      TotalAfter(sources, k, rest);
      out := out + given;
      run := Next(queues', local', state', written);
    }
    ghost var sources := Sources(queues', local', state');
    SourcesAre(queues', local', state');
    var given;
    ghost var rest;
    given, rest, queues', local', state' := TakeFrom(OfState(written), queues', local', state');
    OnlyStateLeft(sources, written, rest);
    GaveRun(all, sources, out, written, |queues| + 1, written, given, rest);
    HasRun(all, sources, out, |queues| + 1, given, rest);
    out := out + given;
    if Stamped(all) {
      GivenInOrder(all, Sources(queues', local', state'), out, written);
    }
  }

  lemma Taken<T>(source: seq<Item<T>>, given: seq<Item<T>>, rest: seq<Item<T>>, until: nat)
    requires source == given + rest && source != [] && source[0].0 < until && (rest != [] ==> until <= rest[0].0)
    ensures |rest| < |source|
  {
  }

  lemma HasRun<T(!new)>(all: seq<seq<Item<T>>>, left: seq<seq<Item<T>>>, out: seq<Item<T>>, k: nat,
                        given: seq<Item<T>>, rest: seq<Item<T>>)
    requires forall x: Item<T> :: Has(all, x) <==> x in out || Has(left, x)
    requires k < |left| && left[k] == given + rest
    ensures forall x: Item<T> :: Has(all, x) <==> x in out + given || Has(left[k := rest], x)
  {
    hide Has;
    forall x: Item<T> ensures Has(all, x) <==> x in out + given || Has(left[k := rest], x) {
      HasAfter(left, k, given, rest, x);
    }
  }

  /** No front but one of the state was below `written`, and now none is. */
  lemma OnlyStateLeft<T>(sources: seq<seq<Item<T>>>, written: nat, rest: seq<Item<T>>)
    requires |sources| > 0 && AtMostFronts(written, sources, |sources| - 1, -1) && (rest != [] ==> written <= rest[0].0)
    ensures AtMostFronts(written, sources, |sources|, |sources| - 1)
    ensures Merge.Done(CountsOf(sources[|sources| - 1 := rest]), written)
  {
  }
}

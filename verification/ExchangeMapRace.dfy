/**
  The exchange maps with the engine and its clients at work at once (src/bridge.rs): setting a map is
  two locked steps, its first arrival and then the map, and asking for the map of a step of the market
  data queue is two, the check of the arrival and then the map. The clients ask for steps they have
  read, so for steps the engine has written.
*/
module ExchangeMapRace {
  import opened Basics
  import opened ExchangeMaps

  /** A client: between calls, or past the check of the arrival and before the look at the maps. */
  datatype Asker = Resting | Checked(key: Key, step: nat, arrived: bool)

  /** A map given for a step; `arrived` says whether the check found the arrival of its key. */
  datatype Given = Given(key: Key, step: nat, arrived: bool)

  datatype State = State(
    next: nat,                       // the next step the engine writes
    arrivedAt: map<Key, nat>,
    ready: set<Key>,                 // the keys whose map is there
    setting: Option<Key>,            // the engine is between its two steps
    askers: seq<Asker>,
    given: seq<Given>)

  datatype Action =
    | WriteStep
    | NoteArrival(key: Key)
    | PutMap
    | Check(asker: nat, key: Key, step: nat)
    | Fetch(asker: nat)

  predicate Enabled(s: State, a: Action) {
    match a
    case WriteStep => s.setting.None?
    case NoteArrival(_) => s.setting.None?
    case PutMap => s.setting.Some?
    case Check(c, _, step) => c < |s.askers| && s.askers[c].Resting? && step < s.next
    case Fetch(c) => c < |s.askers| && s.askers[c].Checked?
  }

  function Apply(s: State, a: Action): State
    requires Enabled(s, a)
  {
    match a
    case WriteStep => s.(next := s.next + 1)
    case NoteArrival(key) =>
      s.(setting := Some(key), arrivedAt := if key in s.arrivedAt then s.arrivedAt else s.arrivedAt[key := s.next])
    case PutMap => s.(setting := None, ready := s.ready + {s.setting.value})
    case Check(c, key, step) =>
      if key in s.arrivedAt && s.arrivedAt[key] > step then s
      else s.(askers := s.askers[c := Checked(key, step, key in s.arrivedAt)])
    case Fetch(c) =>
      var x := s.askers[c];
      s.(askers := s.askers[c := Resting],
         given := if x.key in s.ready then s.given + [Given(x.key, x.step, x.arrived)] else s.given)
  }

  predicate Init(s: State) {
    && s.arrivedAt == map[] && s.ready == {} && s.setting.None? && s.given == []
    && forall c :: 0 <= c < |s.askers| ==> s.askers[c].Resting?
  }

  /** A step is at or after the arrival just when the check found the arrival. */
  predicate Right(s: State, key: Key, step: nat, arrived: bool) {
    && step < s.next
    && (arrived ==> key in s.arrivedAt)
    && (key in s.arrivedAt ==> (s.arrivedAt[key] <= step <==> arrived))
  }

  ghost predicate Inv(s: State) {
    && (forall k <- s.ready :: k in s.arrivedAt)
    && (s.setting.Some? ==> s.setting.value in s.arrivedAt)
    && (forall k <- s.arrivedAt :: s.arrivedAt[k] <= s.next)
    && (forall c :: 0 <= c < |s.askers| && s.askers[c].Checked? ==>
        Right(s, s.askers[c].key, s.askers[c].step, s.askers[c].arrived))
    && (forall i :: 0 <= i < |s.given| ==>
        s.given[i].key in s.arrivedAt && Right(s, s.given[i].key, s.given[i].step, s.given[i].arrived))
  }

  lemma StepInv(s: State, a: Action)
    requires Inv(s) && Enabled(s, a)
    ensures Inv(Apply(s, a))
  {
  }

  ghost predicate Runs(s: State, acts: seq<Action>, s': State)
    decreases |acts|
  {
    if acts == [] then s' == s else Enabled(s, acts[0]) && Runs(Apply(s, acts[0]), acts[1..], s')
  }

  lemma {:induction false} RunInv(s: State, acts: seq<Action>, s': State)
    requires Inv(s) && Runs(s, acts, s')
    ensures Inv(s')
    decreases |acts|
  {
    hide Inv, Enabled, Apply;
    if acts != [] {
      StepInv(s, acts[0]);
      RunInv(Apply(s, acts[0]), acts[1..], s');
    }
  }

  /**
    In every run, a map is given to a step at or after its first arrival just when it arrived before the
    call's check.
  */
  lemma GivenInTimeIffArrivedBeforeCheck(s0: State, acts: seq<Action>, s: State, g: Given)
    requires Init(s0) && Runs(s0, acts, s) && g in s.given
    ensures g.key in s.arrivedAt && (s.arrivedAt[g.key] <= g.step <==> g.arrived)
  {
    RunInv(s0, acts, s);
  }

  lemma OneMore(s: State, a: Action, t: State, acts: seq<Action>, s': State)
    requires Enabled(s, a) && Apply(s, a) == t && Runs(t, acts, s')
    ensures Runs(s, [a] + acts, s')
  {
  }

  /** A map that arrives between the check and the look at the maps is given to a step written before it. */
  lemma AMapMayComeEarly(key: Key) returns (s0: State, acts: seq<Action>, s: State)
    ensures Init(s0) && Runs(s0, acts, s)
    ensures s.given == [Given(key, 0, false)] && key in s.arrivedAt && s.arrivedAt[key] > 0
  {
    s0 := State(0, map[], {}, None, [Resting], []);
    var s1 := s0.(next := 1);
    var s2 := s1.(askers := [Checked(key, 0, false)]);
    var s3 := s2.(setting := Some(key), arrivedAt := map[key := 1]);
    var s4 := s3.(setting := None, ready := {key});
    s := s4.(askers := [Resting], given := [Given(key, 0, false)]);
    OneMore(s4, Fetch(0), s, [], s);
    OneMore(s3, PutMap, s4, [Fetch(0)] + [], s);
    OneMore(s2, NoteArrival(key), s3, [PutMap] + ([Fetch(0)] + []), s);
    OneMore(s1, Check(0, key, 0), s2, [NoteArrival(key)] + ([PutMap] + ([Fetch(0)] + [])), s);
    acts := [Check(0, key, 0)] + ([NoteArrival(key)] + ([PutMap] + ([Fetch(0)] + [])));
    OneMore(s0, WriteStep, s1, acts, s);
    acts := [WriteStep] + acts;
  }

  /**
    A map that is there is given: from every reachable state with the engine between two maps and a
    client between two calls, the engine sets a map of `key` and writes a step, the client asks for that
    step, and the call gives it the map.
  */
  lemma AnArrivedMapIsGiven(s0: State, acts0: seq<Action>, s: State, c: nat, key: Key)
    returns (acts: seq<Action>, s': State)
    requires Init(s0) && Runs(s0, acts0, s) && s.setting.None? && c < |s.askers| && s.askers[c].Resting?
    ensures Runs(s, acts, s') && s'.given == s.given + [Given(key, s.next, true)]
    ensures s'.setting.None? && s'.askers == s.askers
    ensures key in s'.arrivedAt && s'.arrivedAt[key] == if key in s.arrivedAt then s.arrivedAt[key] else s.next
  {
    RunInv(s0, acts0, s);
    hide Runs;
    var s1 := Apply(s, NoteArrival(key));
    var s2 := Apply(s1, PutMap);
    var s3 := Apply(s2, WriteStep);
    var s4 := Apply(s3, Check(c, key, s.next));
    s' := Apply(s4, Fetch(c));
    assert s4.askers[c] == Checked(key, s.next, true);
    NoSteps(s');
    OneMore(s4, Fetch(c), s', [], s');
    acts := [Fetch(c)] + [];
    OneMore(s3, Check(c, key, s.next), s4, acts, s');
    acts := [Check(c, key, s.next)] + acts;
    OneMore(s2, WriteStep, s3, acts, s');
    acts := [WriteStep] + acts;
    OneMore(s1, PutMap, s2, acts, s');
    acts := [PutMap] + acts;
    OneMore(s, NoteArrival(key), s1, acts, s');
    acts := [NoteArrival(key)] + acts;
  }

  lemma NoSteps(s: State)
    ensures Runs(s, [], s)
  {
  }
}

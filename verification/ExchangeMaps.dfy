/** The exchange keys seen for an instrument and the exchange maps (src/bridge.rs). */
module ExchangeMaps {
  import opened Basics

  datatype Key = Key(code: string, secType: nat)

  /** A key came for an instrument when step `at` of the market data queue was the next to be written. */
  datatype Sighting = Sighting(at: nat, key: Key)

  /** How many sightings are kept of an instrument. */
  const KEPT: nat := 4

  // ── The keys of one instrument ──

  /** The kept list after a sighting: only a new key is put in, and the oldest goes when it is full. */
  function Observed(keys: seq<Sighting>, s: Sighting): seq<Sighting> {
    if keys != [] && keys[|keys| - 1].key == s.key then keys
    else (if |keys| >= KEPT then keys[1..] else keys) + [s]
  }

  function Kept(seen: seq<Sighting>): seq<Sighting> {
    if seen == [] then [] else Observed(Kept(seen[..|seen| - 1]), seen[|seen| - 1])
  }

  /** The last sighting at or before a step. */
  function LastAt(keys: seq<Sighting>, step: nat): Option<Key> {
    if keys == [] then None
    else if keys[|keys| - 1].at <= step then Some(keys[|keys| - 1].key)
    else LastAt(keys[..|keys| - 1], step)
  }

  /** The key a list gives for a step: the last at or before it, else the first. */
  function Lookup(keys: seq<Sighting>, step: nat): Option<Key> {
    if LastAt(keys, step).Some? then LastAt(keys, step)
    else if keys != [] then Some(keys[0].key)
    else None
  }

  /** Sighting `i` is at or before the step, and every later one is after it. */
  predicate IsLastAt(keys: seq<Sighting>, step: nat, i: int) {
    0 <= i < |keys| && keys[i].at <= step && forall j :: i < j < |keys| ==> keys[j].at > step
  }

  /** The last sighting at or before a step decides. */
  lemma {:induction false} LastAtOf(keys: seq<Sighting>, step: nat, i: int)
    requires IsLastAt(keys, step, i)
    ensures LastAt(keys, step) == Some(keys[i].key)
    decreases |keys|
  {
    if i < |keys| - 1 {
      LastAtOf(keys[..|keys| - 1], step, i);
    }
  }

  /** The last sighting at or before a step, unless all are after it. */
  lemma {:induction false} FindLastAt(keys: seq<Sighting>, step: nat) returns (i: int)
    ensures if LastAt(keys, step) == None then forall j :: 0 <= j < |keys| ==> keys[j].at > step
      else IsLastAt(keys, step, i)
    decreases |keys|
  {
    i := |keys| - 1;
    if keys != [] && keys[i].at > step {
      var n := i;
      i := FindLastAt(keys[..n], step);
      assert forall j :: 0 <= j < n ==> keys[..n][j] == keys[j];
    }
  }

  /** The key is that of the last sighting at or before the step, and there is none just when all are after it. */
  lemma LastAtIs(keys: seq<Sighting>, step: nat, k: Key)
    ensures LastAt(keys, step) == Some(k) <==> exists i :: IsLastAt(keys, step, i) && keys[i].key == k
    ensures LastAt(keys, step) == None <==> forall i :: 0 <= i < |keys| ==> keys[i].at > step
  {
    hide LastAt;
    var n := FindLastAt(keys, step);
    if LastAt(keys, step).Some? {
      LastAtOf(keys, step, n);
    }
    forall i | IsLastAt(keys, step, i) ensures LastAt(keys, step) == Some(keys[i].key) {
      LastAtOf(keys, step, i);
    }
  }

  predicate Ordered(seen: seq<Sighting>) {
    forall i, j :: 0 <= i <= j < |seen| ==> seen[i].at <= seen[j].at
  }

  /** All the sightings that brought a new key. */
  function Changes(seen: seq<Sighting>): seq<Sighting> {
    if seen == [] then []
    else
      var front, s := Changes(seen[..|seen| - 1]), seen[|seen| - 1];
      if front != [] && front[|front| - 1].key == s.key then front else front + [s]
  }

  /** The last `n` of a list. */
  function Tail(keys: seq<Sighting>, n: nat): seq<Sighting> {
    if |keys| <= n then keys else keys[|keys| - n..]
  }

  lemma {:induction false} KeptIsTail(seen: seq<Sighting>)
    ensures Kept(seen) == Tail(Changes(seen), KEPT)
    decreases |seen|
  {
    if seen != [] {
      KeptIsTail(seen[..|seen| - 1]);
    }
  }

  lemma {:induction false} ChangesShape(seen: seq<Sighting>)
    requires Ordered(seen) && seen != []
    ensures Changes(seen) != [] && Ordered(Changes(seen))
    ensures Changes(seen)[|Changes(seen)| - 1].key == seen[|seen| - 1].key
    ensures Changes(seen)[|Changes(seen)| - 1].at <= seen[|seen| - 1].at
    decreases |seen|
  {
    if |seen| > 1 {
      ChangesShape(seen[..|seen| - 1]);
    }
  }

  /** Leaving out the repeated keys changes no answer. */
  lemma {:induction false} ChangesAnswer(seen: seq<Sighting>, step: nat)
    requires Ordered(seen)
    ensures LastAt(Changes(seen), step) == LastAt(seen, step)
    decreases |seen|
  {
    if seen != [] {
      var front, s := seen[..|seen| - 1], seen[|seen| - 1];
      ChangesAnswer(front, step);
      ChangesShape(seen);
      var cs, fs := Changes(seen), Changes(front);
      if s.at > step && cs != fs {
        assert cs[..|cs| - 1] == fs;
      }
    }
  }

  lemma {:induction false} TailAnswer(keys: seq<Sighting>, n: nat, step: nat)
    requires n > 0 && Ordered(keys) && keys != [] && Tail(keys, n)[0].at <= step
    ensures LastAt(Tail(keys, n), step) == LastAt(keys, step) && LastAt(keys, step).Some?
    decreases |keys|
  {
    var t, last := Tail(keys, n), keys[|keys| - 1];
    assert t[|t| - 1] == last;
    if last.at > step {
      assert n > 1;
      var front := keys[..|keys| - 1];
      assert t[..|t| - 1] == Tail(front, n - 1);
      TailAnswer(front, n - 1, step);
    }
  }

  /** The number of key changes after a step. */
  function ChangesAfter(changes: seq<Sighting>, step: nat): nat {
    if changes == [] then 0
    else ChangesAfter(changes[..|changes| - 1], step) + if changes[|changes| - 1].at > step then 1 else 0
  }

  lemma {:induction false} CountAfter(changes: seq<Sighting>, step: nat, i: nat)
    requires Ordered(changes) && i < |changes|
    ensures changes[i].at <= step <==> ChangesAfter(changes, step) < |changes| - i
    ensures ChangesAfter(changes, step) <= |changes|
    decreases |changes|
  {
    var front := changes[..|changes| - 1];
    if i < |front| {
      CountAfter(front, step, i);
      assert front[i] == changes[i];
    } else if front != [] {
      CountAfter(front, step, |front| - 1);
    }
  }

  /** The kept list starts at the fourth change from the end, or at the first sighting. */
  lemma KeptFrom(seen: seq<Sighting>, step: nat)
    requires Ordered(seen) && seen != []
    ensures Kept(seen) != []
    ensures Kept(seen)[0].at <= step <==> seen[0].at <= step && ChangesAfter(Changes(seen), step) < KEPT
  {
    var keys := Changes(seen);
    KeptIsTail(seen);
    ChangesShape(seen);
    FirstChange(seen);
    hide Kept, Changes, ChangesAfter;
    var t := Tail(keys, KEPT);
    CountAfter(keys, step, |keys| - |t|);
    assert keys[|keys| - |t|] == t[0];
    CountAfter(keys, step, 0);
  }

  /** The kept list and the whole one, by their last sightings at or before a step. */
  lemma KeptLastAt(seen: seq<Sighting>, step: nat)
    requires Ordered(seen) && seen != [] && Kept(seen) != []
    ensures Kept(seen)[0].at <= step ==> LastAt(seen, step).Some? && Lookup(Kept(seen), step) == LastAt(seen, step)
    ensures Kept(seen)[0].at > step ==> Lookup(Kept(seen), step) == Some(Kept(seen)[0].key)
  {
    var keys := Changes(seen);
    KeptIsTail(seen);
    ChangesShape(seen);
    ChangesAnswer(seen, step);
    hide Kept, LastAt, Changes, Tail, Ordered;
    if Kept(seen)[0].at <= step {
      TailAnswer(keys, KEPT, step);
    } else {
      TailOrdered(keys, KEPT);
      NoneBefore(Kept(seen), step);
    }
  }

  /**
    The four kept sightings answer as all of them would for every step from the oldest kept one on,
    which are the steps with fewer than four key changes after them, from the first sighting on: with the
    key of the last sighting of all at or before the step. An older step gets the oldest kept key.
  */
  lemma KeptAnswersAsAll(seen: seq<Sighting>, step: nat) returns (i: int)
    requires Ordered(seen) && seen != []
    ensures Kept(seen) != []
    ensures Kept(seen)[0].at <= step <==> seen[0].at <= step && ChangesAfter(Changes(seen), step) < KEPT
    ensures Kept(seen)[0].at <= step ==> IsLastAt(seen, step, i) && Lookup(Kept(seen), step) == Some(seen[i].key)
    ensures Kept(seen)[0].at > step ==> Lookup(Kept(seen), step) == Some(Kept(seen)[0].key)
  {
    hide Kept, LastAt, Changes, ChangesAfter, Lookup, Ordered;
    KeptFrom(seen, step);
    KeptLastAt(seen, step);
    i := FindLastAt(seen, step);
    if LastAt(seen, step).Some? {
      LastAtOf(seen, step, i);
    }
  }

  lemma TailOrdered(keys: seq<Sighting>, n: nat)
    requires Ordered(keys)
    ensures Ordered(Tail(keys, n))
  {
  }

  lemma {:induction false} FirstChange(seen: seq<Sighting>)
    requires seen != []
    ensures Changes(seen) != [] && Changes(seen)[0] == seen[0]
    decreases |seen|
  {
    if |seen| > 1 {
      FirstChange(seen[..|seen| - 1]);
    }
  }

  lemma {:induction false} NoneBefore(keys: seq<Sighting>, step: nat)
    requires Ordered(keys) && keys != [] && keys[0].at > step
    ensures LastAt(keys, step) == None
    decreases |keys|
  {
    if |keys| > 1 {
      NoneBefore(keys[..|keys| - 1], step);
    }
  }

  // ── The store ──

  datatype ExchangeMap = ExchangeMap(components: seq<string>)

  /** A map came when step `at` was the next to be written. */
  datatype Arrival = Arrival(key: Key, at: nat, exchanges: ExchangeMap)

  function FirstArrival(arrivals: seq<Arrival>, key: Key): Option<nat> {
    if arrivals == [] then None
    else if FirstArrival(arrivals[..|arrivals| - 1], key).Some? then FirstArrival(arrivals[..|arrivals| - 1], key)
    else if arrivals[|arrivals| - 1].key == key then Some(arrivals[|arrivals| - 1].at)
    else None
  }

  function LatestMap(arrivals: seq<Arrival>, key: Key): Option<ExchangeMap> {
    if arrivals == [] then None
    else if arrivals[|arrivals| - 1].key == key then Some(arrivals[|arrivals| - 1].exchanges)
    else LatestMap(arrivals[..|arrivals| - 1], key)
  }

  /** Arrival `i` is the first of its key, or the last. */
  predicate IsFirstOf(arrivals: seq<Arrival>, key: Key, i: int) {
    0 <= i < |arrivals| && arrivals[i].key == key && forall j :: 0 <= j < i ==> arrivals[j].key != key
  }

  predicate IsLatestOf(arrivals: seq<Arrival>, key: Key, i: int) {
    0 <= i < |arrivals| && arrivals[i].key == key && forall j :: i < j < |arrivals| ==> arrivals[j].key != key
  }

  lemma {:induction false} FirstArrivalIs(arrivals: seq<Arrival>, key: Key)
    ensures FirstArrival(arrivals, key) == None <==> forall i :: 0 <= i < |arrivals| ==> arrivals[i].key != key
    ensures FirstArrival(arrivals, key).Some? ==> exists i :: IsFirstOf(arrivals, key, i)
    ensures forall i :: IsFirstOf(arrivals, key, i) ==> FirstArrival(arrivals, key) == Some(arrivals[i].at)
    decreases |arrivals|
  {
    if arrivals != [] {
      var front, n := arrivals[..|arrivals| - 1], |arrivals| - 1;
      FirstArrivalIs(front, key);
      assert forall i :: 0 <= i < n ==> front[i] == arrivals[i];
      if FirstArrival(front, key).Some? {
        var i :| IsFirstOf(front, key, i);
        assert IsFirstOf(arrivals, key, i);
      } else if arrivals[n].key == key {
        assert IsFirstOf(arrivals, key, n);
      }
      assert forall i :: i < n && IsFirstOf(arrivals, key, i) ==> IsFirstOf(front, key, i);
    }
  }

  lemma {:induction false} LatestMapOf(arrivals: seq<Arrival>, key: Key, i: int)
    requires IsLatestOf(arrivals, key, i)
    ensures LatestMap(arrivals, key) == Some(arrivals[i].exchanges)
    decreases |arrivals|
  {
    if i < |arrivals| - 1 {
      LatestMapOf(arrivals[..|arrivals| - 1], key, i);
    }
  }

  lemma {:induction false} FindLatest(arrivals: seq<Arrival>, key: Key) returns (i: int)
    ensures if LatestMap(arrivals, key) == None then forall j :: 0 <= j < |arrivals| ==> arrivals[j].key != key
      else IsLatestOf(arrivals, key, i)
    decreases |arrivals|
  {
    i := |arrivals| - 1;
    if arrivals != [] && arrivals[i].key != key {
      var n := i;
      i := FindLatest(arrivals[..n], key);
      assert forall j :: 0 <= j < n ==> arrivals[..n][j] == arrivals[j];
    }
  }

  /** The map of a key is the last that came, and there is none just when none came. */
  lemma LatestMapIs(arrivals: seq<Arrival>, key: Key)
    ensures LatestMap(arrivals, key) == None <==> forall i :: 0 <= i < |arrivals| ==> arrivals[i].key != key
    ensures LatestMap(arrivals, key).Some? ==> exists i :: IsLatestOf(arrivals, key, i)
    ensures forall i :: IsLatestOf(arrivals, key, i) ==> LatestMap(arrivals, key) == Some(arrivals[i].exchanges)
  {
    hide LatestMap;
    var n := FindLatest(arrivals, key);
    forall i | IsLatestOf(arrivals, key, i) ensures LatestMap(arrivals, key) == Some(arrivals[i].exchanges) {
      LatestMapOf(arrivals, key, i);
    }
  }

  /** The map of a key for a step: the last that came, if the first came at or before the step. */
  ghost predicate MapFor(arrivals: seq<Arrival>, key: Key, step: nat, r: Option<ExchangeMap>) {
    match r
    case Some(m) =>
      && (exists i :: IsFirstOf(arrivals, key, i) && arrivals[i].at <= step)
      && (exists i :: IsLatestOf(arrivals, key, i) && arrivals[i].exchanges == m)
    case None => forall i :: IsFirstOf(arrivals, key, i) ==> step < arrivals[i].at
  }

  lemma MapForIs(arrivals: seq<Arrival>, key: Key, step: nat)
    ensures var first := FirstArrival(arrivals, key);
      MapFor(arrivals, key, step, if first.Some? && first.value <= step then LatestMap(arrivals, key) else None)
  {
    FirstArrivalIs(arrivals, key);
    LatestMapIs(arrivals, key);
    hide FirstArrival, LatestMap;
    if i :| IsFirstOf(arrivals, key, i) {
      assert LatestMap(arrivals, key).Some?;
    }
  }

  /** A known key, with its map once it came. */
  datatype Slot = Slot(key: Key, exchanges: Option<ExchangeMap>)

  /** The place of a key among the slots, or their number. */
  function Place(slots: seq<Slot>, key: Key): (i: nat)
    ensures i <= |slots| && (i < |slots| ==> slots[i].key == key) && forall j :: 0 <= j < i ==> slots[j].key != key
  {
    if slots == [] || slots[0].key == key then 0 else 1 + Place(slots[1..], key)
  }

  function Ready(slots: seq<Slot>, key: Key): Option<ExchangeMap> {
    var i := Place(slots, key);
    if i < |slots| then slots[i].exchanges else None
  }

  predicate Known(slots: seq<Slot>, key: Key) {
    Place(slots, key) < |slots|
  }

  lemma PlaceIs(slots: seq<Slot>, key: Key, i: nat)
    requires i <= |slots| && (i < |slots| ==> slots[i].key == key) && forall j :: 0 <= j < i ==> slots[j].key != key
    ensures Place(slots, key) == i
  {
  }

  function WithMap(slots: seq<Slot>, key: Key, exchanges: ExchangeMap): seq<Slot> {
    var i := Place(slots, key);
    if i < |slots| then slots[i := Slot(key, Some(exchanges))] else slots + [Slot(key, Some(exchanges))]
  }

  lemma ReadyWithMap(slots: seq<Slot>, key: Key, exchanges: ExchangeMap, other: Key)
    ensures Ready(WithMap(slots, key, exchanges), other) == if other == key then Some(exchanges)
      else Ready(slots, other)
  {
    var more := WithMap(slots, key, exchanges);
    if other == key {
      PlaceIs(more, key, Place(slots, key));
    } else {
      PlaceIs(more, other, if Known(slots, other) then Place(slots, other) else |more|);
    }
  }

  /** The slots without those of a key that wait for their map. */
  function Without(slots: seq<Slot>, key: Key): seq<Slot> {
    if slots == [] then []
    else if slots[0].key == key && slots[0].exchanges.None? then Without(slots[1..], key)
    else [slots[0]] + Without(slots[1..], key)
  }

  predicate OneEach(slots: seq<Slot>) {
    forall i, j :: 0 <= i < j < |slots| ==> slots[i].key != slots[j].key
  }

  lemma {:induction false} WithoutIsPart(slots: seq<Slot>, key: Key)
    requires OneEach(slots)
    ensures forall s <- Without(slots, key) :: s in slots
    ensures OneEach(Without(slots, key))
    decreases |slots|
  {
    if slots != [] {
      var rest, w := Without(slots[1..], key), Without(slots, key);
      WithoutIsPart(slots[1..], key);
      forall i, j | 0 <= i < j < |w| ensures w[i].key != w[j].key {
        assert w == [slots[0]] + rest ==> w[j] == rest[j - 1] && (i > 0 ==> w[i] == rest[i - 1]);
        assert w == [slots[0]] + rest ==> rest[j - 1] in slots[1..];
      }
    }
  }

  lemma ReadyCons(slots: seq<Slot>, key: Key)
    requires slots != []
    ensures Ready(slots, key) == if slots[0].key == key then slots[0].exchanges else Ready(slots[1..], key)
    ensures Known(slots, key) <==> slots[0].key == key || Known(slots[1..], key)
  {
  }

  lemma {:induction false} WithoutKeeps(slots: seq<Slot>, key: Key, other: Key)
    requires OneEach(slots)
    ensures Ready(Without(slots, key), other) == Ready(slots, other)
    ensures Known(Without(slots, key), key) <==> Ready(slots, key).Some?
    decreases |slots|
  {
    if slots != [] {
      var w := Without(slots, key);
      WithoutKeeps(slots[1..], key, other);
      ReadyCons(slots, other);
      ReadyCons(slots, key);
      if slots[0].key == key && slots[0].exchanges.None? {
        PlaceIs(slots[1..], key, |slots| - 1);
      } else {
        assert w[1..] == Without(slots[1..], key);
        ReadyCons(w, other);
        ReadyCons(w, key);
      }
    }
  }

  class ReferenceState {
    var keys: map<nat, seq<Sighting>>
    var slots: seq<Slot>
    var arrivedAt: map<Key, nat>
    /** All that was seen and all that arrived. */
    ghost var seen: map<nat, seq<Sighting>>
    ghost var arrivals: seq<Arrival>

    ghost predicate Valid()
      reads this
    {
      && OneEach(slots)
      && keys.Keys == seen.Keys && (forall i <- keys :: seen[i] != [] && keys[i] == Kept(seen[i]))
      && (forall k: Key :: Ready(slots, k) == LatestMap(arrivals, k))
      && (forall k: Key :: (if k in arrivedAt then Some(arrivedAt[k]) else None) == FirstArrival(arrivals, k))
    }

    constructor ()
      ensures Valid() && keys == map[] && slots == [] && arrivedAt == map[] && seen == map[] && arrivals == []
    {
      keys, slots, arrivedAt := map[], [], map[];
      seen, arrivals := map[], [];
    }

    /** `observe_exchange_map_at`: true when the key was not known. */
    method ObserveAt(instrument: nat, key: Key, at: nat) returns (isNew: bool)
      requires Valid()
      modifies this
      ensures Valid() && arrivals == old(arrivals)
      ensures var before := if instrument in old(seen) then old(seen[instrument]) else [];
        seen == old(seen)[instrument := before + [Sighting(at, key)]]
      ensures isNew <==> !Known(old(slots), key)
      ensures Known(slots, key) && forall k :: k != key ==> (Known(slots, k) <==> Known(old(slots), k))
    {
      hide Kept, LatestMap, FirstArrival, Ready, Known;
      var list := if instrument in keys then keys[instrument] else [];
      ghost var all := (if instrument in seen then seen[instrument] else []) + [Sighting(at, key)];
      NothingKept();
      KeptMore(if instrument in seen then seen[instrument] else [], Sighting(at, key));
      if list == [] || list[|list| - 1].key != key {
        if |list| >= KEPT {
          list := list[1..];
        }
        list := list + [Sighting(at, key)];
      }
      keys := keys[instrument := list];
      seen := seen[instrument := all];
      isNew := !Known(slots, key);
      if isNew {
        NewKey(slots, key);
        slots := slots + [Slot(key, None)];
      }
    }

    /** `set_exchange_map_at`: the first arrival of a key is kept, and the last map. */
    method SetMapAt(key: Key, exchanges: ExchangeMap, at: nat)
      requires Valid()
      modifies this
      ensures Valid() && seen == old(seen)
      ensures arrivals == old(arrivals) + [Arrival(key, at, exchanges)]
    {
      hide Kept, Ready, Known, Place, WithMap;
      if key !in arrivedAt {
        arrivedAt := arrivedAt[key := at];
      }
      ghost var before := slots;
      MapPlace(slots, key, exchanges);
      slots := WithMap(slots, key, exchanges);
      arrivals := arrivals + [Arrival(key, at, exchanges)];
      assert arrivals[..|arrivals| - 1] == old(arrivals);
      forall k: Key ensures Ready(slots, k) == LatestMap(arrivals, k) {
        ReadyWithMap(before, key, exchanges, k);
      }
    }

    /** `forget_waiting_exchange_map`: a map that arrived stays. */
    method ForgetWaiting(key: Key)
      requires Valid()
      modifies this
      ensures Valid() && seen == old(seen) && arrivals == old(arrivals)
      ensures Known(slots, key) <==> LatestMap(arrivals, key).Some?
    {
      hide Kept, Ready, Known, Place, LatestMap, FirstArrival;
      ghost var before := slots;
      WithoutIsPart(slots, key);
      slots := Without(slots, key);
      forall k: Key ensures Ready(slots, k) == Ready(before, k) {
        WithoutKeeps(before, key, k);
      }
      WithoutKeeps(before, key, key);
    }

    /**
      `instrument_exchange_map_at`: the last map that came for the key of the step, for a step at or
      after the map's first arrival, and none for a step before it.
    */
    method MapAt(instrument: nat, step: nat) returns (r: Option<ExchangeMap>)
      requires Valid()
      ensures instrument !in seen ==> r == None
      ensures instrument in seen ==> seen[instrument] != [] && var key := Lookup(Kept(seen[instrument]), step);
        && key.Some?
        && r == if FirstArrival(arrivals, key.value).Some? && FirstArrival(arrivals, key.value).value <= step
                then LatestMap(arrivals, key.value) else None
      // By positions: the last sighting at or before the step decides, or the oldest kept one.
      ensures instrument in seen && Ordered(seen[instrument]) ==>
        var all, kept := seen[instrument], Kept(seen[instrument]);
        && kept != []
        && (kept[0].at <= step ==> exists i :: IsLastAt(all, step, i) && MapFor(arrivals, all[i].key, step, r))
        && (kept[0].at > step ==> MapFor(arrivals, kept[0].key, step, r))
    {
      hide Kept, LatestMap, FirstArrival, Place, IsLastAt, MapFor, Ordered;
      if instrument !in keys {
        return None;
      }
      var list := keys[instrument];
      SomethingKept(seen[instrument]);
      if Ordered(seen[instrument]) {
        var i := KeptAnswersAsAll(seen[instrument], step);
      }
      var n := |list|;
      assert list[..n] == list;
      while n > 0 && list[n - 1].at > step
        invariant 0 <= n <= |list| && LastAt(list, step) == LastAt(list[..n], step)
      {
        n := n - 1;
        assert list[..n + 1][..n] == list[..n];
      }
      var key := if n > 0 then list[n - 1].key else list[0].key;
      MapForIs(arrivals, key, step);
      if key in arrivedAt && arrivedAt[key] > step {
        return None;
      }
      BothArrive(arrivals, key);
      return Ready(slots, key);
    }
  }

  lemma KeptMore(seen: seq<Sighting>, s: Sighting)
    ensures Kept(seen + [s]) == Observed(Kept(seen), s)
  {
  }

  lemma NothingKept()
    ensures Kept([]) == []
  {
  }

  lemma SomethingKept(seen: seq<Sighting>)
    requires seen != []
    ensures Kept(seen) != []
  {
  }

  lemma NewKey(slots: seq<Slot>, key: Key)
    requires !Known(slots, key) && OneEach(slots)
    ensures OneEach(slots + [Slot(key, None)])
    ensures forall k :: Ready(slots + [Slot(key, None)], k) == Ready(slots, k)
    ensures forall k :: Known(slots + [Slot(key, None)], k) <==> Known(slots, k) || k == key
  {
    var more := slots + [Slot(key, None)];
    forall k ensures Ready(more, k) == Ready(slots, k) && (Known(more, k) <==> Known(slots, k) || k == key) {
      PlaceIs(more, k, if Known(slots, k) then Place(slots, k) else if k == key then |slots| else |more|);
    }
  }

  lemma MapPlace(slots: seq<Slot>, key: Key, exchanges: ExchangeMap)
    requires OneEach(slots)
    ensures OneEach(WithMap(slots, key, exchanges))
  {
  }

  lemma {:induction false} BothArrive(arrivals: seq<Arrival>, key: Key)
    ensures FirstArrival(arrivals, key).Some? <==> LatestMap(arrivals, key).Some?
  {
    if arrivals != [] {
      BothArrive(arrivals[..|arrivals| - 1], key);
    }
  }
}

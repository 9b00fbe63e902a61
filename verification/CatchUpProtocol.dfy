/**
  Dropped steps and catch-ups: the engine's offers and scans, the client's requests and reads,
  interleaved access by access. Whether a step fits the ring is left open: any push may fail. The
  engine's loads of `listened` and `resync` may be stale: a load of an instrument's `listened` flag
  gives any value from the last one the engine knows of on, and a load of `resync` may miss a request.
  The exchange that takes a waiting bit acquires what its setter knew, so the scan knows of the
  `listened` values from before the request; otherwise the engine may hear of them at any time.
*/
module CatchUpProtocol {
  import opened Basics
  import opened Replica
  import opened MdQueues

  /**
    Where the engine stands. In `offer`: `listened` was loaded (Checking), then `resync` (Pushing),
    then the push failed (Full). In a scan: before word `w` (AtWord), with the instruments `held` of
    word `w` left to do (InWord), about to write the catch-up of `id` (Making), about to set its flag
    again (Failing). Flagged and Raising: the flag of `id` is set, `resync_any` not yet.
  */
  datatype Engine =
    | Idle
    | Checking(id: nat, fields: set<nat>)
    | Pushing(id: nat, fields: set<nat>)
    | Full(id: nat, fields: set<nat>)
    | Flagged(id: nat)
    | AtWord(w: nat)
    | InWord(w: nat, held: set<nat>)
    | Making(w: nat, held: set<nat>, id: nat)
    | Failing(w: nat, held: set<nat>, id: nat)
    | Raising(w: nat, held: set<nat>, id: nat)

  datatype State = State(
    // The words both threads touch: the flag, the waiting instruments, and per instrument the values
    // of its `listened` flag in order, with the last one the engine knows of and the last one that its
    // waiting bit carries.
    any: bool, resync: set<nat>, listens: seq<seq<bool>>, knows: seq<nat>, carry: seq<nat>,
    // The steps written, the ends of the messages handed over, and how many steps the client has read.
    log: seq<Step>, ends: seq<nat>, applied: nat,
    // The engine: its quotes, and the fields changed since they were last offered.
    engine: Engine, quotes: seq<Quote>, dirty: seq<set<nat>>,
    // The client's quotes, and its requests between their two steps.
    mirrors: seq<Quote>, asking: multiset<nat>,
    // Per instrument: the quote the client started from, and the messages it has read since.
    base: seq<Quote>, since: seq<seq<seq<Step>>>)

  datatype Action =
    | Change(id: nat, f: nat, v: int)
    | OfferListened(id: nat, fields: set<nat>, t: nat)
    | OfferResync(waits: bool)
    | OfferPush(book: bool)
    | OfferFails
    | OfferFlag
    | OfferRaise
    | Publish
    | ScanStart
    | ScanTake
    | ScanListened(id: nat, t: nat)
    | ScanPush
    | ScanFails
    | ScanFlag
    | ScanRaise
    | ScanNext
    | ScanEnd
    | EngineHears(id: nat, t: nat)
    | RequestFlag(id: nat)
    | RequestRaise(id: nat)
    | ListenOn(id: nat, m: Quote)
    | ListenOff(id: nat)
    | ReadMessage(k: nat)

  ghost predicate Shaped(s: State) {
    && |s.quotes| == |s.dirty| == |s.mirrors| == |s.base| == |s.since| == MAX_INSTRUMENTS
    && |s.listens| == |s.knows| == |s.carry| == MAX_INSTRUMENTS
    && (forall id: nat :: id < MAX_INSTRUMENTS ==> s.knows[id] < |s.listens[id]| && s.carry[id] < |s.listens[id]|)
    && s.applied <= |s.log| && forall k :: 0 <= k < |s.ends| ==> s.ends[k] <= |s.log|
  }

  ghost predicate Init(s: State) {
    && Shaped(s)
    && !s.any && s.resync == {} && s.log == [] && s.ends == [] && s.applied == 0
    && s.engine == Idle && s.asking == multiset{}
    && forall id: nat :: id < MAX_INSTRUMENTS ==>
         s.listens[id] == [false] && s.dirty[id] == {} && s.since[id] == [] && s.mirrors[id] == s.base[id]
  }

  /** The start of message `k`. */
  function StartOf(ends: seq<nat>, k: nat): nat
    requires k <= |ends|
  {
    if k == 0 then 0 else ends[k - 1]
  }

  /** A load of the `listened` flag of `id` may give its value number `t`. */
  ghost predicate MayLoad(s: State, id: nat, t: nat)
    requires Shaped(s)
  {
    id < MAX_INSTRUMENTS && s.knows[id] <= t < |s.listens[id]|
  }

  ghost predicate Enabled(s: State, a: Action) {
    && Shaped(s)
    && match a
       case Change(id, f, v) => s.engine.Idle? && id < MAX_INSTRUMENTS && f < COUNT
       case OfferListened(id, fields, t) => s.engine.Idle? && MayLoad(s, id, t)
       case OfferResync(waits) => s.engine.Checking? && s.engine.id < MAX_INSTRUMENTS
         && (waits ==> s.engine.id in s.resync)
       case OfferPush(book) => s.engine.Pushing? && s.engine.id < MAX_INSTRUMENTS
       case OfferFails => s.engine.Pushing?
       case OfferFlag => s.engine.Full? && s.engine.id < MAX_INSTRUMENTS
       case OfferRaise => s.engine.Flagged?
       case Publish => s.engine.Idle?
       case ScanStart => s.engine.Idle?
       case ScanTake => s.engine.AtWord? && s.engine.w < INSTRUMENT_WORDS
       case ScanListened(id, t) => s.engine.InWord? && id in s.engine.held && MayLoad(s, id, t)
       case ScanPush => s.engine.Making? && s.engine.id < MAX_INSTRUMENTS
       case ScanFails => s.engine.Making?
       case ScanFlag => s.engine.Failing?
       case ScanRaise => s.engine.Raising?
       case ScanNext => s.engine.InWord? && s.engine.held == {}
       case ScanEnd => s.engine.AtWord? && s.engine.w == INSTRUMENT_WORDS
       case EngineHears(id, t) => MayLoad(s, id, t)
       case RequestFlag(id) => id < MAX_INSTRUMENTS
       case RequestRaise(id) => id in s.asking
       case ListenOn(id, m) => id < MAX_INSTRUMENTS
       case ListenOff(id) => id < MAX_INSTRUMENTS
       case ReadMessage(k) => k < |s.ends| && s.applied == StartOf(s.ends, k) && s.applied < s.ends[k]
  }

  /** The offer of `fields` is over: they are no longer due. */
  ghost function Offered(s: State, id: nat, fields: set<nat>): State
    requires id < |s.dirty|
  {
    s.(dirty := s.dirty[id := s.dirty[id] - fields])
  }

  /** The steps written since the last message are handed over as one. */
  ghost function HandedOver(s: State): State {
    s.(ends := if StartOf(s.ends, |s.ends|) < |s.log| then s.ends + [|s.log|] else s.ends)
  }

  /** The client has read a message. */
  ghost function Read(s: State, message: seq<Step>): State
    requires Shaped(s) && s.applied + |message| <= |s.log|
  {
    s.(applied := s.applied + |message|,
       mirrors := seq(MAX_INSTRUMENTS,
         id requires 0 <= id < MAX_INSTRUMENTS => Fold(s.mirrors[id], ClientOrder(message), id)),
       since := seq(MAX_INSTRUMENTS, id requires 0 <= id < MAX_INSTRUMENTS => s.since[id] + [message]))
  }

  ghost function Apply(s: State, a: Action): State
    requires Enabled(s, a)
  {
    match a
    case Change(id, f, v) =>
      s.(quotes := s.quotes[id := s.quotes[id][f := v]], dirty := s.dirty[id := s.dirty[id] + {f}])
    // ── offer ──
    case OfferListened(id, fields, t) =>
      var s1 := s.(knows := s.knows[id := t]);
      if s.listens[id][t] then s1.(engine := Checking(id, fields)) else Offered(s1, id, fields)
    case OfferResync(waits) =>
      var Checking(id, fields) := s.engine;
      if waits then Offered(s, id, fields).(engine := Idle) else s.(engine := Pushing(id, fields))
    case OfferPush(book) =>
      var Pushing(id, fields) := s.engine;
      Offered(s, id, fields).(engine := Idle, log := s.log + [Step(id, fields, s.quotes[id], book)])
    case OfferFails =>
      s.(engine := Full(s.engine.id, s.engine.fields))
    case OfferFlag =>
      var Full(id, fields) := s.engine;
      Offered(s, id, fields).(engine := Flagged(id), resync := s.resync + {id})
    case OfferRaise =>
      s.(engine := Idle, any := true)
    case Publish =>
      HandedOver(s)
    // ── write_catch_ups ──
    case ScanStart =>
      if s.any then s.(engine := AtWord(0), any := false) else s
    case ScanTake =>
      var held := set id | id in s.resync && WordOf(id) == s.engine.w;
      s.(engine := InWord(s.engine.w, held), resync := s.resync - held,
         knows := seq(MAX_INSTRUMENTS, id requires 0 <= id < MAX_INSTRUMENTS =>
           if id in held then Max(s.knows[id], s.carry[id]) else s.knows[id]))
    case ScanListened(id, t) =>
      var InWord(w, held) := s.engine;
      s.(knows := s.knows[id := t], engine := if s.listens[id][t] then Making(w, held, id) else InWord(w, held - {id}))
    case ScanPush =>
      var Making(w, held, id) := s.engine;
      s.(engine := InWord(w, held - {id}), log := s.log + [Step(id, All(), s.quotes[id], false)],
         dirty := s.dirty[id := {}])
    case ScanFails =>
      s.(engine := Failing(s.engine.w, s.engine.held, s.engine.id))
    case ScanFlag =>
      var Failing(w, held, id) := s.engine;
      s.(engine := Raising(w, held - {id}, id), resync := s.resync + {id})
    case ScanRaise =>
      s.(engine := InWord(s.engine.w, s.engine.held), any := true)
    case ScanNext =>
      s.(engine := AtWord(s.engine.w + 1))
    case ScanEnd =>
      HandedOver(s).(engine := Idle)
    // ── Any other acquire of the engine, such as of the tail ──
    case EngineHears(id, t) =>
      s.(knows := s.knows[id := t])
    // ── The client ──
    case RequestFlag(id) =>
      s.(resync := s.resync + {id}, asking := s.asking + multiset{id},
         carry := s.carry[id := |s.listens[id]| - 1])
    case RequestRaise(id) =>
      s.(any := true, asking := s.asking - multiset{id})
    case ListenOn(id, m) =>
      // The client starts from a quote of its own, such as an empty one.
      s.(listens := s.listens[id := s.listens[id] + [true]],
         mirrors := s.mirrors[id := m], base := s.base[id := m], since := s.since[id := []])
    case ListenOff(id) =>
      s.(listens := s.listens[id := s.listens[id] + [false]])
    case ReadMessage(k) =>
      Read(s, s.log[s.applied..s.ends[k]])
  }

  // ── No request is lost ──

  /** The scan has yet to come to instrument `id`. */
  ghost predicate Ahead(e: Engine, id: nat) {
    match e
    case AtWord(w) => w <= WordOf(id)
    case InWord(w, _) => w < WordOf(id)
    case Making(w, _, _) => w < WordOf(id)
    case Failing(w, _, _) => w < WordOf(id)
    case Raising(w, _, _) => w < WordOf(id)
    case _ => false
  }

  /** A flag of `resync` is heading for `resync_any`, or the scan is heading for it. */
  ghost predicate NotLost(s: State, id: nat) {
    || s.any
    || id in s.asking
    || ((s.engine.Flagged? || s.engine.Raising?) && s.engine.id == id)
    || Ahead(s.engine, id)
  }

  ghost predicate NoneLost(s: State) {
    forall id <- s.resync :: NotLost(s, id)
  }

  lemma NoneLostStep(s: State, a: Action)
    requires Shaped(s) && NoneLost(s) && Enabled(s, a)
    ensures NoneLost(Apply(s, a))
  {
    var s' := Apply(s, a);
    forall id | id in s'.resync ensures NotLost(s', id) {
      if id in s.resync {
        assert NotLost(s, id);
      }
    }
  }

  // ── The client's quote converges ──

  /** The instruments the scan has taken and not dealt with. */
  ghost predicate Held(e: Engine, id: nat) {
    (e.InWord? || e.Making? || e.Failing? || e.Raising?) && id in e.held
  }

  /** The instrument is listened to, and the engine knows it: no older value is left to load. */
  ghost predicate Known(s: State, id: nat)
    requires Shaped(s) && id < MAX_INSTRUMENTS
  {
    forall t: nat :: s.knows[id] <= t < |s.listens[id]| ==> s.listens[id][t]
  }

  /** The quote of `id` that all the steps written give, in their order. */
  ghost function View(s: State, id: nat): Quote
    requires Shaped(s) && id < MAX_INSTRUMENTS
  {
    Fold(Fold(s.base[id], Flatten(s.since[id]), id), s.log[s.applied..], id)
  }

  /** The instrument is known as listened to, and unless it waits, the steps give every field that is not due. */
  ghost predicate Converging(s: State, id: nat)
    requires Shaped(s) && id < MAX_INSTRUMENTS
  {
    && Known(s, id)
    && (id !in s.resync && !Held(s.engine, id) ==>
          forall f: nat :: f < COUNT && f !in s.dirty[id] ==> View(s, id)[f] == s.quotes[id][f])
  }

  ghost predicate EngineOk(e: Engine) {
    && (e.Checking? || e.Pushing? || e.Full? ==> e.id < MAX_INSTRUMENTS)
    && (e.InWord? || e.Making? || e.Failing? || e.Raising? ==> forall id <- e.held :: id < MAX_INSTRUMENTS)
    && (e.Making? || e.Failing? ==> e.id in e.held)
    && (e.AtWord? ==> e.w <= INSTRUMENT_WORDS)
    && (e.InWord? || e.Making? || e.Failing? || e.Raising? ==> e.w < INSTRUMENT_WORDS)
  }

  /** The client's quotes are what it made of the messages it read. */
  ghost predicate MirrorsOk(s: State)
    requires Shaped(s)
  {
    forall id: nat :: id < MAX_INSTRUMENTS ==> s.mirrors[id] == FoldMessages(s.base[id], s.since[id], id)
  }

  /** The messages handed over follow one another, none is empty, and the client has read whole ones. */
  ghost predicate EndsOk(ends: seq<nat>, applied: nat) {
    && (forall k {:trigger StartOf(ends, k)} :: 0 <= k < |ends| ==> StartOf(ends, k) < ends[k])
    && exists k: nat :: k <= |ends| && StartOf(ends, k) == applied
  }

  ghost predicate Inv(s: State) {
    && Shaped(s) && NoneLost(s) && EngineOk(s.engine) && MirrorsOk(s) && EndsOk(s.ends, s.applied)
    && forall id <- s.resync :: id < MAX_INSTRUMENTS
  }

  lemma InitInv(s: State)
    requires Init(s)
    ensures Inv(s)
  {
    assert StartOf(s.ends, 0) == s.applied;
  }

  ghost predicate OfOffer(a: Action) {
    || a.Change? || a.OfferListened? || a.OfferResync? || a.OfferPush? || a.OfferFails? || a.OfferFlag? || a.OfferRaise?
    || a.Publish?
  }

  ghost predicate OfScan(a: Action) {
    || a.ScanStart? || a.ScanTake? || a.ScanListened? || a.ScanPush? || a.ScanFails? || a.ScanFlag? || a.ScanRaise?
    || a.ScanNext? || a.ScanEnd?
  }

  lemma OfferShape(s: State, a: Action)
    requires Enabled(s, a) && OfOffer(a) && EngineOk(s.engine)
    ensures Shaped(Apply(s, a)) && EngineOk(Apply(s, a).engine)
  {
  }

  lemma ScanShape(s: State, a: Action)
    requires Enabled(s, a) && OfScan(a) && EngineOk(s.engine) && forall id <- s.resync :: id < MAX_INSTRUMENTS
    ensures Shaped(Apply(s, a)) && EngineOk(Apply(s, a).engine)
  {
    hide WordOf;
  }

  lemma ClientShape(s: State, a: Action)
    requires Enabled(s, a) && !OfOffer(a) && !OfScan(a) && EngineOk(s.engine)
    ensures Shaped(Apply(s, a)) && EngineOk(Apply(s, a).engine)
  {
    hide Fold, ClientOrder;
  }

  lemma ShapeStep(s: State, a: Action)
    requires Enabled(s, a) && EngineOk(s.engine) && forall id <- s.resync :: id < MAX_INSTRUMENTS
    ensures Shaped(Apply(s, a)) && EngineOk(Apply(s, a).engine)
  {
    hide Enabled, Apply, EngineOk;
    if OfOffer(a) {
      OfferShape(s, a);
    } else if OfScan(a) {
      ScanShape(s, a);
    } else {
      ClientShape(s, a);
    }
  }

  lemma BoundsStep(s: State, a: Action)
    requires Inv(s) && Enabled(s, a)
    ensures forall id <- Apply(s, a).resync :: id < MAX_INSTRUMENTS
  {
    hide Fold, WordOf, NoneLost, MirrorsOk;
  }

  lemma MirrorsStep(s: State, a: Action)
    requires Shaped(s) && MirrorsOk(s) && Enabled(s, a) && Shaped(Apply(s, a))
    ensures MirrorsOk(Apply(s, a))
  {
    hide Fold, ClientOrder, WordOf;
    var s' := Apply(s, a);
    forall id: nat | id < MAX_INSTRUMENTS ensures s'.mirrors[id] == FoldMessages(s'.base[id], s'.since[id], id) {
      assert a.ReadMessage? ==> s'.since[id][..|s'.since[id]| - 1] == s.since[id];
    }
  }

  lemma EndsGrow(ends: seq<nat>, applied: nat, end: nat)
    requires EndsOk(ends, applied) && StartOf(ends, |ends|) < end
    ensures EndsOk(ends + [end], applied)
  {
    var k: nat :| k <= |ends| && StartOf(ends, k) == applied;
    var ends' := ends + [end];
    assert StartOf(ends', k) == applied;
    forall i | 0 <= i < |ends'| ensures StartOf(ends', i) < ends'[i] {
      assert StartOf(ends', i) == StartOf(ends, i);
    }
  }

  lemma EndsStep(s: State, a: Action)
    requires Enabled(s, a) && EndsOk(s.ends, s.applied)
    ensures EndsOk(Apply(s, a).ends, Apply(s, a).applied)
  {
    hide EndsOk, Fold, ClientOrder, WordOf;
    if a.ReadMessage? {
      ReadOne(s.ends, s.applied, a.k);
    } else if (a.Publish? || a.ScanEnd?) && StartOf(s.ends, |s.ends|) < |s.log| {
      EndsGrow(s.ends, s.applied, |s.log|);
    }
  }

  lemma ReadOne(ends: seq<nat>, applied: nat, k: nat)
    requires EndsOk(ends, applied) && k < |ends|
    ensures EndsOk(ends, ends[k])
  {
    assert StartOf(ends, k + 1) == ends[k];
  }

  lemma StepInv(s: State, a: Action)
    requires Inv(s) && Enabled(s, a)
    ensures Inv(Apply(s, a))
  {
    hide MirrorsOk, NoneLost, Apply, EngineOk, Enabled, EndsOk;
    EndsStep(s, a);
    ShapeStep(s, a);
    BoundsStep(s, a);
    NoneLostStep(s, a);
    MirrorsStep(s, a);
  }

  /** One more step written, of the engine's current values. */
  lemma ViewAfter(s: State, s': State, st: Step, id: nat)
    requires Shaped(s) && Shaped(s') && id < MAX_INSTRUMENTS
    requires s'.log == s.log + [st] && s'.applied == s.applied && s'.base == s.base && s'.since == s.since
    ensures View(s', id) == if st.id == id then Set(View(s, id), st) else View(s, id)
  {
    var rest := s'.log[s.applied..];
    assert rest[..|rest| - 1] == s.log[s.applied..];
  }

  lemma ViewSame(s: State, s': State, id: nat)
    requires Shaped(s) && Shaped(s') && id < MAX_INSTRUMENTS
    requires s'.log == s.log && s'.applied == s.applied && s'.base == s.base && s'.since == s.since
    ensures View(s', id) == View(s, id)
  {
  }

  /** Reading a message moves its steps from those to read to those read. */
  lemma ViewRead(s: State, k: nat, id: nat)
    requires Enabled(s, ReadMessage(k)) && id < MAX_INSTRUMENTS && Shaped(Apply(s, ReadMessage(k)))
    ensures View(Apply(s, ReadMessage(k)), id) == View(s, id)
  {
    hide Fold;
    var message, rest := s.log[s.applied..s.ends[k]], s.log[s.ends[k]..];
    var since := s.since[id] + [message];
    assert since[..|since| - 1] == s.since[id];
    assert s.log[s.applied..] == message + rest;
    FoldAppend(s.base[id], Flatten(s.since[id]), message, id);
    FoldAppend(Fold(s.base[id], Flatten(s.since[id]), id), message, rest, id);
  }

  /** The step neither starts nor stops listening to `id`. */
  ghost predicate KeepsListening(a: Action, id: nat) {
    (a.ListenOff? || a.ListenOn?) ==> a.id != id
  }

  lemma OfferConverging(s: State, a: Action, id: nat)
    requires Enabled(s, a) && OfOffer(a) && Shaped(Apply(s, a)) && id < MAX_INSTRUMENTS && Converging(s, id)
    ensures Converging(Apply(s, a), id)
  {
    hide Fold, View;
    if a.OfferPush? {
      ViewAfter(s, Apply(s, a), Apply(s, a).log[|s.log|], id);
    } else {
      ViewSame(s, Apply(s, a), id);
    }
  }

  lemma ScanConverging(s: State, a: Action, id: nat)
    requires Enabled(s, a) && OfScan(a) && Shaped(Apply(s, a)) && EngineOk(s.engine)
    requires id < MAX_INSTRUMENTS && Converging(s, id)
    ensures Converging(Apply(s, a), id)
  {
    hide Fold, WordOf, View;
    if a.ScanPush? {
      ViewAfter(s, Apply(s, a), Apply(s, a).log[|s.log|], id);
    } else {
      ViewSame(s, Apply(s, a), id);
    }
  }

  lemma ClientConverging(s: State, a: Action, id: nat)
    requires Enabled(s, a) && !OfOffer(a) && !OfScan(a) && Shaped(Apply(s, a)) && KeepsListening(a, id)
    requires id < MAX_INSTRUMENTS && Converging(s, id)
    ensures Converging(Apply(s, a), id)
  {
    hide Fold, Flatten;
    if a.ReadMessage? {
      ViewRead(s, a.k, id);
    }
  }

  lemma ConvergingStep(s: State, a: Action, id: nat)
    requires Inv(s) && Enabled(s, a) && Shaped(Apply(s, a)) && KeepsListening(a, id)
    requires id < MAX_INSTRUMENTS && Converging(s, id)
    ensures Converging(Apply(s, a), id)
  {
    hide Converging, Apply, Enabled, NoneLost, EngineOk, MirrorsOk;
    if OfOffer(a) {
      OfferConverging(s, a, id);
    } else if OfScan(a) {
      ScanConverging(s, a, id);
    } else {
      ClientConverging(s, a, id);
    }
  }

  // ── Runs ──

  /** The actions `acts`, each enabled in turn, lead from `s` to `s'`. */
  ghost predicate Runs(s: State, acts: seq<Action>, s': State)
    decreases |acts|
  {
    if acts == [] then s' == s else Enabled(s, acts[0]) && Runs(Apply(s, acts[0]), acts[1..], s')
  }

  lemma {:induction false} RunInv(s: State, acts: seq<Action>, s': State)
    requires Inv(s) && Runs(s, acts, s')
    ensures Inv(s')
    decreases |acts|
  {
    hide Inv, Apply;
    if acts != [] {
      StepInv(s, acts[0]);
      RunInv(Apply(s, acts[0]), acts[1..], s');
    }
  }

  /**
    No catch-up request is lost, in any interleaving: a flag set in `resync` is announced by
    `resync_any`, or whoever set it is about to announce it, or the scan that runs will come to
    it. With nobody in between, `resync_any` says whether an instrument waits.
  */
  lemma NoRequestIsLost(s0: State, acts: seq<Action>, s: State)
    requires Init(s0) && Runs(s0, acts, s)
    ensures forall id <- s.resync ::
      s.any || id in s.asking || ((s.engine.Flagged? || s.engine.Raising?) && s.engine.id == id) || Ahead(s.engine, id)
    ensures s.engine.Idle? && s.asking == multiset{} && s.resync != {} ==> s.any
  {
    InitInv(s0);
    RunInv(s0, acts, s);
    if s.engine.Idle? && s.asking == multiset{} && s.resync != {} {
      var id :| id in s.resync;
      assert NotLost(s, id);
    }
  }

  lemma {:induction false} ConvergingRun(s: State, acts: seq<Action>, s': State, id: nat)
    requires Inv(s) && Runs(s, acts, s') && id < MAX_INSTRUMENTS && Converging(s, id)
    requires forall i :: 0 <= i < |acts| ==> KeepsListening(acts[i], id)
    ensures Inv(s') && Converging(s', id)
    decreases |acts|
  {
    hide Apply, Enabled, NoneLost, EngineOk, MirrorsOk, Converging, KeepsListening;
    if acts != [] {
      StepInv(s, acts[0]);
      ConvergingStep(s, acts[0], id);
      ConvergingRun(Apply(s, acts[0]), acts[1..], s', id);
    }
  }

  /** The instrument waits for no catch-up and the engine has offered every field it changed. */
  ghost predicate Settled(s: State, id: nat)
    requires Shaped(s) && id < MAX_INSTRUMENTS
  {
    id !in s.resync && !Held(s.engine, id) && s.dirty[id] == {}
  }

  /**
    The steps left to read turn what the client read into the engine's quote. When it has read them all,
    its quote has the engine's value of a field if and only if the last message that sets the field
    agrees: its book updates, which the client takes last, leave the field as the message does.
  */
  ghost predicate Converged(s: State, id: nat)
    requires Shaped(s) && id < MAX_INSTRUMENTS
  {
    && View(s, id) == s.quotes[id]
    && (s.applied == |s.log| ==>
          forall f: nat :: f < COUNT ==> (s.mirrors[id][f] == s.quotes[id][f] <==> LastAgrees(s.since[id], id, f)))
  }

  lemma SettledIsConverged(s: State, id: nat)
    requires Inv(s) && id < MAX_INSTRUMENTS && Converging(s, id) && Settled(s, id)
    ensures Converged(s, id)
  {
    hide NoneLost, EngineOk, LastAgrees, FoldMessages, Flatten;
    assert View(s, id) == s.quotes[id];
    if s.applied == |s.log| {
      assert s.log[s.applied..] == [];
      forall f: nat | f < COUNT ensures s.mirrors[id][f] == s.quotes[id][f] <==> LastAgrees(s.since[id], id, f) {
        BooksLastIff(s.base[id], s.since[id], id, f);
      }
    }
  }

  lemma ConvergesFrom(s: State, acts: seq<Action>, s': State, id: nat)
    requires Inv(s) && Runs(s, acts, s') && id < MAX_INSTRUMENTS && Converging(s, id)
    requires forall i :: 0 <= i < |acts| ==> KeepsListening(acts[i], id)
    ensures Shaped(s') && (Settled(s', id) ==> Converged(s', id))
  {
    hide Converging, Settled, Converged, KeepsListening;
    ConvergingRun(s, acts, s', id);
    if Settled(s', id) {
      SettledIsConverged(s', id);
    }
  }

  lemma CatchUpConverges(s: State, id: nat)
    requires Enabled(s, ScanPush) && s.engine.id == id && id < MAX_INSTRUMENTS && Known(Apply(s, ScanPush), id)
      && Shaped(Apply(s, ScanPush))
    ensures Converging(Apply(s, ScanPush), id)
  {
    hide Fold;
    var s' := Apply(s, ScanPush);
    ViewAfter(s, s', s'.log[|s.log|], id);
  }

  // ── A client that listens and asks ──

  /** The client has listened to the instrument from before its last request on. */
  ghost predicate Asked(s: State, id: nat)
    requires Shaped(s) && id < MAX_INSTRUMENTS
  {
    forall t: nat :: s.carry[id] <= t < |s.listens[id]| ==> s.listens[id][t]
  }

  lemma AskedStep(s: State, a: Action, id: nat)
    requires Enabled(s, a) && Shaped(Apply(s, a)) && KeepsListening(a, id) && id < MAX_INSTRUMENTS && Asked(s, id)
    ensures Asked(Apply(s, a), id)
  {
    hide Fold, ClientOrder, WordOf;
  }

  /** The bit that the scan takes carries the client's `listen`. */
  lemma TakenIsKnown(s: State, id: nat)
    requires Enabled(s, ScanTake) && Shaped(Apply(s, ScanTake)) && id < MAX_INSTRUMENTS && Asked(s, id)
    requires id in s.resync && id !in Apply(s, ScanTake).resync
    ensures Converging(Apply(s, ScanTake), id)
  {
    hide View;
  }

  lemma AskedRunStep(s: State, a: Action, id: nat)
    requires Inv(s) && Enabled(s, a) && Shaped(Apply(s, a)) && KeepsListening(a, id) && id < MAX_INSTRUMENTS
    requires Asked(s, id) && (id in s.resync || Converging(s, id))
    ensures Asked(Apply(s, a), id) && (id in Apply(s, a).resync || Converging(Apply(s, a), id))
  {
    hide Inv, Converging, KeepsListening, Asked, WordOf;
    AskedStep(s, a, id);
    if Converging(s, id) {
      ConvergingStep(s, a, id);
    } else if id !in Apply(s, a).resync {
      TakenIsKnown(s, id);
    }
  }

  lemma {:induction false} AskedRun(s: State, acts: seq<Action>, s': State, id: nat)
    requires Inv(s) && Runs(s, acts, s') && id < MAX_INSTRUMENTS
    requires Asked(s, id) && (id in s.resync || Converging(s, id))
    requires forall i :: 0 <= i < |acts| ==> KeepsListening(acts[i], id)
    ensures Inv(s') && Asked(s', id) && (id in s'.resync || Converging(s', id))
    decreases |acts|
  {
    hide Apply, Enabled, NoneLost, EngineOk, MirrorsOk, Converging, KeepsListening, Asked;
    if acts != [] {
      StepInv(s, acts[0]);
      AskedRunStep(s, acts[0], id);
      AskedRun(Apply(s, acts[0]), acts[1..], s', id);
    }
  }

  /** The client listens to the instrument. */
  ghost predicate Listening(s: State, id: nat)
    requires Shaped(s) && id < MAX_INSTRUMENTS
  {
    s.listens[id][|s.listens[id]| - 1]
  }

  lemma AskedNow(s: State, id: nat)
    requires Enabled(s, RequestFlag(id)) && id < MAX_INSTRUMENTS && Listening(s, id)
    ensures var s1 := Apply(s, RequestFlag(id)); Shaped(s1) && Asked(s1, id) && id in s1.resync && s1.log == s.log
  {
  }

  lemma InvShaped(s: State)
    requires Inv(s)
    ensures Shaped(s)
  {
  }

  lemma SettledDoesNotWait(s: State, id: nat)
    requires Shaped(s) && id < MAX_INSTRUMENTS && Settled(s, id)
    ensures id !in s.resync
  {
  }

  /** A catch-up of `id` is among the steps from position `n` on. */
  ghost predicate CaughtUp(log: seq<Step>, n: nat, id: nat) {
    exists i :: n <= i < |log| && log[i].id == id && log[i].fields == All()
  }

  /** The request still waits, or the scan has it and knows of the `listen`, or it is served. */
  ghost predicate NotDropped(s: State, n: nat, id: nat)
    requires Shaped(s) && id < MAX_INSTRUMENTS
  {
    || id in s.resync
    || (Held(s.engine, id) && s.carry[id] <= s.knows[id])
    || CaughtUp(s.log, n, id)
  }

  lemma CaughtUpStays(log: seq<Step>, log': seq<Step>, n: nat, id: nat)
    requires CaughtUp(log, n, id) && log <= log'
    ensures CaughtUp(log', n, id)
  {
    var i :| n <= i < |log| && log[i].id == id && log[i].fields == All();
    assert log'[i] == log[i];
  }

  lemma LogGrows(s: State, a: Action)
    requires Enabled(s, a)
    ensures s.log <= Apply(s, a).log
  {
    hide WordOf, Fold, ClientOrder;
  }

  /** A request that is not served yet, at a step of the scan. */
  lemma NotDroppedScan(s: State, a: Action, n: nat, id: nat)
    requires Inv(s) && Enabled(s, a) && OfScan(a) && Shaped(Apply(s, a)) && id < MAX_INSTRUMENTS && n <= |s.log|
    requires Asked(s, id) && NotDropped(s, n, id) && !CaughtUp(s.log, n, id)
    ensures NotDropped(Apply(s, a), n, id)
  {
    hide CaughtUp, MirrorsOk, NoneLost, WordOf;
    if a.ScanPush? && s.engine.id == id {
      CatchUpWritten(Apply(s, a).log, |s.log|, n, id);
    }
  }

  lemma NotDroppedOther(s: State, a: Action, n: nat, id: nat)
    requires Enabled(s, a) && !OfScan(a) && Shaped(Apply(s, a)) && id < MAX_INSTRUMENTS
    requires NotDropped(s, n, id) && !CaughtUp(s.log, n, id)
    ensures NotDropped(Apply(s, a), n, id)
  {
    hide CaughtUp, Fold, ClientOrder;
  }

  lemma NotDroppedStep(s: State, a: Action, n: nat, id: nat)
    requires Inv(s) && Enabled(s, a) && Shaped(Apply(s, a)) && id < MAX_INSTRUMENTS && n <= |s.log|
    requires Asked(s, id) && NotDropped(s, n, id)
    ensures NotDropped(Apply(s, a), n, id) && s.log <= Apply(s, a).log
  {
    hide CaughtUp, Inv, Enabled, Apply, Asked;
    LogGrows(s, a);
    if CaughtUp(s.log, n, id) {
      CaughtUpStays(s.log, Apply(s, a).log, n, id);
    } else if OfScan(a) {
      NotDroppedScan(s, a, n, id);
    } else {
      NotDroppedOther(s, a, n, id);
    }
  }

  lemma CatchUpWritten(log: seq<Step>, i: nat, n: nat, id: nat)
    requires n <= i < |log| && log[i].id == id && log[i].fields == All()
    ensures CaughtUp(log, n, id)
  {
  }

  lemma {:induction false} NotDroppedRun(s: State, acts: seq<Action>, s': State, n: nat, id: nat)
    requires Inv(s) && Runs(s, acts, s') && id < MAX_INSTRUMENTS && n <= |s.log|
    requires Asked(s, id) && NotDropped(s, n, id)
    requires forall i :: 0 <= i < |acts| ==> KeepsListening(acts[i], id)
    ensures Shaped(s') && NotDropped(s', n, id)
    decreases |acts|
  {
    hide Apply, Enabled, NoneLost, EngineOk, MirrorsOk, NotDropped, KeepsListening, Asked;
    if acts != [] {
      StepInv(s, acts[0]);
      AskedStep(s, acts[0], id);
      NotDroppedStep(s, acts[0], n, id);
      NotDroppedRun(Apply(s, acts[0]), acts[1..], s', n, id);
    }
  }

  /**
    The request of a client that listens is not dropped by the scan's look at `listened`: in every run
    in which it goes on listening, it waits, or the scan has it and finds it listened to, or a catch-up
    has been written since.
  */
  lemma RequestIsNotDropped(s0: State, acts0: seq<Action>, s: State, acts: seq<Action>, s': State, id: nat)
    requires Init(s0) && Runs(s0, acts0, s) && id < MAX_INSTRUMENTS && Shaped(s) && Listening(s, id)
    requires Runs(Apply(s, RequestFlag(id)), acts, s')
    requires forall i :: 0 <= i < |acts| ==> KeepsListening(acts[i], id)
    ensures Shaped(s')
    ensures || id in s'.resync
            || (Held(s'.engine, id) && forall t: nat :: MayLoad(s', id, t) ==> s'.listens[id][t])
            || exists i :: |s.log| <= i < |s'.log| && s'.log[i].id == id && s'.log[i].fields == All()
  {
    hide Inv, KeepsListening, Runs, Converging, Apply, Listening;
    InitInv(s0);
    RunInv(s0, acts0, s);
    assert Enabled(s, RequestFlag(id));
    hide Enabled;
    StepInv(s, RequestFlag(id));
    AskedNow(s, id);
    var s1 := Apply(s, RequestFlag(id));
    NotDroppedRun(s1, acts, s', |s.log|, id);
    AskedRun(s1, acts, s', id);
  }

  // ── In every run ──

  /** A run that neither starts nor stops listening to `id`. */
  ghost predicate RunsKeeping(s: State, acts: seq<Action>, s': State, id: nat) {
    Runs(s, acts, s') && forall i :: 0 <= i < |acts| ==> KeepsListening(acts[i], id)
  }

  lemma KeepingStep(s: State, acts: seq<Action>, s1: State, a: Action, id: nat)
    requires RunsKeeping(s, acts, s1, id) && Enabled(s1, a) && KeepsListening(a, id)
    ensures RunsKeeping(s, acts + [a], Apply(s1, a), id)
  {
    hide Enabled, Apply, Runs;
    OneStepMore(s, acts, s1, a);
  }

  /** The engine may load an older value `t` of the `listened` flag. */
  ghost predicate MayMiss(s: State, id: nat, t: nat)
    requires Shaped(s) && id < MAX_INSTRUMENTS
  {
    s.knows[id] <= t < |s.listens[id]| && !s.listens[id][t]
  }

  lemma NoStepsKeeping(s: State, id: nat)
    ensures RunsKeeping(s, [], s, id)
  {
  }

  /** A change offered while the engine still loads an older `listened` flag goes unnoticed. */
  lemma ChangeMissed(s0: State, acts: seq<Action>, s: State, id: nat, t: nat) returns (acts': seq<Action>, s': State)
    requires RunsKeeping(s0, acts, s, id) && Shaped(s) && s.engine.Idle? && id < MAX_INSTRUMENTS && id !in s.resync
    requires MayMiss(s, id, t)
    ensures RunsKeeping(s0, acts', s', id) && Shaped(s') && Settled(s', id) && !Converged(s', id)
  {
    hide RunsKeeping, Fold, WordOf, LastAgrees;
    var a := Change(id, 0, View(s, id)[0] + 1);
    KeepingStep(s0, acts, s, a, id);
    var s1 := Apply(s, a);
    var b := OfferListened(id, s1.dirty[id], t);
    KeepingStep(s0, acts + [a], s1, b, id);
    acts', s' := acts + [a] + [b], Apply(s1, b);
    ViewSame(s, s', id);
    assert s'.quotes[id][0] == View(s, id)[0] + 1;
  }

  /** In all runs that go on listening, the quote converges whenever the instrument settles. */
  ghost predicate AlwaysConverges(s: State, id: nat)
    requires id < MAX_INSTRUMENTS
  {
    forall acts, s' :: RunsKeeping(s, acts, s', id) ==> Shaped(s') && (Settled(s', id) ==> Converged(s', id))
  }

  lemma NotAlways(s: State, acts: seq<Action>, s': State, id: nat)
    requires id < MAX_INSTRUMENTS && RunsKeeping(s, acts, s', id) && Shaped(s') && Settled(s', id) && !Converged(s', id)
    ensures !AlwaysConverges(s, id)
  {
    hide RunsKeeping, Settled, Converged;
  }

  lemma KnownAlways(s: State, id: nat)
    requires Inv(s) && id < MAX_INSTRUMENTS && Converging(s, id)
    ensures AlwaysConverges(s, id)
  {
    hide Inv, Runs, KeepsListening, Settled, Converged, Converging;
    forall acts, s' | RunsKeeping(s, acts, s', id) ensures Shaped(s') && (Settled(s', id) ==> Converged(s', id)) {
      ConvergesFrom(s, acts, s', id);
    }
  }

  lemma AskedAlways(s: State, id: nat)
    requires Inv(s) && id < MAX_INSTRUMENTS && Asked(s, id) && id in s.resync
    ensures AlwaysConverges(s, id)
  {
    hide Inv, Runs, KeepsListening, Settled, Converged, Converging, Asked;
    forall acts, s' | RunsKeeping(s, acts, s', id) ensures Shaped(s') && (Settled(s', id) ==> Converged(s', id)) {
      AskedRun(s, acts, s', id);
      InvShaped(s');
      if Settled(s', id) {
        SettledDoesNotWait(s', id);
        SettledIsConverged(s', id);
      }
    }
  }

  /**
    Convergence after any catch-up, such as one for steps that were dropped, if the engine knows of the
    `listen`, or a request that carries it waits.
  */
  lemma ConvergesAfterCatchUp(s0: State, acts0: seq<Action>, s: State, id: nat)
    requires Init(s0) && Runs(s0, acts0, s) && id < MAX_INSTRUMENTS
    requires s.engine.Making? && s.engine.id == id && Enabled(s, ScanPush) && Shaped(Apply(s, ScanPush))
    requires var s1 := Apply(s, ScanPush); Known(s1, id) || (id in s1.resync && Asked(s1, id))
    ensures AlwaysConverges(Apply(s, ScanPush), id)
  {
    hide Inv, Runs, AlwaysConverges, Known, Asked, Converging, Settled, Converged, RunsKeeping;
    InitInv(s0);
    RunInv(s0, acts0, s);
    StepInv(s, ScanPush);
    if Known(Apply(s, ScanPush), id) {
      CatchUpConverges(s, id);
      KnownAlways(Apply(s, ScanPush), id);
    } else {
      AskedAlways(Apply(s, ScanPush), id);
    }
  }

  /**
    Convergence for a client: it listens and asks for a catch-up. In every run in which it goes on
    listening, its quote converges whenever the instrument waits for no catch-up, whatever was dropped
    before and is dropped later.
  */
  lemma ConvergesAfterRequest(s0: State, acts0: seq<Action>, s: State, id: nat)
    requires Init(s0) && Runs(s0, acts0, s) && id < MAX_INSTRUMENTS && Shaped(s) && Listening(s, id)
    ensures AlwaysConverges(Apply(s, RequestFlag(id)), id)
  {
    hide Inv, Asked, Runs, Apply, Listening, AlwaysConverges;
    InitInv(s0);
    RunInv(s0, acts0, s);
    assert Enabled(s, RequestFlag(id));
    hide Enabled;
    StepInv(s, RequestFlag(id));
    AskedNow(s, id);
    AskedAlways(Apply(s, RequestFlag(id)), id);
  }

  // ── A request is served ──

  /** The instrument is listened to, and it waits, or the scan has it, or none of its fields is due. */
  ghost predicate Heading(s: State, id: nat)
    requires Shaped(s) && id < MAX_INSTRUMENTS
  {
    Listening(s, id) && (id in s.resync || Held(s.engine, id) || s.dirty[id] == {})
  }

  /** A driven state: the run so far listens on, and the instrument is heading for its catch-up. */
  ghost predicate Driven(s0: State, acts: seq<Action>, s: State, id: nat)
    requires id < MAX_INSTRUMENTS
  {
    && RunsKeeping(s0, acts, s, id) && Shaped(s) && EngineOk(s.engine) && Heading(s, id)
    && forall x <- s.resync :: x < MAX_INSTRUMENTS
  }

  /** One instrument of the word has its turn: whoever listens gets a catch-up. */
  lemma TurnMade(s0: State, acts: seq<Action>, s: State, h: nat, id: nat) returns (acts': seq<Action>, s': State)
    requires id < MAX_INSTRUMENTS && Driven(s0, acts, s, id) && s.engine.InWord? && h in s.engine.held
    ensures Driven(s0, acts', s', id) && s'.engine == InWord(s.engine.w, s.engine.held - {h})
    ensures s'.resync == s.resync
  {
    hide RunsKeeping, WordOf;
    var a := ScanListened(h, |s.listens[h]| - 1);
    KeepingStep(s0, acts, s, a, id);
    acts', s' := acts + [a], Apply(s, a);
    if s'.engine.Making? {
      KeepingStep(s0, acts', s', ScanPush, id);
      acts', s' := acts' + [ScanPush], Apply(s', ScanPush);
    }
  }

  /** The scan deals with the rest of its word. */
  lemma {:induction false} WordDone(s0: State, acts: seq<Action>, s: State, id: nat)
    returns (acts': seq<Action>, s': State)
    requires id < MAX_INSTRUMENTS && Driven(s0, acts, s, id) && s.engine.InWord?
    ensures Driven(s0, acts', s', id) && s'.engine == AtWord(s.engine.w + 1) && s'.resync == s.resync
    decreases |s.engine.held|
  {
    hide RunsKeeping, WordOf;
    if s.engine.held == {} {
      KeepingStep(s0, acts, s, ScanNext, id);
      acts', s' := acts + [ScanNext], Apply(s, ScanNext);
    } else {
      hide Driven;
      var h :| h in s.engine.held;
      var s1;
      acts', s1 := TurnMade(s0, acts, s, h, id);
      acts', s' := WordDone(s0, acts', s1, id);
    }
  }

  /** The scan comes to its end, and leaves nothing waiting in the words it took. */
  lemma {:induction false} ScanDone(s0: State, acts: seq<Action>, s: State, id: nat)
    returns (acts': seq<Action>, s': State)
    requires id < MAX_INSTRUMENTS && Driven(s0, acts, s, id) && s.engine.AtWord?
    ensures Driven(s0, acts', s', id) && s'.engine.Idle? && StartOf(s'.ends, |s'.ends|) == |s'.log|
    ensures id in s'.resync ==> id in s.resync && WordOf(id) < s.engine.w
    decreases INSTRUMENT_WORDS - s.engine.w
  {
    hide RunsKeeping, WordOf;
    if s.engine.w == INSTRUMENT_WORDS {
      KeepingStep(s0, acts, s, ScanEnd, id);
      acts', s' := acts + [ScanEnd], Apply(s, ScanEnd);
    } else {
      KeepingStep(s0, acts, s, ScanTake, id);
      var s1 := Apply(s, ScanTake);
      var s2;
      acts', s2 := WordDone(s0, acts + [ScanTake], s1, id);
      acts', s' := ScanDone(s0, acts', s2, id);
    }
  }

  /** An offer that has begun comes to its end. */
  lemma OfferDone(s0: State, acts: seq<Action>, s: State, id: nat) returns (acts': seq<Action>, s': State)
    requires id < MAX_INSTRUMENTS && Driven(s0, acts, s, id)
    requires s.engine.Checking? || s.engine.Pushing? || s.engine.Full? || s.engine.Flagged?
    ensures Driven(s0, acts', s', id) && s'.engine.Idle?
  {
    hide RunsKeeping, WordOf;
    acts', s' := acts, s;
    if s'.engine.Checking? {
      KeepingStep(s0, acts', s', OfferResync(false), id);
      acts', s' := acts' + [OfferResync(false)], Apply(s', OfferResync(false));
    }
    if s'.engine.Pushing? {
      KeepingStep(s0, acts', s', OfferPush(false), id);
      acts', s' := acts' + [OfferPush(false)], Apply(s', OfferPush(false));
    }
    if s'.engine.Full? {
      KeepingStep(s0, acts', s', OfferFlag, id);
      acts', s' := acts' + [OfferFlag], Apply(s', OfferFlag);
    }
    if s'.engine.Flagged? {
      KeepingStep(s0, acts', s', OfferRaise, id);
      acts', s' := acts' + [OfferRaise], Apply(s', OfferRaise);
    }
  }

  /** A turn of the scan that has begun comes to its end. */
  lemma TurnDone(s0: State, acts: seq<Action>, s: State, id: nat) returns (acts': seq<Action>, s': State)
    requires id < MAX_INSTRUMENTS && Driven(s0, acts, s, id)
    requires s.engine.Making? || s.engine.Failing? || s.engine.Raising?
    ensures Driven(s0, acts', s', id) && s'.engine.InWord?
  {
    hide RunsKeeping, WordOf;
    acts', s' := acts, s;
    if s'.engine.Making? {
      KeepingStep(s0, acts', s', ScanPush, id);
      acts', s' := acts' + [ScanPush], Apply(s', ScanPush);
    }
    if s'.engine.Failing? {
      KeepingStep(s0, acts', s', ScanFlag, id);
      acts', s' := acts' + [ScanFlag], Apply(s', ScanFlag);
    }
    if s'.engine.Raising? {
      KeepingStep(s0, acts', s', ScanRaise, id);
      acts', s' := acts' + [ScanRaise], Apply(s', ScanRaise);
    }
  }

  /** Whatever the engine has begun comes to its end. */
  lemma ComesToRest(s0: State, acts: seq<Action>, s: State, id: nat) returns (acts': seq<Action>, s': State)
    requires id < MAX_INSTRUMENTS && Driven(s0, acts, s, id)
    ensures Driven(s0, acts', s', id) && s'.engine.Idle?
  {
    hide Driven, WordOf;
    acts', s' := acts, s;
    if s'.engine.Checking? || s'.engine.Pushing? || s'.engine.Full? || s'.engine.Flagged? {
      acts', s' := OfferDone(s0, acts', s', id);
    }
    if s'.engine.Making? || s'.engine.Failing? || s'.engine.Raising? {
      acts', s' := TurnDone(s0, acts', s', id);
    }
    if s'.engine.InWord? {
      acts', s' := WordDone(s0, acts', s', id);
    }
    if s'.engine.AtWord? {
      acts', s' := ScanDone(s0, acts', s', id);
    }
  }

  lemma KeepingInv(s: State, acts: seq<Action>, s': State, id: nat)
    requires Inv(s) && RunsKeeping(s, acts, s', id)
    ensures Inv(s')
  {
    hide Inv, Runs;
    RunInv(s, acts, s');
  }

  lemma Announced(s: State, id: nat)
    requires Inv(s) && s.engine.Idle? && id in s.resync
    ensures s.any || id in s.asking
  {
    assert NotLost(s, id);
  }

  /** With the engine at rest, the request is announced and a whole scan runs. */
  lemma WholeScan(s0: State, acts: seq<Action>, s: State, id: nat) returns (acts': seq<Action>, s': State)
    requires id < MAX_INSTRUMENTS && Driven(s0, acts, s, id) && Inv(s) && s.engine.Idle? && id in s.resync
    ensures Driven(s0, acts', s', id) && s'.engine.Idle? && StartOf(s'.ends, |s'.ends|) == |s'.log|
    ensures id !in s'.resync
  {
    hide RunsKeeping, WordOf;
    Announced(s, id);
    hide Inv;
    acts', s' := acts, s;
    if !s'.any {
      KeepingStep(s0, acts', s', RequestRaise(id), id);
      acts', s' := acts' + [RequestRaise(id)], Apply(s', RequestRaise(id));
    }
    KeepingStep(s0, acts', s', ScanStart, id);
    acts', s' := acts' + [ScanStart], Apply(s', ScanStart);
    acts', s' := ScanDone(s0, acts', s', id);
  }

  lemma AskedListens(s: State, id: nat)
    requires Shaped(s) && id < MAX_INSTRUMENTS && Asked(s, id)
    ensures Listening(s, id)
  {
  }

  /** The run so far has served the request, if it no longer waits and the engine is at rest. */
  lemma ServedAtRest(s: State, acts: seq<Action>, s': State, id: nat)
    requires Inv(s) && id < MAX_INSTRUMENTS && id in s.resync && Asked(s, id)
    requires Driven(s, acts, s', id) && s'.engine.Idle? && id !in s'.resync
    ensures CaughtUp(s'.log, |s.log|, id) && Converged(s', id)
  {
    hide Inv, Runs, KeepsListening, Asked, Converging, CaughtUp, Converged;
    AskedRun(s, acts, s', id);
    NotDroppedRun(s, acts, s', |s.log|, id);
    SettledIsConverged(s', id);
  }

  /** The client reads the messages from message `k` on. */
  lemma {:induction false} ReadsAll(s0: State, acts: seq<Action>, s: State, k: nat, id: nat)
    returns (acts': seq<Action>, s': State)
    requires id < MAX_INSTRUMENTS && Driven(s0, acts, s, id)
    requires Shaped(s) && k <= |s.ends| && StartOf(s.ends, k) == s.applied && StartOf(s.ends, |s.ends|) == |s.log|
    requires forall i {:trigger StartOf(s.ends, i)} :: 0 <= i < |s.ends| ==> StartOf(s.ends, i) < s.ends[i]
    ensures Driven(s0, acts', s', id) && s'.applied == |s'.log|
    ensures s'.engine == s.engine && s'.resync == s.resync
    decreases |s.ends| - k
  {
    hide Driven, Apply;
    acts', s' := acts, s;
    if k < |s.ends| {
      OneRead(s0, acts, s, k, id);
      acts', s' := ReadsAll(s0, acts + [ReadMessage(k)], Apply(s, ReadMessage(k)), k + 1, id);
    }
  }

  lemma OneRead(s0: State, acts: seq<Action>, s: State, k: nat, id: nat)
    requires id < MAX_INSTRUMENTS && Driven(s0, acts, s, id) && Enabled(s, ReadMessage(k))
    ensures var s' := Apply(s, ReadMessage(k));
      && Driven(s0, acts + [ReadMessage(k)], s', id) && Shaped(s') && s'.applied == s.ends[k]
      && s'.engine == s.engine && s'.resync == s.resync && s'.ends == s.ends && s'.log == s.log
  {
    hide RunsKeeping, Fold, ClientOrder;
    KeepingStep(s0, acts, s, ReadMessage(k), id);
  }

  lemma ReadAtRest(s0: State, acts: seq<Action>, s: State, id: nat) returns (acts': seq<Action>, s': State)
    requires id < MAX_INSTRUMENTS && Driven(s0, acts, s, id)
    requires Shaped(s) && EndsOk(s.ends, s.applied) && StartOf(s.ends, |s.ends|) == |s.log|
    ensures Driven(s0, acts', s', id) && s'.applied == |s'.log|
    ensures s'.engine == s.engine && s'.resync == s.resync
  {
    hide Driven;
    var k: nat :| k <= |s.ends| && StartOf(s.ends, k) == s.applied;
    acts', s' := ReadsAll(s0, acts, s, k, id);
  }

  lemma StartDriven(s: State, id: nat) returns (acts: seq<Action>, s': State)
    requires Inv(s) && id < MAX_INSTRUMENTS && id in s.resync && Asked(s, id)
    ensures Driven(s, acts, s', id) && s'.engine.Idle?
  {
    AskedListens(s, id);
    NoStepsKeeping(s, id);
    hide Asked, RunsKeeping;
    acts, s' := ComesToRest(s, [], s, id);
  }

  lemma DrivenInv(s: State, acts: seq<Action>, s': State, id: nat)
    requires Inv(s) && id < MAX_INSTRUMENTS && Driven(s, acts, s', id)
    ensures Inv(s') && Shaped(s') && EndsOk(s'.ends, s'.applied)
  {
    hide RunsKeeping, NoneLost, EngineOk, MirrorsOk, EndsOk;
    KeepingInv(s, acts, s', id);
  }

  /** What is written is handed over. */
  lemma Given(s0: State, acts: seq<Action>, s: State, id: nat) returns (acts': seq<Action>, s': State)
    requires id < MAX_INSTRUMENTS && Driven(s0, acts, s, id) && s.engine.Idle? && id !in s.resync
    ensures Driven(s0, acts', s', id) && s'.engine.Idle? && StartOf(s'.ends, |s'.ends|) == |s'.log|
    ensures id !in s'.resync
  {
    hide RunsKeeping, WordOf;
    KeepingStep(s0, acts, s, Publish, id);
    acts', s' := acts + [Publish], Apply(s, Publish);
  }

  lemma ServedMeans(s: State, acts: seq<Action>, s': State, id: nat)
    requires id < MAX_INSTRUMENTS && Driven(s, acts, s', id) && CaughtUp(s'.log, |s.log|, id)
    ensures RunsKeeping(s, acts, s', id) && Shaped(s')
    ensures exists i :: |s.log| <= i < |s'.log| && s'.log[i].id == id && s'.log[i].fields == All()
  {
    hide RunsKeeping;
  }

  /**
    A request of a client that listens can always be served: from every reachable state in which it
    waits, wherever the engine stands, some run in which the client goes on listening comes to rest. By
    then a step of `id` with all fields has been written, the client has read all that is written, the
    steps give the engine's quote, and the client's quote has each value that the last message to set it
    has.
  */
  lemma RequestIsServed(s0: State, acts0: seq<Action>, s: State, id: nat) returns (acts: seq<Action>, s': State)
    requires Init(s0) && Runs(s0, acts0, s) && id < MAX_INSTRUMENTS && Shaped(s)
    requires id in s.resync && Asked(s, id)
    ensures RunsKeeping(s, acts, s', id) && Shaped(s')
    ensures s'.engine.Idle? && id !in s'.resync && s'.applied == |s'.log|
    ensures exists i :: |s.log| <= i < |s'.log| && s'.log[i].id == id && s'.log[i].fields == All()
    ensures View(s', id) == s'.quotes[id]
    ensures forall f: nat :: f < COUNT ==> (s'.mirrors[id][f] == s'.quotes[id][f] <==> LastAgrees(s'.since[id], id, f))
  {
    hide Inv, Runs, RunsKeeping, Driven, View, Asked, Init, CaughtUp, LastAgrees, EndsOk;
    InitInv(s0);
    RunInv(s0, acts0, s);
    acts, s' := StartDriven(s, id);
    if id in s'.resync {
      DrivenInv(s, acts, s', id);
      acts, s' := WholeScan(s, acts, s', id);
    } else {
      acts, s' := Given(s, acts, s', id);
    }
    DrivenInv(s, acts, s', id);
    acts, s' := ReadAtRest(s, acts, s', id);
    ServedAtRest(s, acts, s', id);
    ServedMeans(s, acts, s', id);
  }

  // ── What is not wanted is not written ──

  /** The engine knows that nobody listens to `id`, and is past no look at its flag. */
  ghost predicate Silent(s: State, id: nat)
    requires Shaped(s) && id < MAX_INSTRUMENTS
  {
    && (forall t: nat :: s.knows[id] <= t < |s.listens[id]| ==> !s.listens[id][t])
    && ((s.engine.Checking? || s.engine.Pushing? || s.engine.Full? || s.engine.Making? || s.engine.Failing?) ==>
          s.engine.id != id)
  }

  /** No step of the run starts to listen to `id`. */
  ghost predicate NoListen(acts: seq<Action>, id: nat) {
    forall i :: 0 <= i < |acts| ==> (acts[i].ListenOn? ==> acts[i].id != id)
  }

  lemma SilentScan(s: State, a: Action, id: nat)
    requires Enabled(s, a) && OfScan(a) && id < MAX_INSTRUMENTS && Silent(s, id) && Shaped(Apply(s, a))
    ensures Silent(Apply(s, a), id) && s.log <= Apply(s, a).log
    ensures forall i :: |s.log| <= i < |Apply(s, a).log| ==> Apply(s, a).log[i].id != id
  {
    hide WordOf;
  }

  lemma SilentOffer(s: State, a: Action, id: nat)
    requires Enabled(s, a) && OfOffer(a) && id < MAX_INSTRUMENTS && Silent(s, id) && Shaped(Apply(s, a))
    ensures Silent(Apply(s, a), id) && s.log <= Apply(s, a).log
    ensures forall i :: |s.log| <= i < |Apply(s, a).log| ==> Apply(s, a).log[i].id != id
  {
  }

  lemma SilentClient(s: State, a: Action, id: nat)
    requires Enabled(s, a) && !OfOffer(a) && !OfScan(a) && id < MAX_INSTRUMENTS && Silent(s, id) && Shaped(Apply(s, a))
    requires a.ListenOn? ==> a.id != id
    ensures Silent(Apply(s, a), id) && Apply(s, a).log == s.log
  {
    hide Fold, ClientOrder;
  }

  lemma SilentStep(s: State, a: Action, id: nat)
    requires Enabled(s, a) && id < MAX_INSTRUMENTS && Silent(s, id) && Shaped(Apply(s, a))
    requires a.ListenOn? ==> a.id != id
    ensures Silent(Apply(s, a), id) && s.log <= Apply(s, a).log
    ensures forall i :: |s.log| <= i < |Apply(s, a).log| ==> Apply(s, a).log[i].id != id
  {
    hide Apply, Enabled, Silent;
    if OfScan(a) {
      SilentScan(s, a, id);
    } else if OfOffer(a) {
      SilentOffer(s, a, id);
    } else {
      SilentClient(s, a, id);
    }
  }

  lemma {:induction false} SilentRun(s: State, acts: seq<Action>, s': State, id: nat)
    requires Inv(s) && Runs(s, acts, s') && id < MAX_INSTRUMENTS && Silent(s, id)
    requires NoListen(acts, id)
    ensures s.log <= s'.log && forall i :: |s.log| <= i < |s'.log| ==> s'.log[i].id != id
    decreases |acts|
  {
    hide Apply, Enabled, NoneLost, EngineOk, MirrorsOk, EndsOk, Silent;
    if acts != [] {
      var s1 := Apply(s, acts[0]);
      StepInv(s, acts[0]);
      SilentStep(s, acts[0], id);
      SilentRun(s1, acts[1..], s', id);
      assert forall i :: 0 <= i < |s1.log| ==> s'.log[i] == s1.log[i];
    }
  }

  /** The state after a client stopped listening and the engine heard of it. */
  ghost function Stopped(s: State, id: nat): State
    requires Enabled(s, ListenOff(id)) && Enabled(Apply(s, ListenOff(id)), EngineHears(id, |s.listens[id]|))
  {
    Apply(Apply(s, ListenOff(id)), EngineHears(id, |s.listens[id]|))
  }

  /**
    A client that stops is left alone: in every run from the point at which the engine knows that nobody
    listens, up to the next `listen`, no step of the instrument is written.
  */
  lemma StoppedIsSilent(s0: State, acts0: seq<Action>, s: State, id: nat)
    requires Init(s0) && Runs(s0, acts0, s) && id < MAX_INSTRUMENTS && s.engine.Idle?
    ensures Enabled(s, ListenOff(id)) && Enabled(Apply(s, ListenOff(id)), EngineHears(id, |s.listens[id]|))
    ensures forall acts, s' :: Runs(Stopped(s, id), acts, s') && NoListen(acts, id) ==>
      s.log <= s'.log && forall i :: |s.log| <= i < |s'.log| ==> s'.log[i].id != id
  {
    hide Runs, NoneLost, MirrorsOk, EndsOk;
    InitInv(s0);
    RunInv(s0, acts0, s);
    var s1 := Apply(s, ListenOff(id));
    StepInv(s, ListenOff(id));
    StepInv(s1, EngineHears(id, |s.listens[id]|));
    var t := Stopped(s, id);
    assert Silent(t, id) && t.log == s.log && Inv(t);
    hide Inv, Silent;
    forall acts, s' | Runs(t, acts, s') && NoListen(acts, id)
      ensures s.log <= s'.log && forall i :: |s.log| <= i < |s'.log| ==> s'.log[i].id != id
    {
      SilentRun(t, acts, s', id);
    }
  }

  // ── What becomes of an offer ──

  /** Why a step that is due is not written: nobody listens, the instrument waits, or the ring is full. */
  datatype Fate = NotListened | Waits | DoesNotFit

  /**
    An offer that writes nothing: its fields are not due any more. With the instrument waiting a catch-up
    will give them; with the ring full the instrument waits from then on, and the scan is announced.
  */
  lemma OfferRuns(s: State, id: nat, fields: set<nat>, t: nat, fate: Fate) returns (acts: seq<Action>, s': State)
    requires Shaped(s) && s.engine.Idle? && MayLoad(s, id, t) && (s.listens[id][t] <==> !fate.NotListened?)
    requires fate.Waits? ==> id in s.resync
    ensures Runs(s, acts, s') && s'.engine.Idle? && s'.log == s.log && s'.quotes == s.quotes
    ensures |s'.dirty| == |s.dirty| && s'.dirty[id] == s.dirty[id] - fields
    ensures s'.resync == s.resync + (if fate.NotListened? then {} else {id})
    ensures s'.any == (s.any || fate.DoesNotFit?) && s'.asking == s.asking
  {
    NoSteps(s);
    hide Runs, Fold, ClientOrder, WordOf;
    var a := OfferListened(id, fields, t);
    OneStepMore(s, [], s, a);
    acts, s' := [] + [a], Apply(s, a);
    if fate.Waits? {
      OneStepMore(s, acts, s', OfferResync(true));
      acts, s' := acts + [OfferResync(true)], Apply(s', OfferResync(true));
    } else if fate.DoesNotFit? {
      acts, s' := PushRefused(s, acts, s');
    }
  }

  lemma PushRefused(s0: State, acts: seq<Action>, s: State) returns (acts': seq<Action>, s': State)
    requires Runs(s0, acts, s) && Shaped(s) && s.engine.Checking? && s.engine.id < MAX_INSTRUMENTS
    ensures Runs(s0, acts', s')
    ensures var Checking(id, fields) := s.engine;
      s' == s.(engine := Idle, any := true, resync := s.resync + {id}, dirty := s.dirty[id := s.dirty[id] - fields])
  {
    hide Runs, Fold, ClientOrder, WordOf;
    OneStepMore(s0, acts, s, OfferResync(false));
    acts', s' := acts + [OfferResync(false)], Apply(s, OfferResync(false));
    OneStepMore(s0, acts', s', OfferFails);
    acts', s' := acts' + [OfferFails], Apply(s', OfferFails);
    OneStepMore(s0, acts', s', OfferFlag);
    acts', s' := acts' + [OfferFlag], Apply(s', OfferFlag);
    OneStepMore(s0, acts', s', OfferRaise);
    acts', s' := acts' + [OfferRaise], Apply(s', OfferRaise);
  }

  /** A request: the instrument waits, the scan is announced, and the client is done asking. */
  lemma RequestRuns(s: State, id: nat) returns (acts: seq<Action>, s': State)
    requires Shaped(s) && id < MAX_INSTRUMENTS
    ensures Runs(s, acts, s') && Shaped(s') && id in s'.resync && s'.any && s'.asking == s.asking
    ensures Listening(s, id) ==> Asked(s', id)
  {
    NoSteps(s);
    hide Runs, Fold, ClientOrder, WordOf;
    OneStepMore(s, [], s, RequestFlag(id));
    var s1 := Apply(s, RequestFlag(id));
    OneStepMore(s, [] + [RequestFlag(id)], s1, RequestRaise(id));
    acts, s' := [] + [RequestFlag(id)] + [RequestRaise(id)], Apply(s1, RequestRaise(id));
  }

  // ── A client that does not ask ──

  lemma NotKnown(s: State, id: nat) returns (t: nat)
    requires Shaped(s) && id < MAX_INSTRUMENTS && !Known(s, id)
    ensures MayMiss(s, id, t)
  {
    t :| s.knows[id] <= t < |s.listens[id]| && !s.listens[id][t];
  }

  /**
    A state like the start of a request with the right quote: nothing due, nothing waiting, the steps
    give the quote.
  */
  ghost predicate RightStart(s: State, id: nat)
    requires Shaped(s) && id < MAX_INSTRUMENTS
  {
    s.engine.Idle? && Settled(s, id) && View(s, id) == s.quotes[id]
  }

  /**
    From a right start, such as an empty quote with nothing queued, and without a catch-up: the client's
    quote converges in every run if and only if the engine knows that the instrument is listened to.
  */
  lemma ConvergesFromRightStartIff(s0: State, acts0: seq<Action>, s: State, id: nat)
    requires Init(s0) && Runs(s0, acts0, s) && id < MAX_INSTRUMENTS && Shaped(s) && RightStart(s, id)
    ensures AlwaysConverges(s, id) <==> Known(s, id)
  {
    InitInv(s0);
    RunInv(s0, acts0, s);
    hide Inv, Runs, AlwaysConverges, Converged, RunsKeeping, View;
    if Known(s, id) {
      assert Converging(s, id);
      KnownAlways(s, id);
    } else {
      var t := NotKnown(s, id);
      NoStepsKeeping(s, id);
      var acts, s' := ChangeMissed(s, [], s, id, t);
      NotAlways(s, acts, s', id);
    }
  }

  // ── The client's order in a run ──

  lemma {:induction false} OneStepMore(s: State, acts: seq<Action>, s1: State, a: Action)
    requires Runs(s, acts, s1) && Enabled(s1, a)
    ensures Runs(s, acts + [a], Apply(s1, a))
    decreases |acts|
  {
    hide Enabled, Apply;
    if acts == [] {
      assert ([] + [a])[1..] == [];
    } else {
      assert (acts + [a])[1..] == acts[1..] + [a];
      OneStepMore(Apply(s, acts[0]), acts[1..], s1, a);
    }
  }

  /** A field of a listened instrument changes and is offered. */
  lemma ChangeOffered(s0: State, acts: seq<Action>, s: State, id: nat, t: nat, f: nat, v: int, book: bool)
    returns (acts': seq<Action>, s': State)
    requires Runs(s0, acts, s) && Shaped(s) && s.engine.Idle? && MayLoad(s, id, t) && s.listens[id][t] && f < COUNT
    ensures Runs(s0, acts', s')
    ensures var q := s.quotes[id][f := v];
      s' == s.(knows := s.knows[id := t], quotes := s.quotes[id := q], dirty := s.dirty[id := s.dirty[id] - {f}],
               log := s.log + [Step(id, {f}, q, book)])
  {
    hide Runs, Fold, ClientOrder, WordOf;
    var s1 := Apply(s, Change(id, f, v));
    OneStepMore(s0, acts, s, Change(id, f, v));
    var s2 := Apply(s1, OfferListened(id, {f}, t));
    OneStepMore(s0, acts + [Change(id, f, v)], s1, OfferListened(id, {f}, t));
    acts' := acts + [Change(id, f, v)] + [OfferListened(id, {f}, t)];
    var s3 := Apply(s2, OfferResync(false));
    OneStepMore(s0, acts', s2, OfferResync(false));
    acts' := acts' + [OfferResync(false)];
    s' := Apply(s3, OfferPush(book));
    OneStepMore(s0, acts', s3, OfferPush(book));
    acts' := acts' + [OfferPush(book)];
    assert s.dirty[id] + {f} - {f} == s.dirty[id] - {f};
  }

  lemma BookThenOther(m: Quote, a: Step, b: Step, f: nat)
    requires a.book && !b.book && a.id == b.id && f < COUNT && f in a.fields
    ensures Fold(m, ClientOrder([a, b]), a.id)[f] == a.values[f]
  {
    var two := [a, b];
    assert two[..1] == [a] && [a][..0] == [];
    assert Only([a], true) == [a] && Only([a], false) == [];
    assert Only(two, true) == [a] && Only(two, false) == [b];
    var order := ClientOrder(two);
    assert order == [b, a] && order[..1] == [b];
  }

  /**
    The client's order does give other values: a book update sets a field and another step of the same
    message sets it again. The client, which has read it all, keeps the older value.
  */
  lemma OlderValueKept(s0: State, id: nat, f: nat, v: int) returns (acts: seq<Action>, s: State)
    requires Init(s0) && id < MAX_INSTRUMENTS && f < COUNT
    ensures Runs(s0, acts, s) && Shaped(s) && Settled(s, id) && s.applied == |s.log|
    ensures s.mirrors[id][f] == v && s.quotes[id][f] == v + 1
  {
    hide Runs, Fold, ClientOrder, WordOf;
    NoSteps(s0);
    var listen := ListenOn(id, s0.quotes[id]);
    OneStepMore(s0, [], s0, listen);
    var s1 := Apply(s0, listen);
    var s2, s3;
    acts, s2 := ChangeOffered(s0, [] + [listen], s1, id, 1, f, v, true);
    acts, s3 := ChangeOffered(s0, acts, s2, id, 1, f, v + 1, false);
    var a, b := s3.log[0], s3.log[1];
    assert s3.log == [a, b];
    BookThenOther(s3.mirrors[id], a, b, f);
    acts, s := AllRead(s0, acts, s3);
  }

  /** The first message is handed over and read. */
  lemma AllRead(s0: State, acts: seq<Action>, s: State) returns (acts': seq<Action>, s': State)
    requires Runs(s0, acts, s) && Shaped(s) && s.engine.Idle? && s.ends == [] && s.applied == 0 && s.log != []
    ensures Runs(s0, acts', s') && Shaped(s') && s'.applied == |s'.log| && s'.engine.Idle?
    ensures s'.resync == s.resync && s'.dirty == s.dirty && s'.quotes == s.quotes
    ensures forall id: nat :: id < MAX_INSTRUMENTS ==> s'.mirrors[id] == Fold(s.mirrors[id], ClientOrder(s.log), id)
  {
    hide Runs, Fold, ClientOrder, WordOf;
    var s1 := Apply(s, Publish);
    OneStepMore(s0, acts, s, Publish);
    assert s1.log[0..s1.ends[0]] == s.log;
    s' := Apply(s1, ReadMessage(0));
    OneStepMore(s0, acts + [Publish], s1, ReadMessage(0));
    acts' := acts + [Publish] + [ReadMessage(0)];
  }

  lemma NoSteps(s: State)
    ensures Runs(s, [], s)
  {
  }
}

/**
  Sessions of one API client, each with its saver thread (src/order_ids.rs): the ids that the client
  places raise the shared `highest`, the thread saves it while the session lasts and once more after
  the stop request. Loads may be stale: a load gives any value of `highest` from the last one the
  thread knows of on, and the stop flag may be seen late. Other clients, and other processes of the same
  client, save to the same file.
*/
module IdSaver {
  import opened Basics
  import opened Text
  import opened OrderIds

  /** One raise of `highest`: `fetch_max` by an id, and the value after it. */
  datatype Raise = Raise(id: int, to: int)

  /** Where the saver thread is in its loop. */
  datatype At =
    | Top
    | LoadHighest(last: bool)
    | Save(last: bool, now: int)
    | Lift(last: bool, onDisk: int)
    | Done

  datatype Session =
    | Closed
    | Open(
        raises: seq<Raise>,      // the values of `highest` in order, and what made each
        stop: Option<nat>,       // the request, with the last raise that it comes after
        at: At,
        seen: nat,               // the last raise the saver thread knows of
        saved: int,
        lost: bool)              // the save of the last pass did not work

  datatype State = State(
    file: Option<string>,
    session: Session,
    owed: seq<int>)              // the ids placed before the stop requests of earlier sessions

  datatype Action =
    | Start(highest: int)
    | Place(id: int)
    | RequestStop(known: nat)
    | LoadStop(stopped: bool)
    | LoadHighestAt(raise: nat)
    | SaveNow(works: bool)
    | LiftHighest
    | Join
    | OtherSave(account: string, client: int, value: int)

  ghost predicate Enabled(s: State, a: Action, account: string, client: int) {
    Shaped(s) && match a
    case Start(highest) => s.session.Closed? && IsI64(highest)
    case Place(id) => s.session.Open? && IsI64(id)
    case RequestStop(known) => s.session.Open? && s.session.stop.None? && known < |s.session.raises|
    case LoadStop(stopped) => s.session.Open? && s.session.at.Top? && (stopped ==> s.session.stop.Some?)
    case LoadHighestAt(raise) => s.session.Open? && s.session.at.LoadHighest?
      && s.session.seen <= raise < |s.session.raises|
    case SaveNow(_) => s.session.Open? && s.session.at.Save?
    case LiftHighest => s.session.Open? && s.session.at.Lift?
    case Join => s.session.Open? && s.session.at.Done?
    // Another process saves values above what it loaded, so above 0 for a client with no entry.
    case OtherSave(a, c, v) =>
      && GoodAccount(a) && IsI64(v)
      && (a == account && c == client ==> v > 0 || Held(s.file, account, client).Some?)
  }

  function LastRaise(raises: seq<Raise>): int
    requires raises != []
  {
    raises[|raises| - 1].to
  }

  function Raised(raises: seq<Raise>, id: int): seq<Raise>
    requires raises != []
  {
    raises + [Raise(id, Max(LastRaise(raises), id))]
  }

  function AfterPass(last: bool): At {
    if last then Done else Top
  }

  /** The ids of a session that its end owes: those placed before its stop request. */
  function Ids(raises: seq<Raise>, known: nat): seq<int>
    requires known < |raises|
  {
    seq(known + 1, i requires 0 <= i <= known => raises[i].id)
  }

  ghost predicate Shaped(s: State) {
    s.session.Open? ==>
      && s.session.raises != [] && s.session.seen < |s.session.raises|
      && (s.session.stop.Some? ==> s.session.stop.value < |s.session.raises|)
      && (s.session.at.Done? ==> s.session.stop.Some?)
  }

  ghost function Apply(s: State, a: Action, account: string, client: int): State
    requires Enabled(s, a, account, client)
  {
    var x := s.session;
    match a
    case Start(highest) =>
      var saved := Load(s.file, account, client);
      s.(session := Open([Raise(saved, Max(highest, saved))], None, Top, 0, saved, false))
    case Place(id) => s.(session := x.(raises := Raised(x.raises, id)))
    case RequestStop(known) => s.(session := x.(stop := Some(known)))
    case LoadStop(stopped) =>
      s.(session := x.(at := LoadHighest(stopped), seen := if stopped then Max(x.seen, x.stop.value) else x.seen))
    case LoadHighestAt(raise) =>
      var now := x.raises[raise].to;
      s.(session := x.(seen := raise, at := if now > x.saved then Save(x.at.last, now) else AfterPass(x.at.last)))
    case SaveNow(works) =>
      var onDisk := SavedValue(s.file, account, client, x.at.now);
      if works || IsKept(s.file, account, client, x.at.now) then
        State(if works then Saved(s.file, account, client, x.at.now) else s.file,
              x.(saved := onDisk, at := Lift(x.at.last, onDisk)), s.owed)
      else s.(session := x.(at := AfterPass(x.at.last), lost := x.at.last))
    case LiftHighest =>
      s.(session := x.(raises := Raised(x.raises, x.at.onDisk), seen := |x.raises|, at := AfterPass(x.at.last)))
    case Join => State(s.file, Closed, if x.lost then s.owed else s.owed + Ids(x.raises, x.stop.value))
    case OtherSave(a, c, v) => s.(file := Saved(s.file, a, c, v))
  }

  // ── What every step keeps ──

  /** Each value is at or above what was placed up to it, and values never go down. */
  ghost predicate GoesUp(raises: seq<Raise>) {
    && (forall i :: 0 <= i < |raises| ==> IsI64(raises[i].to))
    && (forall i, j :: 0 <= i <= j < |raises| ==> raises[i].id <= raises[j].to && raises[i].to <= raises[j].to)
  }

  /** The last pass has the stop request's raises in view, or in the value it saves. */
  ghost predicate Covers(x: Session, onFile: int)
    requires x.Open?
  {
    match x.at
    case Top => true
    case LoadHighest(last) => last ==> x.stop.Some? && x.stop.value <= x.seen
    case Save(last, now) => IsI64(now) && now > x.saved && (last ==> x.stop.Some? && CoversUpTo(x, now))
    case Lift(last, onDisk) => IsI64(onDisk) && onDisk <= onFile && (last ==> x.stop.Some? && CoversUpTo(x, onDisk))
    case Done => x.stop.Some? && (!x.lost ==> CoversUpTo(x, onFile))
  }

  ghost predicate CoversUpTo(x: Session, v: int)
    requires x.Open? && x.stop.Some?
  {
    x.stop.value < |x.raises| && x.raises[x.stop.value].to <= v
  }

  ghost predicate Inv(s: State, account: string, client: int) {
    var onFile := Load(s.file, account, client);
    && Shaped(s)
    && (forall i :: 0 <= i < |s.owed| ==> s.owed[i] <= onFile)
    && (s.session.Open? ==>
      && GoesUp(s.session.raises)
      && s.session.saved <= onFile
      && (Held(s.file, account, client).None? ==> s.session.saved >= 0)
      && (s.session.lost ==> s.session.at.Done?)
      && Covers(s.session, onFile)
      && (forall i :: 0 <= i < |s.owed| ==> s.owed[i] <= s.session.raises[0].to))
  }

  lemma {:induction false} HeldIsI64(es: seq<Entry>, k: string)
    requires Good(es) && Get(es, k).Some?
    ensures IsI64(Get(es, k).value)
  {
    if es[0].key != k {
      HeldIsI64(es[1..], k);
    }
  }

  lemma LoadIsI64(file: Option<string>, account: string, client: int)
    ensures IsI64(Load(file, account, client))
  {
    hide Entries, Key;
    EntriesAreGood(file);
    if Held(file, account, client).Some? {
      HeldIsI64(Entries(file), Key(account, client));
    }
  }

  lemma RaisedGoesUp(raises: seq<Raise>, id: int)
    requires raises != [] && GoesUp(raises) && IsI64(id)
    ensures GoesUp(Raised(raises, id))
  {
  }

  lemma OwnSave(s: State, a: Action, account: string, client: int)
    requires GoodAccount(account) && Inv(s, account, client) && Enabled(s, a, account, client) && a.SaveNow?
    ensures Inv(Apply(s, a, account, client), account, client)
  {
    hide Saved, Held, IsI64, GoodAccount, GoesUp, IsKept, SavedValue;
    var now := s.session.at.now;
    LoadIsI64(Saved(s.file, account, client, now), account, client);
    LoadIsI64(s.file, account, client);
    SaveHolds(s.file, account, client, now);
  }

  /** What a save of an id above the saved one gives. */
  lemma SaveHolds(file: Option<string>, account: string, client: int, h: int)
    requires GoodAccount(account) && IsI64(h) && (h >= 0 || Held(file, account, client).Some?)
    ensures var after := Saved(file, account, client, h);
      && Held(after, account, client).Some?
      && SavedValue(file, account, client, h) == Load(after, account, client) == Max(Load(file, account, client), h)
    ensures IsKept(file, account, client, h) ==>
      Held(file, account, client).Some? && SavedValue(file, account, client, h) == Load(file, account, client)
  {
    hide Entries, Key, Put, GoodAccount, Saved, IsI64;
    LoadAfterSave(file, account, client, h);
    if IsKept(file, account, client, h) {
      KeptAsIs(file, account, client, h);
    } else {
      GoodEntriesAfterSave(file, account, client, h);
      GetAfterPut(Entries(file), Key(account, client), h, Key(account, client));
    }
  }

  lemma SomeoneElsesSave(s: State, a: Action, account: string, client: int)
    requires Inv(s, account, client) && Enabled(s, a, account, client) && a.OtherSave?
    ensures Inv(Apply(s, a, account, client), account, client)
  {
    hide Saved, Held, IsI64, GoodAccount, GoesUp;
    if a.account == account && a.client == client {
      SaveHolds(s.file, account, client, a.value);
    } else {
      OthersKept(s.file, a.account, a.client, a.value, account, client);
    }
  }

  lemma StepInv(s: State, a: Action, account: string, client: int)
    requires GoodAccount(account) && Inv(s, account, client) && Enabled(s, a, account, client)
    ensures Inv(Apply(s, a, account, client), account, client)
  {
    hide Saved, Held, IsI64, GoodAccount, SavedValue, IsKept;
    match a
    case SaveNow(_) => OwnSave(s, a, account, client);
    case OtherSave(_, _, _) => SomeoneElsesSave(s, a, account, client);
    case Start(_) => LoadIsI64(s.file, account, client);
    case Place(id) => RaisedGoesUp(s.session.raises, id);
    case LiftHighest => RaisedGoesUp(s.session.raises, s.session.at.onDisk);
    case _ =>
  }

  // ── Runs ──

  ghost predicate Init(s: State) {
    s.session.Closed? && s.owed == []
  }

  /** The actions `acts`, each enabled in turn, lead from `s` to `s'`. */
  ghost predicate Runs(s: State, acts: seq<Action>, account: string, client: int, s': State)
    decreases |acts|
  {
    if acts == [] then s' == s
    else
      && Enabled(s, acts[0], account, client)
      && Runs(Apply(s, acts[0], account, client), acts[1..], account, client, s')
  }

  lemma {:induction false} RunInv(s: State, acts: seq<Action>, account: string, client: int, s': State)
    requires GoodAccount(account) && Inv(s, account, client) && Runs(s, acts, account, client, s')
    ensures Inv(s', account, client)
    decreases |acts|
  {
    hide Inv, Enabled, Apply, GoodAccount;
    if acts != [] {
      StepInv(s, acts[0], account, client);
      RunInv(Apply(s, acts[0], account, client), acts[1..], account, client, s');
    }
  }

  /**
    In any run of sessions, over any first file and with any saves of others between, every value that
    `highest` takes in a session is at or above every id placed before the stop requests of the
    sessions before whose last save worked, and the file holds a value at or above them all.
  */
  lemma SessionsStartAboveUsedIds(s0: State, acts: seq<Action>, account: string, client: int, s: State)
    requires GoodAccount(account) && Init(s0) && Runs(s0, acts, account, client, s)
    ensures forall i :: 0 <= i < |s.owed| ==> s.owed[i] <= Load(s.file, account, client)
    ensures s.session.Open? ==> forall i, j :: 0 <= i < |s.owed| && 0 <= j < |s.session.raises| ==>
      s.owed[i] <= s.session.raises[j].to
  {
    hide GoodAccount, Held, Load, Runs;
    RunInv(s0, acts, account, client, s);
  }

  // ── What a session starts with and ends with ──

  /** The value after raise `i` is the highest of `h` and the ids raised so far. */
  ghost predicate IsMaximum(raises: seq<Raise>, h: int, i: nat)
    requires i < |raises|
  {
    && h <= raises[i].to && (forall j :: 0 <= j <= i ==> raises[j].id <= raises[i].to)
    && (raises[i].to == h || exists j :: 0 <= j <= i && raises[j].id == raises[i].to)
  }

  ghost predicate AreMaxima(raises: seq<Raise>, h: int) {
    forall i :: 0 <= i < |raises| ==> IsMaximum(raises, h, i)
  }

  lemma StaysMaximum(raises: seq<Raise>, h: int, next: seq<Raise>, i: nat)
    requires i < |raises| && raises <= next && IsMaximum(raises, h, i)
    ensures IsMaximum(next, h, i)
  {
    if raises[i].to != h {
      var j :| 0 <= j <= i && raises[j].id == raises[i].to;
      assert next[j] == raises[j];
    }
  }

  lemma NextMaximum(raises: seq<Raise>, h: int, id: int)
    requires raises != [] && IsMaximum(raises, h, |raises| - 1)
    ensures IsMaximum(Raised(raises, id), h, |raises|)
  {
    var k, next := |raises| - 1, Raised(raises, id);
    StaysMaximum(raises, h, next, k);
    assert next[k] == raises[k] && next[k + 1] == Raise(id, Max(raises[k].to, id));
    if raises[k].to < id {
      assert next[k + 1].id == next[k + 1].to;
    }
  }

  lemma MaximaGrow(raises: seq<Raise>, h: int, id: int)
    requires raises != [] && AreMaxima(raises, h)
    ensures AreMaxima(Raised(raises, id), h)
  {
    hide IsMaximum;
    NextMaximum(raises, h, id);
    forall i: nat | i < |raises| ensures IsMaximum(Raised(raises, id), h, i) {
      StaysMaximum(raises, h, Raised(raises, id), i);
    }
  }

  lemma {:induction false} MaximaRun(s: State, acts: seq<Action>, account: string, client: int, s': State, h: int)
    requires Runs(s, acts, account, client, s') && Join !in acts
    requires s.session.Open? && s.session.raises != [] && AreMaxima(s.session.raises, h)
    ensures s'.session.Open? && s'.session.raises != [] && AreMaxima(s'.session.raises, h)
    ensures s.session.raises <= s'.session.raises
    decreases |acts|
  {
    hide AreMaxima, Saved, SavedValue, IsKept, GoodAccount;
    if acts != [] {
      var a, t := acts[0], Apply(s, acts[0], account, client);
      if a.Place? {
        MaximaGrow(s.session.raises, h, a.id);
      } else if a.LiftHighest? {
        MaximaGrow(s.session.raises, h, s.session.at.onDisk);
      }
      MaximaRun(t, acts[1..], account, client, s', h);
    }
  }

  /**
    The values of `highest` in a session are maxima: of what the client starts with, what its entry holds
    at the start, and the ids placed and found on the disk since.
  */
  lemma HighestIsMaximum(s: State, h: int, acts: seq<Action>, account: string, client: int, s': State)
    requires Enabled(s, Start(h), account, client)
    requires Runs(Apply(s, Start(h), account, client), acts, account, client, s') && Join !in acts
    ensures s'.session.Open? && s'.session.raises != []
    ensures s'.session.raises[0].id == Load(s.file, account, client)
    ensures forall i :: 0 <= i < |s'.session.raises| ==> h <= s'.session.raises[i].to
    ensures forall i, j :: 0 <= j <= i < |s'.session.raises| ==> s'.session.raises[j].id <= s'.session.raises[i].to
    ensures forall i :: 0 <= i < |s'.session.raises| && s'.session.raises[i].to != h ==>
      exists j :: 0 <= j <= i && s'.session.raises[j].id == s'.session.raises[i].to
  {
    hide Runs, Load;
    MaximaRun(Apply(s, Start(h), account, client), acts, account, client, s', h);
    var raises := s'.session.raises;
    forall i: nat | i < |raises|
      ensures h <= raises[i].to && (forall j :: 0 <= j <= i ==> raises[j].id <= raises[i].to)
      ensures raises[i].to == h || exists j :: 0 <= j <= i && raises[j].id == raises[i].to
    {
      assert IsMaximum(raises, h, i);
    }
  }

  /** Without a failed save the session is not lost. */
  lemma {:induction false} WorksToTheEnd(s: State, acts: seq<Action>, account: string, client: int, s': State)
    requires Runs(s, acts, account, client, s') && Join !in acts && SaveNow(false) !in acts
    requires s.session.Open? && s.session.raises != [] && !s.session.lost
    ensures s'.session.Open? && !s'.session.lost && s.session.raises <= s'.session.raises
    decreases |acts|
  {
    hide Saved, SavedValue, IsKept, GoodAccount, Load;
    if acts != [] {
      WorksToTheEnd(Apply(s, acts[0], account, client), acts[1..], account, client, s');
    }
  }

  lemma {:induction false} OwedStays(s: State, acts: seq<Action>, account: string, client: int, s': State)
    requires Runs(s, acts, account, client, s')
    ensures s.owed <= s'.owed
    decreases |acts|
  {
    hide Saved, SavedValue, IsKept, GoodAccount, Load;
    if acts != [] {
      OwedStays(Apply(s, acts[0], account, client), acts[1..], account, client, s');
    }
  }

  /**
    A session that ends without a failed save from some point on: every value of `highest` in every
    later session is at or above every id placed before its stop request.
  */
  lemma NextSessionsAreAbove(s0: State, acts0: seq<Action>, account: string, client: int, s: State,
      acts: seq<Action>, s1: State, acts1: seq<Action>, s2: State)
    requires GoodAccount(account) && Init(s0) && Runs(s0, acts0, account, client, s)
    requires s.session.Open? && !s.session.at.Done?
    requires Runs(s, acts, account, client, s1) && Join !in acts && SaveNow(false) !in acts
    requires Enabled(s1, Join, account, client) && Runs(Apply(s1, Join, account, client), acts1, account, client, s2)
    ensures forall i :: 0 <= i <= s1.session.stop.value ==> s1.session.raises[i].id <= Load(s2.file, account, client)
    ensures s2.session.Open? ==> forall i, j :: 0 <= i <= s1.session.stop.value && 0 <= j < |s2.session.raises| ==>
      s1.session.raises[i].id <= s2.session.raises[j].to
  {
    hide GoodAccount, Held, Load, Runs, Saved, SavedValue, IsKept;
    RunInv(s0, acts0, account, client, s);
    RunInv(s, acts, account, client, s1);
    WorksToTheEnd(s, acts, account, client, s1);
    StepInv(s1, Join, account, client);
    var t, ids := Apply(s1, Join, account, client), Ids(s1.session.raises, s1.session.stop.value);
    RunInv(t, acts1, account, client, s2);
    OwedStays(t, acts1, account, client, s2);
    forall i | 0 <= i <= s1.session.stop.value
      ensures |s1.owed| + i < |s2.owed| && s2.owed[|s1.owed| + i] == s1.session.raises[i].id
    {
      assert t.owed[|s1.owed| + i] == ids[i];
    }
  }

  lemma OneMore(s: State, a: Action, t: State, acts: seq<Action>, account: string, client: int, s': State)
    requires Enabled(s, a, account, client) && Apply(s, a, account, client) == t && Runs(t, acts, account, client, s')
    ensures Runs(s, [a] + acts, account, client, s')
  {
  }

  /**
    A save that works leaves the higher of its value and what another process of the client saved, and
    then `highest` is at or above both.
  */
  lemma WorkingSaveLifts(s0: State, acts0: seq<Action>, account: string, client: int, s: State)
    returns (acts: seq<Action>, s': State)
    requires GoodAccount(account) && Init(s0) && Runs(s0, acts0, account, client, s)
    requires s.session.Open? && s.session.raises != [] && s.session.at.Save?
    ensures Runs(s, acts, account, client, s') && s'.session.Open? && s'.session.raises != []
    ensures s'.session.saved == Load(s'.file, account, client) == Max(Load(s.file, account, client), s.session.at.now)
    ensures LastRaise(s'.session.raises) == Max(LastRaise(s.session.raises), Load(s'.file, account, client))
  {
    hide GoodAccount, Load, Runs, Inv, Init, IsI64, Saved, SavedValue, IsKept, Enabled, Apply, LastRaise;
    InitInv(s0, account, client);
    RunInv(s0, acts0, account, client, s);
    InvShaped(s, account, client);
    SavesHighest(s, account, client);
    var s1;
    s1, s' := SavedAndLifted(s, account, client);
    NoSteps(s', account, client);
    OneMore(s1, LiftHighest, s', [], account, client, s');
    acts := [LiftHighest] + [];
    OneMore(s, SaveNow(true), s1, acts, account, client, s');
    acts := [SaveNow(true)] + acts;
  }

  lemma InitInv(s: State, account: string, client: int)
    requires Init(s)
    ensures Inv(s, account, client)
  {
  }

  lemma InvShaped(s: State, account: string, client: int)
    requires Inv(s, account, client)
    ensures Shaped(s)
  {
  }

  lemma SavedAndLifted(s: State, account: string, client: int) returns (s1: State, s': State)
    requires Shaped(s) && s.session.Open? && s.session.raises != [] && s.session.at.Save?
    ensures Enabled(s, SaveNow(true), account, client) && s1 == Apply(s, SaveNow(true), account, client)
    ensures Enabled(s1, LiftHighest, account, client) && s' == Apply(s1, LiftHighest, account, client)
    ensures s'.session.Open? && s'.session.raises != []
    ensures s'.file == Saved(s.file, account, client, s.session.at.now)
    ensures s'.session.saved == SavedValue(s.file, account, client, s.session.at.now)
    ensures LastRaise(s'.session.raises) == Max(LastRaise(s.session.raises), s'.session.saved)
  {
    hide GoodAccount, Load, Held, Saved, SavedValue, IsKept, IsI64;
    s1 := Apply(s, SaveNow(true), account, client);
    s' := Apply(s1, LiftHighest, account, client);
  }

  lemma SavesHighest(s: State, account: string, client: int)
    requires GoodAccount(account) && Inv(s, account, client) && s.session.Open? && s.session.at.Save?
    ensures var now := s.session.at.now;
      SavedValue(s.file, account, client, now) == Load(Saved(s.file, account, client, now), account, client)
      == Max(Load(s.file, account, client), now)
  {
    hide GoodAccount, Saved, SavedValue, IsKept, Held, IsI64;
    SaveHolds(s.file, account, client, s.session.at.now);
  }

  // ── A session can end ──

  /** What the saver thread does next when its loads are fresh and its saves work, and a stop is requested. */
  ghost function NextToEnd(x: Session): Action
    requires x.Open? && x.raises != []
  {
    if x.stop.None? then RequestStop(|x.raises| - 1)
    else match x.at
      case Top => LoadStop(true)
      case LoadHighest(_) => LoadHighestAt(|x.raises| - 1)
      case Save(_, _) => SaveNow(true)
      case Lift(_, _) => LiftHighest
      case Done => Join
  }

  /** The steps left in the pass. */
  ghost function ToGo(at: At): nat {
    match at
    case LoadHighest(_) => 3
    case Save(_, _) => 2
    case Lift(_, _) => 1
    case _ => 0
  }

  /** The end of a session: the ids raised up to `known` are on the file. */
  lemma {:induction false} EndsFrom(s: State, account: string, client: int, ids: seq<Raise>)
    returns (acts: seq<Action>, s': State)
    requires GoodAccount(account) && Inv(s, account, client) && s.session.Open? && !s.session.lost
    requires ids <= s.session.raises && |ids| > 0
    requires s.session.stop.Some? ==> |ids| - 1 <= s.session.stop.value
    ensures Runs(s, acts, account, client, s') && s'.session.Closed? && Inv(s', account, client)
    ensures forall i :: 0 <= i < |ids| ==> ids[i].id <= Load(s'.file, account, client)
    decreases s.session.stop.None?, !(s.session.at.Done? || (!s.session.at.Top? && s.session.at.last)),
      ToGo(s.session.at)
  {
    hide GoodAccount, Load, Saved, SavedValue, IsKept, Held;
    var a := NextToEnd(s.session);
    var t := Apply(s, a, account, client);
    StepInv(s, a, account, client);
    if a.Join? {
      acts, s' := [a], t;
      assert [a][1..] == [];
      var owed := Ids(s.session.raises, s.session.stop.value);
      forall i | 0 <= i < |ids| ensures ids[i].id <= Load(t.file, account, client) {
        assert t.owed[|s.owed| + i] == owed[i] == s.session.raises[i].id;
      }
    } else {
      var rest;
      rest, s' := EndsFrom(t, account, client, ids);
      acts := [a] + rest;
      OneMore(s, a, t, rest, account, client, s');
    }
  }

  /**
    Every session can be ended: from every reachable state of one not yet told to stop, a run closes it
    and leaves the file with a value at or above every id raised in it.
  */
  lemma SessionCanEnd(s0: State, acts0: seq<Action>, account: string, client: int, s: State)
    returns (acts: seq<Action>, s': State)
    requires GoodAccount(account) && Init(s0) && Runs(s0, acts0, account, client, s)
    requires s.session.Open? && s.session.stop.None?
    ensures Runs(s, acts, account, client, s') && s'.session.Closed?
    ensures forall i :: 0 <= i < |s.session.raises| ==> s.session.raises[i].id <= Load(s'.file, account, client)
  {
    hide GoodAccount, Load, Runs, Held;
    RunInv(s0, acts0, account, client, s);
    acts, s' := EndsFrom(s, account, client, s.session.raises);
  }

  /** The steps of a session that places one id, up to the save of the last pass. */
  lemma PlacesOne(account: string, client: int, id: int, acts: seq<Action>, s: State)
    requires 0 < id && IsI64(id)
    requires Runs(State(None, Open([Raise(0, 0), Raise(id, id)], Some(1), Save(true, id), 1, 0, false), []), acts,
      account, client, s)
    ensures var rest := [RequestStop(1)] + ([LoadStop(true)] + ([LoadHighestAt(1)] + acts));
      var all := [Start(0)] + ([Place(id)] + rest);
      Runs(State(None, Closed, []), all, account, client, s)
  {
    hide Runs, Key, IsI64;
    Zero();
    var s0 := State(None, Closed, []);
    var s1 := State(None, Open([Raise(0, 0)], None, Top, 0, 0, false), []);
    var s2 := State(None, Open([Raise(0, 0), Raise(id, id)], None, Top, 0, 0, false), []);
    var s3 := State(None, s2.session.(stop := Some(1)), []);
    var s4 := State(None, s3.session.(at := LoadHighest(true), seen := 1), []);
    var s5 := State(None, s4.session.(at := Save(true, id)), []);
    OneMore(s4, LoadHighestAt(1), s5, acts, account, client, s);
    OneMore(s3, LoadStop(true), s4, [LoadHighestAt(1)] + acts, account, client, s);
    OneMore(s2, RequestStop(1), s3, [LoadStop(true)] + ([LoadHighestAt(1)] + acts), account, client, s);
    OneMore(s1, Place(id), s2, [RequestStop(1)] + ([LoadStop(true)] + ([LoadHighestAt(1)] + acts)), account, client, s);
    OneMore(s0, Start(0), s1, [Place(id)] + ([RequestStop(1)] + ([LoadStop(true)] + ([LoadHighestAt(1)] + acts))),
      account, client, s);
  }

  lemma Zero()
    ensures IsI64(0)
  {
  }

  lemma NoSteps(s: State, account: string, client: int)
    ensures Runs(s, [], account, client, s)
  {
  }

  /**
    Both conditions are needed: a session places one id and stops, and the next one starts at that id
    just when the last save worked and a line can hold the account.
  */
  lemma OneIdSession(account: string, client: int, id: int, works: bool) returns (acts: seq<Action>, s: State)
    requires 0 < id && IsI64(id)
    ensures Runs(State(None, Closed, []), acts, account, client, s)
    ensures s.session.Open?
      && s.session.raises == [if works && GoodAccount(account) then Raise(id, id) else Raise(0, 0)]
  {
    hide Saved, GoodAccount, Runs, IsI64, Key;
    LoadAfterSave(None, account, client, id);
    if !GoodAccount(account) {
      BadAccountIsNeverHeld(Saved(None, account, client, id), account, client);
    }
    Zero();
    var s5 := State(None, Open([Raise(0, 0), Raise(id, id)], Some(1), Save(true, id), 1, 0, false), []);
    var s6 := Apply(s5, SaveNow(works), account, client);
    var s7 := if works then Apply(s6, LiftHighest, account, client) else s6;
    var s8 := Apply(s7, Join, account, client);
    s := Apply(s8, Start(0), account, client);
    NoSteps(s, account, client);
    OneMore(s8, Start(0), s, [], account, client, s);
    OneMore(s7, Join, s8, [Start(0)] + [], account, client, s);
    acts := [Join] + ([Start(0)] + []);
    if works {
      OneMore(s6, LiftHighest, s7, acts, account, client, s);
      acts := [LiftHighest] + acts;
    }
    OneMore(s5, SaveNow(works), s6, acts, account, client, s);
    acts := [SaveNow(works)] + acts;
    PlacesOne(account, client, id, acts, s);
    acts := [Start(0)] + ([Place(id)] + ([RequestStop(1)] + ([LoadStop(true)] + ([LoadHighestAt(1)] + acts))));
  }
}

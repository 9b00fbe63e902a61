/**
  Errors that a client writes itself, and the answers of the engine to the commands sent before
  (src/bridge.rs, `CommandClock`). A command goes into the channel and is counted after that; the engine
  takes the commands in order, writes the answers of each and counts it as handled after that. A local
  error reads the count of commands sent, waits until that many are handled, and is written; the time
  limit, or an engine that does not seem to run, ends the wait too. Loads may be stale: the count of
  commands sent is any count from the last one that the client knows of on, the count of those handled
  any one so far, and the flag of a running engine may still be the one from before it started.
*/
module CommandOrder {

  /** What ended a wait. */
  datatype Why = AllHandled | TimeLimit | NotRunning

  /**
    A client thread. `last` is the place after its last command in the channel, `known` the last count
    of commands sent that it knows of.
  */
  datatype Client =
    | Free(last: nat, known: nat)
    | Sent(last: nat, known: nat)
    | Waiting(last: nat, known: nat, target: nat)
    | Writing(last: nat, known: nat, target: nat, why: Why)

  /** What the client reads, in the order of the answer clock. */
  datatype Entry = Answer(command: nat) | LocalError(client: nat, target: nat, why: Why)

  datatype State = State(
    commands: seq<nat>,      // the channel: who sent each command
    sent: nat,               // the count of commands sent
    done: nat,               // the commands whose answers are all written
    handled: nat,            // the count of commands handled
    clients: seq<Client>,
    log: seq<Entry>)

  datatype Action =
    | Send(c: nat)
    | CountSent(c: nat)
    | WriteAnswer
    | FinishCommand
    | CountHandled
    | StartError(c: nat, target: nat)
    | EndWait(c: nat, why: Why, seen: nat)
    | WriteError(c: nat)

  predicate Enabled(s: State, a: Action) {
    match a
    case Send(c) => c < |s.clients| && s.clients[c].Free?
    case CountSent(c) => c < |s.clients| && s.clients[c].Sent?
    case WriteAnswer => s.done < |s.commands|
    case FinishCommand => s.done < |s.commands|
    case CountHandled => true
    case StartError(c, target) => c < |s.clients| && s.clients[c].Free? && s.clients[c].known <= target <= s.sent
    case EndWait(c, why, seen) =>
      && c < |s.clients| && s.clients[c].Waiting?
      && seen <= s.handled && (why.AllHandled? ==> seen >= s.clients[c].target)
    case WriteError(c) => c < |s.clients| && s.clients[c].Writing?
  }

  function Apply(s: State, a: Action): State
    requires Enabled(s, a)
  {
    match a
    case Send(c) =>
      s.(commands := s.commands + [c], clients := s.clients[c := Sent(|s.commands| + 1, s.clients[c].known)])
    case CountSent(c) =>
      s.(sent := s.sent + 1, clients := s.clients[c := Free(s.clients[c].last, s.sent + 1)])
    case WriteAnswer => s.(log := s.log + [Answer(s.done)])
    case FinishCommand => s.(done := s.done + 1)
    case CountHandled => s.(handled := s.done)
    case StartError(c, target) =>
      s.(clients := s.clients[c := Waiting(s.clients[c].last, s.clients[c].known, target)])
    case EndWait(c, why, _) =>
      s.(clients := s.clients[c := Writing(s.clients[c].last, s.clients[c].known, s.clients[c].target, why)])
    case WriteError(c) =>
      s.(log := s.log + [LocalError(c, s.clients[c].target, s.clients[c].why)],
         clients := s.clients[c := Free(s.clients[c].last, s.clients[c].known)])
  }

  predicate Init(s: State) {
    && s.commands == [] && s.sent == 0 && s.done == 0 && s.handled == 0 && s.log == []
    && forall c :: 0 <= c < |s.clients| ==> s.clients[c] == Free(0, 0)
  }

  // ── What every step keeps ──

  predicate ClientOk(s: State, c: nat)
    requires c < |s.clients|
  {
    var x := s.clients[c];
    && x.last <= |s.commands| && (x.last > 0 ==> s.commands[x.last - 1] == c)
    && (x.Writing? && x.why.AllHandled? ==> x.target <= s.done)
  }

  /** An error whose wait ended by the count stands after all the answers of the commands counted. */
  predicate InPlace(log: seq<Entry>, i: nat, done: nat)
    requires i < |log|
  {
    log[i].LocalError? && log[i].why.AllHandled? ==>
      && log[i].target <= done
      && forall j :: i < j < |log| && log[j].Answer? ==> log[i].target <= log[j].command
  }

  ghost predicate Inv(s: State) {
    && s.handled <= s.done <= |s.commands|
    && (forall c :: 0 <= c < |s.clients| ==> ClientOk(s, c))
    && (forall i :: 0 <= i < |s.log| ==> InPlace(s.log, i, s.done))
  }

  lemma InitInv(s: State)
    requires Init(s)
    ensures Inv(s)
  {
  }

  lemma ClientStep(s: State, a: Action, c: nat)
    requires Inv(s) && Enabled(s, a) && c < |s.clients|
    ensures ClientOk(Apply(s, a), c)
  {
    hide InPlace;
    assert ClientOk(s, c);
  }

  lemma LogStep(s: State, a: Action, i: nat)
    requires Inv(s) && Enabled(s, a) && i < |Apply(s, a).log|
    ensures InPlace(Apply(s, a).log, i, Apply(s, a).done)
  {
    if i < |s.log| {
      assert InPlace(s.log, i, s.done);
    } else if a.WriteError? {
      assert ClientOk(s, a.c);
    }
  }

  lemma StepInv(s: State, a: Action)
    requires Inv(s) && Enabled(s, a)
    ensures Inv(Apply(s, a))
  {
    hide InPlace, ClientOk;
    var s' := Apply(s, a);
    forall c | 0 <= c < |s'.clients| ensures ClientOk(s', c) {
      ClientStep(s, a, c);
    }
    forall i | 0 <= i < |s'.log| ensures InPlace(s'.log, i, s'.done) {
      LogStep(s, a, i);
    }
  }

  // ── Runs ──

  ghost predicate Runs(s: State, acts: seq<Action>, s': State)
    decreases |acts|
  {
    if acts == [] then s' == s else Enabled(s, acts[0]) && Runs(Apply(s, acts[0]), acts[1..], s')
  }

  lemma {:induction false} RunInv(s: State, acts: seq<Action>, s': State)
    requires Inv(s) && Runs(s, acts, s')
    ensures Inv(s')
    decreases |acts|
  {
    hide Inv, Enabled, Apply;
    if acts != [] {
      StepInv(s, acts[0]);
      RunInv(Apply(s, acts[0]), acts[1..], s');
    }
  }

  /** The log, the channel and the commands done only grow, and answers are of commands not done before. */
  lemma {:induction false} Grows(s: State, acts: seq<Action>, s': State)
    requires Runs(s, acts, s')
    ensures s.log <= s'.log && s.commands <= s'.commands && s.done <= s'.done && |s'.clients| == |s.clients|
    ensures forall j :: |s.log| <= j < |s'.log| && s'.log[j].Answer? ==> s.done <= s'.log[j].command
    decreases |acts|
  {
    if acts != [] {
      Grows(Apply(s, acts[0]), acts[1..], s');
    }
  }

  // ── Where an error stands ──

  /** Entry `i` is the first error that client `c` writes after `s`. */
  ghost predicate NextError(s: State, c: nat, s': State, i: nat) {
    && |s.log| <= i < |s'.log| && s'.log[i].LocalError? && s'.log[i].client == c
    && forall j :: |s.log| <= j < i ==> !(s'.log[j].LocalError? && s'.log[j].client == c)
  }

  /**
    If the wait of `c` at `s` ends by `why`, then no answer of a command before place `n` follows its
    error in the run to `s'`.
  */
  ghost predicate AfterAnswers(s: State, c: nat, why: Why, s': State, n: nat) {
    forall i: nat, j :: NextError(s, c, s', i) && s'.log[i].why == why && i < j < |s'.log| && s'.log[j].Answer? ==>
      n <= s'.log[j].command
  }

  /** The same for the commands that `c` sent before, and for those alone. */
  ghost predicate InOrder(s: State, c: nat, why: Why, s': State)
    requires c < |s.clients|
  {
    forall i: nat, j :: NextError(s, c, s', i) && s'.log[i].why == why && i < j < |s'.log| && s'.log[j].Answer? ==>
      var k := s'.log[j].command;
      k < |s'.commands| && s'.commands[k] == c ==> s.clients[c].last <= k
  }

  /** The error of a wait carries the target of that wait. */
  lemma {:induction false} TargetKept(s: State, acts: seq<Action>, s': State, c: nat, i: nat)
    requires Runs(s, acts, s') && c < |s.clients| && (s.clients[c].Waiting? || s.clients[c].Writing?)
    requires NextError(s, c, s', i)
    ensures s'.log[i].target == s.clients[c].target
    decreases |acts|
  {
    if acts != [] {
      var s1 := Apply(s, acts[0]);
      Grows(s1, acts[1..], s');
      if acts[0] == WriteError(c) {
        assert s'.log[|s.log|] == s1.log[|s.log|];
      } else {
        assert |s1.log| > |s.log| ==> s'.log[|s.log|] == s1.log[|s.log|];
        TargetKept(s1, acts[1..], s', c, i);
      }
    }
  }

  /**
    The errors that stand right: the commands of the client are done, or the wait is for all of them and
    ends by the count.
  */
  predicate Covered(x: Client, done: nat, why: Why)
    requires x.Waiting?
  {
    x.last <= done || (why.AllHandled? && x.last <= x.target)
  }

  lemma CoveredInOrder(s: State, c: nat, why: Why, acts: seq<Action>, s': State)
    requires Inv(s) && c < |s.clients| && s.clients[c].Waiting? && Covered(s.clients[c], s.done, why)
      && Runs(s, acts, s')
    ensures AfterAnswers(s, c, why, s', s.clients[c].last) && InOrder(s, c, why, s')
  {
    Grows(s, acts, s');
    RunInv(s, acts, s');
    forall i: nat, j | NextError(s, c, s', i) && s'.log[i].why == why && i < j < |s'.log| && s'.log[j].Answer?
      ensures s.clients[c].last <= s'.log[j].command
    {
      TargetKept(s, acts, s', c, i);
      assert InPlace(s'.log, i, s'.done);
    }
  }

  // ── The runs that break the order ──

  lemma OneMore(s: State, a: Action, acts: seq<Action>, s': State)
    requires Enabled(s, a) && Runs(Apply(s, a), acts, s')
    ensures Runs(s, [a] + acts, s')
  {
  }

  lemma {:induction false} RunsOn(s: State, acts: seq<Action>, s1: State, more: seq<Action>, s': State)
    requires Runs(s, acts, s1) && Runs(s1, more, s')
    ensures Runs(s, acts + more, s')
    decreases |acts|
  {
    hide Enabled, Apply;
    if acts == [] {
      assert acts + more == more;
    } else {
      assert (acts + more)[1..] == acts[1..] + more;
      RunsOn(Apply(s, acts[0]), acts[1..], s1, more, s');
    }
  }

  /** The engine is done with the commands before place `n`, without an answer. */
  lemma {:induction false} FinishUpTo(s: State, n: nat) returns (acts: seq<Action>)
    requires s.done <= n <= |s.commands|
    ensures Runs(s, acts, s.(done := n))
    decreases n - s.done
  {
    acts := [];
    if s.done < n {
      var rest := FinishUpTo(Apply(s, FinishCommand), n);
      OneMore(s, FinishCommand, rest, s.(done := n));
      acts := [FinishCommand] + rest;
    }
  }

  lemma NoSteps(s: State)
    ensures Runs(s, [], s)
  {
  }

  lemma Bounds(s: State, c: nat)
    requires Inv(s) && c < |s.clients|
    ensures s.done <= |s.commands| && s.clients[c].last <= |s.commands|
    ensures s.clients[c].last > 0 ==> s.commands[s.clients[c].last - 1] == c
  {
    assert ClientOk(s, c);
  }

  /** A run to the end of the wait, with as few commands done as `why` allows. */
  lemma WaitEnds(s: State, c: nat, why: Why) returns (acts: seq<Action>, s': State)
    requires Inv(s) && c < |s.clients| && s.clients[c].Waiting? && !Covered(s.clients[c], s.done, why)
    ensures Runs(s, acts, s') && Inv(s') && s'.log == s.log && s'.commands == s.commands
    ensures |s'.clients| == |s.clients| && s'.done < s.clients[c].last
    ensures s'.clients[c] == Writing(s.clients[c].last, s.clients[c].known, s.clients[c].target, why)
  {
    hide Runs, Inv;
    var target := s.clients[c].target;
    if why.AllHandled? {
      var n := if s.done < target then target else s.done;
      Bounds(s, c);
      var up := FinishUpTo(s, n);
      var s1 := s.(done := n);
      var s2 := Apply(s1, CountHandled);
      s' := Apply(s2, EndWait(c, why, n));
      NoSteps(s');
      OneMore(s2, EndWait(c, why, n), [], s');
      OneMore(s1, CountHandled, [EndWait(c, why, n)] + [], s');
      RunsOn(s, up, s1, [CountHandled] + ([EndWait(c, why, n)] + []), s');
      acts := up + ([CountHandled] + ([EndWait(c, why, n)] + []));
    } else {
      s' := Apply(s, EndWait(c, why, 0));
      NoSteps(s');
      OneMore(s, EndWait(c, why, 0), [], s');
      acts := [EndWait(c, why, 0)] + [];
    }
    RunInv(s, acts, s');
  }

  /** The wait is over before the client's last command is done: the error, then that command's answer. */
  lemma ErrorThenAnswer(s: State, c: nat) returns (acts: seq<Action>, s': State)
    requires Inv(s) && c < |s.clients| && s.clients[c].Writing? && s.done < s.clients[c].last
    ensures Runs(s, acts, s') && s'.commands == s.commands
    ensures s'.log == s.log + [LocalError(c, s.clients[c].target, s.clients[c].why), Answer(s.clients[c].last - 1)]
    ensures s'.clients == s.clients[c := Free(s.clients[c].last, s.clients[c].known)]
  {
    hide Runs, Inv;
    var n := s.clients[c].last - 1;
    Bounds(s, c);
    var s1 := Apply(s, WriteError(c));
    var s2 := s1.(done := n);
    s' := Apply(s2, WriteAnswer);
    NoSteps(s');
    OneMore(s2, WriteAnswer, [], s');
    var up := FinishUpTo(s1, n);
    RunsOn(s1, up, s2, [WriteAnswer] + [], s');
    OneMore(s, WriteError(c), up + ([WriteAnswer] + []), s');
    acts := [WriteError(c)] + (up + ([WriteAnswer] + []));
  }

  lemma NotCoveredBreaks(s: State, c: nat, why: Why) returns (acts: seq<Action>, s': State)
    requires Inv(s) && c < |s.clients| && s.clients[c].Waiting? && !Covered(s.clients[c], s.done, why)
    ensures Runs(s, acts, s') && !InOrder(s, c, why, s')
    ensures s'.log == s.log + [LocalError(c, s.clients[c].target, why), Answer(s.clients[c].last - 1)]
    ensures c < |s'.clients| && s'.clients[c] == Free(s.clients[c].last, s.clients[c].known)
  {
    hide Runs, Inv;
    var first, s1 := WaitEnds(s, c, why);
    var second;
    second, s' := ErrorThenAnswer(s1, c);
    RunsOn(s, first, s1, second, s');
    acts := first + second;
    Bounds(s, c);
    assert NextError(s, c, s', |s.log|);
    assert s'.log[|s.log| + 1] == Answer(s.clients[c].last - 1);
  }

  /**
    Where local errors stand, with any number of clients: in every run from a state in which a client
    waits, its error stands after the answers of all the commands it sent before, if and only if those
    commands are done already, or the wait ends by the count and its target reaches the last of them.
  */
  lemma ErrorsFollowAnswersIff(s0: State, acts0: seq<Action>, s: State, c: nat, why: Why)
    requires Init(s0) && Runs(s0, acts0, s) && c < |s.clients| && s.clients[c].Waiting?
    ensures (forall acts, s' :: Runs(s, acts, s') ==> InOrder(s, c, why, s'))
            <==> Covered(s.clients[c], s.done, why)
  {
    hide Inv, Runs, InOrder, Covered;
    InitInv(s0);
    RunInv(s0, acts0, s);
    if Covered(s.clients[c], s.done, why) {
      forall acts, s' | Runs(s, acts, s') ensures InOrder(s, c, why, s') {
        CoveredInOrder(s, c, why, acts, s');
      }
    } else {
      var acts, s' := NotCoveredBreaks(s, c, why);
      assert Runs(s, acts, s') && !InOrder(s, c, why, s');
    }
  }

  // ── One client ──

  /** With one client, its last command is the last of all, and it knows the count of them. */
  ghost predicate OneClient(s: State) {
    && |s.clients| == 1 && s.clients[0].last == |s.commands|
    && s.sent == |s.commands| - (if s.clients[0].Sent? then 1 else 0)
    && (!s.clients[0].Sent? ==> s.clients[0].known == s.sent)
    && (s.clients[0].Waiting? || s.clients[0].Writing? ==> s.clients[0].target == |s.commands|)
  }

  lemma OneClientStep(s: State, a: Action)
    requires OneClient(s) && Enabled(s, a)
    ensures OneClient(Apply(s, a))
  {
  }

  lemma {:induction false} OneClientRun(s: State, acts: seq<Action>, s': State)
    requires OneClient(s) && Runs(s, acts, s')
    ensures OneClient(s')
    decreases |acts|
  {
    hide OneClient, Enabled, Apply;
    if acts != [] {
      OneClientStep(s, acts[0]);
      OneClientRun(Apply(s, acts[0]), acts[1..], s');
    }
  }

  /**
    With one client, an error whose wait ended by the count stands after the answers of every command
    sent before it.
  */
  lemma OneClientsErrorsFollow(s0: State, acts0: seq<Action>, s: State, acts: seq<Action>, s': State)
    requires Init(s0) && |s0.clients| == 1 && Runs(s0, acts0, s) && |s.clients| == 1 && s.clients[0].Waiting?
    requires Runs(s, acts, s')
    ensures AfterAnswers(s, 0, AllHandled, s', |s.commands|)
  {
    hide Inv;
    InitInv(s0);
    RunInv(s0, acts0, s);
    OneClientRun(s0, acts0, s);
    CoveredInOrder(s, 0, AllHandled, acts, s');
  }

  /**
    With a second client the target may fall short: the first one's command is in the channel and not
    yet counted when the second one sends and counts its own and waits.
  */
  lemma TargetMayFallShort() returns (s0: State, acts: seq<Action>, s: State)
    ensures Init(s0) && |s0.clients| == 2 && Runs(s0, acts, s)
    ensures |s.clients| == 2 && s.clients[1].Waiting? && !Covered(s.clients[1], s.done, AllHandled)
  {
    hide Runs;
    s0 := State([], 0, 0, 0, [Free(0, 0), Free(0, 0)], []);
    var s1 := State([0], 0, 0, 0, [Sent(1, 0), Free(0, 0)], []);
    var s2 := State([0, 1], 0, 0, 0, [Sent(1, 0), Sent(2, 0)], []);
    var s3 := State([0, 1], 1, 0, 0, [Sent(1, 0), Free(2, 1)], []);
    s := State([0, 1], 1, 0, 0, [Sent(1, 0), Waiting(2, 1, 1)], []);
    assert Apply(s3, StartError(1, 1)) == s && Apply(s2, CountSent(1)) == s3;
    assert Apply(s1, Send(1)) == s2 && Apply(s0, Send(0)) == s1;
    NoSteps(s);
    OneMore(s3, StartError(1, 1), [], s);
    OneMore(s2, CountSent(1), [StartError(1, 1)] + [], s);
    OneMore(s1, Send(1), [CountSent(1)] + ([StartError(1, 1)] + []), s);
    OneMore(s0, Send(0), [Send(1)] + ([CountSent(1)] + ([StartError(1, 1)] + [])), s);
    acts := [Send(0)] + ([Send(1)] + ([CountSent(1)] + ([StartError(1, 1)] + [])));
  }
}

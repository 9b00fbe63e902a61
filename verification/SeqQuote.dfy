/** The seqlock of one quote (`SeqQuote`): one writer, any number of readers. */
module SeqQuote {
  import opened Basics
  import opened ViewMemory

  /** A quote is this many words. */
  const QUOTE_WORDS := 15

  type Word = int
  type Payload = q: seq<Word> | |q| == QUOTE_WORDS witness seq(QUOTE_WORDS, _ => 0)

  datatype Loc = Version | Data(i: nat)
  type Memory = Loc -> seq<Message<Loc, Word>>

  /**
    Where `write(q)` stands. `v` is the version it loaded; `Odd` follows the odd store,
    `Storing` the release fence, with the first `i` words stored.
  */
  datatype WritePc = Idle | Loaded(q: Payload, v: int) | Odd(q: Payload, v: int) | Storing(q: Payload, v: int, i: nat)

  /**
    Where `read` stands: at the top of its loop, among the payload loads (`words` loaded so
    far, `at` the timestamps they were loaded at), or after the acquire fence.
  */
  datatype ReadPc =
    | Top
    | Loading(v1: int, words: seq<Word>, at: seq<nat>)
    | Fenced(v1: int, words: seq<Word>, at: seq<nat>)

  /** A snapshot `read` returned and the version it was accepted at. */
  datatype Snapshot = Snapshot(version: int, words: seq<Word>)

  datatype Reader = Reader(pc: ReadPc, th: Thread<Loc>, got: seq<Snapshot>)

  /** `writes[k]` is the payload of write number `k`; number 0 is the initial quote. */
  datatype State = State(mem: Memory, pc: WritePc, writer: Thread<Loc>, readers: seq<Reader>, writes: seq<Payload>)

  /** One atomic access or fence; `t` is the timestamp of the message a load returns. */
  datatype Action =
    | WLoad(q: Payload, t: nat)
    | WOdd
    | WFence
    | WWord
    | WEven
    | RVersion(r: nat, t: nat)
    | RWord(r: nat, t: nat)
    | RFence(r: nat)
    | RCheck(r: nat, t: nat)
    | Hear(r: nat)

  ghost predicate Init(s: State) {
    && |s.writes| == 1
    && s.pc == Idle
    && s.mem(Version) == [Message(0, l => 0)]
    && (forall i: nat :: |s.mem(Data(i))| == 1 && s.mem(Data(i))[0].view == (l => 0))
    && (forall i: nat :: i < QUOTE_WORDS ==> s.mem(Data(i))[0].value == s.writes[0][i])
    && s.writer == Thread(l => 0, l => 0, l => 0)
    && (forall r :: 0 <= r < |s.readers| ==> s.readers[r] == Reader(Top, Thread(l => 0, l => 0, l => 0), []))
  }

  ghost predicate Enabled(s: State, a: Action) {
    match a
    case WLoad(q, t) => s.pc.Idle? && CanLoad(s.mem, s.writer, Version, t)
    case WOdd => s.pc.Loaded?
    case WFence => s.pc.Odd?
    case WWord => s.pc.Storing? && s.pc.i < QUOTE_WORDS
    case WEven => s.pc.Storing? && s.pc.i == QUOTE_WORDS
    case RVersion(r, t) => r < |s.readers| && s.readers[r].pc.Top? && CanLoad(s.mem, s.readers[r].th, Version, t)
    case RWord(r, t) =>
      && r < |s.readers| && s.readers[r].pc.Loading? && |s.readers[r].pc.words| < QUOTE_WORDS
      && CanLoad(s.mem, s.readers[r].th, Data(|s.readers[r].pc.words|), t)
    case RFence(r) => r < |s.readers| && s.readers[r].pc.Loading? && |s.readers[r].pc.words| == QUOTE_WORDS
    case RCheck(r, t) => r < |s.readers| && s.readers[r].pc.Fenced? && CanLoad(s.mem, s.readers[r].th, Version, t)
    case Hear(r) => r < |s.readers|
  }

  ghost function Apply(s: State, a: Action): State
    requires Enabled(s, a)
  {
    match a
    case WLoad(q, t) =>
      s.(pc := Loaded(q, s.mem(Version)[t].value), writer := LoadRelaxed(s.mem, s.writer, Version, t),
        writes := s.writes + [q])
    case WOdd =>
      s.(mem := StoreRelaxed(s.mem, s.writer, Version, s.pc.v + 1), writer := AfterStore(s.mem, s.writer, Version),
        pc := Odd(s.pc.q, s.pc.v))
    case WFence =>
      s.(writer := FenceRelease(s.writer), pc := Storing(s.pc.q, s.pc.v, 0))
    case WWord =>
      var i := s.pc.i;
      s.(mem := StoreRelaxed(s.mem, s.writer, Data(i), s.pc.q[i]),
         writer := AfterStore(s.mem, s.writer, Data(i)), pc := Storing(s.pc.q, s.pc.v, i + 1))
    case WEven =>
      s.(mem := StoreRelease(s.mem, s.writer, Version, s.pc.v + 2), writer := AfterStore(s.mem, s.writer, Version),
        pc := Idle)
    case RVersion(r, t) =>
      var v1 := s.mem(Version)[t].value;
      var th := LoadAcquire(s.mem, s.readers[r].th, Version, t);
      // An odd version: the writer is active, back to the top of the loop.
      SetReader(s, r, if v1 % 2 != 0 then Top else Loading(v1, [], []), th, s.readers[r].got)
    case RWord(r, t) =>
      var Loading(v1, words, at) := s.readers[r].pc;
      SetReader(s, r, Loading(v1, words + [s.mem(Data(|words|))[t].value], at + [t]),
                LoadRelaxed(s.mem, s.readers[r].th, Data(|words|), t), s.readers[r].got)
    case RFence(r) =>
      var Loading(v1, words, at) := s.readers[r].pc;
      SetReader(s, r, Fenced(v1, words, at), FenceAcquire(s.readers[r].th), s.readers[r].got)
    case RCheck(r, t) =>
      var Fenced(v1, words, at) := s.readers[r].pc;
      var v2 := s.mem(Version)[t].value;
      SetReader(s, r, Top, LoadRelaxed(s.mem, s.readers[r].th, Version, t),
                s.readers[r].got + if v1 == v2 then [Snapshot(v1, words)] else [])
    case Hear(r) =>
      // The reader takes over the writer's view through some other release/acquire pair
      // (a queue, a lock): everything the writer did so far happens before its next access.
      SetReader(s, r, s.readers[r].pc, Hears(s.readers[r].th, s.writer), s.readers[r].got)
  }

  ghost function SetReader(s: State, r: nat, pc: ReadPc, th: Thread<Loc>, got: seq<Snapshot>): State
    requires r < |s.readers|
  {
    s.(readers := s.readers[r := Reader(pc, th, got)])
  }

  // ── The invariant ──

  /** Number of versions stored, and number of messages of each data word. */
  ghost function Versions(s: State): int {
    2 * |s.writes| - match s.pc case Idle => 1 case Loaded(_, _) => 3 case _ => 2
  }

  ghost function Words(s: State, i: nat): int {
    if s.pc.Idle? || (s.pc.Storing? && i < s.pc.i) || i >= QUOTE_WORDS then |s.writes| else |s.writes| - 1
  }

  ghost predicate MemoryInv(s: State) {
    && |s.writes| >= 1
    && (!s.pc.Idle? ==> |s.writes| >= 2 && s.pc.v == 2 * (|s.writes| - 2) && s.pc.q == s.writes[|s.writes| - 1])
    && (s.pc.Storing? ==> s.pc.i <= QUOTE_WORDS)
    && |s.mem(Version)| == Versions(s)
    && (forall t :: 0 <= t < |s.mem(Version)| ==> s.mem(Version)[t].value == t)
    && (forall i: nat :: i < QUOTE_WORDS ==> |s.mem(Data(i))| == Words(s, i))
    && (forall i: nat, k :: i < QUOTE_WORDS && 0 <= k < |s.mem(Data(i))| ==> s.mem(Data(i))[k].value == s.writes[k][i])
    // The release fence: a data word carries the odd mark of its write ...
    && (forall i: nat, k :: i < QUOTE_WORDS && 0 <= k < |s.mem(Data(i))| ==>
        s.mem(Data(i))[k].view(Version) >= 2 * k - 1)
    // ... and the release store of an even version carries every word of its write.
    && (forall t, i: nat :: 0 <= t < |s.mem(Version)| && t % 2 == 0 && i < QUOTE_WORDS ==>
        s.mem(Version)[t].view(Data(i)) >= t / 2)
  }

  /** One writer: its view of each location is the last message there. */
  ghost predicate WriterInv(s: State) {
    && s.writer.cur(Version) == |s.mem(Version)| - 1
    && (forall i: nat :: i < QUOTE_WORDS ==> s.writer.cur(Data(i)) == |s.mem(Data(i))| - 1)
    && (s.pc.Storing? ==> s.writer.rel(Version) >= 2 * (|s.writes| - 1) - 1)
  }

  ghost predicate LoadedInv(s: State, th: Thread<Loc>, v1: int, words: seq<Word>, at: seq<nat>) {
    && |at| == |words| <= QUOTE_WORDS
    && v1 % 2 == 0 && 0 <= v1 < |s.mem(Version)|
    && v1 <= th.cur(Version)
    && (forall i: nat :: i < QUOTE_WORDS ==> th.cur(Data(i)) >= v1 / 2)
    && (forall j :: 0 <= j < |at| ==> v1 / 2 <= at[j] < |s.writes| && words[j] == s.writes[at[j]][j])
    && (forall j :: 0 <= j < |at| ==> 2 * at[j] <= th.acq(Version) + 1)
  }

  /** An accepted snapshot is the whole payload of the write its version names. */
  ghost predicate Whole(writes: seq<Payload>, x: Snapshot) {
    x.version % 2 == 0 && 0 <= x.version / 2 < |writes| && x.words == writes[x.version / 2]
  }

  ghost predicate ReaderInv(s: State, d: Reader) {
    && Below(d.th.cur, d.th.acq)
    && (d.pc.Loading? ==> LoadedInv(s, d.th, d.pc.v1, d.pc.words, d.pc.at))
    && (d.pc.Fenced? ==>
          && LoadedInv(s, d.th, d.pc.v1, d.pc.words, d.pc.at) && |d.pc.words| == QUOTE_WORDS
          && forall j :: 0 <= j < QUOTE_WORDS ==> 2 * d.pc.at[j] <= d.th.cur(Version) + 1)
    && (forall g :: 0 <= g < |d.got| ==> Whole(s.writes, d.got[g]) && d.got[g].version <= d.th.cur(Version))
    && (forall g, h :: 0 <= g < h < |d.got| ==> d.got[g].version <= d.got[h].version)
    && (!d.pc.Top? ==> forall g :: 0 <= g < |d.got| ==> d.got[g].version <= d.pc.v1)
  }

  ghost predicate Inv(s: State) {
    && MemoryInv(s)
    && WriterInv(s)
    && forall r :: 0 <= r < |s.readers| ==> ReaderInv(s, s.readers[r])
  }

  lemma InitInv(s: State)
    requires Init(s)
    ensures Inv(s)
  {
  }

  /** A step of the writer: memory only grows at the end, so every reader keeps its facts. */
  lemma ReadersKept(s: State, s': State)
    requires Inv(s)
    requires s'.readers == s.readers
    requires |s'.writes| >= |s.writes| && s'.writes[..|s.writes|] == s.writes
    requires |s'.mem(Version)| >= |s.mem(Version)|
    ensures forall r :: 0 <= r < |s'.readers| ==> ReaderInv(s', s'.readers[r])
  {
  }

  lemma VersionStored(s: State, a: Action)
    requires MemoryInv(s) && WriterInv(s) && Enabled(s, a)
    requires a.WOdd? || a.WEven?
    ensures MemoryInv(Apply(s, a)) && WriterInv(Apply(s, a))
  {
  }

  lemma WordInMemory(s: State)
    requires MemoryInv(s) && WriterInv(s) && Enabled(s, WWord)
    ensures MemoryInv(Apply(s, WWord))
  {
  }

  lemma WordStored(s: State)
    requires MemoryInv(s) && WriterInv(s) && Enabled(s, WWord)
    ensures MemoryInv(Apply(s, WWord)) && WriterInv(Apply(s, WWord))
  {
    WordInMemory(s);
    hide MemoryInv;
  }

  lemma WriteStarted(s: State, a: Action)
    requires MemoryInv(s) && WriterInv(s) && Enabled(s, a)
    requires a.WLoad? || a.WFence?
    ensures MemoryInv(Apply(s, a)) && WriterInv(Apply(s, a))
  {
  }

  lemma WriterStep(s: State, a: Action)
    requires Inv(s) && Enabled(s, a)
    requires a.WLoad? || a.WOdd? || a.WFence? || a.WWord? || a.WEven?
    ensures Inv(Apply(s, a))
  {
    match a {
      case WWord => WordStored(s);
      case WOdd => VersionStored(s, a);
      case WEven => VersionStored(s, a);
      case _ => WriteStarted(s, a);
    }
    ReadersKept(s, Apply(s, a));
  }

  lemma VersionLoaded(s: State, r: nat, t: nat)
    requires Inv(s) && Enabled(s, RVersion(r, t))
    ensures ReaderInv(Apply(s, RVersion(r, t)), Apply(s, RVersion(r, t)).readers[r])
  {
    LoadsKeepOrder(s.mem, s.readers[r].th, Version, t);
  }

  /** A word read names its write, and carries the odd mark of it. */
  lemma WordOfWrite(s: State, i: nat, t: nat)
    requires MemoryInv(s) && i < QUOTE_WORDS && t < |s.mem(Data(i))|
    ensures t < |s.writes| && s.mem(Data(i))[t].value == s.writes[t][i] && s.mem(Data(i))[t].view(Version) >= 2 * t - 1
  {
    assert |s.mem(Data(i))| == Words(s, i);
  }

  lemma WordLoaded(s: State, r: nat, t: nat)
    requires Inv(s) && Enabled(s, RWord(r, t))
    ensures ReaderInv(Apply(s, RWord(r, t)), Apply(s, RWord(r, t)).readers[r])
  {
    var i := |s.readers[r].pc.words|;
    LoadsKeepOrder(s.mem, s.readers[r].th, Data(i), t);
    WordOfWrite(s, i, t);
    assert ReaderInv(s, s.readers[r]);
    hide MemoryInv, WriterInv;
  }

  /** The check accepts only if every word was loaded from the one write that the first version names. */
  lemma Accepted(s: State, r: nat, t: nat)
    requires Inv(s) && Enabled(s, RCheck(r, t)) && s.mem(Version)[t].value == s.readers[r].pc.v1
    ensures var Fenced(v1, words, at) := s.readers[r].pc;
      && |at| == QUOTE_WORDS && (forall j :: 0 <= j < QUOTE_WORDS ==> at[j] == v1 / 2)
      && 0 <= v1 / 2 < |s.writes| && words == s.writes[v1 / 2]
  {
    var Fenced(v1, words, at) := s.readers[r].pc;
    assert ReaderInv(s, s.readers[r]);
    assert forall j :: 0 <= j < QUOTE_WORDS ==> at[j] == v1 / 2;
  }

  lemma Checked(s: State, r: nat, t: nat)
    requires Inv(s) && Enabled(s, RCheck(r, t))
    ensures ReaderInv(Apply(s, RCheck(r, t)), Apply(s, RCheck(r, t)).readers[r])
  {
    LoadsKeepOrder(s.mem, s.readers[r].th, Version, t);
    if s.mem(Version)[t].value == s.readers[r].pc.v1 {
      Accepted(s, r, t);
    }
  }

  lemma FencedOrHeard(s: State, a: Action)
    requires Inv(s) && Enabled(s, a) && (a.RFence? || a.Hear?)
    ensures ReaderInv(Apply(s, a), Apply(s, a).readers[a.r])
  {
  }

  /** A step of one reader leaves memory, the writer and the other readers alone. */
  lemma OthersKept(s: State, r: nat, d: Reader)
    requires Inv(s) && r < |s.readers|
    requires ReaderInv(SetReader(s, r, d.pc, d.th, d.got), d)
    ensures Inv(SetReader(s, r, d.pc, d.th, d.got))
  {
  }

  lemma ReaderStep(s: State, a: Action)
    requires Inv(s) && Enabled(s, a)
    requires a.RVersion? || a.RWord? || a.RFence? || a.RCheck? || a.Hear?
    ensures Inv(Apply(s, a))
  {
    match a {
      case RVersion(r, t) => VersionLoaded(s, r, t);
      case RWord(r, t) => WordLoaded(s, r, t);
      case RCheck(r, t) => Checked(s, r, t);
      case _ => FencedOrHeard(s, a);
    }
    OthersKept(s, a.r, Apply(s, a).readers[a.r]);
  }

  lemma StepInv(s: State, a: Action)
    requires Inv(s) && Enabled(s, a)
    ensures Inv(Apply(s, a))
  {
    if a.WLoad? || a.WOdd? || a.WFence? || a.WWord? || a.WEven? {
      WriterStep(s, a);
    } else {
      ReaderStep(s, a);
    }
  }

  // ── Runs ──

  /** The actions `acts`, each enabled in turn, lead from `s` to `s'`. */
  ghost predicate Runs(s: State, acts: seq<Action>, s': State)
    decreases |acts|
  {
    if acts == [] then s' == s else Enabled(s, acts[0]) && Runs(Apply(s, acts[0]), acts[1..], s')
  }

  lemma {:induction false} RunInv(s: State, acts: seq<Action>, s': State)
    requires Inv(s) && Runs(s, acts, s')
    ensures Inv(s')
    decreases |acts|
  {
    if acts != [] {
      StepInv(s, acts[0]);
      RunInv(Apply(s, acts[0]), acts[1..], s');
    }
  }

  /**
    Atomicity, in every interleaving and with every stale word a relaxed load may return:
    each snapshot any reader accepted is the whole payload of one write, the one its version
    names; and one reader's snapshots never go back to an older write.
  */
  lemma SnapshotsAreWholeWrites(s0: State, acts: seq<Action>, s: State, r: nat)
    requires Init(s0) && Runs(s0, acts, s) && r < |s.readers|
    ensures forall x <- s.readers[r].got ::
      && x.version % 2 == 0 && 0 <= x.version / 2 < |s.writes|
      && x.words == s.writes[x.version / 2]
    ensures forall g, h :: 0 <= g < h < |s.readers[r].got| ==>
      s.readers[r].got[g].version <= s.readers[r].got[h].version
  {
    InitInv(s0);
    RunInv(s0, acts, s);
    assert ReaderInv(s, s.readers[r]);
  }

  // ── Which writes a read may return ──

  /**
    Every snapshot past the first `n` is of write `k` or a newer one, and so will the next be: with the
    odd mark of write `k` in view, an even version is that of write `k` at least.
  */
  ghost predicate Fresh(s: State, r: nat, n: nat, k: nat) {
    && r < |s.readers|
    && n <= |s.readers[r].got|
    && 2 * k - 1 <= s.readers[r].th.cur(Version)
    && (!s.readers[r].pc.Top? ==> 2 * k <= s.readers[r].pc.v1)
    && forall g :: n <= g < |s.readers[r].got| ==> 2 * k <= s.readers[r].got[g].version
  }

  lemma FreshStep(s: State, a: Action, r: nat, n: nat, k: nat)
    requires MemoryInv(s) && Enabled(s, a) && Fresh(s, r, n, k) && ReaderInv(s, s.readers[r])
    ensures Fresh(Apply(s, a), r, n, k)
  {
  }

  lemma {:induction false} FreshRun(s: State, acts: seq<Action>, s': State, r: nat, n: nat, k: nat)
    requires Inv(s) && Runs(s, acts, s') && Fresh(s, r, n, k)
    ensures Fresh(s', r, n, k)
    decreases |acts|
  {
    if acts != [] {
      StepInv(s, acts[0]);
      FreshStep(s, acts[0], r, n, k);
      FreshRun(Apply(s, acts[0]), acts[1..], s', r, n, k);
    }
  }

  /** A view that reaches up to the odd mark of write `n`. */
  ghost predicate UpTo(view: Loc -> nat, n: nat) {
    Within(view, n) && (view(Version) == 0 || view(Version) <= 2 * n - 1)
  }

  /** No view reaches past what its message or its thread stands for. */
  ghost predicate MemoryTight(s: State) {
    && (forall t :: 0 <= t < |s.mem(Version)| ==> s.mem(Version)[t].view(Version) <= t)
    && (forall t, i: nat :: 0 <= t < |s.mem(Version)| && i < QUOTE_WORDS ==>
        2 * s.mem(Version)[t].view(Data(i)) <= t + 1)
    && (forall i: nat, n: nat :: i < QUOTE_WORDS && n < |s.mem(Data(i))| ==> UpTo(s.mem(Data(i))[n].view, n))
  }

  ghost predicate WriterTight(s: State) {
    && s.writer.rel(Version) <= s.writer.cur(Version)
    && forall i: nat :: i < QUOTE_WORDS ==> 2 * s.writer.rel(Data(i)) <= s.writer.rel(Version) + 1
  }

  ghost predicate ReaderTight(s: State, d: Reader) {
    && d.th.acq(Version) < |s.mem(Version)|
    && (forall i: nat :: i < QUOTE_WORDS ==> 2 * d.th.acq(Data(i)) <= d.th.acq(Version) + 1)
    && (!d.pc.Loading? ==> d.th.acq(Version) == d.th.cur(Version))
  }

  ghost predicate Tight(s: State) {
    MemoryTight(s) && WriterTight(s) && forall r :: 0 <= r < |s.readers| ==> ReaderTight(s, s.readers[r])
  }

  lemma InitTight(s: State)
    requires Init(s)
    ensures Tight(s)
  {
  }

  lemma WriterTightStep(s: State, a: Action)
    requires Inv(s) && Tight(s) && Enabled(s, a)
    requires a.WLoad? || a.WOdd? || a.WFence? || a.WWord? || a.WEven?
    ensures Tight(Apply(s, a))
  {
    hide ReaderInv;
    var s' := Apply(s, a);
    assert |s.mem(Version)| <= |s'.mem(Version)|;
    forall r | 0 <= r < |s'.readers| ensures ReaderTight(s', s'.readers[r]) {
      assert ReaderTight(s, s.readers[r]);
    }
  }

  lemma WordTight(s: State, r: nat, t: nat)
    requires Inv(s) && Tight(s) && Enabled(s, RWord(r, t))
    ensures ReaderTight(Apply(s, RWord(r, t)), Apply(s, RWord(r, t)).readers[r])
  {
    hide ReaderInv, WriterInv;
    assert ReaderTight(s, s.readers[r]);
    var i := |s.readers[r].pc.words|;
    assert |s.mem(Data(i))| == Words(s, i) && UpTo(s.mem(Data(i))[t].view, t)
      && s.mem(Data(i))[t].view(Version) >= 2 * t - 1;
  }

  lemma ReaderTightStep(s: State, a: Action)
    requires Inv(s) && Tight(s) && Enabled(s, a) && (a.RVersion? || a.RFence? || a.RCheck? || a.Hear?)
    ensures ReaderTight(Apply(s, a), Apply(s, a).readers[a.r])
  {
    assert ReaderTight(s, s.readers[a.r]) && ReaderInv(s, s.readers[a.r]);
    hide ReaderInv, MemoryInv;
  }

  lemma TightStep(s: State, a: Action)
    requires Inv(s) && Tight(s) && Enabled(s, a)
    ensures Tight(Apply(s, a))
  {
    if a.WLoad? || a.WOdd? || a.WFence? || a.WWord? || a.WEven? {
      WriterTightStep(s, a);
    } else {
      hide Inv;
      if a.RWord? {
        WordTight(s, a.r, a.t);
      } else {
        ReaderTightStep(s, a);
      }
      var s' := Apply(s, a);
      forall r | 0 <= r < |s'.readers| ensures ReaderTight(s', s'.readers[r]) {
        assert ReaderTight(s, s.readers[r]);
      }
    }
  }

  lemma {:induction false} TightRun(s: State, acts: seq<Action>, s': State)
    requires Inv(s) && Tight(s) && Runs(s, acts, s')
    ensures Inv(s') && Tight(s')
    decreases |acts|
  {
    hide Inv, Tight;
    if acts != [] {
      StepInv(s, acts[0]);
      TightStep(s, acts[0]);
      TightRun(Apply(s, acts[0]), acts[1..], s');
    }
  }

  /** A view that does not reach past write `m`. */
  ghost predicate Within(view: Loc -> nat, m: nat) {
    view(Version) <= 2 * m && forall i: nat :: i < QUOTE_WORDS ==> view(Data(i)) <= m
  }

  /** Nothing reader `r` knows, nor anything it would learn from the messages of write `m`, is newer than write `m`. */
  ghost predicate CanStayAt(s: State, r: nat, m: nat) {
    && r < |s.readers| && m < |s.writes|
    && Within(s.readers[r].th.acq, m)
    && 2 * m < |s.mem(Version)| && Within(s.mem(Version)[2 * m].view, m)
    && forall i: nat :: i < QUOTE_WORDS ==> m < |s.mem(Data(i))| && Within(s.mem(Data(i))[m].view, m)
  }

  /** The reader's own accesses. */
  predicate Alone(acts: seq<Action>, r: nat) {
    forall i :: 0 <= i < |acts| ==>
      match acts[i]
      case RVersion(r', _) => r' == r
      case RWord(r', _) => r' == r
      case RFence(r') => r' == r
      case RCheck(r', _) => r' == r
      case _ => false
  }

  ghost predicate SameButReader(s: State, s': State, r: nat) {
    s'.mem == s.mem && s'.writes == s.writes && |s'.readers| == |s.readers| && r < |s.readers| && s'.pc == s.pc
  }

  lemma StaysWhileLoading(s: State, r: nat, m: nat)
    requires CanStayAt(s, r, m) && Below(s.readers[r].th.cur, s.readers[r].th.acq)
    requires s.readers[r].pc.Loading? && |s.readers[r].pc.words| < QUOTE_WORDS
    ensures Enabled(s, RWord(r, m)) && CanStayAt(Apply(s, RWord(r, m)), r, m)
  {
  }

  lemma EndOfRead(s: State, r: nat, m: nat) returns (acts: seq<Action>, s': State)
    requires Inv(s) && CanStayAt(s, r, m)
    requires s.readers[r].pc.Loading? && s.readers[r].pc.v1 == 2 * m && |s.readers[r].pc.words| == QUOTE_WORDS
    ensures Runs(s, acts, s') && Inv(s') && SameButReader(s, s', r) && Alone(acts, r)
    ensures s'.readers[r].pc.Top? && s'.readers[r].got == s.readers[r].got + [Snapshot(2 * m, s.writes[m])]
  {
    var a, b := RFence(r), RCheck(r, 2 * m);
    StepInv(s, a);
    var s1 := Apply(s, a);
    assert Enabled(s1, b);
    StepInv(s1, b);
    acts, s' := [a, b], Apply(s1, b);
    assert acts[1..] == [b] && [b][1..] == [];
    assert ReaderInv(s', s'.readers[r]);
    assert Whole(s'.writes, s'.readers[r].got[|s.readers[r].got|]);
  }

  lemma {:induction false} FinishRead(s: State, r: nat, m: nat) returns (acts: seq<Action>, s': State)
    requires Inv(s) && CanStayAt(s, r, m)
    requires s.readers[r].pc.Loading? && s.readers[r].pc.v1 == 2 * m && |s.readers[r].pc.words| <= QUOTE_WORDS
    ensures Runs(s, acts, s') && Inv(s') && SameButReader(s, s', r) && Alone(acts, r)
    ensures s'.readers[r].pc.Top? && s'.readers[r].got == s.readers[r].got + [Snapshot(2 * m, s.writes[m])]
    decreases QUOTE_WORDS - |s.readers[r].pc.words|
  {
    if |s.readers[r].pc.words| < QUOTE_WORDS {
      assert ReaderInv(s, s.readers[r]);
      var a := RWord(r, m);
      StaysWhileLoading(s, r, m);
      StepInv(s, a);
      var rest;
      rest, s' := FinishRead(Apply(s, a), r, m);
      acts := [a] + rest;
      assert acts[1..] == rest;
    } else {
      acts, s' := EndOfRead(s, r, m);
    }
  }

  lemma ReadStarts(s: State, r: nat, m: nat)
    requires Inv(s) && CanStayAt(s, r, m) && s.readers[r].pc.Top?
    ensures var a := RVersion(r, 2 * m);
      && Enabled(s, a) && SameButReader(s, Apply(s, a), r) && CanStayAt(Apply(s, a), r, m)
      && Apply(s, a).readers[r].pc == Loading(2 * m, [], []) && Apply(s, a).readers[r].got == s.readers[r].got
  {
    assert ReaderInv(s, s.readers[r]);
    assert s.mem(Version)[2 * m].value == 2 * m;
    hide ReaderInv, MemoryInv, WriterInv;
  }

  lemma SoloRead(s: State, r: nat, m: nat) returns (acts: seq<Action>, s': State)
    requires Inv(s) && CanStayAt(s, r, m) && s.readers[r].pc.Top?
    ensures Runs(s, acts, s') && Inv(s') && SameButReader(s, s', r) && Alone(acts, r)
    ensures s'.readers[r].pc.Top? && s'.readers[r].got == s.readers[r].got + [Snapshot(2 * m, s.writes[m])]
  {
    hide Inv, CanStayAt, Enabled, Apply;
    var a := RVersion(r, 2 * m);
    ReadStarts(s, r, m);
    StepInv(s, a);
    var rest;
    rest, s' := FinishRead(Apply(s, a), r, m);
    acts := [a] + rest;
    assert acts[1..] == rest;
  }

  /** A reader about to start may return any completed write that is not older than its view of the version. */
  lemma MayReturn(s: State, r: nat, m: nat)
    requires Inv(s) && Tight(s) && r < |s.readers| && s.readers[r].pc.Top?
    requires s.readers[r].th.cur(Version) <= 2 * m < |s.mem(Version)|
    ensures CanStayAt(s, r, m)
  {
    hide ReaderInv;
    assert ReaderTight(s, s.readers[r]);
    assert forall i: nat :: i < QUOTE_WORDS ==> |s.mem(Data(i))| == Words(s, i);
  }

  lemma InReach(s: State, r: nat)
    requires Inv(s) && Tight(s) && s.pc.Idle? && r < |s.readers| && s.readers[r].pc.Top?
    ensures |s.writes| >= 1 && s.readers[r].th.cur(Version) <= 2 * (|s.writes| - 1) < |s.mem(Version)|
  {
    assert ReaderTight(s, s.readers[r]);
    hide ReaderInv, WriterInv, MemoryTight, WriterTight;
  }

  /** The next access of a reader in the middle of a read: it loads the newest message. */
  function NextAccess(s: State, r: nat): Action
    requires r < |s.readers| && !s.readers[r].pc.Top?
  {
    match s.readers[r].pc
    case Loading(_, words, _) =>
      if |words| < QUOTE_WORDS then RWord(r, Max(|s.mem(Data(|words|))| - 1, 0)) else RFence(r)
    case Fenced(_, _, _) => RCheck(r, Max(|s.mem(Version)| - 1, 0))
  }

  lemma NewestInReach(s: State, r: nat)
    requires Inv(s) && Tight(s) && s.pc.Idle? && r < |s.readers| && !s.readers[r].pc.Top?
    ensures Enabled(s, NextAccess(s, r))
  {
    assert ReaderTight(s, s.readers[r]) && ReaderInv(s, s.readers[r]);
    if s.readers[r].pc.Loading? && |s.readers[r].pc.words| < QUOTE_WORDS {
      var i := |s.readers[r].pc.words|;
      assert |s.mem(Data(i))| == Words(s, i);
    }
  }

  /** What one access of a reader leaves: the writer's side, and at most one snapshot more. */
  lemma OneAccess(s: State, r: nat)
    requires Inv(s) && Tight(s) && s.pc.Idle? && r < |s.readers| && !s.readers[r].pc.Top?
    ensures var a := NextAccess(s, r); Enabled(s, a) && Inv(Apply(s, a)) && Tight(Apply(s, a))
    ensures var s' := Apply(s, NextAccess(s, r));
      && SameButReader(s, s', r) && Alone([NextAccess(s, r)], r)
      && (if s.readers[r].pc.Fenced? then s'.readers[r].pc.Top? else s'.readers[r].got == s.readers[r].got)
      && s.readers[r].got <= s'.readers[r].got && |s'.readers[r].got| <= |s.readers[r].got| + 1
      && ToGo(s'.readers[r].pc) < ToGo(s.readers[r].pc)
  {
    NewestInReach(s, r);
    StepInv(s, NextAccess(s, r));
    TightStep(s, NextAccess(s, r));
    assert ReaderInv(s, s.readers[r]);
    hide Inv, Tight;
  }

  /** The accesses left to the top of the loop, for a read that is not disturbed. */
  function ToGo(pc: ReadPc): int {
    match pc
    case Top => 0
    case Loading(_, words, _) => QUOTE_WORDS - |words| + 2
    case Fenced(_, _, _) => 1
  }

  /** A read in progress, whatever it has loaded, comes back to the top of its loop, with a snapshot or none. */
  lemma {:induction false} BackToTop(s: State, r: nat) returns (acts: seq<Action>, s': State)
    requires Inv(s) && Tight(s) && s.pc.Idle? && r < |s.readers|
    ensures Runs(s, acts, s') && Inv(s') && Tight(s') && SameButReader(s, s', r) && Alone(acts, r)
    ensures s'.readers[r].pc.Top? && s.readers[r].got <= s'.readers[r].got
    ensures |s'.readers[r].got| <= |s.readers[r].got| + 1
    decreases ToGo(s.readers[r].pc)
  {
    hide Inv, Tight, Enabled, Apply;
    acts, s' := [], s;
    if !s.readers[r].pc.Top? {
      var a := NextAccess(s, r);
      OneAccess(s, r);
      ToGoIsNat(s, r);
      var s1 := Apply(s, a);
      if s.readers[r].pc.Fenced? {
        acts, s' := [a], s1;
        assert acts[1..] == [];
      } else {
        var rest;
        rest, s' := BackToTop(s1, r);
        acts := [a] + rest;
        assert acts[1..] == rest;
      }
    }
  }

  lemma ToGoIsNat(s: State, r: nat)
    requires Inv(s) && r < |s.readers|
    ensures ToGo(s.readers[r].pc) >= 0
  {
    assert ReaderInv(s, s.readers[r]);
  }

  /**
    Wherever a reader stands in its loop, left alone while no write is in progress it can return the newest
    quote: a read in progress comes to its end, with a snapshot or none, and the next one is of the newest.
  */
  lemma ReadCanFinish(s0: State, acts0: seq<Action>, s: State, r: nat) returns (acts: seq<Action>, s': State)
    requires Init(s0) && Runs(s0, acts0, s) && s.pc.Idle? && r < |s.readers|
    ensures Runs(s, acts, s') && Alone(acts, r) && s'.writes == s.writes && |s.writes| > 0
    ensures |s'.readers| == |s.readers| && s'.readers[r].pc.Top?
    ensures s.readers[r].got <= s'.readers[r].got
    ensures var n := |s'.readers[r].got|;
      && |s.readers[r].got| + 1 <= n <= |s.readers[r].got| + (if s.readers[r].pc.Top? then 1 else 2)
      && s'.readers[r].got[n - 1] == Snapshot(2 * (|s.writes| - 1), s.writes[|s.writes| - 1])
  {
    hide Init, Inv, Tight, Runs, CanStayAt;
    InitInv(s0);
    InitTight(s0);
    TightRun(s0, acts0, s);
    var first, s1 := [], s;
    NoSteps(s);
    if !s.readers[r].pc.Top? {
      first, s1 := BackToTop(s, r);
    }
    InReach(s1, r);
    MayReturn(s1, r, |s.writes| - 1);
    var second;
    second, s' := SoloRead(s1, r, |s.writes| - 1);
    RunsOn(s, first, s1, second, s');
    acts := first + second;
  }

  lemma NoSteps(s: State)
    ensures Runs(s, [], s)
  {
  }

  /** The snapshots that reader `r` took since `s` are of write `k` or newer ones. */
  ghost predicate NewFrom(s: State, s': State, r: nat, k: nat) {
    && r < |s.readers| && r < |s'.readers|
    && forall g :: |s.readers[r].got| <= g < |s'.readers[r].got| ==> k <= s'.readers[r].got[g].version / 2
  }

  /**
    Write `k` is complete, its odd mark is not in the reader's view, and the reader is about to start:
    it may still return an older write, left alone.
  */
  lemma UnseenWriteMayBeMissed(s0: State, acts0: seq<Action>, s: State, r: nat, k: nat)
    returns (acts: seq<Action>, s': State)
    requires Init(s0) && Runs(s0, acts0, s) && r < |s.readers| && s.readers[r].pc.Top?
    requires 2 * k < |s.mem(Version)| && s.readers[r].th.cur(Version) < 2 * k - 1
    ensures Runs(s, acts, s') && r < |s'.readers| && |s'.readers[r].got| == |s.readers[r].got| + 1
    ensures s'.readers[r].got[|s.readers[r].got|].version / 2 < k
  {
    InitInv(s0);
    InitTight(s0);
    TightRun(s0, acts0, s);
    var m := (s.readers[r].th.cur(Version) + 1) / 2;
    MayReturn(s, r, m);
    acts, s' := SoloRead(s, r, m);
  }

  /**
    A reader is about to start after write `k` completed. Whatever runs from here on, all it returns is
    write `k` or a newer one if and only if its view of the version has the odd mark of write `k`.
  */
  lemma ReadsSeeWriteIff(s0: State, acts0: seq<Action>, s: State, r: nat, k: nat)
    requires Init(s0) && Runs(s0, acts0, s) && r < |s.readers| && s.readers[r].pc.Top?
    requires 2 * k < |s.mem(Version)|  // the even version of write k is stored
    ensures (forall acts, s' :: Runs(s, acts, s') ==> NewFrom(s, s', r, k))
            <==> 2 * k - 1 <= s.readers[r].th.cur(Version)
  {
    hide Inv, Runs;
    InitInv(s0);
    RunInv(s0, acts0, s);
    if 2 * k - 1 <= s.readers[r].th.cur(Version) {
      forall acts, s' | Runs(s, acts, s') ensures NewFrom(s, s', r, k) {
        FreshRun(s, acts, s', r, |s.readers[r].got|, k);
      }
    } else {
      var acts, s' := UnseenWriteMayBeMissed(s0, acts0, s, r, k);
      assert !NewFrom(s, s', r, k);
      NotAll(s, acts, s', r, k);
    }
  }

  lemma NotAll(s: State, acts: seq<Action>, s': State, r: nat, k: nat)
    requires Runs(s, acts, s') && !NewFrom(s, s', r, k)
    ensures !(forall acts, s' :: Runs(s, acts, s') ==> NewFrom(s, s', r, k))
  {
    hide Runs, NewFrom;
  }

  /** A reader that has heard from the writer since write `k` completed has its odd mark in view. */
  lemma HeardWritesAreSeen(s0: State, acts0: seq<Action>, s: State, r: nat, k: nat, acts: seq<Action>, s': State)
    requires Init(s0) && Runs(s0, acts0, s)
    requires r < |s.readers| && s.readers[r].pc.Top? && 2 * k < |s.mem(Version)|
    requires Runs(Apply(s, Hear(r)), acts, s')
    ensures NewFrom(s, s', r, k)
  {
    InitInv(s0);
    RunInv(s0, acts0, s);
    StepInv(s, Hear(r));
    FreshRun(Apply(s, Hear(r)), acts, s', r, |s.readers[r].got|, k);
  }

  lemma {:induction false} FinishWrite(s: State) returns (acts: seq<Action>, s': State)
    requires Inv(s) && !s.pc.Idle?
    ensures Runs(s, acts, s') && Inv(s') && s'.pc.Idle? && s'.writes == s.writes && s'.readers == s.readers
    decreases if s.pc.Storing? then QUOTE_WORDS - s.pc.i else if s.pc.Odd? then QUOTE_WORDS + 1 else QUOTE_WORDS + 2
  {
    hide ReaderInv, WriterInv;
    var a := if s.pc.Loaded? then WOdd else if s.pc.Odd? then WFence else if s.pc.i < QUOTE_WORDS then WWord else WEven;
    StepInv(s, a);
    var rest := [];
    s' := Apply(s, a);
    if a != WEven {
      rest, s' := FinishWrite(Apply(s, a));
    }
    acts := [a] + rest;
    assert acts[1..] == rest;
  }

  /** One whole write, undisturbed. */
  lemma SoloWrite(s: State, q: Payload) returns (acts: seq<Action>, s': State)
    requires Inv(s) && s.pc.Idle?
    ensures Runs(s, acts, s') && Inv(s') && s'.pc.Idle? && s'.writes == s.writes + [q] && s'.readers == s.readers
  {
    hide ReaderInv;
    var a := WLoad(q, |s.mem(Version)| - 1);
    StepInv(s, a);
    var rest;
    rest, s' := FinishWrite(Apply(s, a));
    acts := [a] + rest;
    assert acts[1..] == rest;
  }

  lemma {:induction false} RunsOn(s: State, acts: seq<Action>, s1: State, more: seq<Action>, s': State)
    requires Runs(s, acts, s1) && Runs(s1, more, s')
    ensures Runs(s, acts + more, s')
    decreases |acts|
  {
    hide Enabled, Apply;
    if acts == [] {
      assert acts + more == more;
    } else {
      assert (acts + more)[1..] == acts[1..] + more;
      RunsOn(Apply(s, acts[0]), acts[1..], s1, more, s');
    }
  }

  /**
    The condition does fail: wherever a run has come to, the writer may complete one more write, and a
    reader that was about to start and hears nothing may then return an older one.
  */
  lemma UnheardWriteMayBeMissed(s0: State, acts0: seq<Action>, s: State, r: nat, q: Payload)
    returns (acts: seq<Action>, s1: State, acts1: seq<Action>, s': State)
    requires Init(s0) && Runs(s0, acts0, s) && s.pc.Idle? && r < |s.readers| && s.readers[r].pc.Top?
    ensures Runs(s, acts, s1) && s1.pc.Idle? && s1.writes == s.writes + [q] && s1.readers == s.readers
    ensures Runs(s1, acts1, s') && !NewFrom(s1, s', r, |s.writes|)
  {
    hide ReaderInv;
    InitInv(s0);
    InitTight(s0);
    TightRun(s0, acts0, s);
    assert ReaderTight(s, s.readers[r]);
    acts, s1 := SoloWrite(s, q);
    RunsOn(s0, acts0, s, acts, s1);
    acts1, s' := UnseenWriteMayBeMissed(s0, acts0 + acts, s1, r, |s.writes|);
  }
}

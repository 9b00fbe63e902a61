/**
  The ring of `MdQueue` with the engine and the reader interleaved access by access. The
  words of a slot are stored and loaded relaxed; only `head` and `tail` are released and
  acquired. A relaxed load may return an older word of the slot, so what has to be shown is
  that none is left to return.
*/
module RingProtocol {
  import opened Basics
  import opened ViewMemory
  import opened MdEvents
  import opened MdQueues

  datatype Loc = Head | Tail | Cell(slot: nat, w: nat)

  /** A position, a slot's word with the position it was stored for (no step looks at it), or a slot's first content. */
  datatype Val = Count(n: nat) | Stored(pos: nat, word: bv64) | Blank

  type Memory = Loc -> seq<Message<Loc, Val>>

  /**
    The engine in a push: it has loaded the tail again (Refreshed), or writes `words` at `next`, the
    first `|at|` of them stored at the timestamps `at`.
  */
  datatype EnginePc = Ready | Refreshed | Writing(words: seq<bv64>, at: seq<nat>)

  /** The reader reads position `p` and has loaded `words`. */
  datatype ReaderPc = Free | Reading(p: nat, words: seq<bv64>)

  datatype Got = Got(p: nat, words: seq<bv64>)

  datatype State = State(
    mem: Memory,
    // The engine: its next position, the reader position it saw last, the head it stored last.
    // In a scan for catch-ups, the tail it looked at before the push.
    engine: Thread<Loc>, epc: EnginePc, next: nat, tailSeen: nat, head: nat, looked: Option<nat>,
    // The reader: the head it loaded last, the tail it stored last, what it has read.
    reader: Thread<Loc>, rpc: ReaderPc, headSeen: nat, tail: nat, done: seq<Got>,
    // The words written per position, and the timestamps they were stored at.
    log: seq<seq<bv64>>, at: seq<seq<nat>>)

  datatype Action =
    | ELook(t: nat)
    | ERefresh(t: nat)
    | EFull
    | EBegin(words: seq<bv64>)
    | EWord
    | EDone
    | EPublish
    | RHead(t: nat)
    | RStart(p: nat)
    | RWord(t: nat)
    | REnd
    | RRelease(n: nat)

  ghost predicate Init(s: State) {
    && (forall l: Loc :: s.mem(l) == [Message(if l.Cell? then Blank else Count(0), (l': Loc) => 0)])
    && s.engine == s.reader == Thread((l: Loc) => 0, (l: Loc) => 0, (l: Loc) => 0)
    && s.epc == Ready && s.rpc == Free && s.looked == None
    && s.next == s.tailSeen == s.head == s.headSeen == s.tail == 0
    && s.done == [] && s.log == [] && s.at == []
  }

  predicate Whole(words: seq<bv64>) {
    words != [] && |words| == 1 + HeaderLen(words[0])
  }

  ghost predicate Enabled(s: State, a: Action) {
    match a
    case ELook(t) => s.epc.Ready? && CanLoad(s.mem, s.engine, Tail, t) && s.mem(Tail)[t].value.Count?
    case ERefresh(t) =>
      && s.epc.Ready? && s.next - s.tailSeen >= MD_QUEUE_CAPACITY
      && CanLoad(s.mem, s.engine, Tail, t) && s.mem(Tail)[t].value.Count?
    case EFull => s.epc.Refreshed? && s.next - s.tailSeen >= MD_QUEUE_CAPACITY
    case EBegin(words) => !s.epc.Writing? && s.next - s.tailSeen < MD_QUEUE_CAPACITY && Whole(words)
    case EWord => s.epc.Writing? && |s.epc.at| < |s.epc.words|
    case EDone => s.epc.Writing? && |s.epc.at| == |s.epc.words|
    case EPublish => s.epc.Ready? && s.head != s.next
    case RHead(t) => s.rpc.Free? && CanLoad(s.mem, s.reader, Head, t) && s.mem(Head)[t].value.Count?
    case RStart(p) => s.rpc.Free? && s.tail <= p < s.headSeen
    case RWord(t) =>
      && s.rpc.Reading? && !Whole(s.rpc.words)
      && CanLoad(s.mem, s.reader, Cell(SlotOf(s.rpc.p), |s.rpc.words|), t)
    case REnd => s.rpc.Reading? && Whole(s.rpc.words)
    case RRelease(n) => s.rpc.Free? && s.tail <= n <= s.headSeen
  }

  /** The word a load of a cell gives the reader. */
  ghost function WordAt(m: Message<Loc, Val>): bv64 {
    if m.value.Stored? then m.value.word else 0
  }

  ghost function Apply(s: State, a: Action): State
    requires Enabled(s, a)
  {
    match a
    case ELook(t) =>
      s.(looked := Some(s.mem(Tail)[t].value.n), engine := LoadAcquire(s.mem, s.engine, Tail, t))
    case ERefresh(t) =>
      s.(epc := Refreshed, tailSeen := s.mem(Tail)[t].value.n, engine := LoadAcquire(s.mem, s.engine, Tail, t))
    case EFull =>
      s.(epc := Ready, looked := None)
    case EBegin(words) =>
      s.(epc := Writing(words, []))
    case EWord =>
      var cell := Cell(SlotOf(s.next), |s.epc.at|);
      s.(mem := StoreRelaxed(s.mem, s.engine, cell, Stored(s.next, s.epc.words[|s.epc.at|])),
         engine := AfterStore(s.mem, s.engine, cell),
         epc := Writing(s.epc.words, s.epc.at + [|s.mem(cell)|]))
    case EDone =>
      s.(next := s.next + 1, log := s.log + [s.epc.words], at := s.at + [s.epc.at], epc := Ready, looked := None)
    case EPublish =>
      s.(mem := StoreRelease(s.mem, s.engine, Head, Count(s.next)), engine := AfterStore(s.mem, s.engine, Head),
        head := s.next)
    case RHead(t) =>
      s.(headSeen := s.mem(Head)[t].value.n, reader := LoadAcquire(s.mem, s.reader, Head, t))
    case RStart(p) =>
      s.(rpc := Reading(p, []))
    case RWord(t) =>
      var cell := Cell(SlotOf(s.rpc.p), |s.rpc.words|);
      s.(rpc := Reading(s.rpc.p, s.rpc.words + [WordAt(s.mem(cell)[t])]),
        reader := LoadRelaxed(s.mem, s.reader, cell, t))
    case REnd =>
      s.(rpc := Free, done := s.done + [Got(s.rpc.p, s.rpc.words)])
    case RRelease(n) =>
      s.(mem := StoreRelease(s.mem, s.reader, Tail, Count(n)), reader := AfterStore(s.mem, s.reader, Tail), tail := n)
  }

  // ── The invariant ──

  /** The positions: the reader's stale knowledge is behind the engine's, and the engine's behind the reader's. */
  ghost predicate Positions(s: State) {
    && s.tailSeen <= s.tail <= s.headSeen <= s.head <= s.next <= s.tailSeen + MD_QUEUE_CAPACITY
    && (s.epc.Writing? ==> s.next < s.tailSeen + MD_QUEUE_CAPACITY)
    && (s.epc.Refreshed? && s.looked.Some? ==> s.looked.value <= s.tailSeen)
  }

  ghost predicate LogOk(s: State) {
    && |s.log| == |s.at| == s.next
    && (forall p: nat :: p < s.next ==> Whole(s.log[p]) && |s.at[p]| == |s.log[p]|)
    && (s.epc.Writing? ==> Whole(s.epc.words) && |s.epc.at| <= |s.epc.words|)
  }

  /** The positions word `w` of a slot has been stored for are below this one. */
  ghost function Limit(s: State, w: nat): nat {
    if s.epc.Writing? && w < |s.epc.at| then s.next + 1 else s.next
  }

  /** A cell of slot `j` holds its first content or a word stored for a position of that slot. */
  ghost predicate Belongs(v: Val, j: nat, limit: nat) {
    v.Blank? || (v.Stored? && SlotOf(v.pos) == j && v.pos < limit)
  }

  /** One more than the position a cell's message was stored for; 0 for the first content. */
  ghost function Era(m: Message<Loc, Val>): nat {
    if m.value.Stored? then m.value.pos + 1 else 0
  }

  /** The words of each slot, in the order they were stored: for higher and higher positions. */
  ghost predicate Cells(s: State) {
    && (forall j: nat, w: nat :: |s.mem(Cell(j, w))| > 0)
    && (forall j: nat, w: nat, t: nat :: t < |s.mem(Cell(j, w))| ==>
        Belongs(s.mem(Cell(j, w))[t].value, j, Limit(s, w)))
    && (forall j: nat, w: nat, t: nat, u: nat :: t < u < |s.mem(Cell(j, w))| ==>
        Era(s.mem(Cell(j, w))[t]) < Era(s.mem(Cell(j, w))[u]))
  }

  /** Word w of position p was stored at timestamp at[p][w]. */
  ghost predicate Placed(s: State) requires LogOk(s) {
    && (forall p: nat, w: nat :: p < s.next && w < |s.log[p]| ==>
          var cell := Cell(SlotOf(p), w);
          s.at[p][w] < |s.mem(cell)| && s.mem(cell)[s.at[p][w]].value == Stored(p, s.log[p][w]))
    && (s.epc.Writing? ==> forall w: nat :: w < |s.epc.at| ==>
          var cell := Cell(SlotOf(s.next), w);
          s.epc.at[w] < |s.mem(cell)| && s.mem(cell)[s.epc.at[w]].value == Stored(s.next, s.epc.words[w]))
  }

  /** `view` is not behind any word of the positions below `n`. */
  ghost predicate Covers(s: State, view: Loc -> nat, n: nat) requires LogOk(s) {
    forall p: nat, w: nat :: p < n && p < s.next && w < |s.log[p]| ==> s.at[p][w] <= view(Cell(SlotOf(p), w))
  }

  /** `view` names messages that exist. */
  ghost predicate InRange(mem: Memory, view: Loc -> nat) {
    forall l: Loc :: view(l) < |mem(l)|
  }

  ghost predicate ViewsOk(s: State) {
    && InRange(s.mem, s.engine.cur) && InRange(s.mem, s.reader.cur)
    && (forall t: nat :: t < |s.mem(Head)| ==> InRange(s.mem, s.mem(Head)[t].view))
    && (forall t: nat :: t < |s.mem(Tail)| ==> InRange(s.mem, s.mem(Tail)[t].view))
  }

  /** What was stored last. */
  ghost function Newest(s: State, l: Loc): Val
    requires |s.mem(l)| > 0
  {
    s.mem(l)[|s.mem(l)| - 1].value
  }

  /** Stored heads and tails are never ahead of the last one; a head carries the words it hands over. */
  ghost predicate Ends(s: State) requires LogOk(s) {
    && |s.mem(Head)| > 0 && |s.mem(Tail)| > 0
    && Newest(s, Head) == Count(s.head) && Newest(s, Tail) == Count(s.tail)
    && (forall t: nat :: t < |s.mem(Head)| ==>
        s.mem(Head)[t].value.Count? && s.mem(Head)[t].value.n <= s.head
          && Covers(s, s.mem(Head)[t].view, s.mem(Head)[t].value.n))
    && (forall t: nat :: t < |s.mem(Tail)| ==> s.mem(Tail)[t].value.Count? && s.mem(Tail)[t].value.n <= s.tail)
    && (forall t: nat, u: nat :: t < u < |s.mem(Tail)| ==> s.mem(Tail)[t].value.n <= s.mem(Tail)[u].value.n)
    && (forall t: nat, u: nat :: t < u < |s.mem(Head)| ==> s.mem(Head)[t].value.n <= s.mem(Head)[u].value.n)
  }

  /** Each thread has seen the last message of the locations it stores to; the reader has seen the words it may read. */
  ghost predicate Threads(s: State) requires LogOk(s) && Ends(s) {
    && (forall j: nat, w: nat :: s.engine.cur(Cell(j, w)) == |s.mem(Cell(j, w))| - 1)
    && s.engine.cur(Head) == |s.mem(Head)| - 1
    && s.reader.cur(Tail) == |s.mem(Tail)| - 1
    && (forall t: nat :: s.engine.cur(Tail) <= t < |s.mem(Tail)| ==>
          s.tailSeen <= s.mem(Tail)[t].value.n && (s.looked.Some? ==> s.looked.value <= s.mem(Tail)[t].value.n))
    && (s.looked.Some? ==> s.looked.value <= s.tail)
    && (forall t: nat :: s.reader.cur(Head) <= t < |s.mem(Head)| ==> s.headSeen <= s.mem(Head)[t].value.n)
    && Covers(s, s.reader.cur, s.headSeen)
  }

  ghost predicate Reads(s: State) requires LogOk(s) {
    && (s.rpc.Reading? ==> s.tail <= s.rpc.p < s.headSeen && s.rpc.p < s.next && s.rpc.words <= s.log[s.rpc.p])
    && (forall g <- s.done :: g.p < s.next && g.words == s.log[g.p])
  }

  ghost predicate Inv(s: State) {
    Positions(s) && LogOk(s) && Cells(s) && Placed(s) && Ends(s) && ViewsOk(s) && Threads(s) && Reads(s)
  }

  lemma InitInv(s: State)
    requires Init(s)
    ensures Inv(s)
  {
  }

  lemma SameSlot(p: nat, q: nat)
    requires p < q && SlotOf(p) == SlotOf(q)
    ensures p + MD_QUEUE_CAPACITY <= q
  {
  }

  /** The only word of its slot a load for position `p` can return is the one stored for `p`. */
  lemma NoOtherWord(s: State, t: nat)
    requires Inv(s) && Enabled(s, RWord(t))
    ensures |s.rpc.words| < |s.log[s.rpc.p]|
    ensures WordAt(s.mem(Cell(SlotOf(s.rpc.p), |s.rpc.words|))[t]) == s.log[s.rpc.p][|s.rpc.words|]
  {
    hide HeaderLen, SlotOf;
    var p, w := s.rpc.p, |s.rpc.words|;
    assert s.rpc.words == s.log[p][..w];
    assert Whole(s.log[p]) && w < |s.log[p]|;
    var cell := Cell(SlotOf(p), w);
    var u := s.at[p][w];
    assert u <= s.reader.cur(cell) <= t;
    if u < t {
      var v := s.mem(cell)[t].value;
      assert Belongs(v, SlotOf(p), Limit(s, w));
      assert Era(s.mem(cell)[u]) < Era(s.mem(cell)[t]);
      SameSlot(p, v.pos);
      assert false;
    }
  }

  /** A load leaves memory and all that was written to it. */
  lemma MemoryKept(s: State, s': State)
    requires Inv(s) && s'.mem == s.mem && s'.log == s.log && s'.at == s.at && s'.next == s.next
    requires s'.head == s.head && s'.tail == s.tail && (s'.epc == s.epc || !(s.epc.Writing? || s'.epc.Writing?))
    ensures LogOk(s') && Cells(s') && Placed(s') && Ends(s')
    ensures forall view, n :: Covers(s, view, n) ==> Covers(s', view, n)
  {
    hide HeaderLen, SlotOf, Whole, Threads, Reads, ViewsOk;
  }

  lemma TailLoaded(s: State, a: Action)
    requires Inv(s) && Enabled(s, a) && (a.ELook? || a.ERefresh?)
    ensures Inv(Apply(s, a))
  {
    hide HeaderLen, SlotOf, Whole, Cells, Placed, Covers;
    MemoryKept(s, Apply(s, a));
  }

  lemma PushRefused(s: State)
    requires Inv(s) && Enabled(s, EFull)
    ensures Inv(Apply(s, EFull))
  {
    hide HeaderLen, SlotOf, Whole;
  }

  lemma Begun(s: State, words: seq<bv64>)
    requires Inv(s) && Enabled(s, EBegin(words))
    ensures Inv(Apply(s, EBegin(words)))
  {
    hide HeaderLen, SlotOf;
  }

  /** The store goes to a slot no position from the tail on is in, so nothing in use is overwritten. */
  lemma WordWrittenCells(s: State)
    requires Inv(s) && Enabled(s, EWord)
    ensures Positions(Apply(s, EWord)) && LogOk(Apply(s, EWord)) && Cells(Apply(s, EWord))
  {
    hide HeaderLen, SlotOf, Ends, Threads, Placed, Reads, ViewsOk;
  }

  lemma WordWrittenPlaced(s: State)
    requires Inv(s) && Enabled(s, EWord) && LogOk(Apply(s, EWord))
    ensures Placed(Apply(s, EWord))
  {
    hide HeaderLen, SlotOf, Cells, Ends, Threads, Reads, ViewsOk;
  }

  lemma WordWrittenEnds(s: State)
    requires Inv(s) && Enabled(s, EWord) && LogOk(Apply(s, EWord))
    ensures Ends(Apply(s, EWord)) && ViewsOk(Apply(s, EWord)) && Reads(Apply(s, EWord))
  {
    hide HeaderLen, SlotOf, Cells, Placed;
  }

  lemma WordWrittenThreads(s: State)
    requires Inv(s) && Enabled(s, EWord) && LogOk(Apply(s, EWord)) && Ends(Apply(s, EWord))
    ensures Threads(Apply(s, EWord))
  {
    hide HeaderLen, SlotOf, Placed;
  }

  lemma WordWritten(s: State)
    requires Inv(s) && Enabled(s, EWord)
    ensures Inv(Apply(s, EWord))
  {
    hide Positions, LogOk, Cells, Placed, Ends, ViewsOk, Threads, Reads;
    WordWrittenCells(s);
    WordWrittenPlaced(s);
    WordWrittenEnds(s);
    WordWrittenThreads(s);
  }

  lemma WrittenEnds(s: State)
    requires Inv(s) && Enabled(s, EDone)
    ensures LogOk(Apply(s, EDone)) && Ends(Apply(s, EDone)) && ViewsOk(Apply(s, EDone)) && Reads(Apply(s, EDone))
  {
    hide HeaderLen, SlotOf, Cells, Placed;
  }

  lemma WrittenCells(s: State)
    requires Inv(s) && Enabled(s, EDone) && LogOk(Apply(s, EDone))
    ensures Cells(Apply(s, EDone)) && Placed(Apply(s, EDone))
  {
    hide HeaderLen, SlotOf, Ends, Threads, ViewsOk, Reads;
  }

  lemma WrittenThreads(s: State)
    requires Inv(s) && Enabled(s, EDone) && LogOk(Apply(s, EDone)) && Ends(Apply(s, EDone))
    ensures Positions(Apply(s, EDone)) && Threads(Apply(s, EDone))
  {
    hide HeaderLen, SlotOf, Cells, Placed;
  }

  lemma Written(s: State)
    requires Inv(s) && Enabled(s, EDone)
    ensures Inv(Apply(s, EDone))
  {
    hide Positions, LogOk, Cells, Placed, Ends, ViewsOk, Threads, Reads;
    WrittenEnds(s);
    WrittenCells(s);
    WrittenThreads(s);
  }

  lemma PublishedEnds(s: State)
    requires Inv(s) && Enabled(s, EPublish)
    ensures LogOk(Apply(s, EPublish)) && Ends(Apply(s, EPublish)) && ViewsOk(Apply(s, EPublish))
  {
    hide HeaderLen, SlotOf, Cells;
  }

  lemma PublishedThreads(s: State)
    requires Inv(s) && Enabled(s, EPublish) && LogOk(Apply(s, EPublish)) && Ends(Apply(s, EPublish))
    ensures Positions(Apply(s, EPublish)) && Threads(Apply(s, EPublish)) && Reads(Apply(s, EPublish))
  {
    hide HeaderLen, SlotOf, Cells, Placed;
  }

  lemma PublishedCells(s: State)
    requires Inv(s) && Enabled(s, EPublish) && LogOk(Apply(s, EPublish))
    ensures Cells(Apply(s, EPublish)) && Placed(Apply(s, EPublish))
  {
    hide HeaderLen, SlotOf, Ends, Threads, ViewsOk, Reads;
  }

  lemma Published(s: State)
    requires Inv(s) && Enabled(s, EPublish)
    ensures Inv(Apply(s, EPublish))
  {
    hide Positions, LogOk, Cells, Placed, Ends, ViewsOk, Threads, Reads;
    PublishedEnds(s);
    PublishedThreads(s);
    PublishedCells(s);
  }

  lemma HeadLoaded(s: State, t: nat)
    requires Inv(s) && Enabled(s, RHead(t))
    ensures Inv(Apply(s, RHead(t)))
  {
    hide HeaderLen, SlotOf, Cells, Placed;
    MemoryKept(s, Apply(s, RHead(t)));
  }

  lemma ReadStarted(s: State, p: nat)
    requires Inv(s) && Enabled(s, RStart(p))
    ensures Inv(Apply(s, RStart(p)))
  {
    hide HeaderLen, SlotOf;
  }

  lemma WordRead(s: State, t: nat)
    requires Inv(s) && Enabled(s, RWord(t))
    ensures Inv(Apply(s, RWord(t)))
  {
    hide HeaderLen, SlotOf, Cells, Placed;
    MemoryKept(s, Apply(s, RWord(t)));
    NoOtherWord(s, t);
  }

  lemma ReadEnded(s: State)
    requires Inv(s) && Enabled(s, REnd)
    ensures Inv(Apply(s, REnd))
  {
    hide HeaderLen, SlotOf;
  }

  lemma ReleasedEnds(s: State, n: nat)
    requires Inv(s) && Enabled(s, RRelease(n))
    ensures var s' := Apply(s, RRelease(n)); Positions(s') && LogOk(s') && Ends(s') && ViewsOk(s') && Reads(s')
  {
    hide HeaderLen, SlotOf, Whole, Cells, Placed;
  }

  lemma ReleasedRest(s: State, n: nat)
    requires Inv(s) && Enabled(s, RRelease(n))
    requires LogOk(Apply(s, RRelease(n))) && Ends(Apply(s, RRelease(n)))
    ensures var s' := Apply(s, RRelease(n)); Cells(s') && Placed(s') && Threads(s')
  {
    hide HeaderLen, SlotOf, Whole, ViewsOk, Reads;
  }

  lemma Released(s: State, n: nat)
    requires Inv(s) && Enabled(s, RRelease(n))
    ensures Inv(Apply(s, RRelease(n)))
  {
    hide Positions, LogOk, Cells, Placed, Ends, ViewsOk, Threads, Reads;
    ReleasedEnds(s, n);
    ReleasedRest(s, n);
  }

  lemma StepInv(s: State, a: Action)
    requires Inv(s) && Enabled(s, a)
    ensures Inv(Apply(s, a))
  {
    hide Inv, Enabled;
    match a
    case ELook(t) => TailLoaded(s, a);
    case ERefresh(t) => TailLoaded(s, a);
    case EFull => PushRefused(s);
    case EBegin(words) => Begun(s, words);
    case EWord => WordWritten(s);
    case EDone => Written(s);
    case EPublish => Published(s);
    case RHead(t) => HeadLoaded(s, t);
    case RStart(p) => ReadStarted(s, p);
    case RWord(t) => WordRead(s, t);
    case REnd => ReadEnded(s);
    case RRelease(n) => Released(s, n);
  }

  // ── Runs ──

  /** The actions `acts`, each enabled in turn, lead from `s` to `s'`. */
  ghost predicate Runs(s: State, acts: seq<Action>, s': State)
    decreases |acts|
  {
    if acts == [] then s' == s else Enabled(s, acts[0]) && Runs(Apply(s, acts[0]), acts[1..], s')
  }

  lemma {:induction false} RunInv(s: State, acts: seq<Action>, s': State)
    requires Inv(s) && Runs(s, acts, s')
    ensures Inv(s')
    decreases |acts|
  {
    hide Inv, Enabled;
    if acts != [] {
      StepInv(s, acts[0]);
      RunInv(Apply(s, acts[0]), acts[1..], s');
    }
  }

  /**
    The ring is a queue, in every interleaving and with every stale value a load may return:
    the positions keep their order, what was read at a position is what was written there, and
    the slot being written is none of those from the tail on.
  */
  lemma RingIsAQueue(s0: State, acts: seq<Action>, s: State)
    requires Init(s0) && Runs(s0, acts, s)
    ensures s.tailSeen <= s.tail <= s.headSeen <= s.head <= s.next <= s.tail + MD_QUEUE_CAPACITY && s.next == |s.log|
    ensures forall g <- s.done :: g.p < s.next && g.words == s.log[g.p]
    ensures s.epc.Writing? ==> forall p: nat :: s.tail <= p < s.next ==> SlotOf(p) != SlotOf(s.next)
  {
    InitInv(s0);
    RunInv(s0, acts, s);
    if s.epc.Writing? {
      forall p: nat | s.tail <= p < s.next ensures SlotOf(p) != SlotOf(s.next) {
        if SlotOf(p) == SlotOf(s.next) {
          SameSlot(p, s.next);
        }
      }
    }
  }

  /**
    A catch-up attempted at or below half full always fits: when the scan's look at the tail, stale as
    it may be, leaves at most half the ring, the push that follows does not find the ring full,
    whatever tail it loads itself.
  */
  lemma CatchUpFits(s0: State, acts: seq<Action>, s: State)
    requires Init(s0) && Runs(s0, acts, s)
    requires s.looked.Some? && s.next - s.looked.value <= MD_QUEUE_CAPACITY / 2
    ensures !Enabled(s, EFull)
    ensures forall t: nat :: Enabled(s, ERefresh(t)) ==> !Enabled(Apply(s, ERefresh(t)), EFull)
    ensures forall words :: s.epc.Refreshed? && Whole(words) ==> Enabled(s, EBegin(words))
  {
    hide HeaderLen;
    InitInv(s0);
    RunInv(s0, acts, s);
  }

  /** With the words of a step written at a position, the step read there is that step. */
  lemma StepsReadBack(s0: State, acts: seq<Action>, s: State, g: Got, ev: MdEvent, first: bool, slot: Slot)
    requires Init(s0) && Runs(s0, acts, s) && g in s.done && g.p < |s.log|
    requires WordsOf(s.log[g.p], ev, first) && g.words <= slot
    ensures Decode(slot) == AsKept(ev, first)
  {
    hide Decode, AsKept, WordsOf;
    RingIsAQueue(s0, acts, s);
    WordsDecode(g.words, ev, first, slot);
  }

  // ── A step gets through ──

  lemma {:induction false} JoinRuns(s: State, acts: seq<Action>, t: State, more: seq<Action>, s': State)
    requires Runs(s, acts, t) && Runs(t, more, s')
    ensures Runs(s, acts + more, s')
    decreases |acts|
  {
    hide Enabled, Apply;
    if acts == [] {
      assert acts + more == more;
    } else {
      assert (acts + more)[1..] == acts[1..] + more;
      JoinRuns(Apply(s, acts[0]), acts[1..], t, more, s');
    }
  }

  /** One more step of a run that keeps the invariant. */
  lemma Next(s0: State, acts: seq<Action>, s: State, a: Action) returns (acts': seq<Action>, s': State)
    requires Runs(s0, acts, s) && Inv(s) && Enabled(s, a)
    ensures s' == Apply(s, a) && Runs(s0, acts', s') && Inv(s')
  {
    hide Inv, Enabled, Apply, Runs;
    StepInv(s, a);
    s', acts' := Apply(s, a), acts + [a];
    OneStep(s, a);
    JoinRuns(s0, acts, s, [a], s');
  }

  lemma OneStep(s: State, a: Action)
    requires Enabled(s, a)
    ensures Runs(s, [a], Apply(s, a))
  {
    assert [a][1..] == [];
  }

  lemma NewestLoads(s: State)
    requires Inv(s)
    ensures CanLoad(s.mem, s.engine, Tail, |s.mem(Tail)| - 1) && CanLoad(s.mem, s.reader, Head, |s.mem(Head)| - 1)
    ensures s.mem(Tail)[|s.mem(Tail)| - 1].value == Count(s.tail)
    ensures s.mem(Head)[|s.mem(Head)| - 1].value == Count(s.head)
    ensures Positions(s) && |s.log| == s.next
  {
    hide HeaderLen, SlotOf, Cells, Placed, Covers;
  }

  /** Everything written is published and the reader loads its head. */
  lemma HeadRead(s0: State, acts: seq<Action>, s: State) returns (acts': seq<Action>, s': State)
    requires Runs(s0, acts, s) && Inv(s) && s.epc.Ready? && s.rpc.Free?
    ensures Runs(s0, acts', s') && Inv(s') && s'.epc.Ready? && s'.rpc.Free?
    ensures s'.tail == s.tail <= s'.head == s'.headSeen == s'.next == s.next == |s'.log|
    ensures s'.log == s.log && s'.done == s.done
  {
    hide Inv, Runs, HeaderLen;
    acts', s' := acts, s;
    NewestLoads(s');
    if s'.head != s'.next {
      acts', s' := Next(s0, acts', s', EPublish);
    }
    NewestLoads(s');
    acts', s' := Next(s0, acts', s', RHead(|s'.mem(Head)| - 1));
    NewestLoads(s');
  }

  /** All that was written is released unread. */
  lemma Drained(s0: State, acts: seq<Action>, s: State) returns (acts': seq<Action>, s': State)
    requires Runs(s0, acts, s) && Inv(s) && s.epc.Ready? && s.rpc.Free?
    ensures Runs(s0, acts', s') && Inv(s') && s'.epc.Ready? && s'.rpc.Free?
    ensures s'.tail == s'.next == s.next && s'.log == s.log && s'.done == s.done
  {
    hide Inv, Runs, HeaderLen;
    acts', s' := HeadRead(s0, acts, s);
    acts', s' := Next(s0, acts', s', RRelease(s'.next));
  }

  /** The engine begins to write a step at a free slot. */
  lemma Begins(s0: State, acts: seq<Action>, s: State, words: seq<bv64>) returns (acts': seq<Action>, s': State)
    requires Runs(s0, acts, s) && Inv(s) && s.epc.Ready? && s.rpc.Free? && s.tail == s.next && Whole(words)
    ensures Runs(s0, acts', s') && Inv(s') && s'.rpc.Free? && s'.epc == Writing(words, [])
    ensures s'.next == s.next && s'.log == s.log && s'.done == s.done && s'.tail == s.tail
  {
    hide Inv, Runs, HeaderLen, Whole;
    acts', s' := acts, s;
    NewestLoads(s');
    if s'.next - s'.tailSeen >= MD_QUEUE_CAPACITY {
      acts', s' := Next(s0, acts', s', ERefresh(|s'.mem(Tail)| - 1));
    }
    acts', s' := Next(s0, acts', s', EBegin(words));
  }

  /** The engine stores the rest of its words. */
  lemma {:induction false} WordsStored(s0: State, acts: seq<Action>, s: State) returns (acts': seq<Action>, s': State)
    requires Runs(s0, acts, s) && Inv(s) && s.epc.Writing? && |s.epc.at| <= |s.epc.words|
    ensures Runs(s0, acts', s') && Inv(s') && s'.epc.Ready? && s'.rpc == s.rpc
    ensures s'.next == s.next + 1 && s'.log == s.log + [s.epc.words] && s'.done == s.done && s'.tail == s.tail
    decreases |s.epc.words| - |s.epc.at|
  {
    hide Inv, Runs, HeaderLen, SlotOf;
    if |s.epc.at| < |s.epc.words| {
      acts', s' := Next(s0, acts, s, EWord);
      acts', s' := WordsStored(s0, acts', s');
    } else {
      acts', s' := Next(s0, acts, s, EDone);
    }
  }

  lemma WordLoads(s: State)
    requires Inv(s) && s.rpc.Reading? && !Whole(s.rpc.words)
    ensures var cell := Cell(SlotOf(s.rpc.p), |s.rpc.words|);
      |s.mem(cell)| > 0 && Enabled(s, RWord(|s.mem(cell)| - 1))
    ensures s.rpc.p < |s.log| && |s.rpc.words| < |s.log[s.rpc.p]|
  {
    hide HeaderLen, SlotOf, Placed, Covers;
    assert s.rpc.words <= s.log[s.rpc.p] && Whole(s.log[s.rpc.p]);
  }

  /** The words of a step are read to its end. */
  lemma ReadWhole(s: State)
    requires Inv(s) && s.rpc.Reading? && Whole(s.rpc.words)
    ensures s.rpc.p < |s.log| && s.rpc.words == s.log[s.rpc.p]
  {
    hide HeaderLen, SlotOf, Cells, Placed, Covers, Ends, Threads, ViewsOk;
    var words, all := s.rpc.words, s.log[s.rpc.p];
    assert Whole(all) && words <= all && words[0] == all[0];
  }

  /** The reader loads the rest of the words of its step. */
  lemma {:induction false} WordsLoaded(s0: State, acts: seq<Action>, s: State) returns (acts': seq<Action>, s': State)
    requires Runs(s0, acts, s) && Inv(s) && s.rpc.Reading? && s.rpc.p < |s.log| && |s.rpc.words| <= |s.log[s.rpc.p]|
    ensures Runs(s0, acts', s') && Inv(s') && s'.log == s.log && s'.head == s.head && s'.next == s.next
    ensures s'.rpc.Free? && s'.epc == s.epc
    ensures s'.done == s.done + [Got(s.rpc.p, s.log[s.rpc.p])]
    decreases |s.log[s.rpc.p]| - |s.rpc.words|
  {
    hide Inv, Runs, HeaderLen, SlotOf, Whole;
    if Whole(s.rpc.words) {
      ReadWhole(s);
      acts', s' := Next(s0, acts, s, REnd);
    } else {
      WordLoads(s);
      acts', s' := Next(s0, acts, s, RWord(|s.mem(Cell(SlotOf(s.rpc.p), |s.rpc.words|))| - 1));
      acts', s' := WordsLoaded(s0, acts', s');
    }
  }

  lemma StepRead(s0: State, acts: seq<Action>, s: State, p: nat) returns (acts': seq<Action>, s': State)
    requires Runs(s0, acts, s) && Inv(s) && s.rpc.Free? && s.tail <= p < s.headSeen <= |s.log|
    ensures Runs(s0, acts', s') && Inv(s') && s'.log == s.log && s'.head == s.head && s'.next == s.next
    ensures s'.rpc.Free? && s'.epc == s.epc
    ensures s'.done == s.done + [Got(p, s.log[p])]
  {
    hide Inv, Runs, HeaderLen, Whole;
    acts', s' := Next(s0, acts, s, RStart(p));
    acts', s' := WordsLoaded(s0, acts', s');
  }

  lemma Underway(s: State)
    requires Inv(s)
    ensures s.epc.Writing? ==> |s.epc.at| <= |s.epc.words|
    ensures s.rpc.Reading? ==> s.rpc.p < |s.log| && |s.rpc.words| <= |s.log[s.rpc.p]|
  {
    hide HeaderLen, Cells, Placed, Covers;
  }

  /** A push that has begun comes to its end. */
  lemma PushEnds(s0: State, acts: seq<Action>, s: State) returns (acts': seq<Action>, s': State)
    requires Runs(s0, acts, s) && Inv(s)
    ensures Runs(s0, acts', s') && Inv(s') && s'.epc.Ready? && s'.rpc == s.rpc && s'.done == s.done
    ensures s.log <= s'.log && (s.epc.Writing? ==> s'.log == s.log + [s.epc.words])
  {
    HeaderAlone();
    hide Inv, Runs, HeaderLen;
    acts', s' := acts, s;
    if s'.epc.Refreshed? {
      acts', s' := Next(s0, acts', s', if s'.next - s'.tailSeen >= MD_QUEUE_CAPACITY then EFull else EBegin([0]));
    }
    Underway(s');
    if s'.epc.Writing? {
      acts', s' := WordsStored(s0, acts', s');
    }
  }

  lemma Start(s0: State, acts: seq<Action>, s: State)
    requires Init(s0) && Runs(s0, acts, s)
    ensures Inv(s) && Runs(s, [], s)
  {
    InitInv(s0);
    RunInv(s0, acts, s);
  }

  /** A push and a read that have begun come to their ends: what was begun is written and read, and nothing is lost. */
  lemma ComesToRest(s0: State, acts0: seq<Action>, s: State) returns (acts: seq<Action>, s': State)
    requires Init(s0) && Runs(s0, acts0, s)
    ensures Runs(s, acts, s') && s'.epc.Ready? && s'.rpc.Free?
    ensures s.log <= s'.log && (s.epc.Writing? ==> s'.log == s.log + [s.epc.words])
    ensures s.rpc.Reading? ==> s.rpc.p < |s'.log| && s'.done == s.done + [Got(s.rpc.p, s'.log[s.rpc.p])]
  {
    Start(s0, acts0, s);
    hide Inv, Init, Runs;
    acts, s' := PushEnds(s, [], s);
    Underway(s');
    if s'.rpc.Reading? {
      acts, s' := WordsLoaded(s, acts, s');
    }
  }

  /** A whole step is written at the next position, however full the ring is. */
  lemma StepWritten(s0: State, acts: seq<Action>, s: State, words: seq<bv64>) returns (acts': seq<Action>, s': State)
    requires Runs(s0, acts, s) && Inv(s) && s.epc.Ready? && s.rpc.Free? && Whole(words)
    ensures Runs(s0, acts', s') && Inv(s') && s'.epc.Ready? && s'.rpc.Free? && s'.done == s.done
    ensures s'.log == s.log + [words] && s'.next == s.next + 1 && s'.tail == s.next == |s.log|
  {
    hide Inv, Runs, Whole, Enabled, Apply;
    NewestLoads(s);
    acts', s' := Drained(s0, acts, s);
    acts', s' := Begins(s0, acts', s', words);
    acts', s' := WordsStored(s0, acts', s');
  }

  /**
    A step can get through: from every reachable state with the engine between two pushes and the reader
    between two reads, however full the ring is, a run in which the engine writes any whole step at its
    next position and the reader reads it there.
  */
  lemma AStepGoesThrough(s0: State, acts0: seq<Action>, s: State, words: seq<bv64>)
    returns (acts: seq<Action>, s': State)
    requires Init(s0) && Runs(s0, acts0, s) && s.epc.Ready? && s.rpc.Free? && Whole(words)
    ensures Runs(s, acts, s') && s'.log == s.log + [words] && s'.head == s'.next == s.next + 1
    ensures s'.done == s.done + [Got(s.next, words)] && s'.epc.Ready? && s'.rpc.Free?
  {
    Start(s0, acts0, s);
    hide Inv, Init, Runs, Whole, Enabled, Apply;
    acts, s' := StepWritten(s, [], s, words);
    acts, s' := HeadRead(s, acts, s');
    acts, s' := StepRead(s, acts, s', s.next);
  }

  /** With the tail at most half the ring behind, a step is written whatever the reader does. */
  lemma WrittenInRoom(s0: State, acts: seq<Action>, s: State, words: seq<bv64>)
    returns (acts': seq<Action>, s': State)
    requires Runs(s0, acts, s) && Inv(s) && s.epc.Ready? && Whole(words)
    requires s.next - s.tail <= MD_QUEUE_CAPACITY / 2
    ensures Runs(s0, acts', s') && s'.log == s.log + [words] && s'.tail == s.tail && s'.rpc == s.rpc
  {
    hide Inv, Runs, HeaderLen, Whole;
    NewestLoads(s);
    acts', s' := acts, s;
    if s'.next - s'.tailSeen >= MD_QUEUE_CAPACITY {
      acts', s' := Next(s0, acts', s', ERefresh(|s'.mem(Tail)| - 1));
    }
    acts', s' := Next(s0, acts', s', EBegin(words));
    acts', s' := WordsStored(s0, acts', s');
  }

  /** The engine's look at the tail for a catch-up. */
  lemma LooksAtTail(s: State) returns (acts: seq<Action>, s': State)
    requires Inv(s) && s.epc.Ready?
    ensures Runs(s, acts, s') && Inv(s') && s'.looked == Some(s.tail) && s'.epc.Ready?
    ensures s'.next == s.next && s'.tail == s.tail && s'.log == s.log && s'.rpc == s.rpc
  {
    assert Runs(s, [], s);
    hide Inv, Runs, HeaderLen;
    NewestLoads(s);
    acts, s' := Next(s, [], s, ELook(|s.mem(Tail)| - 1));
  }

  /**
    A catch-up can get through: from every reachable state with the engine between two pushes and the
    reader's tail at most half the ring behind, the engine's look finds that tail, and the catch-up is
    written although the reader does nothing.
  */
  lemma ACatchUpGoesThrough(s0: State, acts0: seq<Action>, s: State, words: seq<bv64>)
    returns (acts: seq<Action>, s1: State, acts1: seq<Action>, s': State)
    requires Init(s0) && Runs(s0, acts0, s) && s.epc.Ready? && Whole(words)
    requires s.next - s.tail <= MD_QUEUE_CAPACITY / 2
    ensures Runs(s, acts, s1) && s1.looked == Some(s.tail) && Runs(s1, acts1, s')
    ensures s'.log == s.log + [words] && s'.tail == s.tail && s'.rpc == s.rpc
  {
    Start(s0, acts0, s);
    hide Inv, Init, Runs, Whole, Enabled, Apply;
    acts, s1 := LooksAtTail(s);
    NoSteps(s1);
    acts1, s' := WrittenInRoom(s1, [], s1, words);
  }

  lemma NoSteps(s: State)
    ensures Runs(s, [], s)
  {
  }
}

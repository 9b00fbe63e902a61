/**
  The ring of market data steps (`MdQueue`): one writer, the engine, and one reader, the
  client. Each operation is one call here; `RingProtocol` interleaves their accesses.
*/
module MdQueues {
  import opened Basics
  import opened Bits
  import opened MdEvents

  const MD_QUEUE_CAPACITY: nat := 4096

  /** The counter that all answers of a session share. */
  class AnswerClock {
    var count: nat

    constructor ()
      ensures count == 1
    {
      count := 1;
    }

    method FetchAdd() returns (at: nat)
      modifies this
      ensures at == old(count) && count == old(count) + 1
    {
      at := count;
      count := count + 1;
    }
  }

  const MAX_INSTRUMENTS: nat := 256

  /** A word of 64 flags, as the set of its one bits. */
  type Word = w: set<nat> | forall b <- w :: b < 64

  const INSTRUMENT_WORDS: nat := 4

  /** The word and the bit of an instrument. */
  function WordOf(id: nat): (w: nat)
    ensures w < INSTRUMENT_WORDS
  {
    (id / 64) % INSTRUMENT_WORDS
  }

  function BitOf(id: nat): (b: nat)
    ensures b < 64
  {
    id % 64
  }

  predicate Has(words: seq<Word>, id: nat)
    requires |words| == INSTRUMENT_WORDS
  {
    BitOf(id) in words[WordOf(id)]
  }

  /** Two instruments have one flag just when they are equal up to the number of instruments. */
  lemma SameFlag(id: nat, other: nat)
    ensures WordOf(id) == WordOf(other) && BitOf(id) == BitOf(other)
      <==> id % MAX_INSTRUMENTS == other % MAX_INSTRUMENTS
  {
    FlagOf(id);
    FlagOf(other);
  }

  lemma FlagOf(id: nat)
    ensures id % MAX_INSTRUMENTS == 64 * WordOf(id) + BitOf(id)
  {
  }

  /** Setting or clearing the flag of `id` concerns the instruments with that flag and no others. */
  lemma FlagSet(words: seq<Word>, words': seq<Word>, id: nat, on: bool)
    requires |words| == INSTRUMENT_WORDS
    requires words' ==
      words[WordOf(id) := if on then words[WordOf(id)] + {BitOf(id)} else words[WordOf(id)] - {BitOf(id)}]
    ensures forall i: nat ::
      Has(words', i) <==> if i % MAX_INSTRUMENTS == id % MAX_INSTRUMENTS then on else Has(words, i)
  {
    hide WordOf, BitOf;
    forall i: nat
      ensures Has(words', i) <==> if i % MAX_INSTRUMENTS == id % MAX_INSTRUMENTS then on else Has(words, i)
    {
      SameFlag(i, id);
    }
  }

  method LowestBit(word: Word) returns (i: nat)
    requires word != {}
    ensures i in word && forall b <- word :: i <= b
  {
    i := 0;
    ghost var some :| some in word;
    while i !in word
      invariant i <= some && forall b <- word :: i <= b
      decreases some - i
    {
      i := i + 1;
    }
  }

  /** The instruments from `from` on with both flags, in their order. */
  ghost function Wanted(resync: seq<Word>, listened: seq<Word>, from: nat): seq<nat>
    requires |resync| == |listened| == INSTRUMENT_WORDS
    decreases MAX_INSTRUMENTS - from
  {
    if from >= MAX_INSTRUMENTS then []
    else (if Has(resync, from) && Has(listened, from) then [from] else []) + Wanted(resync, listened, from + 1)
  }

  lemma AscendingCons(id: nat, ids: seq<nat>)
    requires Ascending(ids) && forall x <- ids :: id < x
    ensures Ascending([id] + ids)
  {
    assert forall j :: 0 <= j < |ids| ==> ids[j] in ids;
  }

  /** They are exactly the listened instruments that wait, each once, in their order. */
  lemma {:induction false} WantedExactly(resync: seq<Word>, listened: seq<Word>, from: nat)
    requires |resync| == |listened| == INSTRUMENT_WORDS && from <= MAX_INSTRUMENTS
    ensures forall id: nat ::
      id in Wanted(resync, listened, from) <==> from <= id < MAX_INSTRUMENTS && Has(resync, id) && Has(listened, id)
    ensures Ascending(Wanted(resync, listened, from))
    decreases MAX_INSTRUMENTS - from
  {
    hide Has, Ascending;
    if from == MAX_INSTRUMENTS {
      NoneAscend();
    } else {
      WantedExactly(resync, listened, from + 1);
      var rest := Wanted(resync, listened, from + 1);
      AscendingCons(from, rest);
      assert [] + rest == rest;
    }
  }

  lemma NoneAscend()
    ensures Ascending([])
  {
  }

  lemma {:induction false} WantedSkip(resync: seq<Word>, listened: seq<Word>, from: nat, to: nat)
    requires |resync| == |listened| == INSTRUMENT_WORDS && from <= to <= MAX_INSTRUMENTS
    requires forall id: nat :: from <= id < to ==> !Has(resync, id)
    ensures Wanted(resync, listened, from) == Wanted(resync, listened, to)
    decreases MAX_INSTRUMENTS - from
  {
    if from < to {
      WantedSkip(resync, listened, from + 1, to);
    }
  }

  lemma InWord(w: nat, b: nat)
    requires w < INSTRUMENT_WORDS && b < 64
    ensures WordOf(64 * w + b) == w && BitOf(64 * w + b) == b
  {
  }

  lemma WordSkip(resync: seq<Word>, listened: seq<Word>, w: nat, k: nat, b: nat)
    requires |resync| == |listened| == INSTRUMENT_WORDS && w < INSTRUMENT_WORDS && k <= b <= 64
    requires forall x: nat :: k <= x < b ==> x !in resync[w]
    ensures Wanted(resync, listened, 64 * w + k) == Wanted(resync, listened, 64 * w + b)
  {
    hide Wanted;
    forall id: nat | 64 * w + k <= id < 64 * w + b ensures !Has(resync, id) {
      InWord(w, id - 64 * w);
    }
    WantedSkip(resync, listened, 64 * w + k, 64 * w + b);
  }

  lemma WantedNext(resync: seq<Word>, listened: seq<Word>, id: nat)
    requires |resync| == |listened| == INSTRUMENT_WORDS && id < MAX_INSTRUMENTS && Has(resync, id)
    ensures Wanted(resync, listened, id) == (if Has(listened, id) then [id] else []) + Wanted(resync, listened, id + 1)
  {
  }

  lemma NextOf(wanted: seq<nat>, m: nat)
    requires m < |wanted|
    ensures wanted[..m + 1] == wanted[..m] + [wanted[m]] && wanted[m + 1..] == wanted[m..][1..]
  {
  }

  /** The catch-ups of some instruments; the first of them opens a message when `opens`. */
  ghost function CatchUps(ids: seq<nat>, opens: bool, make: nat -> MdEvent): (r: seq<MdEvent>)
    ensures |r| == |ids|
  {
    seq(|ids|, i requires 0 <= i < |ids| => AsKept(make(ids[i]), i == 0 && opens))
  }

  /** The ring with `next` steps written is at most half full, seen from the reader's position `tail`. */
  predicate HalfFree(next: nat, tail: nat) {
    next - tail <= MD_QUEUE_CAPACITY / 2
  }

  /**
    The wanted instruments whose catch-ups are written, when the scan starts with `next` steps written
    and finds the reader at `tails[i]` at its turn `i`.
  */
  ghost function Served(wanted: seq<nat>, tails: seq<nat>, next: nat): (r: seq<nat>)
    requires |tails| <= |wanted|
    ensures |r| <= |tails|
    decreases |tails|
  {
    if tails == [] then []
    else
      var m := |tails| - 1;
      var r := Served(wanted, tails[..m], next);
      if HalfFree(next + |r|, tails[m]) then r + [wanted[m]] else r
  }

  /** The others, which wait again. */
  ghost function Unserved(wanted: seq<nat>, tails: seq<nat>, next: nat): seq<nat>
    requires |tails| <= |wanted|
    decreases |tails|
  {
    if tails == [] then []
    else
      var m := |tails| - 1;
      Unserved(wanted, tails[..m], next)
      + if HalfFree(next + |Served(wanted, tails[..m], next)|, tails[m]) then [] else [wanted[m]]
  }

  /** Every instrument of the turns so far is served or waits again, and none does both. */
  lemma {:induction false} ServedOrNot(wanted: seq<nat>, tails: seq<nat>, next: nat)
    requires |tails| <= |wanted| && Ascending(wanted)
    ensures forall id ::
      id in wanted[..|tails|] <==> id in Served(wanted, tails, next) || id in Unserved(wanted, tails, next)
    ensures forall id :: !(id in Served(wanted, tails, next) && id in Unserved(wanted, tails, next))
    ensures Ascending(Served(wanted, tails, next)) && Ascending(Unserved(wanted, tails, next))
    decreases |tails|
  {
    if tails != [] {
      hide Ascending, HalfFree;
      var m := |tails| - 1;
      ServedOrNot(wanted, tails[..m], next);
      NextOf(wanted, m);
      BelowNext(wanted, m);
      var a, b := Served(wanted, tails[..m], next), Unserved(wanted, tails[..m], next);
      AscendingMore(a, wanted[m]);
      AscendingMore(b, wanted[m]);
      assert b + [] == b;
    }
  }

  lemma BelowNext(wanted: seq<nat>, m: nat)
    requires Ascending(wanted) && m < |wanted|
    ensures forall id <- wanted[..m] :: id < wanted[m]
  {
  }

  /** With the client at rest, the scan serves the first instruments, as many as fit, and no others. */
  lemma {:induction false} ServedAtRest(wanted: seq<nat>, tails: seq<nat>, next: nat, tail: nat)
    requires |tails| <= |wanted| && tail <= next && forall i :: 0 <= i < |tails| ==> tails[i] == tail
    ensures Served(wanted, tails, next) == wanted[..Fitting(next - tail, |tails|)]
    decreases |tails|
  {
    if tails != [] {
      var m := |tails| - 1;
      ServedAtRest(wanted, tails[..m], next, tail);
      NextOf(wanted, m);
    }
  }

  /** How many of `count` catch-ups the ring takes, with `used` steps in it and the client at rest. */
  function Fitting(used: int, count: nat): (n: nat)
    ensures n <= count
  {
    var room := if used > MD_QUEUE_CAPACITY / 2 then 0 else MD_QUEUE_CAPACITY / 2 - used + 1;
    if room < count then room else count
  }

  /** The next flag of word `w` is `b`: the instrument is the next wanted one if it is listened to. */
  lemma NextWanted(resync: seq<Word>, listened: seq<Word>, w: nat, k: nat, b: nat, rest: seq<nat>)
    requires |resync| == |listened| == INSTRUMENT_WORDS && w < INSTRUMENT_WORDS && k <= b < 64
    requires b in resync[w] && forall x: nat :: k <= x < b ==> x !in resync[w]
    requires rest == Wanted(resync, listened, 64 * w + k)
    ensures WordOf(64 * w + b) == w && BitOf(64 * w + b) == b
    ensures if Has(listened, 64 * w + b)
            then rest != [] && rest[0] == 64 * w + b && rest[1..] == Wanted(resync, listened, 64 * w + b + 1)
            else rest == Wanted(resync, listened, 64 * w + b + 1)
  {
    WordSkip(resync, listened, w, k, b);
    InWord(w, b);
    WantedNext(resync, listened, 64 * w + b);
  }

  /** A scan, as it starts: the flags it takes, and whether its first step opens a message. */
  datatype Scan = Scan(resync: seq<Word>, log: seq<MdEvent>, opens: bool, wanted: seq<nat>, make: nat -> MdEvent)

  /** Word `v` flags exactly the instruments `ids` it stands for. */
  ghost predicate FlagsAre(word: Word, v: nat, ids: seq<nat>) {
    forall b: nat :: b < 64 ==> (b in word <==> 64 * v + b in ids)
  }

  /**
    What scan `s` has done when it has dealt with the first of the wanted, finding the reader at
    `tails`, and has taken the words below `w`.
  */
  ghost predicate Scanned(s: Scan, tails: seq<nat>, w: nat, log: seq<MdEvent>, resync: seq<Word>, any: bool)
    requires |s.resync| == INSTRUMENT_WORDS
  {
    && |resync| == INSTRUMENT_WORDS
    && |tails| <= |s.wanted|
    && log == s.log + CatchUps(Served(s.wanted, tails, |s.log|), s.opens, s.make)
    && (forall v :: w <= v < INSTRUMENT_WORDS ==> resync[v] == s.resync[v])
    && (forall v: nat :: v < w && v < INSTRUMENT_WORDS ==> FlagsAre(resync[v], v, Unserved(s.wanted, tails, |s.log|)))
    && (any <==> Unserved(s.wanted, tails, |s.log|) != [])
  }

  lemma ScanStarts(s: Scan)
    requires |s.resync| == INSTRUMENT_WORDS
    ensures Scanned(s, [], 0, s.log, s.resync, false)
  {
  }

  lemma NoneAdvance(from: nat, to: nat)
    ensures Advancing([], from, to)
  {
  }

  lemma ScanAtStart(s: Scan, listened: seq<Word>)
    requires |s.resync| == |listened| == INSTRUMENT_WORDS && s.wanted == Wanted(s.resync, listened, 0)
    ensures ScanAt(s, listened, [], 0)
  {
    hide Wanted;
  }

  lemma ScanEnds(s: Scan, listened: seq<Word>, tails: seq<nat>)
    requires |s.resync| == |listened| == INSTRUMENT_WORDS && ScanAt(s, listened, tails, 64 * INSTRUMENT_WORDS)
    ensures |tails| == |s.wanted|
  {
    WantedEnds(s.resync, listened);
  }

  /** The flags of word `w` are taken. */
  lemma ScanTaken(s: Scan, listened: seq<Word>, tails: seq<nat>, w: nat, log: seq<MdEvent>, resync: seq<Word>,
      any: bool)
    requires |s.resync| == |listened| == INSTRUMENT_WORDS && w < INSTRUMENT_WORDS
    requires Scanned(s, tails, w, log, resync, any) && ScanAt(s, listened, tails, 64 * w)
    ensures resync[w] == s.resync[w] && Scanned(s, tails, w + 1, log, resync[w := {}], any)
  {
    hide Scanned;
    ScanTodo(s, tails, w, log, resync, any);
    ScanTake(s, tails, w, log, resync, any);
  }

  /** No flag of word `w` is left. */
  lemma ScanRest(s: Scan, listened: seq<Word>, tails: seq<nat>, w: nat, k: nat)
    requires |s.resync| == |listened| == INSTRUMENT_WORDS && w < INSTRUMENT_WORDS && k <= 64
    requires (forall x: nat :: k <= x < 64 ==> x !in s.resync[w]) && ScanAt(s, listened, tails, 64 * w + k)
    ensures ScanAt(s, listened, tails, 64 * (w + 1))
  {
    hide Wanted, AllBelow;
    WordSkip(s.resync, listened, w, k, 64);
    AllBelowMore(s.wanted[..|tails|], 64 * w + k, 64 * (w + 1));
  }

  lemma WantedEnds(resync: seq<Word>, listened: seq<Word>)
    requires |resync| == |listened| == INSTRUMENT_WORDS
    ensures Wanted(resync, listened, MAX_INSTRUMENTS) == []
  {
  }

  lemma ScanTodo(s: Scan, tails: seq<nat>, w: nat, log: seq<MdEvent>, resync: seq<Word>, any: bool)
    requires |s.resync| == INSTRUMENT_WORDS && w < INSTRUMENT_WORDS && Scanned(s, tails, w, log, resync, any)
    ensures resync[w] == s.resync[w]
  {
  }

  lemma {:induction false} UnservedAreWanted(wanted: seq<nat>, tails: seq<nat>, next: nat)
    requires |tails| <= |wanted|
    ensures forall id <- Unserved(wanted, tails, next) :: id in wanted[..|tails|]
    decreases |tails|
  {
    if tails != [] {
      UnservedAreWanted(wanted, tails[..|tails| - 1], next);
      NextOf(wanted, |tails| - 1);
    }
  }

  lemma ScanTake(s: Scan, tails: seq<nat>, w: nat, log: seq<MdEvent>, resync: seq<Word>, any: bool)
    requires |s.resync| == INSTRUMENT_WORDS && w < INSTRUMENT_WORDS && Scanned(s, tails, w, log, resync, any)
    requires AllBelow(s.wanted[..|tails|], 64 * w)
    ensures Scanned(s, tails, w + 1, log, resync[w := {}], any)
  {
    hide CatchUps, Served, Unserved;
    UnservedAreWanted(s.wanted, tails, |s.log|);
  }

  /** The catch-up of the next wanted instrument is written. */
  lemma ScanWrote(s: Scan, tails: seq<nat>, w: nat, log: seq<MdEvent>, resync: seq<Word>, any: bool, tail: nat)
    requires |s.resync| == INSTRUMENT_WORDS && Scanned(s, tails, w, log, resync, any)
    requires |tails| < |s.wanted| && HalfFree(|log|, tail)
    ensures Scanned(s, tails + [tail], w, log + [AsKept(s.make(s.wanted[|tails|]), |log| == |s.log| && s.opens)],
      resync, any)
  {
    hide AsKept;
    assert (tails + [tail])[..|tails|] == tails;
  }

  lemma NotServed(wanted: seq<nat>, tails: seq<nat>, next: nat, tail: nat)
    requires |tails| < |wanted| && !HalfFree(next + |Served(wanted, tails, next)|, tail)
    ensures Served(wanted, tails + [tail], next) == Served(wanted, tails, next)
    ensures Unserved(wanted, tails + [tail], next) == Unserved(wanted, tails, next) + [wanted[|tails|]]
  {
    hide HalfFree;
    var more := tails + [tail];
    assert more[..|tails|] == tails && more[|tails|] == tail;
  }

  /** The ring is over half full: the next wanted instrument waits again. */
  lemma ScanLeft(s: Scan, tails: seq<nat>, w: nat, b: nat, log: seq<MdEvent>, resync: seq<Word>, any: bool, tail: nat)
    requires |s.resync| == INSTRUMENT_WORDS && w < INSTRUMENT_WORDS && b < 64
    requires Scanned(s, tails, w + 1, log, resync, any)
    requires |tails| < |s.wanted| && s.wanted[|tails|] == 64 * w + b && !HalfFree(|log|, tail)
    ensures Scanned(s, tails + [tail], w + 1, log, resync[w := resync[w] + {b}], true)
  {
    hide CatchUps, Served, Unserved, HalfFree;
    var left := Unserved(s.wanted, tails, |s.log|);
    var resync' := resync[w := resync[w] + {b}];
    NotServed(s.wanted, tails, |s.log|, tail);
    forall v: nat | v < w + 1 ensures FlagsAre(resync'[v], v, left + [64 * w + b]) {
      assert FlagsAre(resync[v], v, left);
      OneMoreFlag(resync[v], v, left, w, b);
    }
    hide FlagsAre;
  }

  lemma OneMoreFlag(word: Word, v: nat, ids: seq<nat>, w: nat, b: nat)
    requires FlagsAre(word, v, ids) && b < 64
    ensures FlagsAre(if v == w then word + {b} else word, v, ids + [64 * w + b])
  {
  }

  ghost predicate AllBelow(ids: seq<nat>, n: nat) {
    forall x <- ids :: x < n
  }

  lemma AllBelowMore(ids: seq<nat>, n: nat, more: nat)
    requires AllBelow(ids, n) && n <= more
    ensures AllBelow(ids, more)
  {
  }

  /** The scan has dealt with the wanted below instrument `id`, one turn each. */
  ghost predicate ScanAt(s: Scan, listened: seq<Word>, tails: seq<nat>, id: nat)
    requires |s.resync| == |listened| == INSTRUMENT_WORDS
  {
    && |tails| <= |s.wanted| && s.wanted[|tails|..] == Wanted(s.resync, listened, id)
    && AllBelow(s.wanted[..|tails|], id)
  }

  /** The next flag `b` of word `w`: the instrument is passed over, or it has its turn. */
  lemma ScanTurn(s: Scan, listened: seq<Word>, tails: seq<nat>, w: nat, k: nat, b: nat, tail: nat)
    requires |s.resync| == |listened| == INSTRUMENT_WORDS && w < INSTRUMENT_WORDS && k <= b < 64
    requires b in s.resync[w] && forall x: nat :: k <= x < b ==> x !in s.resync[w]
    requires ScanAt(s, listened, tails, 64 * w + k)
    ensures WordOf(64 * w + b) == w && BitOf(64 * w + b) == b
    ensures !Has(listened, 64 * w + b) ==> ScanAt(s, listened, tails, 64 * w + b + 1)
    ensures Has(listened, 64 * w + b) ==>
      && |tails| < |s.wanted| && s.wanted[|tails|] == 64 * w + b
      && ScanAt(s, listened, tails + [tail], 64 * w + b + 1)
  {
    hide Wanted, Has, WordOf, BitOf;
    NextWanted(s.resync, listened, w, k, b, s.wanted[|tails|..]);
    if Has(listened, 64 * w + b) {
      NextOf(s.wanted, |tails|);
    }
  }

  /** What the scan has done once the next wanted instrument had its turn. */
  lemma ScanBit(s: Scan, tails: seq<nat>, w: nat, b: nat, log: seq<MdEvent>, resync: seq<Word>, any: bool, tail: nat,
                log': seq<MdEvent>, resync': seq<Word>, any': bool)
    requires |s.resync| == INSTRUMENT_WORDS && w < INSTRUMENT_WORDS && b < 64
    requires Scanned(s, tails, w + 1, log, resync, any) && |tails| < |s.wanted| && s.wanted[|tails|] == 64 * w + b
    requires if HalfFree(|log|, tail)
      then log' == log + [AsKept(s.make(64 * w + b), |log| == |s.log| && s.opens)] && resync' == resync && any' == any
      else log' == log && |resync| == INSTRUMENT_WORDS && resync' == resync[w := resync[w] + {b}] && any'
    ensures Scanned(s, tails + [tail], w + 1, log', resync', any')
  {
    hide AsKept, CatchUps, Scanned, HalfFree;
    if HalfFree(|log|, tail) {
      ScanWrote(s, tails, w + 1, log, resync, any, tail);
    } else {
      ScanLeft(s, tails, w, b, log, resync, any, tail);
    }
  }

  lemma ScanGrows(s: Scan, tails: seq<nat>, w: nat, log: seq<MdEvent>, resync: seq<Word>, any: bool)
    requires |s.resync| == INSTRUMENT_WORDS && Scanned(s, tails, w, log, resync, any)
    ensures |tails| <= |s.wanted| && |s.log| <= |log| && |resync| == INSTRUMENT_WORDS
  {
  }

  /** Positions of the reader that never go back. */
  ghost predicate Advancing(tails: seq<nat>, from: nat, to: nat) {
    && (forall i :: 0 <= i < |tails| ==> from <= tails[i] <= to)
    && (forall i, j :: 0 <= i < j < |tails| ==> tails[i] <= tails[j])
  }

  lemma AdvancingMore(tails: seq<nat>, from: nat, to: nat, tail: nat, to': nat)
    requires Advancing(tails, from, to) && from <= tail && to <= tail <= to'
    ensures Advancing(tails + [tail], from, to')
  {
  }

  /** A start of a run of messages: the position of its first message and its count. */
  type Mark = (nat, nat)

  /** Positions that go up, from `lo` to below `hi`. */
  ghost predicate Rising(marks: seq<Mark>, lo: nat, hi: nat) {
    && (forall i :: 0 <= i < |marks| ==> lo <= marks[i].0 < hi)
    && (forall i, j :: 0 <= i < j < |marks| ==> marks[i].0 < marks[j].0)
  }

  /** No more of them than there are positions. */
  lemma {:induction false} RisingCount(marks: seq<Mark>, lo: nat, hi: nat)
    requires Rising(marks, lo, hi) && lo <= hi
    ensures |marks| <= hi - lo
    decreases |marks|
  {
    if marks != [] {
      var last := marks[|marks| - 1].0;
      RisingCount(marks[..|marks| - 1], lo, last);
    }
  }

  /** The slot of a position. */
  function SlotOf(p: nat): (j: nat)
    ensures j < MD_QUEUE_CAPACITY
  {
    p % MD_QUEUE_CAPACITY
  }

  /** Each of the last steps is in its slot. */
  ghost predicate InSlots(slots: seq<Slot>, log: seq<MdEvent>) {
    && |slots| == MD_QUEUE_CAPACITY
    && forall p: nat :: p < |log| <= p + MD_QUEUE_CAPACITY ==> Decode(slots[SlotOf(p)]) == log[p]
  }

  lemma InSlotsPush(slots: seq<Slot>, log: seq<MdEvent>, slot: Slot)
    requires InSlots(slots, log)
    ensures InSlots(slots[SlotOf(|log|) := slot], log + [Decode(slot)])
  {
  }

  /** The steps marked first are those that open a message; the one being written opens at `head`. */
  ghost predicate FirstsOk(log: seq<MdEvent>, starts: set<nat>, head: nat) {
    && (forall p <- starts :: p < head)
    && (forall p: nat :: p < |log| ==> (log[p].first <==> p in starts || p == head))
  }

  class MdQueue {
    const slots: array<Slot>
    /** The answer clock the messages take their place by, if any. */
    const clock: AnswerClock?
    // The engine's words.
    var next: nat
    var tailSeen: nat
    var starting: bool
    var clockSeen: nat
    // The positions up to which steps are published, and up to which they are released.
    var head: nat
    var tail: nat
    var marks: seq<Mark>
    /** Flags per instrument: someone listens to it, and it waits for a catch-up. */
    const listened: array<Word>
    const resync: array<Word>
    var resyncAny: bool
    /** Every step written, by its position. */
    ghost var log: seq<MdEvent>
    /** The positions the published messages start at. */
    ghost var starts: set<nat>
    /** The reader has taken the marks below this position. */
    ghost var taken: nat

    ghost predicate Valid()
      reads this, slots
    {
      && slots.Length == MD_QUEUE_CAPACITY && |log| == next
      && listened.Length == resync.Length == INSTRUMENT_WORDS && listened != resync
      && tailSeen <= tail <= head <= next <= tailSeen + MD_QUEUE_CAPACITY
      && InSlots(slots[..], log)
      && (starting <==> next == head)
      && FirstsOk(log, starts, head)
    }

    /**
      The marks held are distinct positions the reader has not passed. It stays so while the
      reader releases nothing whose marks it has not taken.
    */
    ghost predicate Disciplined()
      reads this
    {
      tail <= taken <= head && Rising(marks, taken, head)
    }

    constructor (clock: AnswerClock?)
      ensures Valid() && Disciplined() && fresh(slots) && fresh(listened) && fresh(resync)
      ensures forall w :: 0 <= w < INSTRUMENT_WORDS ==> listened[w] == resync[w] == {}
      ensures log == [] && head == tail == 0 && marks == [] && this.clock == clock
      ensures clockSeen == 1
    {
      listened := new Word[INSTRUMENT_WORDS](_ => {});
      resync := new Word[INSTRUMENT_WORDS](_ => {});
      resyncAny := false;
      slots := new Slot[MD_QUEUE_CAPACITY](_ => seq(WORDS, _ => 0));
      this.clock := clock;
      next, tailSeen, starting, clockSeen, head, tail, marks := 0, 0, true, 1, 0, 0, [];
      log, starts, taken := [], {}, 0;
    }

    /** Adds a step, unless a whole capacity of steps lies unreleased. */
    method Push(ev: MdEvent) returns (ok: bool)
      requires Valid()
      modifies this`next, this`tailSeen, this`starting, this`log, slots
      ensures Valid()
      ensures ok <==> old(next) < tail + MD_QUEUE_CAPACITY
      ensures ok ==> log == old(log) + [AsKept(ev, old(next) == head)]
      ensures !ok ==> log == old(log)
    {
      hide AsKept, Decode, Holds, InSlots;
      if next - tailSeen >= MD_QUEUE_CAPACITY {
        tailSeen := tail;
        if next - tail >= MD_QUEUE_CAPACITY {
          return false;
        }
      }
      var j := SlotOf(next);
      var first := starting;
      if first {
        starting := false;
      }
      var slot := WriteSlot(slots[j], ev, first);
      SlotRoundTrip(slot, ev, first);
      InSlotsPush(slots[..], log, slot);
      FirstKept(ev, first);
      slots[j] := slot;
      assert slots[..] == old(slots[..])[j := slot];
      log := log + [Decode(slot)];
      next := next + 1;
      ok := true;
    }

    /** Closes the message being written, if there is one, and gives it its place among the answers. */
    method Publish()
      requires Valid()
      modifies this`head, this`starting, this`clockSeen, this`marks, this`starts, clock
      ensures Valid()
      ensures old(head) == next ==>
        head == old(head) && marks == old(marks) && clockSeen == old(clockSeen) && starts == old(starts)
      ensures old(head) == next && clock != null ==> clock.count == old(clock.count)
      ensures old(head) != next ==> head == next && starts == old(starts) + {old(head)}
      // The clock has moved since it was last looked at: the message takes a count of its own.
      ensures old(head) != next && clock != null && old(clock.count) != old(clockSeen) ==>
        && marks == (if |old(marks)| >= MD_QUEUE_CAPACITY then old(marks)[1..] else old(marks))
                    + [(old(head), old(clock.count))]
        && clock.count == clockSeen == old(clock.count) + 1
      ensures old(head) != next && (clock == null || old(clock.count) == old(clockSeen)) ==>
        && marks == old(marks) && clockSeen == old(clockSeen)
        && (clock != null ==> clock.count == old(clock.count))
      // A disciplined reader's marks are never dropped for want of room.
      ensures old(Disciplined()) ==> Disciplined() && old(marks) <= marks
    {
      hide Decode, InSlots;
      if head != next {
        if clock != null && clock.count != clockSeen {
          var at := clock.FetchAdd();
          clockSeen := at + 1;
          if old(Disciplined()) {
            RisingCount(marks, taken, head);
          }
          if |marks| >= MD_QUEUE_CAPACITY {
            marks := marks[1..];
          }
          marks := marks + [(head, at)];
        }
        starts := starts + {head};
        head := next;
        starting := true;
      }
    }

    /** Reads a published step that is not released. */
    method Read(seq_: nat) returns (ev: MdEvent)
      requires Valid() && tail <= seq_ < head
      ensures ev == log[seq_]
      ensures ev.first <==> seq_ in starts
    {
      hide Decode;
      ev := ReadSlot(slots[SlotOf(seq_)]);
    }

    /** A look at the header only: what kind of step it is and whether it opens a message. */
    method StepAt(seq_: nat) returns (step: MdStep, first: bool)
      requires Valid() && tail <= seq_ < head
      ensures step == log[seq_].step && (first <==> log[seq_].first)
    {
      var h := slots[SlotOf(seq_)][0];
      step, first := FromU8(((h >> 16) & 0xFF) as bv8), h >> 63 != 0;
    }

    /** The slots before `seq_` may be used again. */
    method Release(seq_: nat)
      requires Valid() && tail <= seq_ <= head
      modifies this`tail
      ensures Valid() && tail == seq_
      ensures old(Disciplined()) && seq_ <= taken ==> Disciplined()
    {
      tail := seq_;
    }

    /** Takes over the marks at positions below `upTo`, which is no later than the head. */
    method TakeMarks(upTo: nat, into: seq<Mark>) returns (into': seq<Mark>)
      requires Valid() && upTo <= head
      modifies this`marks, this`taken
      ensures Valid()
      ensures into' + marks == into + old(marks) && into <= into'
      ensures forall m <- into'[|into|..] :: m.0 < upTo
      ensures marks != [] ==> marks[0].0 >= upTo
      ensures taken == if upTo < old(taken) then old(taken) else upTo
      ensures old(Disciplined()) ==> Disciplined()
    {
      into' := into;
      while marks != [] && marks[0].0 < upTo
        invariant into' + marks == into + old(marks) && into <= into'
        invariant forall m <- into'[|into|..] :: m.0 < upTo
        invariant old(Disciplined()) ==> Disciplined()
        invariant taken == old(taken)
        decreases |marks|
      {
        into', marks := into' + [marks[0]], marks[1..];
      }
      if taken < upTo {
        taken := upTo;
      }
    }

    // ── Requests and catch-ups ──

    method Listened(id: nat) returns (on: bool)
      requires listened.Length == INSTRUMENT_WORDS
      ensures on <==> Has(listened[..], id)
    {
      on := BitOf(id) in listened[WordOf(id)];
    }

    method NeedsCatchUp(id: nat) returns (on: bool)
      requires resync.Length == INSTRUMENT_WORDS
      ensures on <==> Has(resync[..], id)
    {
      on := BitOf(id) in resync[WordOf(id)];
    }

    /** A client starts or stops a request: only the instruments with that one flag are concerned. */
    method Listen(id: nat, on: bool)
      requires Valid()
      modifies listened
      ensures Valid()
      ensures forall i: nat ::
        Has(listened[..], i) <==> if i % MAX_INSTRUMENTS == id % MAX_INSTRUMENTS then on else old(Has(listened[..], i))
    {
      hide Decode, InSlots, FirstsOk, WordOf, BitOf, Has;
      listened[WordOf(id)] := if on then listened[WordOf(id)] + {BitOf(id)} else listened[WordOf(id)] - {BitOf(id)};
      FlagSet(old(listened[..]), listened[..], id, on);
    }

    /** The instrument waits for a catch-up from now on, and the next scan will look. */
    method WantCatchUp(id: nat)
      requires Valid()
      modifies resync, this`resyncAny
      ensures Valid() && resyncAny
      ensures forall i: nat ::
        Has(resync[..], i) <==> i % MAX_INSTRUMENTS == id % MAX_INSTRUMENTS || old(Has(resync[..], i))
      ensures resync[..] == old(resync[..])[WordOf(id) := old(resync[WordOf(id)]) + {BitOf(id)}]
    {
      hide Decode, InSlots, FirstsOk, WordOf, BitOf, Has;
      resync[WordOf(id)] := resync[WordOf(id)] + {BitOf(id)};
      FlagSet(old(resync[..]), resync[..], id, true);
      resyncAny := true;
    }

    /**
      Adds a step if someone listens and nothing is pending for its instrument. If the ring has no
      room, the step is lost and a catch-up becomes pending.
    */
    method Offer(ev: MdEvent) returns (ok: bool)
      requires Valid()
      modifies this`next, this`tailSeen, this`starting, this`log, this`resyncAny, slots, resync
      ensures Valid()
      ensures ok <==> old(
        && Has(listened[..], ev.instrument as nat) && !Has(resync[..], ev.instrument as nat)
        && next < tail + MD_QUEUE_CAPACITY)
      ensures log == if ok then old(log) + [AsKept(ev, old(next) == head)] else old(log)
      ensures ok || !old(Has(listened[..], ev.instrument as nat)) || old(Has(resync[..], ev.instrument as nat))
              ==> resync[..] == old(resync[..]) && resyncAny == old(resyncAny)
      ensures !ok && old(Has(listened[..], ev.instrument as nat)) && !old(Has(resync[..], ev.instrument as nat)) ==>
        var id := ev.instrument as nat;
        resyncAny && resync[..] == old(resync[..])[WordOf(id) := old(resync[WordOf(id)]) + {BitOf(id)}]
    {
      hide Decode, InSlots, FirstsOk, AsKept;
      var id := ev.instrument as nat;
      var on := Listened(id);
      var waits := NeedsCatchUp(id);
      if !on || waits {
        return false;
      }
      ok := Push(ev);
      if !ok {
        WantCatchUp(id);
      }
    }

    /** The client, at work at the same time, releases some of the steps handed over. */
    method ClientReleases()
      requires Valid()
      modifies this`tail
      ensures Valid() && old(tail) <= tail
    {
      var n: nat :| tail <= n <= head;
      tail := n;
    }

    /** One instrument's turn in a scan; `seen` is the reader's position as the scan finds it. */
    method CatchUpOne(id: nat, make: nat -> MdEvent) returns (wrote: bool, seen: nat)
      requires Valid() && id < MAX_INSTRUMENTS && Has(listened[..], id)
      modifies this`next, this`tail, this`tailSeen, this`starting, this`log, this`resyncAny, slots, resync
      ensures Valid() && old(tail) <= seen <= tail
      // At or below half full it fits, however the client moves in between.
      ensures wrote <==> HalfFree(old(next), seen)
      ensures wrote ==> log == old(log) + [AsKept(make(id), old(next) == head)]
      ensures wrote ==> resyncAny == old(resyncAny) && resync[..] == old(resync[..])
      ensures !wrote ==> log == old(log) && resyncAny
      ensures !wrote ==> resync[..] == old(resync[..])[WordOf(id) := old(resync[WordOf(id)]) + {BitOf(id)}]
    {
      hide Decode, InSlots, FirstsOk, AsKept;
      ClientReleases();
      seen := tail;
      ClientReleases();
      wrote := false;
      if next - seen <= MD_QUEUE_CAPACITY / 2 {
        wrote := Push(make(id));
      }
      if !wrote {
        WantCatchUp(id);
      }
    }

    /** One word of the scan: take its flags, then one instrument after the other. */
    method ScanWord(w: nat, make: nat -> MdEvent, ghost s: Scan, ghost tails0: seq<nat>, ghost from: nat)
      returns (ghost tails: seq<nat>)
      requires Valid() && w < INSTRUMENT_WORDS
      requires |s.resync| == INSTRUMENT_WORDS && s.opens == (|s.log| == head) && head <= |s.log| && s.make == make
      requires Scanned(s, tails0, w, log, resync[..], resyncAny) && ScanAt(s, listened[..], tails0, 64 * w)
      requires from <= tail && Advancing(tails0, from, tail)
      modifies this`next, this`tail, this`tailSeen, this`starting, this`log, this`resyncAny, slots, resync
      ensures Valid() && old(tail) <= tail && Advancing(tails, from, tail)
      ensures Scanned(s, tails, w + 1, log, resync[..], resyncAny) && ScanAt(s, listened[..], tails, 64 * (w + 1))
    {
      hide Decode, InSlots, FirstsOk, AsKept, Wanted, CatchUps, Scanned, Has, WordOf, BitOf, ScanAt, Advancing,
        HalfFree;
      tails := tails0;
      var ids := resync[w];
      ScanTaken(s, listened[..], tails, w, log, resync[..], resyncAny);
      resync[w] := {};
      assert resync[..] == old(resync[..])[w := {}];
      ghost var k := 0;
      while ids != {}
        invariant Valid() && k <= 64 && old(tail) <= tail && Advancing(tails, from, tail)
        invariant forall b :: b in ids <==> b in s.resync[w] && k <= b
        invariant ScanAt(s, listened[..], tails, 64 * w + k)
        invariant Scanned(s, tails, w + 1, log, resync[..], resyncAny)
        decreases 64 - k
      {
        var b := LowestBit(ids);
        var id := 64 * w + b;
        forall x: nat | k <= x < b ensures x !in s.resync[w] {
          assert x !in ids;
        }
        ids := ids - {b};
        var on := Listened(id);
        if on {
          ghost var log0, resync0, any0, tail0 := log, resync[..], resyncAny, tail;
          ScanGrows(s, tails, w + 1, log, resync[..], resyncAny);
          ScanTurn(s, listened[..], tails, w, k, b, 0);
          var wrote, seen := CatchUpOne(id, make);
          ScanTurn(s, listened[..], tails, w, k, b, seen);
          ScanBit(s, tails, w, b, log0, resync0, any0, seen, log, resync[..], resyncAny);
          AdvancingMore(tails, from, tail0, seen, tail);
          tails := tails + [seen];
        } else {
          ScanTurn(s, listened[..], tails, w, k, b, 0);
        }
        k := b + 1;
      }
      forall x: nat | k <= x < 64 ensures x !in s.resync[w] {
        assert x !in ids;
      }
      ScanRest(s, listened[..], tails, w, k);
    }

    /**
      The scan, with the client reading at the same time: `tails` are the reader's positions as it finds
      them at the turns of the wanted instruments. Those served are written, `make` giving each step, and
      handed over as one message; the others wait again.
    */
    method WriteCatchUps(make: nat -> MdEvent) returns (ghost tails: seq<nat>)
      requires Valid()
      modifies this`next, this`tail, this`tailSeen, this`starting, this`log, this`resyncAny, slots, resync
      modifies this`head, this`clockSeen, this`marks, this`starts, clock
      ensures Valid() && old(tail) <= tail && Advancing(tails, old(tail), tail)
      ensures !old(resyncAny) ==> log == old(log) && head == old(head) && !resyncAny && resync[..] == old(resync[..])
      ensures old(resyncAny) ==>
        var wanted := Wanted(old(resync[..]), listened[..], 0);
        && |tails| == |wanted|
        && log == old(log) + CatchUps(Served(wanted, tails, old(next)), old(next == head), make)
        && head == next
        && (resyncAny <==> Unserved(wanted, tails, old(next)) != [])
        && forall v: nat :: v < INSTRUMENT_WORDS ==> FlagsAre(resync[v], v, Unserved(wanted, tails, old(next)))
      ensures old(Disciplined()) && tail <= taken ==> Disciplined() && old(marks) <= marks
    {
      hide Decode, InSlots, FirstsOk, AsKept, Wanted, CatchUps, Has, ScanAt, Advancing, Served, Unserved;
      tails := [];
      NoneAdvance(tail, tail);
      if !resyncAny {
        return;
      }
      resyncAny := false;
      ghost var wanted := Wanted(resync[..], listened[..], 0);
      ghost var s := Scan(resync[..], log, next == head, wanted, make);
      ScanStarts(s);
      ScanAtStart(s, listened[..]);
      var w: nat := 0;
      while w < INSTRUMENT_WORDS
        modifies this`next, this`tail, this`tailSeen, this`starting, this`log, this`resyncAny, slots, resync
        invariant Valid() && w <= INSTRUMENT_WORDS && old(tail) <= tail && Advancing(tails, old(tail), tail)
        invariant Scanned(s, tails, w, log, resync[..], resyncAny) && ScanAt(s, listened[..], tails, 64 * w)
      {
        tails := ScanWord(w, make, s, tails, old(tail));
        w := w + 1;
      }
      ScanEnds(s, listened[..], tails);
      Publish();
    }
  }
}

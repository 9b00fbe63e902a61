/** A market data step and its words in a slot of the ring (`MdEvent`, `header_word`). */
module MdEvents {
  import opened Basics
  import opened Bits

  /** Number of quote fields, and the mask of all of them. */
  const COUNT := 15
  const ALL: bv16 := 0x7FFF

  datatype MdStep = Daily | Time | Exchange | Last | Quote | CatchUp | Kept | KeptQuote | Again

  /** The discriminant of a step. */
  function ToU8(step: MdStep): bv8 {
    match step
    case Daily => 1
    case Time => 2
    case Exchange => 3
    case Last => 4
    case Quote => 5
    case CatchUp => 6
    case Kept => 7
    case KeptQuote => 8
    case Again => 9
  }

  function FromU8(v: bv8): MdStep {
    if v == 1 then Daily
    else if v == 2 then Time
    else if v == 3 then Exchange
    else if v == 4 then Last
    else if v == 5 then Quote
    else if v == 7 then Kept
    else if v == 8 then KeptQuote
    else if v == 9 then Again
    else CatchUp
  }

  type Values = v: seq<bv64> | |v| == COUNT witness seq(COUNT, _ => 0)

  /** A queued step. Its values are 64-bit words; the engine's are signed, kept bit for bit. */
  datatype MdEvent = MdEvent(
    instrument: bv32, step: MdStep, fields: bv16, halted: Option<bv8>, auto: bv8, seen: bv8, first: bool,
      values: Values)

  /** The parts of a header in their places. */
  function Packed(instrument: bv64, step: bv64, halted: bv64, auto: bv64, seen: bv64, fields: bv64, first: bv64): bv64 {
    instrument | (step << 16) | (halted << 24) | (auto << 32) | (seen << 40) | (fields << 48) | (first << 63)
  }

  function HeaderWord(instrument: bv32, step: MdStep, fields: bv16, halted: Option<bv8>, auto: bv8, seen: bv8,
      first: bool): bv64 {
    Packed(instrument as bv64 & 0xFFFF, ToU8(step) as bv64,
      match halted case None => 0xFF case Some(h) => (h & 3) as bv64,
           auto as bv64, seen as bv64, (fields & ALL) as bv64, if first then 1 else 0)
  }

  function Header(ev: MdEvent, first: bool): bv64 {
    HeaderWord(ev.instrument, ev.step, ev.fields, ev.halted, ev.auto, ev.seen, first)
  }

  function FieldsOf(h: bv64): bv16 {
    ((h >> 48) & 0x7FFF) as bv16
  }

  function FromHeader(h: bv64, values: Values): MdEvent {
    var halted := ((h >> 24) & 0xFF) as bv8;
    MdEvent(
      (h & 0xFFFF) as bv32,
      FromU8(((h >> 16) & 0xFF) as bv8),
      FieldsOf(h),
      if halted != 0xFF then Some(halted) else None,
      ((h >> 32) & 0xFF) as bv8,
      ((h >> 40) & 0xFF) as bv8,
      h >> 63 != 0,
      values)
  }

  lemma FieldsPart(ev: MdEvent, first: bool, values: Values)
    ensures FromHeader(Header(ev, first), values).fields == ev.fields & ALL
  {
  }

  /** What a header keeps of the step it was made from. */
  lemma HeaderRoundTrip(ev: MdEvent, first: bool, values: Values)
    ensures FromHeader(Header(ev, first), values)
         == MdEvent(ev.instrument & 0xFFFF, ev.step, ev.fields & ALL, Status(ev.halted), ev.auto, ev.seen, first,
           values)
  {
  }

  /** A header with every part in its place: from the top the mark, the fields, seen, auto, status, step, instrument. */
  lemma HeaderPlaces()
    ensures HeaderWord(0x1_1234, Quote, 0x8005, Some(6), 0xAB, 0xCD, true) == 0x8005_CDAB_0205_1234
    ensures HeaderWord(0x0042, Again, 0x7FF0, None, 0x01, 0x02, false) == 0x7FF0_0201_FF09_0042
  {
  }

  function Status(halted: Option<bv8>): Option<bv8> {
    match halted case None => None case Some(h) => Some(h & 3)
  }

  /** The fields of a step as the bits the slot loops run over. */
  function Set(fields: bv16): bv64 {
    (fields & ALL) as bv64
  }

  lemma SetFits(fields: bv16)
    ensures Fits(Set(fields), COUNT)
  {
  }

  /** Words of a slot: the header and one word per field at most. */
  const WORDS := 1 + COUNT

  /** `row` starts with the header of `ev`, and each set field's value stands at the field's rank after it. */
  ghost predicate Holds(row: seq<bv64>, ev: MdEvent, first: bool) {
    && |row| == WORDS
    && row[0] == Header(ev, first)
    && forall i: nat :: i < COUNT && Bit(Set(ev.fields), i) ==> row[1 + Rank(Set(ev.fields), i)] == ev.values[i]
  }

  /** The step a reader gets from the words of a slot. */
  ghost function Decode(row: seq<bv64>): MdEvent
    requires |row| == WORDS
  {
    var set_ := Set(FieldsOf(row[0]));
    FromHeader(row[0], seq(COUNT, i requires 0 <= i < COUNT => if Bit(set_, i) then row[1 + Rank(set_, i)] else 0))
  }

  function SetValues(set_: bv64, values: Values): Values {
    seq(COUNT, i requires 0 <= i < COUNT => if Bit(set_, i) then values[i] else 0)
  }

  /** A step as the queue keeps it: cut to what the header has room for, its unset fields 0. */
  function AsKept(ev: MdEvent, first: bool): MdEvent {
    MdEvent(ev.instrument & 0xFFFF, ev.step, ev.fields & ALL, Status(ev.halted), ev.auto, ev.seen, first,
            SetValues(Set(ev.fields), ev.values))
  }

  lemma FirstKept(ev: MdEvent, first: bool)
    ensures AsKept(ev, first).first == first
  {
  }

  lemma SetOfMasked(fields: bv16)
    ensures Set(fields & ALL) == Set(fields)
  {
  }

  /** Whatever the slot held before, the step read from it is the one written last. */
  lemma SlotRoundTrip(row: seq<bv64>, ev: MdEvent, first: bool)
    requires Holds(row, ev, first)
    ensures Decode(row) == AsKept(ev, first)
  {
    FieldsPart(ev, first, AsKept(ev, first).values);
    SetOfMasked(ev.fields);
    assert Decode(row).values == AsKept(ev, first).values;
    HeaderRoundTrip(ev, first, Decode(row).values);
  }

  /** A step gives no value for a field it does not set. */
  predicate NoSpareValues(set_: bv64, values: Values) {
    forall i | 0 <= i < COUNT :: Bit(set_, i) || values[i] == 0
  }

  /** The steps that come back as they were written. */
  predicate Storable(ev: MdEvent) {
    && ev.instrument <= 0xFFFF
    && (ev.halted.Some? ==> ev.halted.value < 4)
    && ev.fields & ALL == ev.fields
    && NoSpareValues(Set(ev.fields), ev.values)
  }

  /** A step reads back as written exactly when it is storable. */
  lemma ReadsBackAsWritten(ev: MdEvent)
    ensures AsKept(ev, ev.first) == ev <==> Storable(ev)
  {
  }

  /** A slot's words. */
  type Slot = row: seq<bv64> | |row| == WORDS witness seq(WORDS, _ => 0)

  /** The writing loop: over any earlier content, the header and then one word for each set field. */
  method WriteSlot(old_: Slot, ev: MdEvent, first: bool) returns (slot: Slot)
    ensures Holds(slot, ev, first)
  {
    hide Bit, Rank, Left, TrailingZeros, WithoutLowest, Set, Header;
    var header, fields, values := Header(ev, first), ev.fields, ev.values;
    slot := old_[0 := header];
    var left, w := Set(fields), 1;
    ghost var all, k := Set(fields), 0;
    SetFits(fields);
    AllLeft(all);
    while left != 0
      invariant k <= COUNT && w == 1 + Rank(all, k) && Left(all, left, k)
      invariant slot[0] == header
      invariant forall i: nat :: i < k && Bit(all, i) ==> slot[1 + Rank(all, i)] == values[i]
      decreases COUNT - k
    {
      var i := TrailingZeros(left);
      LowestRound(all, left, k, COUNT, i);
      left := WithoutLowest(left);
      slot := slot[w := values[i]];
      w := w + 1;
      forall m: nat | m < i && Bit(all, m) ensures Rank(all, m) < Rank(all, i) {
        RankMonotone(all, m, i);
      }
      k := i + 1;
    }
    forall i: nat | i < COUNT && Bit(all, i) ensures i < k {
      NoneLeft(all, k, i);
    }
  }

  lemma DecodedFrom(slot: Slot, values: Values)
    requires var all := Set(FieldsOf(slot[0]));
      forall i: nat :: i < COUNT ==> values[i] == if Bit(all, i) then slot[1 + Rank(all, i)] else 0
    ensures Decode(slot) == FromHeader(slot[0], values)
  {
  }

  /** The reading loop: each word after the header goes to the field whose rank it stands at. */
  method ReadSlot(slot: Slot) returns (ev: MdEvent)
    ensures ev == Decode(slot)
  {
    hide Bit, Rank, Left, TrailingZeros, WithoutLowest, Set, FieldsOf, FromHeader;
    var values := seq(COUNT, _ => 0);
    var left, w := Set(FieldsOf(slot[0])), 1;
    ghost var all, k := Set(FieldsOf(slot[0])), 0;
    SetFits(FieldsOf(slot[0]));
    AllLeft(all);
    while left != 0
      invariant k <= COUNT && w == 1 + Rank(all, k) && Left(all, left, k) && |values| == COUNT
      invariant forall i: nat :: i < COUNT ==> values[i] == if i < k && Bit(all, i) then slot[1 + Rank(all, i)] else 0
      decreases COUNT - k
    {
      var i := TrailingZeros(left);
      LowestRound(all, left, k, COUNT, i);
      left := WithoutLowest(left);
      values := values[i := slot[w]];
      w := w + 1;
      k := i + 1;
    }
    forall i: nat | i < COUNT && Bit(all, i) ensures i < k {
      NoneLeft(all, k, i);
    }
    ev := FromHeader(slot[0], values);
    DecodedFrom(slot, values);
  }

  // ── The words of a step on their own ──

  /** The number of words that follow a header. */
  function HeaderLen(h: bv64): nat {
    Rank(Set(FieldsOf(h)), COUNT)
  }

  lemma {:induction false} NoneSet(i: nat)
    ensures Rank(0, i) == 0
  {
    if i > 0 {
      NoBits(i - 1);
      NoneSet(i - 1);
    }
  }

  /** A header without fields has no words after it. */
  lemma HeaderAlone()
    ensures HeaderLen(0) == 0
  {
    assert Set(FieldsOf(0)) == 0;
    NoneSet(COUNT);
  }

  /** `words` are the header of `ev` and the values of its fields, and nothing else. */
  ghost predicate WordsOf(words: seq<bv64>, ev: MdEvent, first: bool) {
    && |words| == 1 + Rank(Set(ev.fields), COUNT)
    && words[0] == Header(ev, first)
    && forall i: nat :: i < COUNT && Bit(Set(ev.fields), i) && 1 + Rank(Set(ev.fields), i) < |words| ==>
      words[1 + Rank(Set(ev.fields), i)] == ev.values[i]
  }

  /** A header says how many words follow it. */
  lemma WordsLength(words: seq<bv64>, ev: MdEvent, first: bool)
    requires WordsOf(words, ev, first)
    ensures |words| == 1 + HeaderLen(words[0])
  {
  }

  /** Those words decide the step, whatever the rest of the slot holds. */
  lemma WordsDecode(words: seq<bv64>, ev: MdEvent, first: bool, slot: Slot)
    requires WordsOf(words, ev, first) && words <= slot
    ensures Decode(slot) == AsKept(ev, first)
  {
    hide Header, Decode, Bit, Rank;
    forall i: nat | i < COUNT && Bit(Set(ev.fields), i)
      ensures slot[1 + Rank(Set(ev.fields), i)] == ev.values[i]
    {
      RankMonotone(Set(ev.fields), i, COUNT);
    }
    SlotRoundTrip(slot, ev, first);
  }
}

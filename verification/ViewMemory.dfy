/**
  Relaxed, acquire and release accesses and fences, in the style of section 31.11
  ([atomics.fences]) of ISO/IEC 14882:2020, the memory model Rust adopts.

  Every location has its modification order: the sequence of messages written to it.
  The index of a message is its timestamp. A view gives, per location, the oldest
  message a thread may still read; a message carries the view of whoever wrote it, as
  far as the write released it. A relaxed load may return any message that is not older
  than the thread's view, so it may be stale; only an acquire load, or a later acquire
  fence, takes over the view of the message that was read.
*/
module ViewMemory {
  import opened Basics

  /** What was written, and the view the write released. */
  datatype Message<!Loc, Val> = Message(value: Val, view: Loc -> nat)

  /**
    A thread's views: `cur` bounds its next loads, `acq` is what an acquire fence would
    give it, `rel` is what its relaxed stores release (its view at the last release fence).
  */
  datatype Thread<!Loc> = Thread(cur: Loc -> nat, acq: Loc -> nat, rel: Loc -> nat)

  ghost function Join<Loc>(a: Loc -> nat, b: Loc -> nat): Loc -> nat {
    l => Max(a(l), b(l))
  }

  ghost function Seen<Loc>(view: Loc -> nat, loc: Loc, t: nat): Loc -> nat {
    l => if l == loc then Max(view(l), t) else view(l)
  }

  ghost predicate Below<Loc(!new)>(a: Loc -> nat, b: Loc -> nat) {
    forall l :: a(l) <= b(l)
  }

  /** A load of `loc` by `th` may return the message at timestamp `t`. */
  ghost predicate CanLoad<Loc, Val>(mem: Loc -> seq<Message<Loc, Val>>, th: Thread<Loc>, loc: Loc, t: nat) {
    th.cur(loc) <= t < |mem(loc)|
  }

  ghost function LoadRelaxed<Loc, Val>(mem: Loc -> seq<Message<Loc, Val>>, th: Thread<Loc>, loc: Loc,
      t: nat): Thread<Loc>
    requires CanLoad(mem, th, loc, t)
  {
    Thread(Seen(th.cur, loc, t), Join(Seen(th.acq, loc, t), mem(loc)[t].view), th.rel)
  }

  ghost function LoadAcquire<Loc, Val>(mem: Loc -> seq<Message<Loc, Val>>, th: Thread<Loc>, loc: Loc,
      t: nat): Thread<Loc>
    requires CanLoad(mem, th, loc, t)
  {
    var view := mem(loc)[t].view;
    Thread(Join(Seen(th.cur, loc, t), view), Join(Seen(th.acq, loc, t), view), th.rel)
  }

  ghost function FenceAcquire<Loc>(th: Thread<Loc>): Thread<Loc> {
    th.(cur := th.acq)
  }

  ghost function FenceRelease<Loc>(th: Thread<Loc>): Thread<Loc> {
    th.(rel := th.cur)
  }

  /**
    A store goes to the end of the modification order. The locations stored to here have
    one writer each, whose view of its own location is the last message (an invariant of
    every protocol below), so the end is the only place the store can take.
  */
  ghost function Append<Loc, Val>(mem: Loc -> seq<Message<Loc, Val>>, loc: Loc,
      m: Message<Loc, Val>): Loc -> seq<Message<Loc, Val>> {
    l => if l == loc then mem(l) + [m] else mem(l)
  }

  ghost function StoreRelaxed<Loc, Val>(mem: Loc -> seq<Message<Loc, Val>>, th: Thread<Loc>, loc: Loc,
      value: Val): Loc -> seq<Message<Loc, Val>> {
    Append(mem, loc, Message(value, Seen(th.rel, loc, |mem(loc)|)))
  }

  ghost function StoreRelease<Loc, Val>(mem: Loc -> seq<Message<Loc, Val>>, th: Thread<Loc>, loc: Loc,
      value: Val): Loc -> seq<Message<Loc, Val>> {
    Append(mem, loc, Message(value, Seen(th.cur, loc, |mem(loc)|)))
  }

  /** The storing thread has seen its own store, made in memory `mem`. */
  ghost function AfterStore<Loc, Val>(mem: Loc -> seq<Message<Loc, Val>>, th: Thread<Loc>, loc: Loc): Thread<Loc> {
    Thread(Seen(th.cur, loc, |mem(loc)|), Seen(th.acq, loc, |mem(loc)|), th.rel)
  }

  /** A load keeps the current view within what an acquire fence would give. */
  lemma LoadsKeepOrder<Loc(!new), Val>(mem: Loc -> seq<Message<Loc, Val>>, th: Thread<Loc>, loc: Loc, t: nat)
    requires CanLoad(mem, th, loc, t) && Below(th.cur, th.acq)
    ensures Below(LoadRelaxed(mem, th, loc, t).cur, LoadRelaxed(mem, th, loc, t).acq)
    ensures Below(LoadAcquire(mem, th, loc, t).cur, LoadAcquire(mem, th, loc, t).acq)
  {
  }

  /** What an acquire of the other thread's whole view gives. */
  ghost function Hears<Loc>(th: Thread<Loc>, other: Thread<Loc>): Thread<Loc> {
    Thread(Join(th.cur, other.cur), Join(th.acq, other.cur), th.rel)
  }

}

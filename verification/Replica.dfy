/**
  What a client makes of the queued steps: a quote per instrument, each step setting some of its fields.
  The client takes the steps message by message, the book updates of a message after its other steps.
*/
module Replica {
  import opened Basics
  import MdEvents

  const COUNT := MdEvents.COUNT

  type Quote = q: seq<int> | |q| == COUNT witness seq(COUNT, _ => 0)

  /** A step of one instrument: the fields it sets, with their values; `book` for a book update. */
  datatype Step = Step(id: nat, fields: set<nat>, values: Quote, book: bool)

  function Set(m: Quote, st: Step): Quote {
    seq(COUNT, i requires 0 <= i < COUNT => if i in st.fields then st.values[i] else m[i])
  }

  /** Every field. */
  function All(): set<nat> {
    {0, 1, 2, 3, 4, 5, 6, 7, 8, 9, 10, 11, 12, 13, 14}
  }

  /** The quote of `id` after `steps`, from the quote `m`. */
  function Fold(m: Quote, steps: seq<Step>, id: nat): Quote
    decreases |steps|
  {
    if steps == [] then m
    else
      var q, st := Fold(m, steps[..|steps| - 1], id), steps[|steps| - 1];
      if st.id == id then Set(q, st) else q
  }

  lemma {:induction false} FoldAppend(m: Quote, steps: seq<Step>, more: seq<Step>, id: nat)
    ensures Fold(m, steps + more, id) == Fold(Fold(m, steps, id), more, id)
    decreases |more|
  {
    var all := steps + more;
    if more == [] {
      assert all == steps;
    } else {
      assert all[..|all| - 1] == steps + more[..|more| - 1];
      FoldAppend(m, steps, more[..|more| - 1], id);
    }
  }

  /** The value that the last step of `id` with field `f` gives it. */
  function LastSet(steps: seq<Step>, id: nat, f: nat): Option<int>
    requires f < COUNT
    decreases |steps|
  {
    if steps == [] then None
    else
      var st := steps[|steps| - 1];
      if st.id == id && f in st.fields then Some(st.values[f]) else LastSet(steps[..|steps| - 1], id, f)
  }

  lemma {:induction false} FoldIsLastSet(m: Quote, steps: seq<Step>, id: nat, f: nat)
    requires f < COUNT
    ensures Fold(m, steps, id)[f] == if LastSet(steps, id, f).Some? then LastSet(steps, id, f).value else m[f]
    decreases |steps|
  {
    if steps != [] {
      FoldIsLastSet(m, steps[..|steps| - 1], id, f);
    }
  }

  lemma {:induction false} LastSetAppend(steps: seq<Step>, more: seq<Step>, id: nat, f: nat)
    requires f < COUNT
    ensures LastSet(steps + more, id, f) == if LastSet(more, id, f).Some? then LastSet(more, id, f)
      else LastSet(steps, id, f)
    decreases |more|
  {
    var all := steps + more;
    if more == [] {
      assert all == steps;
    } else {
      assert all[..|all| - 1] == steps + more[..|more| - 1];
      LastSetAppend(steps, more[..|more| - 1], id, f);
    }
  }

  // ── The order of the client ──

  /** The book updates of a message, or its other steps. */
  function Only(steps: seq<Step>, book: bool): seq<Step>
    decreases |steps|
  {
    if steps == [] then []
    else Only(steps[..|steps| - 1], book) + if steps[|steps| - 1].book == book then [steps[|steps| - 1]] else []
  }

  function ClientOrder(message: seq<Step>): seq<Step> {
    Only(message, false) + Only(message, true)
  }

  /** The quote of `id` after some messages, as the client takes them. */
  function FoldMessages(m: Quote, messages: seq<seq<Step>>, id: nat): Quote
    decreases |messages|
  {
    if messages == [] then m
    else Fold(FoldMessages(m, messages[..|messages| - 1], id), ClientOrder(messages[|messages| - 1]), id)
  }

  function Flatten(messages: seq<seq<Step>>): seq<Step>
    decreases |messages|
  {
    if messages == [] then [] else Flatten(messages[..|messages| - 1]) + messages[|messages| - 1]
  }

  /** A field that book updates of the message set keeps the value of the last of them in the message. */
  predicate Agrees(message: seq<Step>, id: nat, f: nat)
    requires f < COUNT
  {
    var books := LastSet(Only(message, true), id, f);
    books.Some? ==> books == LastSet(message, id, f)
  }

  /** The last message that sets the field agrees. */
  predicate LastAgrees(messages: seq<seq<Step>>, id: nat, f: nat)
    requires f < COUNT
    decreases |messages|
  {
    if messages == [] then true
    else if LastSet(messages[|messages| - 1], id, f).Some? then Agrees(messages[|messages| - 1], id, f)
    else LastAgrees(messages[..|messages| - 1], id, f)
  }

  lemma {:induction false} OnlyBooks(message: seq<Step>, id: nat, f: nat)
    requires f < COUNT
    ensures LastSet(Only(message, true), id, f).None? ==>
      LastSet(Only(message, false), id, f) == LastSet(message, id, f)
    ensures LastSet(Only(message, true), id, f).Some? ==> LastSet(message, id, f).Some?
    decreases |message|
  {
    if message != [] {
      var front, st := message[..|message| - 1], message[|message| - 1];
      OnlyBooks(front, id, f);
      LastSetAppend(Only(front, true), if st.book then [st] else [], id, f);
      LastSetAppend(Only(front, false), if st.book then [] else [st], id, f);
    }
  }

  lemma ClientSets(message: seq<Step>, id: nat, f: nat)
    requires f < COUNT
    ensures var books, last := LastSet(Only(message, true), id, f), LastSet(message, id, f);
      LastSet(ClientOrder(message), id, f) == (if books.Some? then books else last) && (books.Some? ==> last.Some?)
  {
    OnlyBooks(message, id, f);
    LastSetAppend(Only(message, false), Only(message, true), id, f);
  }

  /**
    Taking the book updates of each message last gives a field the value that the order of writing gives
    it, if and only if the last message that sets the field agrees.
  */
  lemma {:induction false} BooksLastIff(m: Quote, messages: seq<seq<Step>>, id: nat, f: nat)
    requires f < COUNT
    ensures FoldMessages(m, messages, id)[f] == Fold(m, Flatten(messages), id)[f] <==> LastAgrees(messages, id, f)
    decreases |messages|
  {
    if messages != [] {
      hide LastSet, Fold, ClientOrder, Only;
      var front, last := messages[..|messages| - 1], messages[|messages| - 1];
      BooksLastIff(m, front, id, f);
      FoldAppend(m, Flatten(front), last, id);
      FoldIsLastSet(Fold(m, Flatten(front), id), last, id, f);
      FoldIsLastSet(FoldMessages(m, front, id), ClientOrder(last), id, f);
      ClientSets(last, id, f);
    }
  }
}

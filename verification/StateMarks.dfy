/**
  `StateMark`: a count that stands for the state's unread changes. Its loads and exchanges are all
  relaxed; what orders them with the changes is the lock each piece of the state is kept under.
  A load may return an older value of the mark than the last one, as long as it is not older than
  what the thread knows of.
*/
module StateMarks {
  import opened Basics

  /**
    A piece of state under its lock: how often it was changed, and the newest mark known to those
    who held the lock. `views[k]` is what change number k + 1 knew of.
  */
  datatype Piece = Piece(changes: nat, view: nat, views: seq<nat>)

  /** A thread that changes a piece and notes it: `m` and `k` name the change. */
  datatype NotePc = Resting | Changed(m: nat, k: nat) | Unmarked(m: nat, k: nat) | Counted(m: nat, k: nat, at: nat)
  datatype Noter = Noter(pc: NotePc, view: nat)

  /** The client: before the exchange of a mark it loaded, or reading the pieces, those in `read` done. */
  datatype ReadPc = Away | Clearing(mark: nat, below: nat) | Reading(read: set<nat>)

  /** What the client last saw of a piece, and the newest mark it knew of then. */
  datatype Seen = Seen(changes: nat, view: nat)

  /** A note that is over: change `k` of piece `m`, and the time at which a mark stood for it. */
  datatype Noted = Noted(m: nat, k: nat, t: nat)

  /** `marks` are the values of the mark in the order they were written: 0, or a count plus one. */
  datatype State = State(
    marks: seq<nat>, clock: nat, pieces: seq<Piece>, noters: seq<Noter>,
    pc: ReadPc, view: nat, seen: seq<Seen>,
    noted: seq<Noted>, cleared: seq<(nat, nat)>)

  datatype Action =
    | Change(n: nat, m: nat)
    | NoteLoad(n: nat, t: nat)
    | NoteCount(n: nat)
    | NoteSets(n: nat)
    | NoteFails(n: nat, t: nat)
    | ReadBelow(below: nat, t: nat)
    | ClearSets
    | ClearFails(t: nat)
    | ReadPiece(m: nat)
    | ReadDone

  ghost predicate Init(s: State) {
    && s.marks == [0] && s.clock >= 1
    && (forall i :: 0 <= i < |s.pieces| ==> s.pieces[i] == Piece(0, 0, []))
    && (forall i :: 0 <= i < |s.noters| ==> s.noters[i] == Noter(Resting, 0))
    && s.pc == Away && s.view == 0
    && |s.seen| == |s.pieces| && (forall i :: 0 <= i < |s.seen| ==> s.seen[i] == Seen(0, 0))
    && s.noted == [] && s.cleared == []
  }

  ghost function Last(s: State): nat
    requires s.marks != []
  {
    s.marks[|s.marks| - 1]
  }

  ghost predicate Enabled(s: State, a: Action) {
    && s.marks != [] && |s.seen| == |s.pieces|
    && match a
       case Change(n, m) => n < |s.noters| && s.noters[n].pc.Resting? && m < |s.pieces|
       case NoteLoad(n, t) => n < |s.noters| && s.noters[n].pc.Changed? && s.noters[n].view <= t < |s.marks|
       case NoteCount(n) => n < |s.noters| && s.noters[n].pc.Unmarked?
       // An exchange that succeeds finds the last value; one that fails may have read an older one.
       case NoteSets(n) => n < |s.noters| && s.noters[n].pc.Counted? && Last(s) == 0
       case NoteFails(n, t) => n < |s.noters| && s.noters[n].pc.Counted? && s.noters[n].view <= t < |s.marks|
         && s.marks[t] != 0
       case ReadBelow(below, t) => s.pc.Away? && s.view <= t < |s.marks|
       case ClearSets => s.pc.Clearing? && Last(s) == s.pc.mark
       case ClearFails(t) => s.pc.Clearing? && s.view <= t < |s.marks| && s.marks[t] != s.pc.mark
       case ReadPiece(m) => s.pc.Reading? && m !in s.pc.read && m < |s.pieces|
       case ReadDone => s.pc.Reading? && forall m: nat :: m < |s.pieces| ==> m in s.pc.read
  }

  ghost function Apply(s: State, a: Action): State
    requires Enabled(s, a)
  {
    match a
    case Change(n, m) =>
      // Under the lock: the thread learns what the lock knows, and the lock what the thread knows.
      var piece := s.pieces[m];
      var view := Max(s.noters[n].view, piece.view);
      s.(pieces := s.pieces[m := Piece(piece.changes + 1, view, piece.views + [view])],
         noters := s.noters[n := Noter(Changed(m, piece.changes + 1), view)])
    // ── note ──
    case NoteLoad(n, t) =>
      var Changed(m, k) := s.noters[n].pc;
      if s.marks[t] == 0 then s.(noters := s.noters[n := Noter(Unmarked(m, k), t)])
      else s.(noters := s.noters[n := Noter(Resting, t)], noted := s.noted + [Noted(m, k, t)])
    case NoteCount(n) =>
      var Unmarked(m, k) := s.noters[n].pc;
      s.(clock := s.clock + 1, noters := s.noters[n := Noter(Counted(m, k, s.clock), s.noters[n].view)])
    case NoteSets(n) =>
      var Counted(m, k, at) := s.noters[n].pc;
      s.(marks := s.marks + [at + 1], noters := s.noters[n := Noter(Resting, |s.marks|)],
        noted := s.noted + [Noted(m, k, |s.marks|)])
    case NoteFails(n, t) =>
      var Counted(m, k, at) := s.noters[n].pc;
      s.(noters := s.noters[n := Noter(Resting, t)], noted := s.noted + [Noted(m, k, t)])
    // ── read_below, then the state ──
    case ReadBelow(below, t) =>
      s.(view := t,
         pc := if s.marks[t] != 0 && s.marks[t] - 1 < below then Clearing(s.marks[t], below) else Reading({}))
    case ClearSets =>
      s.(marks := s.marks + [0], view := |s.marks|, pc := Reading({}), cleared := s.cleared + [(s.pc.mark, s.pc.below)])
    case ClearFails(t) =>
      s.(view := t, pc := Reading({}))
    case ReadPiece(m) =>
      var view := Max(s.view, s.pieces[m].view);
      s.(view := view, pieces := s.pieces[m := s.pieces[m].(view := view)],
         seen := s.seen[m := Seen(s.pieces[m].changes, view)], pc := Reading(s.pc.read + {m}))
    case ReadDone =>
      s.(pc := Away)
  }

  // ── The invariant ──

  /** Later changes of a piece know of every mark the client knew of when it read the piece. */
  ghost predicate PieceInv(piece: Piece, seen: Seen, top: nat) {
    && |piece.views| == piece.changes
    && seen.changes <= piece.changes && seen.view <= piece.view < top
    && forall k :: seen.changes <= k < |piece.views| ==> seen.view <= piece.views[k]
  }

  /** A thread about to note change `k` of piece `m` knows of what the change knew. */
  ghost predicate NoterInv(s: State, x: Noter) {
    && x.view < |s.marks|
    && (!x.pc.Resting? ==>
        x.pc.m < |s.pieces| && 1 <= x.pc.k <= |s.pieces[x.pc.m].views| && s.pieces[x.pc.m].views[x.pc.k - 1] <= x.view)
  }

  ghost predicate NotedInv(s: State, x: Noted) {
    && x.m < |s.pieces| && 1 <= x.k <= |s.pieces[x.m].views|
    && x.t < |s.marks| && s.marks[x.t] != 0 && s.pieces[x.m].views[x.k - 1] <= x.t
  }

  ghost predicate Inv(s: State) {
    && s.marks != [] && s.marks[0] == 0 && |s.seen| == |s.pieces| && s.view < |s.marks|
    && (forall m :: 0 <= m < |s.pieces| ==> PieceInv(s.pieces[m], s.seen[m], |s.marks|))
    && (forall n :: 0 <= n < |s.noters| ==> NoterInv(s, s.noters[n]))
    && (forall x :: 0 <= x < |s.noted| ==> NotedInv(s, s.noted[x]))
    && (s.pc.Clearing? ==> s.pc.mark != 0 && s.pc.mark - 1 < s.pc.below)
    // Only the client clears the mark, so it knows of a mark that is clear.
    && (Last(s) == 0 ==> s.view == |s.marks| - 1)
    // With the mark cleared, a piece the client does not have to read any more was read after the clear.
    && (Last(s) == 0 ==> forall m: nat :: m < |s.pieces| && (s.pc.Reading? ==> m in s.pc.read) ==>
        |s.marks| - 1 <= s.seen[m].view)
    && (forall c <- s.cleared :: c.0 != 0 && c.0 - 1 < c.1)
  }

  lemma InitInv(s: State)
    requires Init(s)
    ensures Inv(s)
  {
  }

  lemma PiecesStep(s: State, a: Action)
    requires Inv(s) && Enabled(s, a)
    ensures var s' := Apply(s, a);
      && s'.marks != [] && s'.marks[0] == 0 && |s'.seen| == |s'.pieces| && s'.view < |s'.marks|
      && forall m :: 0 <= m < |s'.pieces| ==> PieceInv(s'.pieces[m], s'.seen[m], |s'.marks|)
  {
  }

  lemma NotersStep(s: State, a: Action)
    requires Inv(s) && Enabled(s, a)
    ensures var s' := Apply(s, a); forall n :: 0 <= n < |s'.noters| ==> NoterInv(s', s'.noters[n])
  {
    hide NotedInv;
  }

  lemma NotedStep(s: State, a: Action)
    requires Inv(s) && Enabled(s, a)
    ensures var s' := Apply(s, a); forall x :: 0 <= x < |s'.noted| ==> NotedInv(s', s'.noted[x])
  {
  }

  lemma StepInv(s: State, a: Action)
    requires Inv(s) && Enabled(s, a)
    ensures Inv(Apply(s, a))
  {
    PiecesStep(s, a);
    NotersStep(s, a);
    NotedStep(s, a);
    hide PieceInv, NoterInv, NotedInv;
  }

  // ── Runs ──

  /** The actions `acts`, each enabled in turn, lead from `s` to `s'`. */
  ghost predicate Runs(s: State, acts: seq<Action>, s': State)
    decreases |acts|
  {
    if acts == [] then s' == s else Enabled(s, acts[0]) && Runs(Apply(s, acts[0]), acts[1..], s')
  }

  lemma {:induction false} RunInv(s: State, acts: seq<Action>, s': State)
    requires Inv(s) && Runs(s, acts, s')
    ensures Inv(s')
    decreases |acts|
  {
    hide Inv, Enabled, Apply;
    if acts != [] {
      StepInv(s, acts[0]);
      RunInv(Apply(s, acts[0]), acts[1..], s');
    }
  }

  /**
    No noted change is lost, in any interleaving and whatever older marks the loads return: once its
    note is over, a change is marked, or the client has read the piece since, or it is about to. And
    a mark is only ever cleared by a client whose bound is above its count.
  */
  lemma NoChangeIsLost(s0: State, acts: seq<Action>, s: State, x: Noted)
    requires Init(s0) && Runs(s0, acts, s) && x in s.noted
    ensures s.marks != [] && x.m < |s.seen| == |s.pieces|
    ensures Last(s) != 0 || x.k <= s.seen[x.m].changes || (s.pc.Reading? && x.m !in s.pc.read)
    ensures forall c <- s.cleared :: c.0 != 0 && c.0 - 1 < c.1
  {
    InitInv(s0);
    RunInv(s0, acts, s);
    var i :| 0 <= i < |s.noted| && s.noted[i] == x;
    assert NotedInv(s, s.noted[i]);
    var m, k := x.m, x.k;
    assert PieceInv(s.pieces[m], s.seen[m], |s.marks|);
    // A change after the client read the piece knew of every mark the client knew of then.
    assert s.seen[m].changes < k ==> s.seen[m].view <= s.pieces[m].views[k - 1] <= x.t;
  }

  // ── A change gets through ──

  lemma {:induction false} JoinRuns(s: State, acts: seq<Action>, t: State, more: seq<Action>, s': State)
    requires Runs(s, acts, t) && Runs(t, more, s')
    ensures Runs(s, acts + more, s')
    decreases |acts|
  {
    hide Enabled, Apply;
    if acts == [] {
      assert acts + more == more;
    } else {
      assert (acts + more)[1..] == acts[1..] + more;
      JoinRuns(Apply(s, acts[0]), acts[1..], t, more, s');
    }
  }

  lemma OneStep(s: State, a: Action)
    requires Enabled(s, a)
    ensures Runs(s, [a], Apply(s, a))
  {
    assert [a][1..] == [];
  }

  /** The note of change `k` of piece `m` is the next one that is over. */
  ghost predicate OneMoreNoted(noted: seq<Noted>, noted': seq<Noted>, m: nat, k: nat) {
    |noted'| == |noted| + 1 && noted <= noted' && noted'[|noted|].m == m && noted'[|noted|].k == k
  }

  /** A thread changes piece `m` and notes it while nobody else does anything. */
  lemma ChangeIsNoted(s: State, n: nat, m: nat) returns (acts: seq<Action>, s': State)
    requires Inv(s) && n < |s.noters| && s.noters[n].pc.Resting? && m < |s.pieces|
    ensures Runs(s, acts, s') && Inv(s') && n < |s'.noters| && s'.noters[n].pc.Resting?
    ensures |s'.pieces| == |s.pieces| && s'.pieces[m].changes == s.pieces[m].changes + 1 && s'.pc == s.pc
    ensures OneMoreNoted(s.noted, s'.noted, m, s.pieces[m].changes + 1)
    ensures Last(s') == if Last(s) != 0 then Last(s) else s.clock + 1
    ensures s'.clock == if Last(s) != 0 then s.clock else s.clock + 1
  {
    hide Inv, Runs;
    InvFacts(s, n);
    var a := Change(n, m);
    StepInv(s, a);
    OneStep(s, a);
    var s1 := Apply(s, a);
    var more;
    more, s' := NoteEnds(s1, n);
    JoinRuns(s, [a], s1, more, s');
    acts := [a] + more;
  }

  /** A note that has begun comes to its end: with a mark that stands, or with one of its own. */
  lemma NoteEnds(s: State, n: nat) returns (acts: seq<Action>, s': State)
    requires Inv(s) && n < |s.noters| && !s.noters[n].pc.Resting?
    ensures Runs(s, acts, s') && Inv(s') && n < |s'.noters| && s'.noters[n].pc.Resting?
    ensures s'.pieces == s.pieces && s'.pc == s.pc && s'.seen == s.seen
    ensures OneMoreNoted(s.noted, s'.noted, s.noters[n].pc.m, s.noters[n].pc.k) && Last(s') != 0
    ensures s'.clock == s.clock +
      if s.noters[n].pc.Unmarked? || (s.noters[n].pc.Changed? && Last(s) == 0) then 1 else 0
    ensures Last(s') == if Last(s) != 0 then Last(s)
      else 1 + if s.noters[n].pc.Counted? then s.noters[n].pc.at else s.clock
    decreases match s.noters[n].pc case Changed(_, _) => 3 case Unmarked(_, _) => 2 case _ => 1
  {
    hide Inv, Runs;
    InvFacts(s, n);
    var pc, t := s.noters[n].pc, |s.marks| - 1;
    var a := if pc.Unmarked? then NoteCount(n)
      else if pc.Changed? then NoteLoad(n, t)
      else if Last(s) == 0 then NoteSets(n) else NoteFails(n, t);
    StepInv(s, a);
    OneStep(s, a);
    acts, s' := [a], Apply(s, a);
    if !s'.noters[n].pc.Resting? {
      var more, s2 := NoteEnds(s', n);
      JoinRuns(s, acts, s', more, s2);
      acts, s' := acts + more, s2;
    }
  }

  lemma InvFacts(s: State, n: nat)
    requires Inv(s) && n < |s.noters|
    ensures s.marks != [] && |s.seen| == |s.pieces| && s.view < |s.marks| && NoterInv(s, s.noters[n])
  {
  }

  /** The client reads the pieces left, from `m` on, and is done. */
  lemma {:induction false} PiecesRead(s: State, m: nat) returns (acts: seq<Action>, s': State)
    requires Inv(s) && s.pc.Reading? && m <= |s.pieces| && |s.seen| == |s.pieces|
    requires forall i: nat :: i < m ==> i in s.pc.read
    ensures Runs(s, acts, s') && Inv(s') && s'.pc.Away? && s'.marks == s.marks
    ensures |s'.pieces| == |s.pieces| == |s'.seen|
    ensures forall i: nat :: i < |s.pieces| ==> s'.pieces[i].changes == s.pieces[i].changes
    ensures forall i: nat :: i < |s.pieces| ==>
      s'.seen[i].changes == if i in s.pc.read then s.seen[i].changes else s.pieces[i].changes
    decreases |s.pieces| - m
  {
    hide Runs;
    if m < |s.pieces| && m in s.pc.read {
      hide Inv;
      acts, s' := PiecesRead(s, m + 1);
    } else {
      var a := if m < |s.pieces| then ReadPiece(m) else ReadDone;
      StepInv(s, a);
      OneStep(s, a);
      hide Inv;
      s' := Apply(s, a);
      acts := [a];
      if m < |s.pieces| {
        var more, t := PiecesRead(s', m + 1);
        JoinRuns(s, acts, s', more, t);
        acts, s' := acts + more, t;
      }
    }
  }

  /** A reading that has begun comes to its end. */
  lemma ReadingEnds(s: State) returns (acts: seq<Action>, s': State)
    requires Inv(s) && !s.pc.Away?
    ensures Runs(s, acts, s') && Inv(s') && s'.pc.Away? && |s'.pieces| == |s.pieces| == |s'.seen| == |s.seen|
    ensures Last(s') == if s.pc.Clearing? && s.pc.mark == Last(s) then 0 else Last(s)
    ensures forall i: nat :: i < |s.pieces| ==> s'.pieces[i].changes == s.pieces[i].changes
    ensures forall i: nat :: i < |s.pieces| ==>
      s'.seen[i].changes == if s.pc.Reading? && i in s.pc.read then s.seen[i].changes else s.pieces[i].changes
  {
    hide Runs;
    if s.pc.Clearing? {
      var a := if s.pc.mark == Last(s) then ClearSets else ClearFails(|s.marks| - 1);
      StepInv(s, a);
      OneStep(s, a);
      hide Inv;
      acts, s' := PiecesRead(Apply(s, a), 0);
      JoinRuns(s, [a], Apply(s, a), acts, s');
      acts := [a] + acts;
    } else {
      hide Inv;
      acts, s' := PiecesRead(s, 0);
    }
  }

  /**
    A client with a bound above the mark's count clears the mark and reads every piece; with one at or
    below it, it leaves the mark and reads them all the same.
  */
  lemma ClientReads(s: State, below: nat) returns (acts: seq<Action>, s': State)
    requires Inv(s) && s.pc.Away?
    ensures Runs(s, acts, s') && Inv(s') && s'.pc.Away?
    ensures Last(s') == if Last(s) != 0 && Last(s) - 1 < below then 0 else Last(s)
    ensures |s'.pieces| == |s.pieces| == |s'.seen|
    ensures forall i: nat :: i < |s.pieces| ==> s'.seen[i].changes == s'.pieces[i].changes == s.pieces[i].changes
  {
    hide Runs;
    var a := ReadBelow(below, |s.marks| - 1);
    StepInv(s, a);
    OneStep(s, a);
    hide Inv;
    acts, s' := ReadingEnds(Apply(s, a));
    JoinRuns(s, [a], Apply(s, a), acts, s');
    acts := [a] + acts;
  }

  /**
    A change can get through: from every reachable state with a thread at rest and the client away, a
    run in which the thread changes a piece and notes it, and the client, with any bound above the mark
    that stands then, clears the mark and has read that change.
  */
  lemma AChangeGoesThrough(s0: State, acts0: seq<Action>, s: State, n: nat, m: nat, below: nat)
    returns (acts: seq<Action>, s1: State, acts1: seq<Action>, s': State)
    requires Init(s0) && Runs(s0, acts0, s) && n < |s.noters| && s.noters[n].pc.Resting? && m < |s.pieces|
    requires s.pc.Away? && s.marks != [] && (if Last(s) != 0 then Last(s) - 1 else s.clock) < below
    ensures Runs(s, acts, s1) && Runs(s1, acts1, s')
    ensures s1.marks != [] && Last(s1) != 0 && OneMoreNoted(s.noted, s1.noted, m, s.pieces[m].changes + 1)
    ensures s'.pc.Away? && s'.marks != [] && Last(s') == 0
    ensures m < |s'.seen| && s'.seen[m].changes == s.pieces[m].changes + 1
    ensures n < |s1.noters| && s1.noters[n].pc.Resting?
  {
    InitInv(s0);
    RunInv(s0, acts0, s);
    hide Inv, Runs, Init;
    acts, s1 := ChangeIsNoted(s, n, m);
    acts1, s' := ClientReads(s1, below);
  }
}

/**
  Giving the answers of several sources one at a time, each time the one with the lowest count among the
  fronts. Answers are named by their counts; a source need not be in the order of the counts.
*/
module Merge {
  import opened Basics

  /** Source `k` has the lowest front, and it is below `b`. */
  ghost predicate IsLowest(sources: seq<seq<nat>>, k: nat, b: nat) {
    && k < |sources| && sources[k] != [] && sources[k][0] < b
    && forall l :: 0 <= l < |sources| && sources[l] != [] ==> sources[k][0] <= sources[l][0]
  }

  /** The front `x` of source `k` is given. */
  ghost predicate Gives(sources: seq<seq<nat>>, b: nat, k: nat, x: nat, left: seq<seq<nat>>) {
    IsLowest(sources, k, b) && x == sources[k][0] && left == sources[k := sources[k][1..]]
  }

  /** From `sources`, `out` was given and `left` is left. */
  ghost predicate Gave(sources: seq<seq<nat>>, b: nat, out: seq<nat>, left: seq<seq<nat>>)
    decreases |out|
  {
    if out == [] then left == sources
    else
      var front, x := out[..|out| - 1], out[|out| - 1];
      exists mid, k :: Gave(sources, b, front, mid) && Gives(mid, b, k, x, left)
  }

  /** No front is below `b`. */
  ghost predicate Done(left: seq<seq<nat>>, b: nat) {
    forall k :: 0 <= k < |left| && left[k] != [] ==> b <= left[k][0]
  }

  lemma GaveOne(sources: seq<seq<nat>>, b: nat, out: seq<nat>, mid: seq<seq<nat>>, k: nat)
    requires Gave(sources, b, out, mid) && IsLowest(mid, k, b)
    ensures Gave(sources, b, out + [mid[k][0]], mid[k := mid[k][1..]])
  {
    var more := out + [mid[k][0]];
    var front, x := more[..|more| - 1], more[|more| - 1];
    assert front == out && x == mid[k][0];
    assert Gave(sources, b, front, mid) && Gives(mid, b, k, x, mid[k := mid[k][1..]]);
  }

  /** A run of one source: all below what the other sources have in front. */
  lemma {:induction false} GaveRun(sources: seq<seq<nat>>, b: nat, out: seq<nat>, mid: seq<seq<nat>>, k: nat,
                                   given: seq<nat>, rest: seq<nat>, until: nat)
    requires Gave(sources, b, out, mid) && k < |mid| && mid[k] == given + rest && until <= b
    requires forall x <- given :: x < until
    requires forall l :: 0 <= l < |mid| && l != k && mid[l] != [] ==> until <= mid[l][0]
    ensures Gave(sources, b, out + given, mid[k := rest])
    decreases |given|
  {
    if given == [] {
      assert out + given == out && given + rest == rest;
      assert mid[k := rest] == mid;
    } else {
      assert mid[k][0] == given[0] && given[0] in given && mid[k][1..] == given[1..] + rest;
      assert forall x <- given[1..] :: x in given;
      GaveOne(sources, b, out, mid, k);
      var mid' := mid[k := mid[k][1..]];
      GaveRun(sources, b, out + [given[0]], mid', k, given[1..], rest, until);
      assert out + [given[0]] + given[1..] == out + given;
      assert mid'[k := rest] == mid[k := rest];
    }
  }

  // ── What is given ──

  /** No two sources have an answer with one count. */
  ghost predicate Apart(sources: seq<seq<nat>>) {
    forall k, l, i, j :: 0 <= k < l < |sources| && 0 <= i < |sources[k]| && 0 <= j < |sources[l]| ==>
      sources[k][i] != sources[l][j]
  }

  ghost predicate AllAscending(sources: seq<seq<nat>>) {
    forall k :: 0 <= k < |sources| ==> Ascending(sources[k])
  }

  ghost predicate Has(sources: seq<seq<nat>>, x: nat) {
    exists k :: 0 <= k < |sources| && x in sources[k]
  }

  lemma GivesKeeps(mid: seq<seq<nat>>, b: nat, k: nat, x: nat, left: seq<seq<nat>>)
    requires Gives(mid, b, k, x, left)
    ensures |left| == |mid| && (Apart(mid) ==> Apart(left)) && (AllAscending(mid) ==> AllAscending(left))
    ensures forall y: nat :: Has(mid, y) <==> y == x || Has(left, y)
  {
    assert mid[k] == [x] + left[k];
    forall y: nat ensures Has(mid, y) <==> y == x || Has(left, y) {
      if Has(mid, y) {
        var l :| 0 <= l < |mid| && y in mid[l];
        assert l != k ==> y in left[l];
        assert l == k ==> y == x || y in left[k];
      }
      if l :| 0 <= l < |left| && y in left[l] {
        assert y in mid[l];
      }
      assert x in mid[k];
    }
    if Apart(mid) {
      forall l, m, i, j | 0 <= l < m < |left| && 0 <= i < |left[l]| && 0 <= j < |left[m]|
        ensures left[l][i] != left[m][j]
      {
        assert left[l][i] == mid[l][if l == k then i + 1 else i] && left[m][j] == mid[m][if m == k then j + 1 else j];
      }
    }
  }

  /** Everything of the sources is given or left, and the sources keep what they were. */
  lemma {:induction false} GaveKeeps(sources: seq<seq<nat>>, b: nat, out: seq<nat>, left: seq<seq<nat>>)
    requires Gave(sources, b, out, left)
    ensures |left| == |sources| && (forall x <- out :: x < b)
    ensures (Apart(sources) ==> Apart(left)) && (AllAscending(sources) ==> AllAscending(left))
    ensures forall y: nat :: Has(sources, y) <==> y in out || Has(left, y)
    decreases |out|
  {
    if out != [] {
      hide Apart, AllAscending, Has, Gives;
      var front, x := out[..|out| - 1], out[|out| - 1];
      var mid, k := LastGiven(sources, b, out, left);
      hide Gave;
      GaveKeeps(sources, b, front, mid);
      GivesKeeps(mid, b, k, x, left);
      GivenIsBelow(mid, b, k, x, left);
      assert out == front + [x];
    }
  }

  lemma GivenIsBelow(mid: seq<seq<nat>>, b: nat, k: nat, x: nat, left: seq<seq<nat>>)
    requires Gives(mid, b, k, x, left)
    ensures x < b && Has(mid, x)
  {
    assert mid[k][0] in mid[k];
  }

  /** With all sources in order, what is given is lower than all that is left. */
  lemma LowestIsLowest(mid: seq<seq<nat>>, b: nat, k: nat, x: nat, left: seq<seq<nat>>)
    requires Gives(mid, b, k, x, left) && Apart(mid) && AllAscending(mid)
    ensures forall y: nat :: Has(left, y) ==> x < y
  {
    forall y: nat | Has(left, y) ensures x < y {
      var l :| 0 <= l < |left| && y in left[l];
      var j :| 0 <= j < |left[l]| && left[l][j] == y;
      assert l == k ==> left[l][j] == mid[l][j + 1];
      assert l != k ==> mid[l][0] <= mid[l][j] && mid[l][0] != x;
    }
  }

  /** With all sources in order, what is given is in order. */
  lemma {:induction false} GaveAscending(sources: seq<seq<nat>>, b: nat, out: seq<nat>, left: seq<seq<nat>>)
    requires Gave(sources, b, out, left) && Apart(sources) && AllAscending(sources)
    ensures Ascending(out) && forall x <- out, y: nat :: Has(left, y) ==> x < y
    decreases |out|
  {
    if out != [] {
      hide Apart, AllAscending, Has, Gives, Ascending;
      var front, x := out[..|out| - 1], out[|out| - 1];
      var mid, k := LastGiven(sources, b, out, left);
      GaveAscending(sources, b, front, mid);
      GaveKeeps(sources, b, front, mid);
      LowestIsLowest(mid, b, k, x, left);
      GivesKeeps(mid, b, k, x, left);
      GivenIsBelow(mid, b, k, x, left);
      AscendingMore(front, x);
      assert out == front + [x];
    } else {
      NoneAscend();
    }
  }

  lemma NoneAscend()
    ensures Ascending([])
  {
  }

  // ── One source out of order ──

  /** The answers of `out` that are of `source`, in their order. */
  ghost function Part(out: seq<nat>, source: seq<nat>): seq<nat>
    decreases |out|
  {
    if out == [] then []
    else Part(out[..|out| - 1], source) + if out[|out| - 1] in source then [out[|out| - 1]] else []
  }

  lemma {:induction false} PartAscending(out: seq<nat>, source: seq<nat>)
    requires Ascending(out)
    ensures Ascending(Part(out, source)) && forall x <- Part(out, source) :: x in out
    decreases |out|
  {
    if out != [] {
      var front, x := out[..|out| - 1], out[|out| - 1];
      PartAscending(front, source);
      assert forall y <- front :: y < x;
      AscendingMore(Part(front, source), x);
    }
  }

  /** A source is given in its own order. */
  lemma {:induction false} GavePart(sources: seq<seq<nat>>, b: nat, out: seq<nat>, left: seq<seq<nat>>, o: nat)
    requires Gave(sources, b, out, left) && Apart(sources) && o < |sources|
    ensures |left| == |sources| && Part(out, sources[o]) + left[o] == sources[o]
    ensures forall l, y :: 0 <= l < |left| && y in left[l] ==> y in sources[l]
    decreases |out|
  {
    if out != [] {
      hide Gave;
      var front, x := out[..|out| - 1], out[|out| - 1];
      var mid, k := LastGiven(sources, b, out, left);
      GavePart(sources, b, front, mid, o);
      assert mid[k] == [x] + left[k];
      assert x in mid[k] && x in sources[k];
      InOneSource(sources, k, o, x);
    } else {
      assert Part(out, sources[o]) + left[o] == left[o];
    }
  }

  lemma LastGiven(sources: seq<seq<nat>>, b: nat, out: seq<nat>, left: seq<seq<nat>>)
    returns (mid: seq<seq<nat>>, k: nat)
    requires Gave(sources, b, out, left) && out != []
    ensures Gave(sources, b, out[..|out| - 1], mid) && Gives(mid, b, k, out[|out| - 1], left)
  {
    var front, x := out[..|out| - 1], out[|out| - 1];
    mid, k :| Gave(sources, b, front, mid) && Gives(mid, b, k, x, left);
  }

  lemma InOneSource(sources: seq<seq<nat>>, k: nat, o: nat, x: nat)
    requires Apart(sources) && k < |sources| && o < |sources| && x in sources[k]
    ensures x in sources[o] <==> k == o
  {
    var i :| 0 <= i < |sources[k]| && sources[k][i] == x;
    if x in sources[o] {
      var j :| 0 <= j < |sources[o]| && sources[o][j] == x;
    }
  }

  lemma NothingBelow(xs: seq<nat>, b: nat)
    requires (forall i :: 0 <= i < |xs| ==> xs[i] < b) && (xs != [] ==> b <= xs[0])
    ensures xs == []
  {
  }

  /**
    When all sources but one are in order, and all of that one is below the bound, what is given is in
    order if and only if that source is.
  */
  lemma OneSourceIff(sources: seq<seq<nat>>, b: nat, out: seq<nat>, left: seq<seq<nat>>, o: nat)
    requires Gave(sources, b, out, left) && Done(left, b) && Apart(sources) && o < |sources|
    requires forall k :: 0 <= k < |sources| && k != o ==> Ascending(sources[k])
    requires forall x <- sources[o] :: x < b
    ensures |left| == |sources| && left[o] == []
    ensures Ascending(out) <==> Ascending(sources[o])
  {
    hide Gave;
    GavePart(sources, b, out, left, o);
    forall i | 0 <= i < |left[o]| ensures left[o][i] < b {
      assert left[o][i] in left[o];
    }
    NothingBelow(left[o], b);
    assert Part(out, sources[o]) + [] == Part(out, sources[o]);
    if Ascending(out) {
      PartAscending(out, sources[o]);
    }
    if Ascending(sources[o]) {
      assert AllAscending(sources);
      GaveAscending(sources, b, out, left);
    }
  }

  // ── Giving comes to an end ──

  /** The source with the lowest front, if any. */
  lemma {:induction false} LowestFront(sources: seq<seq<nat>>, n: nat) returns (k: nat)
    requires n <= |sources| && exists l :: 0 <= l < n && sources[l] != []
    ensures k < n && sources[k] != [] && forall l :: 0 <= l < n && sources[l] != [] ==> sources[k][0] <= sources[l][0]
  {
    if forall l :: 0 <= l < n - 1 ==> sources[l] == [] {
      k := n - 1;
    } else {
      k := LowestFront(sources, n - 1);
      if sources[n - 1] != [] && sources[n - 1][0] < sources[k][0] {
        k := n - 1;
      }
    }
  }

  /** Whatever the sources hold, giving goes on until no front is below the bound. */
  lemma {:induction false} GivingEnds(sources: seq<seq<nat>>, b: nat, out: seq<nat>, mid: seq<seq<nat>>)
    returns (out': seq<nat>, left: seq<seq<nat>>)
    requires Gave(sources, b, out, mid)
    ensures Gave(sources, b, out', left) && Done(left, b)
    decreases Total(mid)
  {
    hide Gave;
    out', left := out, mid;
    if !Done(mid, b) {
      var k := LowestFront(mid, |mid|);
      TotalAfter(mid, k, mid[k][1..]);
      GaveOne(sources, b, out, mid, k);
      out', left := GivingEnds(sources, b, out + [mid[k][0]], mid[k := mid[k][1..]]);
    }
  }
}

/** Bits of machine words, and the lowest-bit loop `i = trailing_zeros(s); s &= s - 1`. */
module Bits {

  /** Whether bit `i` of `s` is set. */
  predicate Bit(s: bv64, i: nat)
    decreases i
  {
    if i == 0 then s & 1 == 1 else Bit(s >> 1, i - 1)
  }

  /** Whether `s` has no bit at `n` or above. */
  predicate Fits(s: bv64, n: nat)
    decreases n
  {
    if n == 0 then s == 0 else Fits(s >> 1, n - 1)
  }

  function TrailingZeros(s: bv64): (i: nat)
    requires s != 0
    ensures Bit(s, i) && forall j: nat :: j < i ==> !Bit(s, j)
    decreases s
  {
    if s & 1 == 1 then 0 else 1 + TrailingZeros(s >> 1)
  }

  lemma {:induction false} NoBits(i: nat)
    ensures !Bit(0, i)
    decreases i
  {
    if i > 0 {
      assert 0 as bv64 >> 1 == 0;
      NoBits(i - 1);
    }
  }

  lemma {:induction false} FitsBit(s: bv64, n: nat, i: nat)
    requires Fits(s, n) && n <= i
    ensures !Bit(s, i)
    decreases n
  {
    if n == 0 {
      NoBits(i);
    } else {
      FitsBit(s >> 1, n - 1, i - 1);
    }
  }

  lemma ShiftMask(s: bv64, m: bv64)
    ensures (s & m) >> 1 == (s >> 1) & (m >> 1)
  {
  }

  lemma {:induction false} FitsMask(s: bv64, m: bv64, r: bv64, n: nat)
    requires Fits(m, n) && r == s & m
    ensures Fits(r, n)
    decreases n
  {
    if n > 0 {
      ShiftMask(s, m);
      FitsMask(s >> 1, m >> 1, r >> 1, n - 1);
    }
  }

  lemma ClearEven(s: bv64, c: bv64, h: bv64, d: bv64)
    requires s & 1 == 0 && c == s & (s - 1) && h == s >> 1 && d == c >> 1
    ensures d == h & (h - 1)
  {
  }

  lemma ClearEvenLow(s: bv64, c: bv64)
    requires s & 1 == 0 && c == s & (s - 1)
    ensures c & 1 == 0
  {
  }

  lemma ClearOdd(s: bv64)
    requires s & 1 == 1
    ensures (s & (s - 1)) & 1 == 0
    ensures (s & (s - 1)) >> 1 == s >> 1
  {
  }

  /** `c` is `s` without its lowest set bit. */
  predicate Cleared(s: bv64, c: bv64)
    requires s != 0
    decreases s
  {
    c & 1 == 0 && if s & 1 == 1 then c >> 1 == s >> 1 else Cleared(s >> 1, c >> 1)
  }

  lemma HalfIsSmaller(s: bv64, h: bv64)
    requires s != 0 && s & 1 == 0 && h == s >> 1
    ensures h != 0 && h < s
  {
  }

  lemma ClearedEven(s: bv64, c: bv64, h: bv64, d: bv64)
    requires s != 0 && s & 1 == 0 && c & 1 == 0 && h == s >> 1 && d == c >> 1 && h != 0 && Cleared(h, d)
    ensures Cleared(s, c)
  {
  }

  lemma {:induction false} ClearLowestCleared(s: bv64, c: bv64)
    requires s != 0 && c == s & (s - 1)
    ensures Cleared(s, c)
    decreases s
  {
    if s & 1 == 1 {
      ClearOdd(s);
    } else {
      var h, d := s >> 1, c >> 1;
      HalfIsSmaller(s, h);
      ClearEven(s, c, h, d);
      ClearEvenLow(s, c);
      ClearLowestCleared(h, d);
      ClearedEven(s, c, h, d);
    }
  }

  lemma {:induction false} ClearedBit(s: bv64, c: bv64, j: nat)
    requires s != 0 && Cleared(s, c)
    ensures Bit(c, j) <==> Bit(s, j) && j != TrailingZeros(s)
    decreases j
  {
    if s & 1 != 1 && j > 0 {
      ClearedBit(s >> 1, c >> 1, j - 1);
    }
  }

  /** `s & (s - 1)` clears the lowest set bit and no other. */
  lemma ClearLowest(s: bv64, j: nat)
    requires s != 0
    ensures Bit(s & (s - 1), j) <==> Bit(s, j) && j != TrailingZeros(s)
  {
    ClearLowestCleared(s, s & (s - 1));
    ClearedBit(s, s & (s - 1), j);
  }

  /** The number of set bits of `s` below `i`. */
  function Rank(s: bv64, i: nat): (n: nat)
    ensures n <= i
    decreases i
  {
    if i == 0 then 0 else Rank(s, i - 1) + if Bit(s, i - 1) then 1 else 0
  }

  lemma {:induction false} RankGap(s: bv64, k: nat, i: nat)
    requires k <= i && forall j: nat :: k <= j < i ==> !Bit(s, j)
    ensures Rank(s, k) == Rank(s, i)
    decreases i
  {
    if k < i {
      RankGap(s, k, i - 1);
    }
  }

  lemma {:induction false} RankMonotone(s: bv64, k: nat, i: nat)
    requires k <= i
    ensures Rank(s, k) <= Rank(s, i)
    ensures k < i && Bit(s, k) ==> Rank(s, k) < Rank(s, i)
    decreases i
  {
    if k < i {
      RankMonotone(s, k, i - 1);
    }
  }

  /** `s & (s - 1)`. */
  function WithoutLowest(s: bv64): (r: bv64)
    requires s != 0
    ensures forall j: nat :: Bit(r, j) <==> Bit(s, j) && j != TrailingZeros(s)
  {
    assert forall j: nat :: Bit(s & (s - 1), j) <==> Bit(s, j) && j != TrailingZeros(s) by {
      forall j: nat ensures Bit(s & (s - 1), j) <==> Bit(s, j) && j != TrailingZeros(s) {
        ClearLowest(s, j);
      }
    }
    s & (s - 1)
  }

  /** `left` holds the bits of `all` from `k` on: a lowest-bit loop over `all` that has passed the bits below. */
  ghost predicate Left(all: bv64, left: bv64, k: nat) {
    forall i: nat :: Bit(left, i) <==> Bit(all, i) && k <= i
  }

  lemma AllLeft(all: bv64)
    ensures Left(all, all, 0) && Rank(all, 0) == 0
  {
  }

  /** One round of a lowest-bit loop over the bits of `all`, all below `n`. */
  lemma LowestRound(all: bv64, left: bv64, k: nat, n: nat, i: nat)
    requires Left(all, left, k) && left != 0 && i == TrailingZeros(left) && Fits(all, n)
    ensures k <= i < n && Bit(all, i)
    ensures Rank(all, i) == Rank(all, k) && Rank(all, i + 1) == Rank(all, k) + 1
    ensures Left(all, WithoutLowest(left), i + 1)
    ensures forall m: nat :: k <= m < i ==> !Bit(all, m)
  {
    if i >= n {
      FitsBit(all, n, i);
    }
    RankGap(all, k, i);
  }

  lemma {:induction false} NoneLeft(all: bv64, k: nat, i: nat)
    requires Left(all, 0, k) && Bit(all, i)
    ensures i < k
  {
    NoBits(i);
  }
}

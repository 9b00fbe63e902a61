/** Decimal numbers, blanks and splitting, as Rust's formatting and `str` methods do them. */
module Text {
  import opened Basics

  // ── Decimal numbers ──

  predicate IsDigit(c: char) {
    '0' <= c <= '9'
  }

  function Digit(k: nat): (c: char)
    requires k < 10
    ensures IsDigit(c) && DigitValue(c) == k
  {
    ('0' as int + k) as char
  }

  function DigitValue(c: char): int {
    c as int - '0' as int
  }

  predicate AllDigits(s: string) {
    forall i :: 0 <= i < |s| ==> IsDigit(s[i])
  }

  /** The decimal digits of `n`, with zeros in front up to `width`. */
  function Padded(n: nat, width: nat): (s: string)
    ensures AllDigits(s)
    decreases width, n
  {
    if n == 0 && width == 0 then ""
    else Padded(n / 10, if width == 0 then 0 else width - 1) + [Digit(n % 10)]
  }

  function Pow10(n: nat): (p: nat)
    ensures p >= 1
  {
    if n == 0 then 1 else 10 * Pow10(n - 1)
  }

  /** The number a string of digits stands for. */
  function Value(s: string): int
    decreases |s|
  {
    if s == "" then 0 else 10 * Value(s[..|s| - 1]) + DigitValue(s[|s| - 1])
  }

  lemma {:induction false} ValuePadded(n: nat, width: nat)
    ensures Value(Padded(n, width)) == n
    decreases width, n
  {
    if n != 0 || width != 0 {
      ValuePadded(n / 10, if width == 0 then 0 else width - 1);
      var s := Padded(n, width);
      assert s[..|s| - 1] == Padded(n / 10, if width == 0 then 0 else width - 1);
    }
  }

  /** The number of two strings of digits in a row. */
  lemma {:induction false} ValueJoin(a: string, b: string)
    ensures Value(a + b) == Value(a) * Pow10(|b|) + Value(b)
    decreases |b|
  {
    var s := a + b;
    if b == "" {
      assert s == a;
    } else {
      var front := b[..|b| - 1];
      assert s[..|s| - 1] == a + front;
      ValueJoin(a, front);
      Tenfold(Value(a), Pow10(|front|));
    }
  }

  lemma Tenfold(v: int, p: int)
    ensures 10 * (v * p) == v * (10 * p)
  {
  }

  lemma {:induction false} PaddedLength(n: nat, width: nat)
    requires n < Pow10(width)
    ensures |Padded(n, width)| == width
    decreases width
  {
    if width > 0 {
      PaddedLength(n / 10, width - 1);
    }
  }

  lemma {:induction false} PaddedTooLong(n: nat, width: nat)
    requires n >= Pow10(width)
    ensures |Padded(n, width)| > width
    decreases width
  {
    if width > 0 {
      PaddedTooLong(n / 10, width - 1);
    }
  }

  /** Rust's `parse` of a signed integer: a sign or none, at least one digit, and a value in range. */
  function ParseInt(s: string, lo: int, hi: int): Option<int> {
    var digits := if s != "" && (s[0] == '+' || s[0] == '-') then s[1..] else s;
    if digits == "" || !AllDigits(digits) then None
    else
      var v := if s[0] == '-' then -Value(digits) else Value(digits);
      if lo <= v <= hi then Some(v) else None
  }

  lemma ParseDigits(s: string, lo: int, hi: int)
    requires s != "" && AllDigits(s)
    ensures ParseInt(s, lo, hi) == if lo <= Value(s) <= hi then Some(Value(s)) else None
  {
  }

  /** `s` is written with the digits `d` and stands for `v`. */
  predicate Writes(s: string, d: string, v: int) {
    d != "" && AllDigits(d) && ((v == Value(d) && (s == d || s == ['+'] + d)) || (v == -Value(d) && s == ['-'] + d))
  }

  /** The texts that are parsed: digits with a sign or none, for a value in range. */
  lemma ParseIntIff(s: string, lo: int, hi: int, v: int)
    ensures ParseInt(s, lo, hi) == Some(v) <==> lo <= v <= hi && exists d :: Writes(s, d, v)
  {
    hide Value, IsDigit;
    NoSign();
    if ParseInt(s, lo, hi) == Some(v) {
      var d := if s[0] == '+' || s[0] == '-' then s[1..] else s;
      assert s[0] == '+' || s[0] == '-' ==> s == [s[0]] + d;
      assert Writes(s, d, v);
    }
    if d :| Writes(s, d, v) {
      assert s == d ==> IsDigit(s[0]);
      assert s != d ==> s[1..] == d;
    }
  }

  lemma NoSign()
    ensures !IsDigit('+') && !IsDigit('-')
  {
  }

  // ── Blanks ──

  /** The characters with the Unicode property White_Space. */
  predicate IsSpace(c: char) {
    var u := c as int;
    || 9 <= u <= 13 || u == 0x20 || u == 0x85 || u == 0xA0 || u == 0x1680 || 0x2000 <= u <= 0x200A
    || u == 0x2028 || u == 0x2029 || u == 0x202F || u == 0x205F || u == 0x3000
  }

  function TrimStart(s: string): string {
    if s != "" && IsSpace(s[0]) then TrimStart(s[1..]) else s
  }

  function TrimEnd(s: string): string
    decreases |s|
  {
    if s != "" && IsSpace(s[|s| - 1]) then TrimEnd(s[..|s| - 1]) else s
  }

  function Trim(s: string): string {
    TrimEnd(TrimStart(s))
  }

  /** A text without blanks at its ends is its own trim. */
  lemma TrimNothing(s: string)
    requires s != "" ==> !IsSpace(s[0]) && !IsSpace(s[|s| - 1])
    ensures Trim(s) == s
  {
  }

  predicate AllSpace(s: string) {
    forall i :: 0 <= i < |s| ==> IsSpace(s[i])
  }

  lemma {:induction false} TrimStartBlanks(a: string, t: string)
    requires AllSpace(a)
    ensures TrimStart(a + t) == TrimStart(t)
    decreases |a|
  {
    if a == "" {
      assert a + t == t;
    } else {
      assert (a + t)[1..] == a[1..] + t;
      TrimStartBlanks(a[1..], t);
    }
  }

  lemma {:induction false} TrimEndBlanks(t: string, b: string)
    requires AllSpace(b)
    ensures TrimEnd(t + b) == TrimEnd(t)
    decreases |b|
  {
    var s := t + b;
    if b == "" {
      assert s == t;
    } else {
      assert s[..|s| - 1] == t + b[..|b| - 1];
      TrimEndBlanks(t, b[..|b| - 1]);
    }
  }

  /** Blanks on both sides of a text go, and nothing else. */
  lemma TrimBlanks(a: string, t: string, b: string)
    requires AllSpace(a) && AllSpace(b) && (t != "" ==> !IsSpace(t[0]) && !IsSpace(t[|t| - 1]))
    ensures Trim(a + t + b) == t
  {
    assert a + t + b == a + (t + b);
    TrimStartBlanks(a, t + b);
    if t == "" {
      assert t + b == b && b + "" == b;
      TrimStartBlanks(b, "");
    } else {
      TrimEndBlanks(t, b);
    }
  }

  lemma {:induction false} TrimEndKeepsStart(s: string)
    ensures TrimEnd(s) <= s && (TrimEnd(s) != "" ==> !IsSpace(TrimEnd(s)[|TrimEnd(s)| - 1]))
    decreases |s|
  {
    if s != "" && IsSpace(s[|s| - 1]) {
      TrimEndKeepsStart(s[..|s| - 1]);
    }
  }

  lemma {:induction false} TrimStartEnds(s: string)
    ensures TrimStart(s) != "" ==> !IsSpace(TrimStart(s)[0])
    ensures forall c :: c in TrimStart(s) ==> c in s
    decreases |s|
  {
    if s != "" && IsSpace(s[0]) {
      TrimStartEnds(s[1..]);
    }
  }

  // ── Splitting ──

  /** The parts of a text between the characters `c`. */
  function Split(s: string, c: char): (r: seq<string>)
    ensures |r| > 0
  {
    if s == "" then [""]
    else if s[0] == c then [""] + Split(s[1..], c)
    else var r := Split(s[1..], c); [[s[0]] + r[0]] + r[1..]
  }

  lemma {:induction false} SplitNone(s: string, c: char)
    requires c !in s
    ensures Split(s, c) == [s]
  {
    if s != "" {
      SplitNone(s[1..], c);
      assert [s[0]] + s[1..] == s;
    }
  }

  lemma {:induction false} SplitAppend(a: string, c: char, rest: string)
    ensures Split(a + [c] + rest, c) == Split(a, c) + Split(rest, c)
    decreases |a|
  {
    var s := a + [c] + rest;
    if a == "" {
      assert s[1..] == rest;
    } else {
      assert s[1..] == a[1..] + [c] + rest;
      SplitAppend(a[1..], c, rest);
    }
  }

  lemma SplitFirst(a: string, c: char, rest: string)
    requires c !in a
    ensures Split(a + [c] + rest, c) == [a] + Split(rest, c)
  {
    SplitAppend(a, c, rest);
    SplitNone(a, c);
  }

  // ── Order ──

  /** Alphabetical order. */
  predicate LexLess(a: string, b: string) {
    if b == "" then false
    else if a == "" then true
    else if a[0] != b[0] then a[0] < b[0]
    else LexLess(a[1..], b[1..])
  }

  /** Numbers of one width in front of two texts decide first. */
  lemma {:induction false} LexPadded(a: nat, b: nat, width: nat, x: string, y: string)
    requires a < Pow10(width) && b < Pow10(width)
    ensures LexLess(Padded(a, width) + x, Padded(b, width) + y) <==> a < b || (a == b && LexLess(x, y))
    decreases width
  {
    if width == 0 {
      assert Padded(a, 0) + x == x && Padded(b, 0) + y == y;
    } else {
      var p, q := [Digit(a % 10)] + x, [Digit(b % 10)] + y;
      assert Padded(a, width) + x == Padded(a / 10, width - 1) + p;
      assert Padded(b, width) + y == Padded(b / 10, width - 1) + q;
      LexPadded(a / 10, b / 10, width - 1, p, q);
      assert p[1..] == x && q[1..] == y;
    }
  }
}

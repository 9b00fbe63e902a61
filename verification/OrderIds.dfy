/** The file of the highest order id of each API client (src/order_ids.rs). */
module OrderIds {
  import opened Basics
  import opened Text

  const MIN_I64: int := -0x8000_0000_0000_0000
  const MAX_I64: int := 0x7FFF_FFFF_FFFF_FFFF

  predicate IsI64(v: int) {
    MIN_I64 <= v <= MAX_I64
  }

  // ── Keys and lines ──

  function Decimal(v: int): string {
    if v < 0 then ['-'] + Padded(-v, 1) else Padded(v, 1)
  }

  lemma DecimalChars(v: int)
    ensures var s := Decimal(v); s != "" && IsDigit(s[|s| - 1]) && (forall c <- s :: IsDigit(c) || c == '-')
  {
  }

  /** A number printed is parsed as itself. */
  lemma DecimalRoundTrip(v: int, lo: int, hi: int)
    requires lo <= v <= hi
    ensures ParseInt(Decimal(v), lo, hi) == Some(v)
  {
    hide Padded, Value, IsDigit;
    var n: nat := if v < 0 then -v else v;
    ValuePadded(n, 1);
    FirstIsDigit(n);
    if v < 0 {
      assert Decimal(v)[1..] == Padded(n, 1);
    }
  }

  lemma FirstIsDigit(n: nat)
    ensures var p := Padded(n, 1); p != "" && p[0] != '-' && p[0] != '+'
  {
  }

  function Key(account: string, client: int): string {
    account + ['.'] + Decimal(client)
  }

  datatype Entry = Entry(key: string, value: int)

  /** The text before and after the last `=`. */
  function SplitAtLastEquals(s: string): (r: Option<(string, string)>)
    ensures r.Some? ==> s == r.value.0 + ['='] + r.value.1
    decreases |s|
  {
    if s == "" then None
    else
      var front, c := s[..|s| - 1], s[|s| - 1];
      if c == '=' then Some((front, ""))
      else match SplitAtLastEquals(front)
        case None => None
        case Some(p) => Some((p.0, p.1 + [c]))
  }

  lemma {:induction false} SplitsAtLast(a: string, b: string)
    requires '=' !in b
    ensures SplitAtLastEquals(a + ['='] + b) == Some((a, b))
    decreases |b|
  {
    var s := a + ['='] + b;
    if b == "" {
      assert s[..|s| - 1] == a;
    } else {
      assert s[..|s| - 1] == a + ['='] + b[..|b| - 1];
      SplitsAtLast(a, b[..|b| - 1]);
      assert s[|s| - 1] == b[|b| - 1] && b[|b| - 1] in b;
      assert b[..|b| - 1] + [b[|b| - 1]] == b;
    }
  }

  function ParseLine(line: string): Option<Entry> {
    match SplitAtLastEquals(Trim(line))
    case None => None
    case Some(p) =>
      var v := ParseInt(p.1, MIN_I64, MAX_I64);
      if v.None? then None else Some(Entry(p.0, v.value))
  }

  function ParseLines(lines: seq<string>): seq<Entry> {
    if lines == [] then []
    else match ParseLine(lines[0])
      case None => ParseLines(lines[1..])
      case Some(e) => [e] + ParseLines(lines[1..])
  }

  /**
    The entries of the file, none when it cannot be read. A line's carriage return is trimmed with the
    blanks, and the empty part after the last line feed holds no `=`, so a split at line feeds does.
  */
  function Entries(file: Option<string>): seq<Entry> {
    if file.None? then [] else ParseLines(Split(file.value, '\n'))
  }

  function Line(e: Entry): string {
    e.key + ['='] + Decimal(e.value)
  }

  function Print(es: seq<Entry>): string {
    if es == [] then "" else Line(es[0]) + ['\n'] + Print(es[1..])
  }

  // ── What is printed is read back ──

  /** A key that a line can hold. */
  predicate GoodKey(k: string) {
    '\n' !in k && (k != "" ==> !IsSpace(k[0]))
  }

  lemma {:induction false} TrimStartOf(k: string, rest: string)
    requires rest != "" && !IsSpace(rest[0])
    ensures TrimStart(k + rest) == TrimStart(k) + rest
    decreases |k|
  {
    if k == "" {
      assert k + rest == rest;
    } else if IsSpace(k[0]) {
      assert (k + rest)[1..] == k[1..] + rest;
      TrimStartOf(k[1..], rest);
    }
  }

  /** A line read back, its key without the blanks in front. */
  lemma LineBack(e: Entry)
    requires IsI64(e.value)
    ensures ParseLine(Line(e)) == Some(Entry(TrimStart(e.key), e.value))
  {
    hide ParseInt, Decimal, TrimStart, TrimEnd, IsSpace, IsDigit, SplitAtLastEquals;
    var d := Decimal(e.value);
    DecimalHasNone(e.value);
    DecimalRoundTrip(e.value, MIN_I64, MAX_I64);
    var rest := ['='] + d;
    assert Line(e) == e.key + rest;
    TrimStartOf(e.key, rest);
    var t := TrimStart(e.key) + rest;
    NothingAtEnd(t);
    assert t == TrimStart(e.key) + ['='] + d;
    SplitsAtLast(TrimStart(e.key), d);
  }

  lemma DecimalHasNone(v: int)
    ensures var d := Decimal(v); d != "" && '=' !in d && '\n' !in d && !IsSpace('=') && !IsSpace(d[|d| - 1])
  {
  }

  lemma NothingAtEnd(t: string)
    requires t != "" && !IsSpace(t[|t| - 1])
    ensures TrimEnd(t) == t
  {
  }

  function Stripped(es: seq<Entry>): seq<Entry> {
    if es == [] then [] else [Entry(TrimStart(es[0].key), es[0].value)] + Stripped(es[1..])
  }

  predicate Writable(es: seq<Entry>) {
    forall i :: 0 <= i < |es| ==> '\n' !in es[i].key && IsI64(es[i].value)
  }

  lemma {:induction false} PrintBack(es: seq<Entry>)
    requires Writable(es)
    ensures Entries(Some(Print(es))) == Stripped(es)
  {
    if es == [] {
      assert SplitAtLastEquals(Trim("")) == None;
      assert ParseLines([""]) == ParseLines([""][1..]) == [];
    } else {
      var line := Line(es[0]);
      DecimalChars(es[0].value);
      assert '\n' !in line;
      SplitFirst(line, '\n', Print(es[1..]));
      LineBack(es[0]);
      var parts := Split(Print(es[1..]), '\n');
      assert ([line] + parts)[1..] == parts;
      PrintBack(es[1..]);
    }
  }

  /** Entries with keys that a line can hold. */
  predicate Good(es: seq<Entry>) {
    forall i :: 0 <= i < |es| ==> GoodKey(es[i].key) && IsI64(es[i].value)
  }

  lemma {:induction false} GoodKeptWhole(es: seq<Entry>)
    requires Good(es)
    ensures Stripped(es) == es
  {
    if es != [] {
      GoodKeptWhole(es[1..]);
      assert GoodKey(es[0].key);
    }
  }

  lemma {:induction false} PartsHaveNoSplitter(s: string, c: char)
    ensures forall i :: 0 <= i < |Split(s, c)| ==> c !in Split(s, c)[i]
  {
    if s != "" {
      PartsHaveNoSplitter(s[1..], c);
    }
  }

  lemma ParsedKeyIsGood(line: string)
    requires '\n' !in line && ParseLine(line).Some?
    ensures var e := ParseLine(line).value; GoodKey(e.key) && IsI64(e.value)
  {
    hide TrimStart, TrimEnd, IsSpace;
    var t := TrimStart(line);
    var u := TrimEnd(t);
    TrimStartEnds(line);
    TrimEndKeepsStart(t);
    assert forall c <- u :: c in t;
    var p := SplitAtLastEquals(u).value;
    assert u == p.0 + ['='] + p.1;
    assert forall c <- p.0 :: c in u;
    assert u[0] == t[0];
  }

  lemma {:induction false} ParsedLinesAreGood(lines: seq<string>)
    requires forall i :: 0 <= i < |lines| ==> '\n' !in lines[i]
    ensures Good(ParseLines(lines))
  {
    hide ParseLine, GoodKey, IsI64;
    if lines != [] {
      ParsedLinesAreGood(lines[1..]);
      if ParseLine(lines[0]).Some? {
        ParsedKeyIsGood(lines[0]);
      }
    }
  }

  /** Whatever the file holds, an entry read from it can be written back. */
  lemma EntriesAreGood(file: Option<string>)
    ensures Good(Entries(file))
  {
    if file.Some? {
      PartsHaveNoSplitter(file.value, '\n');
      ParsedLinesAreGood(Split(file.value, '\n'));
    }
  }

  // ── Load and save ──

  /** The value of the first entry of a key. */
  function Get(es: seq<Entry>, k: string): Option<int> {
    if es == [] then None else if es[0].key == k then Some(es[0].value) else Get(es[1..], k)
  }

  /** The first entry of a key changed, or an entry put at the end. */
  function Put(es: seq<Entry>, k: string, v: int): seq<Entry> {
    if es == [] then [Entry(k, v)]
    else if es[0].key == k then [Entry(k, v)] + es[1..]
    else [es[0]] + Put(es[1..], k, v)
  }

  function Held(file: Option<string>, account: string, client: int): Option<int> {
    Get(Entries(file), Key(account, client))
  }

  function Load(file: Option<string>, account: string, client: int): int {
    match Held(file, account, client)
    case None => 0
    case Some(v) => v
  }

  /** A save of a value no higher than the one held leaves the file as it is. */
  predicate IsKept(file: Option<string>, account: string, client: int, highest: int) {
    var held := Held(file, account, client);
    held.Some? && held.value >= highest
  }

  /** The file after a save whose writing works. */
  function Saved(file: Option<string>, account: string, client: int, highest: int): Option<string> {
    if IsKept(file, account, client, highest) then file
    else Some(Print(Put(Entries(file), Key(account, client), highest)))
  }

  /** The value a save gives back: the one on disk. */
  function SavedValue(file: Option<string>, account: string, client: int, highest: int): int {
    if IsKept(file, account, client, highest) then Held(file, account, client).value else highest
  }

  class IdFile {
    /** The text of the file, none when there is no file that can be read. */
    var text: Option<string>

    constructor (t: Option<string>)
      ensures text == t
    {
      text := t;
    }

    /** `save`; `works` says whether the new file can be written and put in place. None is the error. */
    method Save(account: string, client: int, highest: int, works: bool) returns (r: Option<int>)
      modifies this
      ensures text == if works then Saved(old(text), account, client, highest) else old(text)
      ensures r == if works || IsKept(old(text), account, client, highest)
                   then Some(SavedValue(old(text), account, client, highest)) else None
    {
      hide Entries, Key, Print, Get, Put;
      var key := Key(account, client);
      var all := Entries(text);
      var i := 0;
      while i < |all| && all[i].key != key
        invariant i <= |all|
        invariant forall j :: 0 <= j < i ==> all[j].key != key
      {
        i := i + 1;
      }
      FirstAt(all, key, highest, i);
      if i < |all| {
        if all[i].value >= highest {
          return Some(all[i].value);
        }
        all := all[i := Entry(key, highest)];
      } else {
        all := all + [Entry(key, highest)];
      }
      if !works {
        return None;
      }
      text := Some(Print(all));
      return Some(highest);
    }
  }

  lemma {:induction false} FirstAt(es: seq<Entry>, k: string, v: int, i: nat)
    requires i <= |es| && (i < |es| ==> es[i].key == k) && forall j :: 0 <= j < i ==> es[j].key != k
    ensures Get(es, k) == if i < |es| then Some(es[i].value) else None
    ensures Put(es, k, v) == if i < |es| then es[i := Entry(k, v)] else es + [Entry(k, v)]
  {
    if es != [] && i > 0 {
      FirstAt(es[1..], k, v, i - 1);
    }
  }

  lemma {:induction false} GetAfterPut(es: seq<Entry>, k: string, v: int, other: string)
    ensures Get(Put(es, k, v), other) == if other == k then Some(v) else Get(es, other)
  {
    if es != [] && es[0].key != k {
      GetAfterPut(es[1..], k, v, other);
    }
  }

  lemma {:induction false} PutKeeps(es: seq<Entry>, k: string, v: int)
    requires Good(es) && '\n' !in k && IsI64(v)
    ensures Writable(Put(es, k, v)) && (GoodKey(k) ==> Good(Put(es, k, v)))
  {
    if es != [] {
      assert GoodKey(es[0].key);
      PutKeeps(es[1..], k, v);
    }
  }

  /** The accounts whose lines read back. */
  predicate GoodAccount(account: string) {
    '\n' !in account && (account != "" ==> !IsSpace(account[0]))
  }

  lemma KeyIsGood(account: string, client: int)
    ensures GoodKey(Key(account, client)) <==> GoodAccount(account)
    ensures '\n' in Key(account, client) <==> '\n' in account
  {
  }

  lemma {:induction false} OnlyGoodKeysAreHeld(es: seq<Entry>, k: string)
    requires Good(es) && Get(es, k).Some?
    ensures GoodKey(k)
  {
    if es[0].key != k {
      OnlyGoodKeysAreHeld(es[1..], k);
    }
  }

  lemma SameAfterLast(a: string, b: string, x: string, y: string, c: char)
    requires a + [c] + x == b + [c] + y && c !in x && c !in y
    ensures a == b && x == y
  {
    var s := a + [c] + x;
    assert s[|a|] == c && s[|b|] == c;
    assert a == s[..|a|] == (b + [c] + y)[..|b|] == b;
    assert x == s[|a| + 1..] == (b + [c] + y)[|b| + 1..] == y;
  }

  /** Two clients never share a key, whatever their account names hold. */
  lemma KeysDiffer(account: string, client: int, other: string, otherClient: int)
    ensures Key(account, client) == Key(other, otherClient) <==> account == other && client == otherClient
  {
    DecimalChars(client);
    DecimalChars(otherClient);
    var lo := if client < otherClient then client else otherClient;
    var hi := if client < otherClient then otherClient else client;
    DecimalRoundTrip(client, lo, hi);
    DecimalRoundTrip(otherClient, lo, hi);
    hide Decimal, ParseInt;
    if Key(account, client) == Key(other, otherClient) {
      SameAfterLast(account, other, Decimal(client), Decimal(otherClient), '.');
    }
  }

  /** The entries read after a save, for an account with no line feed. */
  lemma EntriesAfterSave(file: Option<string>, account: string, client: int, h: int)
    requires '\n' !in account && IsI64(h) && !IsKept(file, account, client, h)
    ensures Entries(Saved(file, account, client, h)) == Stripped(Put(Entries(file), Key(account, client), h))
  {
    hide Entries, Print, Put, Stripped, Key, IsKept;
    var es, k := Entries(file), Key(account, client);
    EntriesAreGood(file);
    KeyIsGood(account, client);
    PutKeeps(es, k, h);
    PrintBack(Put(es, k, h));
  }

  lemma GoodEntriesAfterSave(file: Option<string>, account: string, client: int, h: int)
    requires GoodAccount(account) && IsI64(h) && !IsKept(file, account, client, h)
    ensures Entries(Saved(file, account, client, h)) == Put(Entries(file), Key(account, client), h)
  {
    hide Entries, Put, Stripped, Key, IsKept, Saved;
    var es, k := Entries(file), Key(account, client);
    EntriesAfterSave(file, account, client, h);
    EntriesAreGood(file);
    KeyIsGood(account, client);
    PutKeeps(es, k, h);
    GoodKeptWhole(Put(es, k, h));
  }

  lemma BadAccountIsNeverHeld(file: Option<string>, account: string, client: int)
    requires !GoodAccount(account)
    ensures Held(file, account, client) == None
  {
    hide Key, GoodKey, GoodAccount;
    EntriesAreGood(file);
    KeyIsGood(account, client);
    if Held(file, account, client).Some? {
      OnlyGoodKeysAreHeld(Entries(file), Key(account, client));
    }
  }

  /**
    A value only goes up: what is loaded after a save is the higher of the value loaded before and the
    value saved, just for an account that a line can hold (and a value at or above 0 when the client is
    new); for any other account only a value that is not above 0 seems to be kept.
  */
  lemma LoadAfterSave(file: Option<string>, account: string, client: int, h: int)
    requires IsI64(h)
    ensures Load(Saved(file, account, client, h), account, client) == Max(Load(file, account, client), h)
      <==> if GoodAccount(account) then h >= 0 || Held(file, account, client).Some? else h <= 0
    ensures GoodAccount(account) ==>
      Load(Saved(file, account, client, h), account, client) == SavedValue(file, account, client, h)
  {
    hide Entries, Key, Saved, GoodAccount, Put;
    if !GoodAccount(account) {
      BadAccountIsNeverHeld(file, account, client);
      BadAccountIsNeverHeld(Saved(file, account, client, h), account, client);
    } else if IsKept(file, account, client, h) {
      KeptAsIs(file, account, client, h);
    } else {
      GoodEntriesAfterSave(file, account, client, h);
      GetAfterPut(Entries(file), Key(account, client), h, Key(account, client));
    }
  }

  lemma KeptAsIs(file: Option<string>, account: string, client: int, h: int)
    requires IsKept(file, account, client, h)
    ensures Saved(file, account, client, h) == file
  {
  }

  /** A save of an account that a line can hold changes no other client's entry. */
  lemma OthersKept(file: Option<string>, account: string, client: int, h: int, other: string, otherClient: int)
    requires GoodAccount(account) && IsI64(h) && !(other == account && otherClient == client)
    ensures Held(Saved(file, account, client, h), other, otherClient) == Held(file, other, otherClient)
  {
    hide Entries, Key, Saved, GoodAccount, IsKept, Get, Put;
    if IsKept(file, account, client, h) {
      KeptAsIs(file, account, client, h);
    } else {
      GoodEntriesAfterSave(file, account, client, h);
      KeysDiffer(other, otherClient, account, client);
      GetAfterPut(Entries(file), Key(account, client), h, Key(other, otherClient));
    }
  }

  lemma {:induction false} StrippedPutOf(es: seq<Entry>, k: string, v: int)
    requires Good(es) && !GoodKey(k)
    ensures Stripped(Put(es, k, v)) == es + [Entry(TrimStart(k), v)]
  {
    hide IsI64;
    if es != [] {
      assert GoodKey(es[0].key);
      StrippedPutOf(es[1..], k, v);
    }
  }

  lemma {:induction false} GetAfterAppend(es: seq<Entry>, e: Entry, k: string)
    ensures Get(es + [e], k) == if Get(es, k).Some? then Get(es, k) else if e.key == k then Some(e.value) else None
  {
    if es != [] {
      assert (es + [e])[1..] == es[1..] + [e];
      GetAfterAppend(es[1..], e, k);
    }
  }

  lemma TrimmedKey(account: string, client: int)
    ensures TrimStart(Key(account, client)) == Key(TrimStart(account), client)
  {
    hide TrimStart, Decimal;
    var rest := ['.'] + Decimal(client);
    TrimStartOf(account, rest);
    assert Key(account, client) == account + rest && Key(TrimStart(account), client) == TrimStart(account) + rest;
  }

  /** An account with a blank in front is saved as the one without, unless that one has a value. */
  lemma BlankAccountIsSavedAsAnother(file: Option<string>, account: string, client: int, h: int, other: string,
      otherClient: int)
    requires '\n' !in account && !GoodAccount(account) && IsI64(h)
    ensures var before := Held(file, other, otherClient);
      Held(Saved(file, account, client, h), other, otherClient)
      == if before == None && other == TrimStart(account) && otherClient == client then Some(h) else before
  {
    hide Entries, Key, Saved, GoodAccount, Get, Put, Stripped, GoodKey, Good;
    var es, k := Entries(file), Key(account, client);
    BadAccountIsNeverHeld(file, account, client);
    EntriesAfterSave(file, account, client, h);
    EntriesAreGood(file);
    KeyIsGood(account, client);
    StrippedPutOf(es, k, h);
    TrimmedKey(account, client);
    GetAfterAppend(es, Entry(TrimStart(k), h), Key(other, otherClient));
    KeysDiffer(TrimStart(account), client, other, otherClient);
  }

  lemma {:induction false} ParseLinesAppend(lines: seq<string>, more: seq<string>)
    ensures ParseLines(lines + more) == ParseLines(lines) + ParseLines(more)
  {
    hide ParseLine;
    if lines == [] {
      assert lines + more == more;
    } else {
      assert (lines + more)[1..] == lines[1..] + more;
      ParseLinesAppend(lines[1..], more);
    }
  }

  lemma KeyAfterLineFeed(first: string, rest: string, client: int)
    ensures Key(first + ['\n'] + rest, client) == first + ['\n'] + Key(rest, client)
  {
  }

  lemma LineAfterLineFeed(first: string, e: Entry)
    ensures Line(Entry(first + ['\n'] + e.key, e.value)) == first + ['\n'] + Line(e)
  {
  }

  /** What a save of an account with a line feed makes of an absent file: its last line is another account's. */
  lemma EntriesAfterLineFeed(first: string, rest: string, client: int, h: int)
    requires '\n' !in rest && IsI64(h)
    ensures Entries(Saved(None, first + ['\n'] + rest, client, h))
         == ParseLines(Split(first, '\n')) + [Entry(Key(TrimStart(rest), client), h)]
  {
    hide Key, ParseLine, TrimStart, Line;
    var e, key := Entry(Key(rest, client), h), Key(first + ['\n'] + rest, client);
    KeyAfterLineFeed(first, rest, client);
    assert Put([], key, h) == [Entry(key, h)];
    assert [Entry(key, h)][1..] == [] && [e][1..] == [];
    LineAfterLineFeed(first, e);
    assert Print([Entry(key, h)]) == first + ['\n'] + Print([e]);
    SplitAppend(first, '\n', Print([e]));
    ParseLinesAppend(Split(first, '\n'), Split(Print([e]), '\n'));
    KeyIsGood(rest, client);
    PrintBack([e]);
    TrimmedKey(rest, client);
  }

  lemma {:induction false} LastLineFeed(account: string) returns (first: string, rest: string)
    requires '\n' in account
    ensures account == first + ['\n'] + rest && '\n' !in rest
    decreases |account|
  {
    var front, c := account[..|account| - 1], account[|account| - 1];
    if c == '\n' {
      first, rest := front, "";
    } else {
      first, rest := LastLineFeed(front);
      assert account == front + [c];
      rest := rest + [c];
    }
  }

  /** A save of an account that a line cannot hold, over an absent file, makes an entry of another account. */
  lemma BadAccountMakesAnotherEntry(account: string, client: int, h: int) returns (other: string)
    requires !GoodAccount(account) && IsI64(h)
    ensures other != account && Held(None, other, client) == None
    ensures Held(Saved(None, account, client, h), other, client).Some?
  {
    hide Key, Saved, TrimStart;
    if '\n' in account {
      var first, rest := LastLineFeed(account);
      other := TrimStart(rest);
      TrimStartEnds(rest);
      EntriesAfterLineFeed(first, rest, client, h);
      var e := Entry(Key(other, client), h);
      GetAfterAppend(ParseLines(Split(first, '\n')), e, e.key);
    } else {
      other := TrimStart(account);
      TrimStartEnds(account);
      BlankAccountIsSavedAsAnother(None, account, client, h, other, client);
    }
  }

  /** A save changes no other client's entry, whatever the file holds, if and only if a line can hold the account. */
  lemma OthersKeptIff(account: string, client: int, h: int)
    requires IsI64(h)
    ensures (forall file, other, otherClient :: !(other == account && otherClient == client) ==>
               Held(Saved(file, account, client, h), other, otherClient) == Held(file, other, otherClient))
            <==> GoodAccount(account)
  {
    hide Held, Saved, GoodAccount;
    if GoodAccount(account) {
      forall file, other, otherClient | !(other == account && otherClient == client)
        ensures Held(Saved(file, account, client, h), other, otherClient) == Held(file, other, otherClient)
      {
        OthersKept(file, account, client, h, other, otherClient);
      }
    } else {
      var other := BadAccountMakesAnotherEntry(account, client, h);
      assert Held(Saved(None, account, client, h), other, client) != Held(None, other, client);
    }
  }

  // ── Lines that hold no entry ──

  lemma {:induction false} NoEquals(s: string)
    requires '=' !in s
    ensures SplitAtLastEquals(s) == None
    decreases |s|
  {
    if s != "" {
      assert s[|s| - 1] in s;
      NoEquals(s[..|s| - 1]);
    }
  }

  /** A line gives an entry if and only if, without the blanks around, it has an `=` and a number after the last one. */
  lemma LineIsEntryIff(line: string, k: string, v: string)
    ensures '=' !in Trim(line) ==> ParseLine(line) == None
    ensures Trim(line) == k + ['='] + v && '=' !in v ==>
      (ParseLine(line).Some? <==> ParseInt(v, MIN_I64, MAX_I64).Some?)
      && (ParseLine(line).Some? ==> ParseLine(line).value == Entry(k, ParseInt(v, MIN_I64, MAX_I64).value))
  {
    hide ParseInt, Trim;
    if '=' !in Trim(line) {
      NoEquals(Trim(line));
    } else if '=' !in v {
      SplitsAtLast(k, v);
    }
  }

  /** A line that holds no entry is left out, and the lines around it are read as without it. */
  lemma DamagedLineIsLeftOut(front: string, line: string, rest: string)
    requires '\n' !in line && ParseLine(line).None?
    ensures Entries(Some(front + ['\n'] + line + ['\n'] + rest)) == Entries(Some(front + ['\n'] + rest))
  {
    hide ParseLine, Split;
    var tail := line + ['\n'] + rest;
    assert front + ['\n'] + line + ['\n'] + rest == front + ['\n'] + tail;
    SplitAppend(front, '\n', tail);
    SplitAppend(front, '\n', rest);
    SplitFirst(line, '\n', rest);
    assert ([line] + Split(rest, '\n'))[1..] == Split(rest, '\n');
    ParseLinesAppend(Split(front, '\n'), Split(tail, '\n'));
    ParseLinesAppend(Split(front, '\n'), Split(rest, '\n'));
  }

  // ── What a file looks like ──

  lemma SmallTexts()
    ensures Decimal(3) == "3" && Decimal(7) == "7" && Decimal(137) == "137" && Decimal(198) == "198"
    ensures Decimal(500) == "500"
  {
  }

  lemma ThreeLines(a: Entry, b: Entry, c: Entry)
    ensures Print([a, b, c]) == Line(a) + ['\n'] + (Line(b) + ['\n'] + (Line(c) + ['\n']))
  {
    hide Line;
    assert [a, b, c][1..] == [b, c] && [b, c][1..] == [c] && [c][1..] == [];
    assert Print([c]) == Line(c) + ['\n'] + [];
    assert Print([b, c]) == Line(b) + ['\n'] + Print([c]);
  }

  lemma ThreeKeys()
    ensures Key("DU1", 198) == "DU1.198" && Key("DU1", 7) == "DU1.7" && Key("DU2", 198) == "DU2.198"
  {
    hide Decimal;
    SmallTexts();
  }

  function ThreeEntries(): seq<Entry> {
    [Entry("DU1.198", 137), Entry("DU1.7", 500), Entry("DU2.198", 3)]
  }

  lemma ThreeEntriesText()
    ensures Print(ThreeEntries()) == "DU1.198=137\nDU1.7=500\nDU2.198=3\n"
  {
    hide Decimal, Print;
    SmallTexts();
    var a, b, c := Entry("DU1.198", 137), Entry("DU1.7", 500), Entry("DU2.198", 3);
    ThreeLines(a, b, c);
    assert Line(a) == "DU1.198=137" && Line(b) == "DU1.7=500" && Line(c) == "DU2.198=3";
  }

  lemma PutThree()
    ensures Put([], "DU1.198", 137) == ThreeEntries()[..1]
    ensures Put(ThreeEntries()[..1], "DU1.7", 500) == ThreeEntries()[..2]
    ensures Put(ThreeEntries()[..2], "DU2.198", 3) == ThreeEntries()
  {
    FirstAt([], "DU1.198", 137, 0);
    FirstAt(ThreeEntries()[..1], "DU1.7", 500, 1);
    FirstAt(ThreeEntries()[..2], "DU2.198", 3, 2);
  }

  lemma EntriesOfThree(n: nat)
    requires n <= 3
    ensures Entries(Some(Print(ThreeEntries()[..n]))) == ThreeEntries()[..n]
  {
    hide Entries, Print;
    PrintBack(ThreeEntries()[..n]);
    GoodKeptWhole(ThreeEntries()[..n]);
  }

  lemma GetThree()
    ensures forall n: nat :: n <= 3 ==>
      && Get(ThreeEntries()[..n], "DU1.198") == (if n > 0 then Some(137) else None)
      && Get(ThreeEntries()[..n], "DU1.7") == (if n > 1 then Some(500) else None)
      && Get(ThreeEntries()[..n], "DU2.198") == (if n > 2 then Some(3) else None)
  {
    forall n: nat | n <= 3
      ensures Get(ThreeEntries()[..n], "DU1.198") == if n > 0 then Some(137) else None
      ensures Get(ThreeEntries()[..n], "DU1.7") == if n > 1 then Some(500) else None
      ensures Get(ThreeEntries()[..n], "DU2.198") == if n > 2 then Some(3) else None
    {
      FirstAt(ThreeEntries()[..n], "DU1.198", 0, 0);
      FirstAt(ThreeEntries()[..n], "DU1.7", 0, if n > 1 then 1 else n);
      FirstAt(ThreeEntries()[..n], "DU2.198", 0, if n > 2 then 2 else n);
    }
  }

  /** The file after the saves of three clients, character by character, and what it holds. */
  lemma ThreeSaves()
    ensures var text := "DU1.198=137\nDU1.7=500\nDU2.198=3\n";
      var file := Saved(Saved(Saved(None, "DU1", 198, 137), "DU1", 7, 500), "DU2", 198, 3);
      && file == Some(text) && Saved(file, "DU1", 198, 12) == file
      && Load(file, "DU1", 198) == SavedValue(file, "DU1", 198, 12) == 137
      && Load(file, "DU1", 7) == 500 && Load(file, "DU2", 198) == 3
  {
    hide Entries, Print, Put, Get, Key, ThreeEntries;
    ThreeKeys();
    ThreeEntriesText();
    PutThree();
    GetThree();
    EntriesOfThree(1);
    EntriesOfThree(2);
    EntriesOfThree(3);
    NoFile();
    assert ThreeEntries()[..3] == ThreeEntries() by { ThreeOfThree(); }
  }

  lemma ThreeOfThree()
    ensures ThreeEntries()[..3] == ThreeEntries() && |ThreeEntries()| == 3
  {
  }

  lemma NoFile()
    ensures Entries(None) == [] && Get([], "DU1.198") == None
  {
  }
}

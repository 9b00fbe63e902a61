/** The time printers and the UTC part of the time parser (src/config.rs). */
module TimeText {
  import opened Basics
  import opened Calendar
  import opened Text

  /** A date and a time of day. */
  datatype Civil = Civil(date: Date, h: int, mi: int, s: int)

  function CivilOf(secs: nat): Civil {
    var t := secs % 86400;
    Civil(DaysToYmd(secs / 86400), t / 3600, (t % 3600) / 60, t % 60)
  }

  function SecondsOf(x: Civil): int {
    DaysFromCivil(x.date) * 86400 + x.h * 3600 + x.mi * 60 + x.s
  }

  /** A date and a time that exist, in a year the text has a form for. */
  predicate Exists(x: Civil) {
    Calendar.Valid(x.date) && x.date.y >= 0 && 0 <= x.h < 24 && 0 <= x.mi < 60 && 0 <= x.s < 60
  }

  function DateText(x: Date): string
    requires x.y >= 0 && x.m >= 0 && x.d >= 0
  {
    Padded(x.y, 4) + Padded(x.m, 2) + Padded(x.d, 2)
  }

  function ClockText(h: nat, mi: nat, s: nat): string {
    Padded(h, 2) + [':'] + Padded(mi, 2) + [':'] + Padded(s, 2)
  }

  /** The text of a time, with `sep` between the date and the time: `{:04}{:02}{:02}sep{:02}:{:02}:{:02}`. */
  function TextOf(x: Civil, sep: char): string
    requires Exists(x)
  {
    DateText(x.date) + [sep] + ClockText(x.h, x.mi, x.s)
  }

  lemma TimeOfDay(t: int)
    requires 0 <= t < 86400
    ensures 0 <= t / 3600 < 24 && 0 <= (t % 3600) / 60 < 60 && t / 3600 * 3600 + (t % 3600) / 60 * 60 + t % 60 == t
  {
  }

  lemma CivilIsValid(secs: nat)
    ensures var x := CivilOf(secs);
      Exists(x) && x.date.y >= 1970 && SecondsOf(x) == secs
  {
    hide DaysToYmd, DaysFromCivil, Valid;
    DateIsValid(secs / 86400);
    DaysRoundTrip(secs / 86400);
    TimeOfDay(secs % 86400);
    IsTheCalendar(0);
    YearsGoUp(0, secs / 86400);
  }

  lemma TomorrowYear(x: Date)
    ensures x.y <= Tomorrow(x).y
  {
  }

  lemma {:induction false} YearsGoUp(days: nat, later: nat)
    requires days <= later
    ensures DaysToYmd(days).y <= DaysToYmd(later).y
    decreases later
  {
    hide *;
    if days < later {
      YearsGoUp(days, later - 1);
      IsTheCalendar(later - 1);
      TomorrowYear(DaysToYmd(later - 1));
    }
  }

  /** The first second of the year 10000. */
  const END_OF_9999: nat := 253402300800

  lemma YearIn9999(secs: nat)
    requires secs < END_OF_9999
    ensures CivilOf(secs).date.y <= 9999
  {
    hide DaysToYmd;
    LastDayOf9999();
    YearsGoUp(secs / 86400, 2932896);
  }

  lemma LastDayOf9999()
    ensures DaysToYmd(2932896) == Date(9999, 12, 31)
  {
    hide DaysToYmd, MarchDate, MonthOf;
    assert DayOfEra(3, 24, 3, 305) == 146036;
    DateOf(2932896, 9999, 24, 3, 24, 3, 305);
    DayInMonth(9999, 9, 305);
  }

  // ── The printers ──

  /** `unix_to_ib_utc_dash`: a negative time is taken as 0. */
  function UtcDash(secs: int): string {
    CivilIsValid(if secs < 0 then 0 else secs);
    TextOf(CivilOf(if secs < 0 then 0 else secs), '-')
  }

  /** `unix_to_ib_datetime`: a negative time is taken as the unsigned word of the same bits. */
  function Datetime(secs: int): string
    requires -0x8000_0000_0000_0000 <= secs < 0x8000_0000_0000_0000
  {
    var u: nat := if secs < 0 then secs + 0x1_0000_0000_0000_0000 else secs;
    CivilIsValid(u);
    TextOf(CivilOf(u), ' ')
  }

  // ── The parser ──

  /** What the expiry text gives: a date, an instant, or a time in a named zone (not resolved here). */
  datatype Expiry = DateOnly(ymd: int) | Instant(secs: int) | InZone(local: Civil, zone: string)

  datatype ParseError = NotADate | NoSuchDate | NotATime | BadNumber | NoSuchTime | OutOfRange

  datatype Result<T> = Ok(value: T) | Err(error: ParseError)

  /** The position of the first blank, or the length. */
  function FirstSpace(s: string): (k: nat)
    ensures k <= |s|
  {
    if s == "" || IsSpace(s[0]) then 0 else 1 + FirstSpace(s[1..])
  }

  /** The time of a date; `last` is the last instant that the time library holds. */
  function ParseTime(date: Date, time: string, zone: string, last: int): Result<Option<Expiry>> {
    var parts := Split(time, ':');
    if |parts| != 3 then Err(NotATime)
    else
      var h, mi, s := ParseInt(parts[0], -128, 127), ParseInt(parts[1], -128, 127), ParseInt(parts[2], -128, 127);
      if h.None? || mi.None? || s.None? then Err(BadNumber)
      else if !(0 <= h.value < 24 && 0 <= mi.value < 60 && 0 <= s.value < 60) then Err(NoSuchTime)
      else
        var x := Civil(date, h.value, mi.value, s.value);
        if zone != "" then Ok(Some(InZone(x, zone)))
        else if SecondsOf(x) > last then Err(OutOfRange)
        else Ok(Some(Instant(SecondsOf(x))))
  }

  /** `parse_ib_expiry_zoned`; a time with no zone is UTC. */
  function ParseExpiry(input: string, last: int): Result<Option<Expiry>> {
    var s := Trim(input);
    if s == "" then Ok(None)
    else if |s| < 8 || !AllDigits(s[..8]) then Err(NotADate)
    else
      var date := Date(Value(s[..4]), Value(s[4..6]), Value(s[6..8]));
      if !Valid(date) then Err(NoSuchDate)
      else
        var rest := Trim(if |s| > 8 && s[8] == '-' then s[9..] else s[8..]);
        if rest == "" then Ok(Some(DateOnly(Value(s[..8]))))
        else
          var k := FirstSpace(rest);
          ParseTime(date, rest[..k], if k < |rest| then Trim(rest[k + 1..]) else "", last)
  }

  lemma DigitIsNoSpace(c: char)
    requires IsDigit(c)
    ensures !IsSpace(c) && c != ':' && c != '-'
  {
  }

  lemma {:induction false} NoSpace(s: string)
    requires forall c <- s :: !IsSpace(c)
    ensures FirstSpace(s) == |s|
  {
    if s != "" {
      NoSpace(s[1..]);
    }
  }

  lemma Two(n: nat)
    requires n < 100
    ensures |Padded(n, 2)| == 2 && Value(Padded(n, 2)) == n && ':' !in Padded(n, 2)
    ensures ParseInt(Padded(n, 2), -128, 127) == Some(n)
  {
    assert Pow10(2) == 100;
    PaddedLength(n, 2);
    ValuePadded(n, 2);
    ParseDigits(Padded(n, 2), -128, 127);
  }

  lemma Four(n: nat)
    requires n < 10000
    ensures |Padded(n, 4)| == 4 && Value(Padded(n, 4)) == n
  {
    assert Pow10(4) == 10000 by { assert Pow10(2) == 100; }
    PaddedLength(n, 4);
    ValuePadded(n, 4);
  }

  /** A time of two-digit numbers: refused out of range, else an instant or a time in the zone. */
  lemma TimeRoundTrip(date: Date, h: nat, mi: nat, s: nat, zone: string, last: int)
    requires h < 100 && mi < 100 && s < 100
    ensures var x := Civil(date, h, mi, s);
      ParseTime(date, ClockText(h, mi, s), zone, last)
      == if h >= 24 || mi >= 60 || s >= 60 then Err(NoSuchTime)
         else if zone != "" then Ok(Some(InZone(x, zone)))
         else if SecondsOf(x) > last then Err(OutOfRange)
         else Ok(Some(Instant(SecondsOf(x))))
  {
    hide SecondsOf, Padded, ParseInt;
    Two(h);
    Two(mi);
    Two(s);
    TimeParts(Padded(h, 2), Padded(mi, 2), Padded(s, 2));
  }

  lemma TimeParts(a: string, b: string, c: string)
    requires ':' !in a && ':' !in b && ':' !in c
    ensures Split(a + [':'] + b + [':'] + c, ':') == [a, b, c]
  {
    var rest := b + [':'] + c;
    assert a + [':'] + b + [':'] + c == a + [':'] + rest;
    SplitFirst(a, ':', rest);
    SplitFirst(b, ':', c);
    SplitNone(c, ':');
  }

  lemma TimeHasNoSpace(h: nat, mi: nat, s: nat)
    requires h < 100 && mi < 100 && s < 100
    ensures var t := ClockText(h, mi, s);
      && |t| == 8 && FirstSpace(t) == 8 && !IsSpace(t[0]) && !IsSpace(t[7]) && Trim(t) == t
      && Trim([' '] + t) == t
  {
    hide Padded, IsDigit, ParseInt, Value;
    Two(h);
    Two(mi);
    Two(s);
    var t := ClockText(h, mi, s);
    forall c <- t ensures !IsSpace(c) {
      if c != ':' {
        assert c in Padded(h, 2) || c in Padded(mi, 2) || c in Padded(s, 2);
        DigitIsNoSpace(c);
      }
    }
    NoSpace(t);
    assert t[0] in t && t[7] in t;
    TrimNothing(t);
    assert ([' '] + t)[1..] == t;
    assert TrimStart([' '] + t) == TrimStart(t) == t;
  }

  lemma DateParts(x: Date)
    requires 0 <= x.y <= 9999 && 0 <= x.m < 100 && 0 <= x.d < 100
    ensures var t := DateText(x);
      && |t| == 8 && AllDigits(t) && Value(t[..4]) == x.y && Value(t[4..6]) == x.m
      && Value(t[6..8]) == x.d && Value(t) == 10000 * x.y + 100 * x.m + x.d
  {
    hide Padded, IsDigit, ParseInt, Value, IsLeap, Pow10;
    Four(x.y);
    Two(x.m);
    Two(x.d);
    Pow10s();
    var t := DateText(x);
    assert t[..4] == Padded(x.y, 4) && t[4..6] == Padded(x.m, 2) && t[6..8] == Padded(x.d, 2);
    ValueJoin(Padded(x.y, 4) + Padded(x.m, 2), Padded(x.d, 2));
    ValueJoin(Padded(x.y, 4), Padded(x.m, 2));
  }

  /** What follows the date of a text, without the dash and the blanks. */
  function AfterDate(tail: string): string {
    Trim(if tail != "" && tail[0] == '-' then tail[1..] else tail)
  }

  /** A text that starts with eight digits is decided by the date they print and by what follows. */
  lemma ParseOf(x: Date, tail: string, last: int)
    requires 0 <= x.y <= 9999 && 0 <= x.m < 100 && 0 <= x.d < 100 && (tail != "" ==> !IsSpace(tail[|tail| - 1]))
    ensures var rest := AfterDate(tail);
      ParseExpiry(DateText(x) + tail, last)
      == if !Valid(x) then Err(NoSuchDate)
         else if rest == "" then Ok(Some(DateOnly(10000 * x.y + 100 * x.m + x.d)))
         else var k := FirstSpace(rest);
           ParseTime(x, rest[..k], if k < |rest| then Trim(rest[k + 1..]) else "", last)
  {
    hide Padded, IsDigit, Value, Valid, ParseTime, DateText, TrimStart, TrimEnd, Trim, FirstSpace, IsSpace;
    var d := DateText(x);
    var s := d + tail;
    DateParts(x);
    assert s[..8] == d && s[..4] == d[..4] && s[4..6] == d[4..6] && s[6..8] == d[6..8] && s[8..] == tail;
    DigitIsNoSpace(d[0]);
    DigitIsNoSpace(d[7]);
    assert s[0] == d[0] && s[|s| - 1] == if tail == "" then d[7] else tail[|tail| - 1];
    TrimNothing(s);
    assert tail != "" && tail[0] == '-' ==> s[9..] == tail[1..];
  }

  /** A date alone reads as that date. */
  lemma DateReadsBack(x: Date, last: int)
    requires Valid(x) && 0 <= x.y <= 9999
    ensures ParseExpiry(DateText(x), last) == Ok(Some(DateOnly(10000 * x.y + 100 * x.m + x.d)))
  {
    hide IsLeap, ParseExpiry, DateText;
    ParseOf(x, "", last);
    TrimNothing("");
    assert DateText(x) + "" == DateText(x);
  }

  /** Eight digits that are no date are refused, whatever follows. */
  lemma NoDateIsRefused(x: Date, tail: string, last: int)
    requires 0 <= x.y <= 9999 && 0 <= x.m < 100 && 0 <= x.d < 100 && !Valid(x)
    requires tail != "" ==> !IsSpace(tail[|tail| - 1])
    ensures ParseExpiry(DateText(x) + tail, last) == Err(NoSuchDate)
  {
    ParseOf(x, tail, last);
  }

  /** A date, a dash or a blank, and a time of two-digit numbers, with a zone or none. */
  lemma TimedTextReads(date: Date, sep: char, h: nat, mi: nat, s: nat, zone: string, last: int)
    requires Valid(date) && 0 <= date.y <= 9999 && (sep == '-' || sep == ' ') && h < 100 && mi < 100 && s < 100
    requires zone != "" ==> !IsSpace(zone[0]) && !IsSpace(zone[|zone| - 1])
    ensures var x := Civil(date, h, mi, s);
      ParseExpiry(DateText(date) + ([sep] + ClockText(h, mi, s) + if zone == "" then "" else [' '] + zone), last)
      == if h >= 24 || mi >= 60 || s >= 60 then Err(NoSuchTime)
         else if zone != "" then Ok(Some(InZone(x, zone)))
         else if SecondsOf(x) > last then Err(OutOfRange)
         else Ok(Some(Instant(SecondsOf(x))))
  {
    hide IsLeap, DateText, ClockText, ParseTime, SecondsOf, ParseExpiry, IsSpace, Trim, TrimStart, TrimEnd, FirstSpace;
    var t := ClockText(h, mi, s);
    TimeHasNoSpace(h, mi, s);
    var rest := t + if zone == "" then "" else [' '] + zone;
    var tail := [sep] + rest;
    assert tail == [sep] + t + if zone == "" then "" else [' '] + zone;
    assert tail[|tail| - 1] == if zone == "" then t[7] else zone[|zone| - 1];
    assert tail[1..] == rest && (sep == ' ' ==> [' '] + rest + "" == tail);
    assert rest[0] == t[0] && rest[|rest| - 1] == tail[|tail| - 1];
    BlankIsSpace();
    TrimNothing(rest);
    TrimBlanks([' '], rest, "");
    ParseOf(date, tail, last);
    assert AfterDate(tail) == rest;
    if zone == "" {
      assert rest == t && t[..8] == t;
    } else {
      FirstSpaceAt(t, [' '] + zone);
      assert rest[..8] == t && rest[9..] == zone;
      TrimNothing(zone);
    }
    TimeRoundTrip(date, h, mi, s, zone, last);
  }

  lemma BlankIsSpace()
    ensures IsSpace(' ') && AllSpace([' ']) && AllSpace("")
  {
  }

  lemma {:induction false} FirstSpaceAt(t: string, rest: string)
    requires FirstSpace(t) == |t| && rest != "" && IsSpace(rest[0])
    ensures FirstSpace(t + rest) == |t|
    decreases |t|
  {
    if t != "" {
      assert (t + rest)[1..] == t[1..] + rest;
      FirstSpaceAt(t[1..], rest);
    } else {
      assert t + rest == rest;
    }
  }

  /** Blanks alone are no expiry, and blanks around a text make no difference. */
  lemma BlanksAround(a: string, t: string, b: string, last: int)
    requires AllSpace(a) && AllSpace(b) && (t != "" ==> !IsSpace(t[0]) && !IsSpace(t[|t| - 1]))
    ensures ParseExpiry(a + t + b, last) == ParseExpiry(t, last)
    ensures t == "" ==> ParseExpiry(a + t + b, last) == Ok(None)
  {
    TrimBlanks(a, t, b);
    TrimNothing(t);
    hide Trim;
  }

  /** A text that does not start with eight digits is refused. */
  lemma NoDigitsAreRefused(t: string, last: int)
    requires t != "" && !IsSpace(t[0]) && !IsSpace(t[|t| - 1])
    requires |t| < 8 || exists i :: 0 <= i < 8 && !IsDigit(t[i])
    ensures ParseExpiry(t, last) == Err(NotADate)
  {
    TrimNothing(t);
    NotAllDigits(t);
    hide Trim, AllDigits;
  }

  lemma NotAllDigits(t: string)
    ensures |t| >= 8 && AllDigits(t[..8]) ==> forall i :: 0 <= i < 8 ==> IsDigit(t[i])
  {
    hide IsDigit;
    assert |t| >= 8 ==> forall i :: 0 <= i < 8 ==> t[..8][i] == t[i];
  }

  /** A time that is not three numbers between colons, or has one out of range, is refused. */
  lemma NoTimeIsRefused(date: Date, a: string, b: string, c: string, more: string, zone: string, last: int)
    requires ':' !in a && ':' !in b && ':' !in c
    ensures ParseTime(date, a, zone, last) == ParseTime(date, a + [':'] + b, zone, last) == Err(NotATime)
    ensures ParseTime(date, a + [':'] + b + [':'] + c + [':'] + more, zone, last) == Err(NotATime)
    ensures var h, mi, s := ParseInt(a, -128, 127), ParseInt(b, -128, 127), ParseInt(c, -128, 127);
      var r := ParseTime(date, a + [':'] + b + [':'] + c, zone, last);
      && (h.None? || mi.None? || s.None? <==> r == Err(BadNumber))
      && (h.Some? && mi.Some? && s.Some? ==>
            (r == Err(NoSuchTime) <==>
             h.value < 0 || h.value > 23 || mi.value < 0 || mi.value > 59 || s.value < 0 || s.value > 59))
  {
    hide ParseInt, SecondsOf;
    SplitNone(a, ':');
    SplitFirst(a, ':', b);
    SplitNone(b, ':');
    TimeParts(a, b, c);
    SplitAppend(a + [':'] + b + [':'] + c, ':', more);
  }

  /** A time printed in either form, read with no zone, is the same time, up to the last instant there is. */
  lemma TextRoundTrip(x: Civil, sep: char, last: int)
    requires Exists(x) && x.date.y <= 9999 && (sep == '-' || sep == ' ')
    ensures ParseExpiry(TextOf(x, sep), last)
         == if SecondsOf(x) > last then Err(OutOfRange) else Ok(Some(Instant(SecondsOf(x))))
  {
    hide IsLeap, DateText, ClockText, SecondsOf, ParseExpiry;
    TimedTextReads(x.date, sep, x.h, x.mi, x.s, "", last);
    assert TextOf(x, sep) == DateText(x.date) + ([sep] + ClockText(x.h, x.mi, x.s) + "");
  }

  /** The two printers differ in the character between the date and the time. */
  lemma FirstTexts()
    ensures UtcDash(0) == "19700101-00:00:00" && Datetime(0) == "19700101 00:00:00"
  {
    hide DaysToYmd, TextOf, Exists;
    First();
    assert CivilOf(0) == Civil(Date(1970, 1, 1), 0, 0, 0);
    FirstText('-');
    FirstText(' ');
  }

  lemma FirstText(sep: char)
    ensures TextOf(Civil(Date(1970, 1, 1), 0, 0, 0), sep) == "19700101" + [sep] + "00:00:00"
  {
    hide Padded;
    FourDigits(1970);
    TwoDigits(19);
    TwoDigits(70);
    TwoDigits(1);
    TwoDigits(0);
  }

  /** The time texts of every second up to the end of 9999 read back as that second. */
  lemma PrintedTimesReadBack(secs: nat, last: int)
    requires secs < END_OF_9999
    ensures ParseExpiry(UtcDash(secs), last) == Ok(Some(Instant(secs))) <==> secs <= last
    ensures ParseExpiry(Datetime(secs), last) == Ok(Some(Instant(secs))) <==> secs <= last
  {
    hide CivilOf, TextOf, ParseExpiry, SecondsOf, Exists;
    CivilIsValid(secs);
    YearIn9999(secs);
    TextRoundTrip(CivilOf(secs), '-', last);
    TextRoundTrip(CivilOf(secs), ' ', last);
  }

  /** The last second that the jiff library holds, 9999-12-30 22:00:00 UTC, as its documentation gives it. */
  const LAST_INSTANT: nat := 253402207200

  /** So the texts of the last 26 hours of 9999 do not read back, from 22:00:01 on, and all before do. */
  lemma LastHoursDoNotReadBack(secs: nat)
    requires secs < END_OF_9999
    ensures ParseExpiry(UtcDash(secs), LAST_INSTANT) == Ok(Some(Instant(secs))) <==> secs < 253402207201
    ensures UtcDash(253402207201) == "99991230-22:00:01"
  {
    hide UtcDash, ParseExpiry;
    PrintedTimesReadBack(secs, LAST_INSTANT);
    FirstUnread();
  }

  lemma FirstUnread()
    ensures UtcDash(253402207201) == "99991230-22:00:01"
  {
    hide DaysToYmd, TextOf, Exists;
    BeforeLastDay();
    assert 253402207201 == 86400 * 2932895 + 79201;
    assert CivilOf(253402207201) == Civil(Date(9999, 12, 30), 22, 0, 1);
    UnreadText();
  }

  lemma BeforeLastDay()
    ensures DaysToYmd(2932895) == Date(9999, 12, 30)
  {
    hide DaysToYmd, MarchDate, MonthOf;
    assert DayOfEra(3, 24, 3, 304) == 146035;
    DateOf(2932895, 9999, 24, 3, 24, 3, 304);
    DayInMonth(9999, 9, 304);
  }

  lemma UnreadText()
    ensures TextOf(Civil(Date(9999, 12, 30), 22, 0, 1), '-') == "99991230-22:00:01"
  {
    hide Padded;
    FourDigits(9999);
    TwoDigits(99);
    TwoDigits(12);
    TwoDigits(30);
    TwoDigits(22);
    TwoDigits(0);
    TwoDigits(1);
  }

  // ── The order of texts ──

  predicate DateLess(x: Date, y: Date) {
    x.y < y.y || (x.y == y.y && (x.m < y.m || (x.m == y.m && x.d < y.d)))
  }

  lemma {:induction false} DatesGoUp(a: nat, b: nat)
    requires a < b
    ensures DateLess(DaysToYmd(a), DaysToYmd(b))
    decreases b
  {
    hide DaysToYmd, Valid, IsLeap;
    IsTheCalendar(b - 1);
    if a < b - 1 {
      DatesGoUp(a, b - 1);
    }
  }

  predicate TimeLess(x: Civil, y: Civil) {
    x.h < y.h || (x.h == y.h && (x.mi < y.mi || (x.mi == y.mi && x.s < y.s)))
  }

  predicate CivilLess(x: Civil, y: Civil) {
    DateLess(x.date, y.date) || (x.date == y.date && TimeLess(x, y))
  }

  lemma TimesOfDayGoUp(x: Civil, y: Civil)
    requires Exists(x) && Exists(y)
    ensures TimeLess(x, y) <==> x.h * 3600 + x.mi * 60 + x.s < y.h * 3600 + y.mi * 60 + y.s
  {
  }

  lemma CivilGoesUp(a: nat, b: nat)
    ensures CivilLess(CivilOf(a), CivilOf(b)) <==> a < b
  {
    hide DaysToYmd, DaysFromCivil, TimeLess, Exists;
    var x, y := CivilOf(a), CivilOf(b);
    CivilIsValid(a);
    CivilIsValid(b);
    TimesOfDayGoUp(x, y);
    if a / 86400 < b / 86400 {
      DatesGoUp(a / 86400, b / 86400);
    } else if b / 86400 < a / 86400 {
      DatesGoUp(b / 86400, a / 86400);
    }
  }

  lemma LexSame(p: char, x: string, y: string)
    ensures LexLess([p] + x, [p] + y) <==> LexLess(x, y)
  {
  }

  lemma Pow10s()
    ensures Pow10(2) == 100 && Pow10(4) == 10000
  {
  }

  lemma LexTime(x: Civil, y: Civil)
    requires Exists(x) && Exists(y)
    ensures LexLess(ClockText(x.h, x.mi, x.s), ClockText(y.h, y.mi, y.s)) <==> TimeLess(x, y)
  {
    hide Padded, LexLess, Valid;
    Pow10s();
    var sx, sy := Padded(x.s, 2), Padded(y.s, 2);
    var mx, my := Padded(x.mi, 2) + ([':'] + sx), Padded(y.mi, 2) + ([':'] + sy);
    assert ClockText(x.h, x.mi, x.s) == Padded(x.h, 2) + ([':'] + mx);
    assert ClockText(y.h, y.mi, y.s) == Padded(y.h, 2) + ([':'] + my);
    LexPadded(x.h, y.h, 2, [':'] + mx, [':'] + my);
    LexSame(':', mx, my);
    LexPadded(x.mi, y.mi, 2, [':'] + sx, [':'] + sy);
    LexSame(':', sx, sy);
    assert sx + "" == sx && sy + "" == sy;
    LexPadded(x.s, y.s, 2, "", "");
    NotBelowEmpty("");
  }

  lemma NotBelowEmpty(x: string)
    ensures !LexLess(x, "")
  {
  }

  lemma LexText(x: Civil, y: Civil, sep: char)
    requires Exists(x) && Exists(y) && x.date.y <= 9999 && y.date.y <= 9999
    ensures LexLess(TextOf(x, sep), TextOf(y, sep)) <==> CivilLess(x, y)
  {
    hide Padded, LexLess, ClockText, TimeLess, IsLeap;
    Pow10s();
    var tx, ty := [sep] + ClockText(x.h, x.mi, x.s), [sep] + ClockText(y.h, y.mi, y.s);
    var dx, dy := Padded(x.date.d, 2) + tx, Padded(y.date.d, 2) + ty;
    var mx, my := Padded(x.date.m, 2) + dx, Padded(y.date.m, 2) + dy;
    assert TextOf(x, sep) == Padded(x.date.y, 4) + mx;
    assert TextOf(y, sep) == Padded(y.date.y, 4) + my;
    LexPadded(x.date.y, y.date.y, 4, mx, my);
    LexPadded(x.date.m, y.date.m, 2, dx, dy);
    LexPadded(x.date.d, y.date.d, 2, tx, ty);
    LexSame(sep, ClockText(x.h, x.mi, x.s), ClockText(y.h, y.mi, y.s));
    LexTime(x, y);
  }

  /** Up to the end of 9999, the order of the texts is the order of the times. */
  lemma TextOrderIsTimeOrder(a: nat, b: nat)
    requires a < END_OF_9999 && b < END_OF_9999
    ensures LexLess(UtcDash(a), UtcDash(b)) <==> a < b
    ensures LexLess(Datetime(a), Datetime(b)) <==> a < b
  {
    hide CivilOf, TextOf, LexLess, Exists, CivilLess;
    CivilIsValid(a);
    CivilIsValid(b);
    YearIn9999(a);
    YearIn9999(b);
    LexText(CivilOf(a), CivilOf(b), '-');
    LexText(CivilOf(a), CivilOf(b), ' ');
    CivilGoesUp(a, b);
  }

  // ── The buffer writer ──

  /** The two characters of a byte; above 99 the first is past '9'. */
  function Pair(val: nat): (s: string)
    requires val < 256
    ensures |s| == 2
  {
    [('0' as int + val / 10) as char, ('0' as int + val % 10) as char]
  }

  /** What the buffer holds; the century is cut to a byte. */
  function StampText(x: Civil): string
    requires Exists(x)
  {
    Pair(x.date.y / 100 % 256) + Pair(x.date.y % 100) + Pair(x.date.m) + Pair(x.date.d) + ['-']
    + Pair(x.h) + [':'] + Pair(x.mi) + [':'] + Pair(x.s)
  }

  /** `write_u2` at a position of the buffer. */
  method WriteU2(buf: array<char>, at: nat, val: nat)
    requires at + 2 <= buf.Length && val < 256
    modifies buf
    ensures [buf[at], buf[at + 1]] == Pair(val)
    ensures forall k :: 0 <= k < buf.Length && k != at && k != at + 1 ==> buf[k] == old(buf[k])
  {
    buf[at] := ('0' as int + val / 10) as char;
    buf[at + 1] := ('0' as int + val % 10) as char;
  }

  /** `chrono_free_timestamp` as a function of the seconds: the dash form just up to the year 9999. */
  method ChronoFreeTimestamp(secs: nat) returns (buf: array<char>)
    ensures fresh(buf) && buf.Length == 17
    ensures Exists(CivilOf(secs)) && buf[..] == StampText(CivilOf(secs))
    ensures buf[..] == UtcDash(secs) <==> CivilOf(secs).date.y <= 9999
  {
    hide *;
    var days := secs / 86400;
    var timeSecs := secs % 86400;
    var date := DaysToYmd(days);
    var hours, minutes, seconds := timeSecs / 3600, timeSecs % 3600 / 60, timeSecs % 60;
    StampParts(secs, date, hours, minutes, seconds);
    buf := new char[17](_ => '0');
    var century, year := date.y / 100 % 256, date.y % 100;
    WriteU2(buf, 0, century);
    WriteU2(buf, 2, year);
    WriteU2(buf, 4, date.m);
    WriteU2(buf, 6, date.d);
    buf[8] := '-';
    assert [buf[0], buf[1]] == Pair(century) && [buf[2], buf[3]] == Pair(year);
    assert [buf[4], buf[5]] == Pair(date.m) && [buf[6], buf[7]] == Pair(date.d);
    WriteU2(buf, 9, hours);
    buf[11] := ':';
    WriteU2(buf, 12, minutes);
    buf[14] := ':';
    WriteU2(buf, 15, seconds);
    StampIs(buf[..], CivilOf(secs));
    StampIsText(CivilOf(secs));
    DashText(secs);
  }

  lemma StampParts(secs: nat, date: Date, h: nat, mi: nat, s: nat)
    requires date == DaysToYmd(secs / 86400)
    requires h == secs % 86400 / 3600 && mi == secs % 86400 % 3600 / 60 && s == secs % 86400 % 60
    ensures Exists(CivilOf(secs)) && CivilOf(secs) == Civil(date, h, mi, s)
    ensures date.y >= 0 && 0 <= date.m < 100 && 0 <= date.d < 100 && h < 100 && mi < 100 && s < 100
  {
    hide DaysToYmd, IsLeap;
    CivilIsValid(secs);
  }

  lemma DashText(secs: nat)
    ensures Exists(CivilOf(secs)) && UtcDash(secs) == TextOf(CivilOf(secs), '-')
  {
    CivilIsValid(secs);
  }

  /** The buffer holds the printed text just for the years the text has four digits for. */
  lemma StampIsText(x: Civil)
    requires Exists(x)
    ensures StampText(x) == TextOf(x, '-') <==> x.date.y <= 9999
  {
    hide Padded, Pair, IsLeap;
    var y := x.date.y;
    PairIsPadded(x.date.m);
    PairIsPadded(x.date.d);
    PairIsPadded(x.h);
    PairIsPadded(x.mi);
    PairIsPadded(x.s);
    if y <= 9999 {
      FourDigits(y);
      PairIsPadded(y / 100);
      PairIsPadded(y % 100);
    } else {
      Pow10s();
      PaddedTooLong(y, 4);
    }
  }

  lemma StampIs(b: string, x: Civil)
    requires Exists(x) && |b| == 17 && b[8] == '-' && b[11] == ':' && b[14] == ':'
    requires [b[0], b[1]] == Pair(x.date.y / 100 % 256) && [b[2], b[3]] == Pair(x.date.y % 100)
    requires [b[4], b[5]] == Pair(x.date.m) && [b[6], b[7]] == Pair(x.date.d)
    requires [b[9], b[10]] == Pair(x.h) && [b[12], b[13]] == Pair(x.mi) && [b[15], b[16]] == Pair(x.s)
    ensures b == StampText(x)
  {
  }

  lemma PairIsPadded(n: nat)
    requires n < 100
    ensures Padded(n, 2) == Pair(n)
  {
    TwoDigits(n);
  }

  lemma TwoDigits(n: nat)
    requires n < 100
    ensures Padded(n, 2) == [Digit(n / 10), Digit(n % 10)]
  {
    assert Padded(n / 10, 1) == Padded(n / 100, 0) + [Digit(n / 10 % 10)];
  }

  lemma FourDigits(n: nat)
    requires n < 10000
    ensures Padded(n, 4) == Padded(n / 100, 2) + Padded(n % 100, 2)
  {
    hide Padded;
    TwoDigits(n / 100);
    TwoDigits(n % 100);
    FourthDigit(n, 4);
    FourthDigit(n / 10, 3);
    assert n / 10 / 10 == n / 100;
    assert n / 10 % 10 == n % 100 / 10;
    assert n % 100 % 10 == n % 10;
  }

  lemma FourthDigit(n: nat, width: nat)
    requires width > 0
    ensures Padded(n, width) == Padded(n / 10, width - 1) + [Digit(n % 10)]
  {
  }
}

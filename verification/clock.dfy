/**
  Calendar dates, wall-clock times and the handful of Python `datetime`
  parsers and formatters the validators and the booking service rely on:
  `strptime(s, "%Y-%m-%d")`, `strptime(s, "%I:%M %p")`, `fromisoformat`,
  `isoformat()` and `strftime` with `%Y-%m-%d`, `%H:%M`, `%I:%M %p`, `%B %d, %Y`.
  Each parser is the regular expression Python compiles for the format,
  followed by the calendar check `datetime` performs.
 */
module Clock {
  import opened Wrappers
  import opened Text

  datatype Date = Date(year: int, month: int, day: int)

  /** A 24-hour wall-clock time of day. */
  datatype ClockTime = ClockTime(hour: int, minute: int)

  datatype DateTime = DateTime(date: Date, time: ClockTime, second: int)

  predicate IsLeapYear(y: int) {
    y % 4 == 0 && (y % 100 != 0 || y % 400 == 0)
  }

  function DaysInMonth(y: int, m: int): (n: int)
    requires 1 <= m <= 12
    ensures 28 <= n <= 31
  {
    if m == 2 then (if IsLeapYear(y) then 29 else 28)
    else if m == 4 || m == 6 || m == 9 || m == 11 then 30
    else 31
  }

  /** The dates `datetime.date` can represent (years 1 to 9999). */
  predicate ValidDate(d: Date) {
    1 <= d.year <= 9999 && 1 <= d.month <= 12 && 1 <= d.day <= DaysInMonth(d.year, d.month)
  }

  predicate ValidClock(t: ClockTime) {
    0 <= t.hour < 24 && 0 <= t.minute < 60
  }

  predicate ValidDateTime(dt: DateTime) {
    ValidDate(dt.date) && ValidClock(dt.time) && 0 <= dt.second < 60
  }

  /** Calendar order: `a < b` on `datetime.date`. */
  predicate Before(a: Date, b: Date) {
    a.year < b.year
    || (a.year == b.year && (a.month < b.month || (a.month == b.month && a.day < b.day)))
  }

  // ---------------------------------------------------------------------------
  // Decimal digit runs

  function Pow10(k: nat): (p: nat)
    ensures p >= 1
  {
    if k == 0 then 1 else 10 * Pow10(k - 1)
  }

  /** The value of a concatenation of digit runs, positionally. */
  lemma {:induction false} DigitsValueAppend(a: string, b: string)
    requires AllDigits(a) && AllDigits(b)
    ensures AllDigits(a + b)
    ensures DigitsValue(a + b) == DigitsValue(a) * Pow10(|b|) + DigitsValue(b)
    decreases |b|
  {
    AllDigitsAppend(a, b);
    if b == [] {
      assert a + b == a;
    } else {
      var b' := b[..|b| - 1];
      var ab := a + b;
      assert ab[..|ab| - 1] == a + b';
      assert ab[|ab| - 1] == b[|b| - 1];
      DigitsValueAppend(a, b');
      DigitsValueStep(ab);
      DigitsValueStep(b);
      ShiftByTen(DigitsValue(a), Pow10(|b'|), DigitsValue(b'), DigitValue(b[|b| - 1]));
    }
  }

  /** The last digit of a run contributes its units. */
  lemma DigitsValueStep(s: string)
    requires AllDigits(s) && s != []
    ensures AllDigits(s[..|s| - 1])
    ensures DigitsValue(s) == DigitsValue(s[..|s| - 1]) * 10 + DigitValue(s[|s| - 1])
  {
  }

  lemma ShiftByTen(x: int, p: int, y: int, d: int)
    ensures (x * p + y) * 10 + d == x * (10 * p) + (y * 10 + d)
  {
  }

  lemma AllDigitsAppend(a: string, b: string)
    requires AllDigits(a) && AllDigits(b)
    ensures AllDigits(a + b)
  {
    forall i | 0 <= i < |a + b|
      ensures IsAsciiDigit((a + b)[i])
    {
      if i >= |a| {
        assert (a + b)[i] == b[i - |a|];
      }
    }
  }

  lemma DigitCharOfValue(c: char)
    requires IsAsciiDigit(c)
    ensures DigitChar(DigitValue(c)) == c
  {
  }

  /** The value of a one- or two-character digit run, spelled out. */
  lemma ShortDigitsValue(t: string)
    requires 1 <= |t| <= 2 && AllDigits(t)
    ensures |t| == 1 ==> DigitsValue(t) == DigitValue(t[0])
    ensures |t| == 2 ==> DigitsValue(t) == DigitValue(t[0]) * 10 + DigitValue(t[1])
  {
    assert t[..1][..0] == [];
    assert DigitsValue(t[..1]) == DigitValue(t[0]);
  }

  /** A two-digit run is the zero-padded rendering of its own value. */
  lemma Pad2OfDigits(t: string)
    requires |t| == 2 && AllDigits(t)
    ensures DigitsValue(t) < 100
    ensures Pad2(DigitsValue(t)) == t
  {
    ShortDigitsValue(t);
    DigitCharOfValue(t[0]);
    DigitCharOfValue(t[1]);
  }

  /** A four-digit run is the zero-padded rendering of its own value. */
  lemma Pad4OfDigits(t: string)
    requires |t| == 4 && AllDigits(t)
    ensures DigitsValue(t) < 10000
    ensures Pad4(DigitsValue(t)) == t
  {
    assert t == t[..2] + t[2..];
    DigitsValueAppend(t[..2], t[2..]);
    Pad2OfDigits(t[..2]);
    Pad2OfDigits(t[2..]);
    var v := DigitsValue(t);
    assert v == DigitsValue(t[..2]) * 100 + DigitsValue(t[2..]);
    assert v / 100 == DigitsValue(t[..2]);
    assert v % 100 == DigitsValue(t[2..]);
  }

  // ---------------------------------------------------------------------------
  // strptime(s, "%Y-%m-%d")

  /**
    The token `1[0-2]|0[1-9]|[1-9]` Python's strptime uses for `%m` and for `%I`:
    a number from 1 to 12, written with one or two digits.
   */
  predicate OneToTwelveToken(t: string) {
    (|t| == 2 && ((t[0] == '1' && '0' <= t[1] <= '2') || (t[0] == '0' && '1' <= t[1] <= '9')))
    || (|t| == 1 && '1' <= t[0] <= '9')
  }

  /** The `%d` token `3[01]|[12]\d|0[1-9]|[1-9]| [1-9]`. */
  predicate DayToken(t: string) {
    (|t| == 2 && ((t[0] == '3' && '0' <= t[1] <= '1') || ('1' <= t[0] <= '2' && IsAsciiDigit(t[1]))
                  || (t[0] == '0' && '1' <= t[1] <= '9') || (t[0] == ' ' && '1' <= t[1] <= '9')))
    || (|t| == 1 && '1' <= t[0] <= '9')
  }

  /** `int(token)`: Python's `int` ignores the leading blank of a space-padded day. */
  function TokenValue(t: string): (v: int)
    requires OneToTwelveToken(t) || DayToken(t)
    ensures 1 <= v <= 31
    ensures OneToTwelveToken(t) ==> v <= 12
  {
    if t[0] == ' ' then DigitValue(t[1])
    else
      ShortDigitsValue(t);
      DigitsValue(t)
  }

  /**
    The whole-string match of strptime's pattern for "%Y-%m-%d" when the month
    token is `ml` characters long: four digits, '-', month token, '-', day token,
    and nothing after it.
   */
  ghost predicate YmdLayout(s: string, ml: int) {
    && 1 <= ml <= 2
    && 7 + ml <= |s|
    && AllDigits(s[..4]) && s[4] == '-'
    && OneToTwelveToken(s[5..5 + ml]) && s[5 + ml] == '-'
    && DayToken(s[6 + ml..])
  }

  ghost function LayoutDate(s: string, ml: int): Date
    requires YmdLayout(s, ml)
  {
    Date(DigitsValue(s[..4]), TokenValue(s[5..5 + ml]), TokenValue(s[6 + ml..]))
  }

  /** `datetime.strptime(s, "%Y-%m-%d").date()`, `None` where Python raises ValueError. */
  function ParseYmd(s: string): (r: Option<Date>)
    ensures r.Some? ==> ValidDate(r.value)
  {
    if |s| < 8 || !AllDigits(s[..4]) || s[4] != '-' then None
    else
      var ml := if s[6] == '-' then 1 else 2;
      if |s| < 7 + ml || s[5 + ml] != '-' || !OneToTwelveToken(s[5..5 + ml]) || !DayToken(s[6 + ml..]) then None
      else
        var d := Date(DigitsValue(s[..4]), TokenValue(s[5..5 + ml]), TokenValue(s[6 + ml..]));
        if ValidDate(d) then Some(d) else None
  }

  /**
    The positional scan agrees with the pattern: a string parses exactly when
    some month-token length lays it out as the pattern demands and the fields
    form a real calendar date, and it then yields that date.
   */
  lemma ParseYmdIsPatternMatch(s: string)
    ensures ParseYmd(s).Some? <==> exists ml :: YmdLayout(s, ml) && ValidDate(LayoutDate(s, ml))
    ensures forall ml :: YmdLayout(s, ml) && ValidDate(LayoutDate(s, ml)) ==> ParseYmd(s) == Some(LayoutDate(s, ml))
  {
    if ParseYmd(s).Some? {
      var ml := if s[6] == '-' then 1 else 2;
      assert YmdLayout(s, ml);
    }
  }

  /** `date.isoformat()`: "YYYY-MM-DD", zero-padded. */
  function IsoDate(d: Date): (r: string)
    requires ValidDate(d)
    ensures |r| == 10 && r[4] == '-' && r[7] == '-'
  {
    Pad4(d.year) + "-" + Pad2(d.month) + "-" + Pad2(d.day)
  }

  /** The canonical spelling parses back to the date it spells. */
  lemma {:induction false} ParseYmdOfIsoDate(d: Date)
    requires ValidDate(d)
    ensures ParseYmd(IsoDate(d)) == Some(d)
  {
    var s := IsoDate(d);
    assert s[..4] == Pad4(d.year);
    assert s[5..7] == Pad2(d.month);
    assert s[8..] == Pad2(d.day);
    assert s[6] != '-';
    var m := s[5..7];
    assert m[..1][..0] == [];
    assert OneToTwelveToken(m);
    assert TokenValue(m) == d.month;
    var dd := s[8..];
    assert dd[..1][..0] == [];
    assert DayToken(dd);
    assert TokenValue(dd) == d.day;
  }

  /** The day after `d`; `None` past 9999-12-31, where `datetime` raises OverflowError. */
  function NextDay(d: Date): (r: Option<Date>)
    requires ValidDate(d)
    ensures r.None? <==> d == Date(9999, 12, 31)
    ensures r.Some? ==> ValidDate(r.value) && Before(d, r.value)
    ensures r.Some? ==> forall e :: ValidDate(e) && Before(d, e) ==> !Before(e, r.value)
  {
    if d.day < DaysInMonth(d.year, d.month) then Some(d.(day := d.day + 1))
    else if d.month < 12 then Some(Date(d.year, d.month + 1, 1))
    else if d.year < 9999 then Some(Date(d.year + 1, 1, 1))
    else None
  }

  /** `datetime(...).isoformat()` of midnight on `d`: the start of that day. */
  function DayStart(d: Date): (r: string)
    requires ValidDate(d)
    ensures |r| == 19 && r[..10] == IsoDate(d)
  {
    IsoDate(d) + "T00:00:00"
  }

  // ---------------------------------------------------------------------------
  // strptime(s, "%I:%M %p") and the 12-hour / 24-hour renderings

  /** The `%M` token `[0-5]\d|\d`. */
  predicate MinuteToken(t: string) {
    (|t| == 2 && '0' <= t[0] <= '5' && IsAsciiDigit(t[1])) || (|t| == 1 && IsAsciiDigit(t[0]))
  }

  function MinuteValue(t: string): (v: int)
    requires MinuteToken(t)
    ensures 0 <= v < 60
  {
    ShortDigitsValue(t);
    DigitsValue(t)
  }

  /** The `%p` token: "am" or "pm" in any letter case; `Some(true)` for pm. */
  function Meridiem(t: string): (r: Option<bool>)
    ensures r == Some(false) <==> Lower(t) == "am"
    ensures r == Some(true) <==> Lower(t) == "pm"
  {
    var l := Lower(t);
    if l == "am" then Some(false) else if l == "pm" then Some(true) else None
  }

  /** strptime's conversion of `%I` with `%p` to a 24-hour clock. */
  function To24Hour(h12: int, pm: bool): (h: int)
    requires 1 <= h12 <= 12
    ensures 0 <= h < 24
    ensures pm <==> h >= 12
    ensures h % 12 == h12 % 12
  {
    if pm then (if h12 == 12 then 12 else h12 + 12)
    else (if h12 == 12 then 0 else h12)
  }

  /**
    `datetime.strptime(s, "%I:%M %p")` as a time of day: an hour token, ':',
    a minute token, one or more whitespace characters (the blank in the format
    matches `\s+`), "am"/"pm" in any case, and nothing else.
   */
  function Parse12(s: string): (r: Option<ClockTime>)
    ensures r.Some? ==> ValidClock(r.value)
  {
    if |s| < 2 then None
    else
      var hl := if s[1] == ':' then 1 else 2;
      if |s| <= hl || s[hl] != ':' || !OneToTwelveToken(s[..hl]) then None
      else
        var rest := s[hl + 1..];
        var ml := if |rest| >= 2 && IsSpace(rest[1]) then 1 else 2;
        if |rest| <= ml || !MinuteToken(rest[..ml]) || !IsSpace(rest[ml]) then None
        else
          match Meridiem(TrimLeft(rest[ml..]))
          case None => None
          case Some(pm) => Some(ClockTime(To24Hour(TokenValue(s[..hl]), pm), MinuteValue(rest[..ml])))
  }

  /** `strftime("%I:%M %p")`: zero-padded 12-hour clock, "AM" before noon. */
  function Format12(t: ClockTime): (r: string)
    requires ValidClock(t)
    ensures |r| == 8 && r[2] == ':' && r[5] == ' ' && r[7] == 'M'
    ensures r[6] == (if t.hour < 12 then 'A' else 'P')
  {
    var h12 := if t.hour % 12 == 0 then 12 else t.hour % 12;
    Pad2(h12) + ":" + Pad2(t.minute) + " " + (if t.hour < 12 then "AM" else "PM")
  }

  /** `strftime("%H:%M")`. */
  function Format24(t: ClockTime): (r: string)
    requires ValidClock(t)
    ensures |r| == 5 && r[2] == ':'
  {
    Pad2(t.hour) + ":" + Pad2(t.minute)
  }

  lemma MeridiemOfUpper()
    ensures Meridiem("AM") == Some(false) && Meridiem("PM") == Some(true)
  {
    assert Lower("AM") == "am" by {
      assert Lower("AM")[0] == 'a' && Lower("AM")[1] == 'm';
    }
    assert Lower("PM") == "pm" by {
      assert Lower("PM")[0] == 'p' && Lower("PM")[1] == 'm';
    }
  }

  /** The parser's reading of a zero-padded hour, a zero-padded minute and an upper-case marker. */
  lemma Parse12OfPadded(h12: int, m: int, marker: string, pm: bool)
    requires 1 <= h12 <= 12 && 0 <= m < 60
    requires Meridiem(marker) == Some(pm) && |marker| == 2 && !IsSpace(marker[0])
    ensures Parse12(Pad2(h12) + ":" + Pad2(m) + " " + marker) == Some(ClockTime(To24Hour(h12, pm), m))
  {
    var ht := Pad2(h12);
    ShortDigitsValue(ht);
    assert OneToTwelveToken(ht);
    assert TokenValue(ht) == h12;
    var mt := Pad2(m);
    ShortDigitsValue(mt);
    assert MinuteToken(mt);
    assert MinuteValue(mt) == m;
    Parse12OfTokens(ht, mt, marker, pm);
  }

  /** The parser splits an eight-character "hh:mm xm" text at its fixed positions. */
  lemma Parse12OfTokens(ht: string, mt: string, marker: string, pm: bool)
    requires |ht| == 2 && IsAsciiDigit(ht[1]) && OneToTwelveToken(ht)
    requires |mt| == 2 && IsAsciiDigit(mt[1]) && MinuteToken(mt)
    requires Meridiem(marker) == Some(pm) && |marker| == 2 && !IsSpace(marker[0])
    ensures Parse12(ht + ":" + mt + " " + marker) == Some(ClockTime(To24Hour(TokenValue(ht), pm), MinuteValue(mt)))
  {
    var s := ht + ":" + mt + " " + marker;
    assert s[..2] == ht && s[3..5] == mt && s[6..] == marker;
    assert s[5..] == " " + marker;
    Parse12AtPositions(s, pm);
  }

  /** Parse12 reads the hour at 0..2, the minute at 3..5 and the marker after the blank at 5. */
  lemma Parse12AtPositions(s: string, pm: bool)
    requires |s| == 8 && IsAsciiDigit(s[1]) && s[2] == ':' && IsAsciiDigit(s[4]) && s[5] == ' '
    requires OneToTwelveToken(s[..2]) && MinuteToken(s[3..5])
    requires Meridiem(s[6..]) == Some(pm) && !IsSpace(s[6])
    ensures Parse12(s) == Some(ClockTime(To24Hour(TokenValue(s[..2]), pm), MinuteValue(s[3..5])))
  {
    var rest := s[3..];
    assert rest[1] == s[4] && rest[2] == s[5];
    assert rest[..2] == s[3..5];
    assert rest[2..] == s[5..];
    assert TrimLeft(s[5..]) == TrimLeft(s[6..]);
  }

  /** The 12-hour rendering is read back by the 12-hour parser as the same time. */
  lemma {:induction false} Parse12OfFormat12(t: ClockTime)
    requires ValidClock(t)
    ensures Parse12(Format12(t)) == Some(t)
  {
    MeridiemOfUpper();
    var pm := t.hour >= 12;
    var h12 := if t.hour % 12 == 0 then 12 else t.hour % 12;
    var marker := if pm then "PM" else "AM";
    assert To24Hour(h12, pm) == t.hour;
    assert Format12(t) == Pad2(h12) + ":" + Pad2(t.minute) + " " + marker;
    Parse12OfPadded(h12, t.minute, marker, pm);
  }

  // ---------------------------------------------------------------------------
  // fromisoformat / isoformat

  /** Exactly two digits whose value is below `bound`. */
  predicate TwoDigitsBelow(t: string, bound: int) {
    |t| == 2 && AllDigits(t) && DigitsValue(t) < bound
  }

  /** `date.fromisoformat` on "YYYY-MM-DD". */
  function ParseIsoDate(s: string): (r: Option<Date>)
    ensures r.Some? ==> ValidDate(r.value)
  {
    if |s| != 10 || !AllDigits(s[..4]) || s[4] != '-' || !AllDigits(s[5..7]) || s[7] != '-' || !AllDigits(s[8..]) then None
    else
      var d := Date(DigitsValue(s[..4]), DigitsValue(s[5..7]), DigitsValue(s[8..]));
      if ValidDate(d) then Some(d) else None
  }

  /** "YYYY-MM-DD" is the only spelling the ISO date parser accepts for a date. */
  lemma {:induction false} ParseIsoDateIffIsoDate(s: string, d: Date)
    ensures ParseIsoDate(s) == Some(d) <==> ValidDate(d) && s == IsoDate(d)
  {
    if ParseIsoDate(s) == Some(d) {
      Pad4OfDigits(s[..4]);
      Pad2OfDigits(s[5..7]);
      Pad2OfDigits(s[8..]);
      assert s == s[..4] + "-" + s[5..7] + "-" + s[8..];
    }
    if ValidDate(d) && s == IsoDate(d) {
      assert s[..4] == Pad4(d.year);
      assert s[5..7] == Pad2(d.month);
      assert s[8..] == Pad2(d.day);
    }
  }

  /** A UTC offset `+HH:MM` / `-HH:MM`. */
  predicate OffsetOk(x: string) {
    |x| == 6 && (x[0] == '+' || x[0] == '-') && TwoDigitsBelow(x[1..3], 24) && x[3] == ':' && TwoDigitsBelow(x[4..], 60)
  }

  /** Fractional seconds `.fff` or `.ffffff`. */
  predicate FractionOk(x: string) {
    (|x| == 4 || |x| == 7) && x[0] == '.' && AllDigits(x[1..])
  }

  /** What may follow "YYYY-MM-DDTHH:MM:SS": nothing, a fraction, an offset, or both. */
  predicate SuffixOk(x: string) {
    x == [] || OffsetOk(x) || FractionOk(x)
    || (|x| >= 10 && FractionOk(x[..|x| - 6]) && OffsetOk(x[|x| - 6..]))
  }

  /**
    `datetime.fromisoformat(s)` on "YYYY-MM-DD?HH:MM:SS" (any one separator
    character) with an optional fraction and offset. Only the wall-clock fields
    are kept: `strftime` renders an aware datetime in its own offset.
   */
  function ParseIso(s: string): (r: Option<DateTime>)
    ensures r.Some? ==> ValidDateTime(r.value)
  {
    if |s| < 19 || s[13] != ':' || s[16] != ':' then None
    else if !TwoDigitsBelow(s[11..13], 24) || !TwoDigitsBelow(s[14..16], 60) || !TwoDigitsBelow(s[17..19], 60) then None
    else if !SuffixOk(s[19..]) then None
    else
      match ParseIsoDate(s[..10])
      case None => None
      case Some(d) => Some(DateTime(d, ClockTime(DigitsValue(s[11..13]), DigitsValue(s[14..16])), DigitsValue(s[17..19])))
  }

  /** `datetime.isoformat()` of a naive datetime with no microseconds. */
  function IsoFormat(dt: DateTime): (r: string)
    requires ValidDateTime(dt)
    ensures |r| == 19 && r[..10] == IsoDate(dt.date) && r[10] == 'T'
  {
    IsoDate(dt.date) + "T" + Format24(dt.time) + ":" + Pad2(dt.second)
  }

  /** An ISO rendering, with any accepted suffix, parses back to the same datetime. */
  lemma {:induction false} ParseIsoOfIsoFormat(dt: DateTime, suffix: string)
    requires ValidDateTime(dt) && SuffixOk(suffix)
    ensures ParseIso(IsoFormat(dt) + suffix) == Some(dt)
  {
    var s := IsoFormat(dt) + suffix;
    var f := Format24(dt.time);
    assert s[..10] == IsoDate(dt.date);
    assert s[11..16] == f;
    assert s[11..13] == f[..2] == Pad2(dt.time.hour);
    assert s[14..16] == f[3..] == Pad2(dt.time.minute);
    assert s[17..19] == Pad2(dt.second);
    assert s[19..] == suffix;
    ParseIsoDateIffIsoDate(s[..10], dt.date);
  }

  const MonthNames: seq<string> := ["January", "February", "March", "April", "May", "June", "July",
                                    "August", "September", "October", "November", "December"]

  /** `strftime("%B %d, %Y")` in the C locale, e.g. "February 20, 2026". */
  function LongDate(d: Date): (r: string)
    requires ValidDate(d)
    ensures |r| == |MonthNames[d.month - 1]| + 9 && r[..|MonthNames[d.month - 1]|] == MonthNames[d.month - 1]
    ensures r[|r| - 9] == ' ' && r[|r| - 8..|r| - 6] == Pad2(d.day) && r[|r| - 6..|r| - 4] == ", "
    ensures r[|r| - 4..] == Pad4(d.year)
  {
    MonthNames[d.month - 1] + " " + Pad2(d.day) + ", " + Pad4(d.year)
  }
}

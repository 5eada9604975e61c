/**
  `datetime.strptime(text, '%Y-%m-%d').date()` as CPython's `_strptime` module
  computes it. The format becomes the regular expression
      (?P<Y>\d\d\d\d)-(?P<m>1[0-2]|0[1-9]|[1-9])-(?P<d>3[01]|[12]\d|0[1-9]|[1-9]| [1-9])
  which must match a prefix of the text; the rest of the text must then be
  empty, and finally the `date` constructor must accept the fields.
 */
module Strptime {
  import opened Results
  import opened Calendar

  /** Why the call raises `ValueError`. */
  datatype ParseError =
    | NoMatch                         // the text does not start with the pattern
    | UnconvertedData(rest: string)   // the pattern matched a proper prefix only
    | YearOutOfRange(year: int)       // year 0000 is below `MINYEAR`
    | DayOutOfRange                   // the day does not exist in that month

  predicate IsDigit(c: char) {
    '0' <= c <= '9'
  }

  predicate IsNonZeroDigit(c: char) {
    '1' <= c <= '9'
  }

  function DigitValue(c: char): (v: int)
    requires IsDigit(c)
    ensures 0 <= v <= 9
  {
    c as int - '0' as int
  }

  function DigitChar(v: int): (c: char)
    requires 0 <= v <= 9
    ensures IsDigit(c) && DigitValue(c) == v
    ensures v != 0 ==> IsNonZeroDigit(c)
  {
    ('0' as int + v) as char
  }

  /** The number two digit characters spell, as `int` reads them. */
  function TwoDigits(hi: char, lo: char): (n: int)
    requires IsDigit(hi) && IsDigit(lo)
    ensures 0 <= n <= 99
  {
    10 * DigitValue(hi) + DigitValue(lo)
  }

  /** A directive's match: the number it denotes and the index just past it. */
  datatype Field = Field(value: int, end: nat)

  /** `%Y` at the start of `s`: exactly four digits. */
  function MatchYear(s: string): (r: Option<Field>)
    ensures r.Some? ==> r.value.end == 4 <= |s| && 0 <= r.value.value <= 9999
    ensures r.Some? ==> forall i :: 0 <= i < 4 ==> IsDigit(s[i])
  {
    if |s| >= 4 && IsDigit(s[0]) && IsDigit(s[1]) && IsDigit(s[2]) && IsDigit(s[3]) then
      Some(Field(100 * TwoDigits(s[0], s[1]) + TwoDigits(s[2], s[3]), 4))
    else None
  }

  /**
    `%m` at index `i` together with the literal '-' after it. The three
    alternatives are tried in the pattern's order; a two-digit alternative not
    followed by '-' is given up for the next one, as the regular expression
    engine backtracks.
   */
  function MatchMonth(s: string, i: nat): (r: Option<Field>)
    ensures r.Some? ==> 1 <= r.value.value <= 12 && i + 2 <= r.value.end <= i + 3 && r.value.end <= |s|
  {
    if i + 2 < |s| && s[i] == '1' && '0' <= s[i + 1] <= '2' && s[i + 2] == '-' then
      Some(Field(TwoDigits(s[i], s[i + 1]), i + 3))
    else if i + 2 < |s| && s[i] == '0' && IsNonZeroDigit(s[i + 1]) && s[i + 2] == '-' then
      Some(Field(TwoDigits(s[i], s[i + 1]), i + 3))
    else if i + 1 < |s| && IsNonZeroDigit(s[i]) && s[i + 1] == '-' then
      Some(Field(DigitValue(s[i]), i + 2))
    else
      None
  }

  /**
    `%d` at index `i`, the last part of the pattern: the first of its five
    alternatives that matches there is taken, whatever follows it.
   */
  function MatchDay(s: string, i: nat): (r: Option<Field>)
    ensures r.Some? ==> 1 <= r.value.value <= 31 && i + 1 <= r.value.end <= i + 2 && r.value.end <= |s|
  {
    if i + 1 < |s| && s[i] == '3' && '0' <= s[i + 1] <= '1' then
      Some(Field(TwoDigits(s[i], s[i + 1]), i + 2))
    else if i + 1 < |s| && '1' <= s[i] <= '2' && IsDigit(s[i + 1]) then
      Some(Field(TwoDigits(s[i], s[i + 1]), i + 2))
    else if i + 1 < |s| && s[i] == '0' && IsNonZeroDigit(s[i + 1]) then
      Some(Field(DigitValue(s[i + 1]), i + 2))
    else if i < |s| && IsNonZeroDigit(s[i]) then
      Some(Field(DigitValue(s[i]), i + 1))
    else if i + 1 < |s| && s[i] == ' ' && IsNonZeroDigit(s[i + 1]) then
      Some(Field(DigitValue(s[i + 1]), i + 2))
    else
      None
  }

  /** A match of the whole pattern against a prefix of the text. */
  datatype Match = Match(year: int, month: int, day: int, end: nat)

  function MatchFormat(s: string): (r: Option<Match>)
    ensures r.Some? ==> && 0 <= r.value.year <= 9999
                        && 1 <= r.value.month <= 12
                        && 1 <= r.value.day <= 31
                        && 8 <= r.value.end <= |s|
  {
    match MatchYear(s)
    case None => None
    case Some(y) =>
      if |s| <= 4 || s[4] != '-' then None
      else
        match MatchMonth(s, 5)
        case None => None
        case Some(m) =>
          match MatchDay(s, m.end)
          case None => None
          case Some(d) => Some(Match(y.value, m.value, d.value, d.end))
  }

  /** `datetime.strptime(s, '%Y-%m-%d').date()`; every error is a `ValueError`. */
  function StrptimeDate(s: string): (r: Result<Date, ParseError>)
    ensures r.Ok? ==> ValidDate(r.value)
  {
    match MatchFormat(s)
    case None => Err(NoMatch)
    case Some(mt) =>
      if mt.end < |s| then Err(UnconvertedData(s[mt.end..]))
      else if !(MinYear <= mt.year <= MaxYear) then Err(YearOutOfRange(mt.year))
      else if mt.day > DaysInMonth(mt.year, mt.month) then Err(DayOutOfRange)
      else Ok(Date(mt.year, mt.month, mt.day))
  }

  // ----- Reference description: the texts that spell a given date

  function Pad2(n: int): (t: string)
    requires 0 <= n <= 99
    ensures |t| == 2 && IsDigit(t[0]) && IsDigit(t[1]) && TwoDigits(t[0], t[1]) == n
  {
    [DigitChar(n / 10), DigitChar(n % 10)]
  }

  function Pad4(n: int): (t: string)
    requires 0 <= n <= 9999
    ensures |t| == 4
  {
    Pad2(n / 100) + Pad2(n % 100)
  }

  /** How `%m` may spell month `m`: two digits, or one digit below ten. */
  function MonthTexts(m: int): set<string>
    requires 1 <= m <= 12
  {
    {Pad2(m)} + (if m <= 9 then {[DigitChar(m)]} else {})
  }

  /** How `%d` may spell day `d`: two digits, or below ten one digit, bare or after a space. */
  function DayTexts(d: int): set<string>
    requires 1 <= d <= 31
  {
    {Pad2(d)} + (if d <= 9 then {[DigitChar(d)], [' ', DigitChar(d)]} else {})
  }

  /** `s` is year, month and day spelled as the format allows, with nothing after them. */
  ghost predicate Spells(s: string, y: int, m: int, d: int)
    requires 0 <= y <= 9999 && 1 <= m <= 12 && 1 <= d <= 31
  {
    exists mt, dt :: mt in MonthTexts(m) && dt in DayTexts(d) && s == Pad4(y) + "-" + mt + "-" + dt
  }

  /** The text that `date.isoformat()` produces. */
  function IsoFormat(d: Date): (t: string)
    requires 0 <= d.year <= 9999 && 1 <= d.month <= 12 && 1 <= d.day <= 31
    ensures |t| == 10
  {
    Pad4(d.year) + "-" + Pad2(d.month) + "-" + Pad2(d.day)
  }

  // ----- Digits

  lemma DigitCharValue(c: char)
    requires IsDigit(c)
    ensures DigitChar(DigitValue(c)) == c
  {
  }

  lemma Pad2OfDigits(hi: char, lo: char)
    requires IsDigit(hi) && IsDigit(lo)
    ensures Pad2(TwoDigits(hi, lo)) == [hi, lo]
  {
    DigitCharValue(hi);
    DigitCharValue(lo);
  }

  lemma Pad4OfDigits(a: char, b: char, c: char, d: char)
    requires IsDigit(a) && IsDigit(b) && IsDigit(c) && IsDigit(d)
    ensures Pad4(100 * TwoDigits(a, b) + TwoDigits(c, d)) == [a, b, c, d]
  {
    var n := 100 * TwoDigits(a, b) + TwoDigits(c, d);
    assert n / 100 == TwoDigits(a, b) && n % 100 == TwoDigits(c, d);
    Pad2OfDigits(a, b);
    Pad2OfDigits(c, d);
  }

  lemma Pad4Digits(n: int)
    requires 0 <= n <= 9999
    ensures var t := Pad4(n);
      && IsDigit(t[0]) && IsDigit(t[1]) && IsDigit(t[2]) && IsDigit(t[3])
      && 100 * TwoDigits(t[0], t[1]) + TwoDigits(t[2], t[3]) == n
  {
    var t := Pad4(n);
    assert t[0..2] == Pad2(n / 100) && t[2..4] == Pad2(n % 100);
  }

  // ----- Soundness: whatever parses spells the date it parses to

  lemma MatchMonthSpelled(s: string, i: nat)
    requires MatchMonth(s, i).Some?
    ensures var f := MatchMonth(s, i).value;
      s[i..f.end - 1] in MonthTexts(f.value) && s[f.end - 1] == '-'
  {
    var f := MatchMonth(s, i).value;
    if f.end == i + 3 {
      Pad2OfDigits(s[i], s[i + 1]);
      assert s[i..f.end - 1] == [s[i], s[i + 1]];
    } else {
      DigitCharValue(s[i]);
      assert s[i..f.end - 1] == [s[i]];
    }
  }

  lemma MatchDaySpelled(s: string, i: nat)
    requires MatchDay(s, i).Some?
    ensures var f := MatchDay(s, i).value; s[i..f.end] in DayTexts(f.value)
  {
    var f := MatchDay(s, i).value;
    if f.end == i + 2 {
      assert s[i..f.end] == [s[i], s[i + 1]];
      if s[i] == ' ' || s[i] == '0' {
        DigitCharValue(s[i + 1]);
      } else {
        Pad2OfDigits(s[i], s[i + 1]);
      }
    } else {
      DigitCharValue(s[i]);
      assert s[i..f.end] == [s[i]];
    }
  }

  lemma StrptimeSound(s: string)
    requires StrptimeDate(s).Ok?
    ensures var date := StrptimeDate(s).value; Spells(s, date.year, date.month, date.day)
  {
    var date := StrptimeDate(s).value;
    var month := MatchMonth(s, 5).value;
    MatchMonthSpelled(s, 5);
    MatchDaySpelled(s, month.end);
    Pad4OfDigits(s[0], s[1], s[2], s[3]);
    var mt, dt := s[5..month.end - 1], s[month.end..];
    assert s[..4] == [s[0], s[1], s[2], s[3]];
    assert s == s[..4] + "-" + mt + "-" + dt;
  }

  // ----- Completeness: every spelling of a date parses, and to that date

  lemma MonthAt(s: string, i: nat, m: int, mt: string)
    requires 1 <= m <= 12 && mt in MonthTexts(m)
    requires i + |mt| < |s| && s[i..i + |mt|] == mt && s[i + |mt|] == '-'
    ensures MatchMonth(s, i) == Some(Field(m, i + |mt| + 1))
  {
    if mt == Pad2(m) {
      assert s[i] == mt[0] && s[i + 1] == mt[1];
    } else {
      assert s[i] == mt[0];
    }
  }

  lemma DayAt(s: string, i: nat, d: int, dt: string)
    requires 1 <= d <= 31 && dt in DayTexts(d)
    requires i <= |s| && s[i..] == dt
    ensures MatchDay(s, i) == Some(Field(d, |s|))
  {
    assert |dt| >= 1 && s[i] == dt[0];
    if |dt| == 2 {
      assert s[i + 1] == dt[1];
    }
  }

  lemma StrptimeSpelled(y: int, m: int, d: int, mt: string, dt: string)
    requires 0 <= y <= 9999 && 1 <= m <= 12 && 1 <= d <= 31
    requires mt in MonthTexts(m) && dt in DayTexts(d)
    ensures StrptimeDate(Pad4(y) + "-" + mt + "-" + dt) ==
      if y == 0 then Err(YearOutOfRange(0))
      else if d > DaysInMonth(y, m) then Err(DayOutOfRange)
      else Ok(Date(y, m, d))
  {
    var s := Pad4(y) + "-" + mt + "-" + dt;
    Pad4Digits(y);
    assert s[..4] == Pad4(y);
    assert MatchYear(s) == Some(Field(y, 4));
    assert s[4] == '-';
    assert s[5..5 + |mt|] == mt && s[5 + |mt|] == '-';
    MonthAt(s, 5, m, mt);
    assert s[6 + |mt|..] == dt;
    DayAt(s, 6 + |mt|, d, dt);
  }

  // ----- The two directions together

  /** The parser accepts exactly the spellings of valid dates, and returns the date spelled. */
  lemma StrptimeIffSpells(s: string, date: Date)
    ensures StrptimeDate(s) == Ok(date) <==>
      ValidDate(date) && Spells(s, date.year, date.month, date.day)
  {
    if StrptimeDate(s) == Ok(date) {
      StrptimeSound(s);
    }
    if ValidDate(date) && Spells(s, date.year, date.month, date.day) {
      var mt, dt :| mt in MonthTexts(date.month) && dt in DayTexts(date.day)
                    && s == Pad4(date.year) + "-" + mt + "-" + dt;
      StrptimeSpelled(date.year, date.month, date.day, mt, dt);
    }
  }

  /** Parsing the text `isoformat` gives back a valid date returns that date. */
  lemma IsoFormatRoundTrip(date: Date)
    requires ValidDate(date)
    ensures StrptimeDate(IsoFormat(date)) == Ok(date)
  {
    StrptimeSpelled(date.year, date.month, date.day, Pad2(date.month), Pad2(date.day));
  }

  /** A well-formed text naming a day its month lacks, such as 2020-02-30, is refused. */
  lemma ImpossibleDayRefused(y: int, m: int, d: int)
    requires 1 <= y <= 9999 && 1 <= m <= 12 && DaysInMonth(y, m) < d <= 31
    ensures StrptimeDate(Pad4(y) + "-" + Pad2(m) + "-" + Pad2(d)) == Err(DayOutOfRange)
  {
    StrptimeSpelled(y, m, d, Pad2(m), Pad2(d));
  }

  /** One-digit months and days, and a day padded with a space, are accepted. */
  lemma LenientSpellingsAccepted()
    ensures StrptimeDate("2020-1-5") == Ok(Date(2020, 1, 5))
    ensures StrptimeDate("2020-01- 5") == Ok(Date(2020, 1, 5))
  {
  }

  /** Texts that do not start with the pattern. */
  lemma PatternMismatchRefused()
    ensures StrptimeDate("2020-13-01") == Err(NoMatch)
    ensures StrptimeDate("20-01-01") == Err(NoMatch)
  {
  }

  /** Texts with something left over once the pattern has matched. */
  lemma TrailingTextRefused()
    ensures StrptimeDate("2020-01-15T10") == Err(UnconvertedData("T10"))
    ensures StrptimeDate("2020-01-32") == Err(UnconvertedData("2"))
  {
  }

  /** Year 0000 and a leap day outside a leap year are refused; a leap day inside one is not. */
  lemma CalendarChecked()
    ensures StrptimeDate("0000-01-01") == Err(YearOutOfRange(0))
    ensures StrptimeDate("2019-02-29") == Err(DayOutOfRange)
    ensures StrptimeDate("2000-02-29") == Ok(Date(2000, 2, 29))
  {
  }
}

/** UTC timestamps as text: parsing, formatting and why comparing the texts compares the times
    (src/core/time.cpp; the shape is a profile of section 5.6 of RFC 3339). */
module UtcTimestamp {
  import opened Prelude
  import opened TextOrder

  datatype Fields = Fields(year: int, month: int, day: int, hour: int, minute: int, second: int)

  /** Seconds since 1970-01-01T00:00:00Z. */
  type Instant = int

  // ---- The calendar ----

  predicate IsLeap(year: int) {
    year % 4 == 0 && (year % 100 != 0 || year % 400 == 0)
  }

  function YearLength(year: int): nat {
    if IsLeap(year) then 366 else 365
  }

  function MonthLength(year: int, month: int): nat
    requires 1 <= month <= 12
  {
    if month == 2 then (if IsLeap(year) then 29 else 28)
    else if month == 4 || month == 6 || month == 9 || month == 11 then 30 else 31
  }

  /** Leap years from year 0 up to, not including, `year`; negative for earlier years. */
  function LeapYearsBefore(year: int): int {
    (year + 3) / 4 - (year + 99) / 100 + (year + 399) / 400
  }

  /** The days from 1970-01-01 to the start of `year`. */
  function DaysBeforeYear(year: int): int {
    365 * (year - 1970) + LeapYearsBefore(year) - LeapYearsBefore(1970)
  }

  /** The days from the start of the year to the start of `month`. */
  function DaysBeforeMonth(year: int, month: int): nat
    requires 1 <= month <= 13
  {
    var days := [0, 31, 59, 90, 120, 151, 181, 212, 243, 273, 304, 334, 365][month - 1];
    if month > 2 && IsLeap(year) then days + 1 else days
  }

  predicate IsDate(f: Fields) {
    && -32767 <= f.year <= 32767 && 1 <= f.month <= 12 && 1 <= f.day <= MonthLength(f.year, f.month)
  }

  predicate IsTime(f: Fields) {
    0 <= f.hour <= 23 && 0 <= f.minute <= 59 && 0 <= f.second <= 59
  }

  function Days(f: Fields): int
    requires IsDate(f)
  {
    DaysBeforeYear(f.year) + DaysBeforeMonth(f.year, f.month) + f.day - 1
  }

  function SecondOfDay(f: Fields): int {
    3600 * f.hour + 60 * f.minute + f.second
  }

  function InstantOf(f: Fields): Instant
    requires IsDate(f)
  {
    86400 * Days(f) + SecondOfDay(f)
  }

  lemma {:induction false} NextYear(year: int)
    ensures DaysBeforeYear(year + 1) == DaysBeforeYear(year) + YearLength(year)
  {
    NextQuotient4(year);
    NextQuotient100(year);
    NextQuotient400(year);
    LeapRule(year);
  }

  lemma {:induction false} LeapRule(year: int)
    ensures YearLength(year)
         == 365 + (if year % 4 == 0 then 1 else 0) - (if year % 100 == 0 then 1 else 0) + if year % 400 == 0 then 1 else 0
  {
    if year % 400 == 0 { assert year == 100 * (4 * (year / 400)); }
    if year % 100 == 0 { assert year == 4 * (25 * (year / 100)); }
  }

  lemma {:induction false} NextQuotient4(year: int)
    ensures (year + 4) / 4 == (year + 3) / 4 + if year % 4 == 0 then 1 else 0
  {
    var q, r := year / 4, year % 4;
    assert year == 4 * q + r;
    assert (year + 3) / 4 == if r == 0 then q else q + 1;
  }

  lemma {:induction false} NextQuotient100(year: int)
    ensures (year + 100) / 100 == (year + 99) / 100 + if year % 100 == 0 then 1 else 0
  {
    var q, r := year / 100, year % 100;
    assert year == 100 * q + r;
    assert (year + 99) / 100 == if r == 0 then q else q + 1;
  }

  lemma {:induction false} NextQuotient400(year: int)
    ensures (year + 400) / 400 == (year + 399) / 400 + if year % 400 == 0 then 1 else 0
  {
    var q, r := year / 400, year % 400;
    assert year == 400 * q + r;
    assert (year + 399) / 400 == if r == 0 then q else q + 1;
  }

  lemma {:induction false} NextMonth(year: int, month: int)
    requires 1 <= month <= 12
    ensures DaysBeforeMonth(year, month + 1) == DaysBeforeMonth(year, month) + MonthLength(year, month)
    ensures DaysBeforeMonth(year, 13) == YearLength(year)
  {
  }

  lemma {:induction false} YearsAreOrdered(a: int, b: int)
    requires a <= b
    ensures a < b ==> DaysBeforeYear(a) + YearLength(a) <= DaysBeforeYear(b)
    decreases b - a
  {
    if a < b {
      YearsAreOrdered(a, b - 1);
      NextYear(b - 1);
    }
  }

  lemma {:induction false} MonthsAreOrdered(year: int, a: int, b: int)
    requires 1 <= a < b <= 13
    ensures DaysBeforeMonth(year, a) + MonthLength(year, a) <= DaysBeforeMonth(year, b)
    decreases b - a
  {
    NextMonth(year, b - 1);
    if a < b - 1 {
      MonthsAreOrdered(year, a, b - 1);
    }
  }

  // ---- Fields in order ----

  predicate DateBefore(f: Fields, g: Fields) {
    f.year < g.year || (f.year == g.year && (f.month < g.month || (f.month == g.month && f.day < g.day)))
  }

  predicate SameDate(f: Fields, g: Fields) {
    f.year == g.year && f.month == g.month && f.day == g.day
  }

  predicate TimeBefore(f: Fields, g: Fields) {
    f.hour < g.hour || (f.hour == g.hour && (f.minute < g.minute || (f.minute == g.minute && f.second < g.second)))
  }

  predicate Before(f: Fields, g: Fields) {
    DateBefore(f, g) || (SameDate(f, g) && TimeBefore(f, g))
  }

  lemma {:induction false} EarlierDateHasFewerDays(f: Fields, g: Fields)
    requires IsDate(f) && IsDate(g) && DateBefore(f, g)
    ensures Days(f) < Days(g)
  {
    if f.year < g.year {
      MonthsAreOrdered(f.year, f.month, 13);
      NextMonth(f.year, 12);
      YearsAreOrdered(f.year, g.year);
    } else if f.month < g.month {
      MonthsAreOrdered(f.year, f.month, g.month);
    }
  }

  lemma {:induction false} EarlierFieldsEarlierInstant(f: Fields, g: Fields)
    requires IsDate(f) && IsTime(f) && IsDate(g) && IsTime(g) && Before(f, g)
    ensures InstantOf(f) < InstantOf(g)
  {
    if DateBefore(f, g) { EarlierDateHasFewerDays(f, g); }
  }

  /** The order of the fields is the order of time, and an instant has one set of fields. */
  lemma {:induction false} FieldsOrderIsChronological(f: Fields, g: Fields)
    requires IsDate(f) && IsTime(f) && IsDate(g) && IsTime(g)
    ensures Before(f, g) <==> InstantOf(f) < InstantOf(g)
    ensures InstantOf(f) == InstantOf(g) ==> f == g
  {
    if Before(f, g) {
      EarlierFieldsEarlierInstant(f, g);
    } else if Before(g, f) {
      EarlierFieldsEarlierInstant(g, f);
    }
  }

  // ---- Numbers ----

  predicate IsDigit(c: char) { '0' <= c <= '9' }

  predicate AllDigits(text: string) { forall k | 0 <= k < |text| :: IsDigit(text[k]) }

  function Value(digits: string): (value: nat)
    requires AllDigits(digits)
  {
    if digits == "" then 0
    else
      assert IsDigit(digits[|digits| - 1]);
      10 * Value(digits[..|digits| - 1]) + (digits[|digits| - 1] as int - '0' as int)
  }

  /** Zero-padded to `width` digits. */
  function Padded(value: nat, width: nat): (text: string)
    ensures |text| == width && AllDigits(text)
  {
    if width == 0 then "" else Padded(value / 10, width - 1) + [('0' as int + value % 10) as char]
  }

  /** `std::from_chars` over the whole field: digits, or a minus sign and digits. */
  function ParseNumber(text: string): Option<int> {
    if text != "" && AllDigits(text) then Some(Value(text))
    else if |text| > 1 && text[0] == '-' && AllDigits(text[1..]) then
      var value: int := Value(text[1..]);
      Some(-value)
    else None
  }

  lemma {:induction false} PaddedValue(digits: string)
    requires AllDigits(digits)
    ensures Padded(Value(digits), |digits|) == digits
  {
    if digits != "" {
      PaddedValue(digits[..|digits| - 1]);
      assert IsDigit(digits[|digits| - 1]);
    }
  }

  function Power10(n: nat): nat {
    if n == 0 then 1 else 10 * Power10(n - 1)
  }

  lemma {:induction false} ValueOfPadded(value: nat, width: nat)
    requires value < Power10(width)
    ensures Value(Padded(value, width)) == value
  {
    if width > 0 {
      ValueOfPadded(value / 10, width - 1);
      assert Padded(value, width)[..width - 1] == Padded(value / 10, width - 1);
    }
  }

  lemma {:induction false} LastCharacterDecides(a: string, b: string, x: char, y: char)
    requires |a| == |b|
    ensures Less(a + [x], b + [y]) <==> Less(a, b) || (a == b && x < y)
  {
    if a != "" {
      assert (a + [x])[1..] == a[1..] + [x] && (b + [y])[1..] == b[1..] + [y];
      LastCharacterDecides(a[1..], b[1..], x, y);
      assert a == [a[0]] + a[1..] && b == [b[0]] + b[1..];
    }
  }

  /** Digit texts of one length are ordered like their values. */
  lemma {:induction false} DigitsOrder(a: string, b: string)
    requires |a| == |b| && AllDigits(a) && AllDigits(b)
    ensures (Less(a, b) <==> Value(a) < Value(b)) && (a == b <==> Value(a) == Value(b))
  {
    if a != "" {
      var n := |a| - 1;
      DigitsOrder(a[..n], b[..n]);
      LastCharacterDecides(a[..n], b[..n], a[n], b[n]);
      assert a == a[..n] + [a[n]] && b == b[..n] + [b[n]];
      assert IsDigit(a[n]) && IsDigit(b[n]);
    }
  }

  // ---- Parsing ----

  datatype ParseError = BadShape | BadNumber | TimeOutOfRange | DateOutOfRange

  /** `validateTimestampShape`: YYYY-MM-DDTHH:MM:SSZ. */
  predicate HasShape(s: string) {
    |s| == 20 && s[4] == '-' && s[7] == '-' && s[10] == 'T' && s[13] == ':' && s[16] == ':' && s[19] == 'Z'
  }

  function ParseFields(s: string): Option<Fields>
    requires HasShape(s)
  {
    var year, month, day := ParseNumber(s[0..4]), ParseNumber(s[5..7]), ParseNumber(s[8..10]);
    var hour, minute, second := ParseNumber(s[11..13]), ParseNumber(s[14..16]), ParseNumber(s[17..19]);
    if year.None? || month.None? || day.None? || hour.None? || minute.None? || second.None? then None
    else Some(Fields(year.value, month.value, day.value, hour.value, minute.value, second.value))
  }

  function Parse(s: string): (result: Result<Instant, ParseError>)
    ensures result.Ok? <==> Parses(s)
  {
    if !HasShape(s) then Err(BadShape)
    else
      var f := ParseFields(s);
      if f.None? then Err(BadNumber)
      else if !IsTime(f.value) then Err(TimeOutOfRange)
      else if !IsDate(f.value) then Err(DateOutOfRange)
      else Ok(InstantOf(f.value))
  }

  /** Exactly the texts that parse. */
  predicate Parses(s: string) {
    HasShape(s) && ParseFields(s).Some? && IsTime(ParseFields(s).value) && IsDate(ParseFields(s).value)
  }

  predicate DigitsOnly(s: string)
    requires HasShape(s)
  {
    && AllDigits(s[0..4]) && AllDigits(s[5..7]) && AllDigits(s[8..10])
    && AllDigits(s[11..13]) && AllDigits(s[14..16]) && AllDigits(s[17..19])
  }

  // ---- Text order is time order ----

  lemma {:induction false} CommonLengthFirst(a: string, b: string, n: nat)
    requires |a| == |b| && n <= |a|
    ensures Less(a, b) <==> Less(a[..n], b[..n]) || (a[..n] == b[..n] && Less(a[n..], b[n..]))
    decreases n
  {
    if n > 0 {
      assert a[..n][1..] == a[1..][..n - 1] && b[..n][1..] == b[1..][..n - 1];
      CommonLengthFirst(a[1..], b[1..], n - 1);
      assert a[1..][n - 1..] == a[n..] && b[1..][n - 1..] == b[n..];
      assert a[..n] == [a[0]] + a[..n][1..] && b[..n] == [b[0]] + b[..n][1..];
    }
  }

  /** Two fields whose texts are ordered like their numbers. */
  predicate FieldOrdered(a: string, b: string) {
    && |a| == |b| && ParseNumber(a).Some? && ParseNumber(b).Some?
    && (Less(a, b) <==> ParseNumber(a).value < ParseNumber(b).value)
    && (a == b <==> ParseNumber(a).value == ParseNumber(b).value)
  }

  lemma {:induction false} DigitFieldsOrdered(a: string, b: string)
    requires |a| == |b| > 0 && AllDigits(a) && AllDigits(b)
    ensures FieldOrdered(a, b)
  {
    DigitsOrder(a, b);
  }

  /** A number above zero comes after every field with a minus sign. */
  lemma {:induction false} PositiveFieldsOrdered(a: string, b: string)
    requires |a| == |b| && AllDigits(a) && ParseNumber(a).Some? && ParseNumber(a).value > 0 && ParseNumber(b).Some?
    ensures FieldOrdered(a, b)
  {
    if AllDigits(b) { DigitFieldsOrdered(a, b); } else { assert IsDigit(a[0]); }
  }

  /** One field and its separator: the field decides, or the rest does. */
  lemma {:induction false} FieldDecides(s: string, t: string, from: nat, to: nat)
    requires |s| == |t| && from <= to < |s| && s[to] == t[to] && FieldOrdered(s[from..to], t[from..to])
    ensures var a, b := ParseNumber(s[from..to]).value, ParseNumber(t[from..to]).value;
            Less(s[from..], t[from..]) <==> a < b || (a == b && Less(s[to + 1..], t[to + 1..]))
  {
    var n := to - from;
    CommonLengthFirst(s[from..], t[from..], n);
    assert s[from..][..n] == s[from..to] && t[from..][..n] == t[from..to];
    assert s[from..][n..] == s[to..] && t[from..][n..] == t[to..];
    assert s[to..][1..] == s[to + 1..] && t[to..][1..] == t[to + 1..];
  }

  predicate DatesOrdered(s: string, t: string)
    requires HasShape(s) && HasShape(t)
  {
    FieldOrdered(s[0..4], t[0..4]) && FieldOrdered(s[5..7], t[5..7]) && FieldOrdered(s[8..10], t[8..10])
  }

  predicate TimesOrdered(s: string, t: string)
    requires HasShape(s) && HasShape(t)
  {
    FieldOrdered(s[11..13], t[11..13]) && FieldOrdered(s[14..16], t[14..16]) && FieldOrdered(s[17..19], t[17..19])
  }

  lemma {:induction false} TimeTextOrder(s: string, t: string)
    requires HasShape(s) && HasShape(t) && ParseFields(s).Some? && ParseFields(t).Some? && TimesOrdered(s, t)
    ensures Less(s[11..], t[11..]) <==> TimeBefore(ParseFields(s).value, ParseFields(t).value)
  {
    FieldDecides(s, t, 11, 13);
    FieldDecides(s, t, 14, 16);
    FieldDecides(s, t, 17, 19);
  }

  lemma {:induction false} DateTextOrder(s: string, t: string)
    requires HasShape(s) && HasShape(t) && ParseFields(s).Some? && ParseFields(t).Some? && DatesOrdered(s, t)
    ensures Less(s, t) <==>
      DateBefore(ParseFields(s).value, ParseFields(t).value)
      || (SameDate(ParseFields(s).value, ParseFields(t).value) && Less(s[11..], t[11..]))
  {
    assert s[0..] == s && t[0..] == t;
    FieldDecides(s, t, 0, 4);
    FieldDecides(s, t, 5, 7);
    FieldDecides(s, t, 8, 10);
  }

  lemma {:induction false} SixFields(s: string, t: string)
    requires HasShape(s) && HasShape(t) && s[0..4] == t[0..4] && s[5..7] == t[5..7] && s[8..10] == t[8..10]
    requires s[11..13] == t[11..13] && s[14..16] == t[14..16] && s[17..19] == t[17..19]
    ensures s == t
  {
    assert forall k | 0 <= k < 4 :: s[k] == s[0..4][k] && t[k] == t[0..4][k];
    assert s[5] == s[5..7][0] && s[6] == s[5..7][1] && t[5] == t[5..7][0] && t[6] == t[5..7][1];
    assert s[8] == s[8..10][0] && s[9] == s[8..10][1] && t[8] == t[8..10][0] && t[9] == t[8..10][1];
    assert s[11] == s[11..13][0] && s[12] == s[11..13][1] && t[11] == t[11..13][0] && t[12] == t[11..13][1];
    assert s[14] == s[14..16][0] && s[15] == s[14..16][1] && t[14] == t[14..16][0] && t[15] == t[14..16][1];
    assert s[17] == s[17..19][0] && s[18] == s[17..19][1] && t[17] == t[17..19][0] && t[18] == t[17..19][1];
  }

  /** Comparing the texts compares the times. */
  ghost predicate Chronological(s: string, t: string)
    requires Parses(s) && Parses(t)
  {
    && (Less(s, t) <==> Parse(s).value < Parse(t).value)
    && (s == t <==> Parse(s).value == Parse(t).value)
  }

  lemma {:induction false} OrderedFieldsAreChronological(s: string, t: string)
    requires Parses(s) && Parses(t) && DatesOrdered(s, t) && TimesOrdered(s, t)
    ensures Chronological(s, t)
  {
    TimeTextOrder(s, t);
    DateTextOrder(s, t);
    FieldsOrderIsChronological(ParseFields(s).value, ParseFields(t).value);
    if ParseFields(s) == ParseFields(t) { SixFields(s, t); }
  }

  function FieldsIn(s: string): Fields
    requires HasShape(s) && DigitsOnly(s)
  {
    Fields(Value(s[0..4]), Value(s[5..7]), Value(s[8..10]), Value(s[11..13]), Value(s[14..16]), Value(s[17..19]))
  }

  lemma {:induction false} DigitsParse(s: string)
    requires HasShape(s) && DigitsOnly(s)
    ensures ParseFields(s) == Some(FieldsIn(s))
  {
  }

  /** For timestamps of digits only that parse, comparing the texts compares the times. */
  lemma {:induction false} TextOrderIsChronological(s: string, t: string)
    requires Parses(s) && Parses(t) && DigitsOnly(s) && DigitsOnly(t)
    ensures Parse(s).Ok? && Parse(t).Ok?
    ensures Less(s, t) <==> Parse(s).value < Parse(t).value
    ensures s == t <==> Parse(s).value == Parse(t).value
  {
    DigitFieldsOrdered(s[0..4], t[0..4]);
    DigitFieldsOrdered(s[5..7], t[5..7]);
    DigitFieldsOrdered(s[8..10], t[8..10]);
    DigitFieldsOrdered(s[11..13], t[11..13]);
    DigitFieldsOrdered(s[14..16], t[14..16]);
    DigitFieldsOrdered(s[17..19], t[17..19]);
    OrderedFieldsAreChronological(s, t);
  }

  // ---- Exactly the texts that are in order with every other ----

  /** Digits only, and no zero that could have been written with a minus sign; a month and a day are never zero. */
  predicate IsSafe(s: string)
    requires Parses(s)
  {
    var f := ParseFields(s).value;
    DigitsOnly(s) && f.year != 0 && f.hour != 0 && f.minute != 0 && f.second != 0
  }

  lemma {:induction false} DateHasDigits(t: string)
    requires Parses(t)
    ensures AllDigits(t[5..7]) && AllDigits(t[8..10])
  {}

  lemma {:induction false} SafeIsChronological(s: string, t: string)
    requires Parses(s) && Parses(t) && IsSafe(s)
    ensures Chronological(s, t)
  {
    DateHasDigits(t);
    DigitFieldsOrdered(s[5..7], t[5..7]);
    DigitFieldsOrdered(s[8..10], t[8..10]);
    PositiveFieldsOrdered(s[0..4], t[0..4]);
    PositiveFieldsOrdered(s[11..13], t[11..13]);
    PositiveFieldsOrdered(s[14..16], t[14..16]);
    PositiveFieldsOrdered(s[17..19], t[17..19]);
    OrderedFieldsAreChronological(s, t);
  }

  lemma {:induction false} LeadingZero(digits: string)
    requires AllDigits(digits)
    ensures AllDigits(['0'] + digits) && Value(['0'] + digits) == Value(digits)
  {
    if digits != "" {
      LeadingZero(digits[..|digits| - 1]);
      assert (['0'] + digits)[..|digits|] == ['0'] + digits[..|digits| - 1];
    } else {
      assert ['0'] + digits == ['0'] && ['0'][..0] == "";
    }
  }

  lemma {:induction false} ZeroStartsWithZero(digits: string)
    requires AllDigits(digits) && Value(digits) == 0 && digits != ""
    ensures digits[0] == '0'
  {
    assert IsDigit(digits[|digits| - 1]);
    if |digits| > 1 {
      ZeroStartsWithZero(digits[..|digits| - 1]);
    }
  }

  /** Zero can be written in two ways: with digits, or with a minus sign and digits. */
  lemma {:induction false} OtherZero(field: string) returns (other: string)
    requires |field| > 1 && ParseNumber(field) == Some(0)
    ensures |other| == |field| && ParseNumber(other) == Some(0) && other != field
  {
    LeadingZeroOf(field);
    other := (if field[0] == '-' then ['0'] else ['-']) + field[1..];
    assert other[1..] == field[1..];
    if field[0] != '-' { assert !IsDigit(other[0]); }
  }

  lemma {:induction false} LeadingZeroOf(field: string)
    requires |field| > 1 && ParseNumber(field) == Some(0)
    ensures AllDigits(field[1..]) && Value(field[1..]) == 0 && field[0] in {'0', '-'}
    ensures AllDigits(['0'] + field[1..]) && Value(['0'] + field[1..]) == 0
  {
    if AllDigits(field) {
      ZeroStartsWithZero(field);
      assert forall k | 0 <= k < |field| - 1 :: field[1..][k] == field[k + 1];
      assert field == ['0'] + field[1..];
    }
    LeadingZero(field[1..]);
  }

  /** One field written differently. */
  lemma {:induction false} FieldReplaced(s: string, from: nat, to: nat, other: string) returns (t: string)
    requires Parses(s) && (from, to) in {(0, 4), (11, 13), (14, 16), (17, 19)}
    requires |other| == to - from && ParseNumber(other) == ParseNumber(s[from..to]) && other != s[from..to]
    ensures Parses(t) && Parse(t) == Parse(s) && t != s
  {
    t := s[..from] + other + s[to..];
    assert t[from..to] == other;
    assert to <= 5 || t[0..4] == s[0..4];
    assert t[5..7] == s[5..7] && t[8..10] == s[8..10];
    assert from == 11 || t[11..13] == s[11..13];
    assert from == 14 || t[14..16] == s[14..16];
    assert from == 17 || t[17..19] == s[17..19];
  }

  lemma {:induction false} ZeroFieldCollides(s: string, from: nat, to: nat) returns (t: string)
    requires Parses(s) && (from, to) in {(0, 4), (11, 13), (14, 16), (17, 19)} && ParseNumber(s[from..to]) == Some(0)
    ensures Parses(t) && !Chronological(s, t)
  {
    var other := OtherZero(s[from..to]);
    t := FieldReplaced(s, from, to, other);
  }

  /** New Year's Day `n` years before the year 0. */
  function NewYear(n: nat): string {
    ['-'] + Padded(n, 3) + "-01-01T00:00:00Z"
  }

  lemma {:induction false} TwoDigits(a: char, b: char)
    requires IsDigit(a) && IsDigit(b)
    ensures AllDigits([a, b]) && Value([a, b]) == 10 * (a as int - '0' as int) + (b as int - '0' as int)
  {
    assert [a, b][..1] == [a] && [a][..0] == "";
    assert Value([a]) == a as int - '0' as int;
  }

  lemma {:induction false} NewYearCharacters(year: string, k: nat)
    requires |year| == 4 && k < 16
    ensures (year + "-01-01T00:00:00Z")[4 + k] == "-01-01T00:00:00Z"[k]
  {}

  lemma {:induction false} NewYearText(year: string)
    requires |year| == 4
    ensures var t := year + "-01-01T00:00:00Z";
            && HasShape(t) && t[0..4] == year && t[5..7] == ['0', '1'] && t[8..10] == ['0', '1']
            && t[11..13] == ['0', '0'] && t[14..16] == ['0', '0'] && t[17..19] == ['0', '0']
  {
    var t := year + "-01-01T00:00:00Z";
    forall k: nat | k < 16
      ensures t[4 + k] == "-01-01T00:00:00Z"[k]
    {
      NewYearCharacters(year, k);
    }
    assert t[4 + 0] == '-' && t[4 + 3] == '-' && t[4 + 6] == 'T' && t[4 + 9] == ':' && t[4 + 12] == ':' && t[4 + 15] == 'Z';
    assert t[4 + 1] == '0' && t[4 + 2] == '1' && t[4 + 4] == '0' && t[4 + 5] == '1';
    assert t[4 + 7] == '0' && t[4 + 8] == '0' && t[4 + 10] == '0' && t[4 + 11] == '0' && t[4 + 13] == '0' && t[4 + 14] == '0';
  }

  lemma {:induction false} NewYearFields(n: nat)
    requires n < 1000
    ensures var t := NewYear(n);
            && HasShape(t) && t[0..4] == ['-'] + Padded(n, 3) && t[1..4] == Padded(n, 3) && t[5..7] == ['0', '1'] && t[8..10] == ['0', '1']
            && t[11..13] == ['0', '0'] && t[14..16] == ['0', '0'] && t[17..19] == ['0', '0']
  {
    NewYearText(['-'] + Padded(n, 3));
    assert NewYear(n)[1..4] == NewYear(n)[0..4][1..];
  }

  lemma {:induction false} NewYearParses(n: nat)
    requires n < 1000
    ensures var t := NewYear(n);
            && HasShape(t) && ParseFields(t) == Some(Fields(0 - n, 1, 1, 0, 0, 0)) && Parses(t)
            && t[0] == '-' && t[1..4] == Padded(n, 3) && Value(Padded(n, 3)) == n
  {
    var t := NewYear(n);
    NewYearFields(n);
    assert Power10(3) == 10 * Power10(2) && Power10(2) == 100;
    ValueOfPadded(n, 3);
    assert t[0] == t[0..4][0] && t[0..4][1..] == Padded(n, 3) && !IsDigit(t[0..4][0]);
    TwoDigits('0', '1');
    TwoDigits('0', '0');
  }

  lemma {:induction false} NegativeYear(s: string) returns (n: nat)
    requires Parses(s) && ParseFields(s).value.year < 0
    ensures 0 < n < 1000 && s[0] == '-' && AllDigits(s[1..4]) && Value(s[1..4]) == n == -ParseFields(s).value.year
  {
    assert s[0..4][1..] == s[1..4];
    n := Value(s[1..4]);
    ThreeDigitsAtMost(s[1..4]);
  }

  lemma {:induction false} ThreeDigitsAtMost(digits: string)
    requires |digits| == 3 && AllDigits(digits)
    ensures Value(digits) < 1000
  {
    var two := digits[..2];
    assert digits[..2][..1][..0] == "" && IsDigit(two[0]) && IsDigit(two[1]) && IsDigit(digits[2]);
    assert Value(two[..1]) <= 9;
    assert Value(two) <= 99;
  }

  /** The texts of negative years are ordered the wrong way round. */
  lemma {:induction false} NegativeTextOrder(s: string, t: string)
    requires HasShape(s) && HasShape(t) && s[0] == '-' == t[0] && AllDigits(s[1..4]) && AllDigits(t[1..4])
    requires Value(s[1..4]) < Value(t[1..4])
    ensures Less(s, t)
  {
    DigitFieldsOrdered(s[1..4], t[1..4]);
    FieldDecides(s, t, 1, 4);
  }

  lemma {:induction false} NegativeYearMisorders(s: string) returns (t: string)
    requires Parses(s) && ParseFields(s).value.year < 0
    ensures Parses(t) && !Chronological(s, t)
  {
    var n := NegativeYear(s);
    var other := if n < 999 then n + 1 else n - 1;
    t := NewYear(other);
    NewYearParses(other);
    if n < 999 {
      NegativeTextOrder(s, t);
      EarlierFieldsEarlierInstant(ParseFields(t).value, ParseFields(s).value);
    } else {
      NegativeTextOrder(t, s);
      EarlierFieldsEarlierInstant(ParseFields(s).value, ParseFields(t).value);
      LessIsTotal(s, t);
    }
  }

  lemma {:induction false} UnsafeMisorders(s: string) returns (t: string)
    requires Parses(s) && !IsSafe(s)
    ensures Parses(t) && !Chronological(s, t)
  {
    var f := ParseFields(s).value;
    if f.year == 0 {
      t := ZeroFieldCollides(s, 0, 4);
    } else if f.hour == 0 {
      t := ZeroFieldCollides(s, 11, 13);
    } else if f.minute == 0 {
      t := ZeroFieldCollides(s, 14, 16);
    } else if f.second == 0 {
      t := ZeroFieldCollides(s, 17, 19);
    } else {
      DateHasDigits(s);
      t := NegativeYearMisorders(s);
    }
  }

  /** A timestamp that parses is in order with every other one if and only if it has digits only and its year,
      hour, minute and second are not zero: zero can also be written with a minus sign, and negative years run
      backwards. */
  lemma {:induction false} ChronologicalIff(s: string)
    requires Parses(s)
    ensures (forall t | Parses(t) :: Chronological(s, t)) <==> IsSafe(s)
  {
    if IsSafe(s) {
      forall t | Parses(t)
        ensures Chronological(s, t)
      {
        SafeIsChronological(s, t);
      }
    } else {
      var t := UnsafeMisorders(s);
    }
  }

  // ---- Formatting ----

  /** The year a day falls in, counted from `year` on, and the days left. */
  function YearFrom(year: int, days: nat): (r: (int, nat))
    ensures r.0 >= year && r.1 < YearLength(r.0) && DaysBeforeYear(r.0) + r.1 == DaysBeforeYear(year) + days
    decreases days
  {
    NextYear(year);
    if days < YearLength(year) then (year, days) else YearFrom(year + 1, days - YearLength(year))
  }

  function MonthFrom(year: int, month: int, days: nat): (r: (int, nat))
    requires 1 <= month <= 12 && DaysBeforeMonth(year, month) + days < YearLength(year)
    ensures month <= r.0 <= 12 && r.1 < MonthLength(year, r.0)
    ensures DaysBeforeMonth(year, r.0) + r.1 == DaysBeforeMonth(year, month) + days
    decreases 12 - month
  {
    NextMonth(year, month);
    if days < MonthLength(year, month) then (month, days)
    else MonthFrom(year, month + 1, days - MonthLength(year, month))
  }

  /** The fields of an instant since 1970. */
  function Civil(t: nat): Fields {
    var (year, dayOfYear) := YearFrom(1970, t / 86400);
    var (month, day) := MonthFrom(year, 1, dayOfYear);
    Fields(year, month, day + 1, t % 86400 / 3600, t % 86400 % 3600 / 60, t % 86400 % 3600 % 60)
  }

  /** The last instant `gmtime_s` accepts: 3000-12-31T23:59:59Z. */
  const LAST_INSTANT := 32535215999

  function Text(f: Fields): string
    requires f.year >= 0 && f.month >= 0 && f.day >= 0 && f.hour >= 0 && f.minute >= 0 && f.second >= 0
  {
    Padded(f.year, 4) + "-" + Padded(f.month, 2) + "-" + Padded(f.day, 2) + "T"
    + Padded(f.hour, 2) + ":" + Padded(f.minute, 2) + ":" + Padded(f.second, 2) + "Z"
  }

  /** `formatUtcTimestamp` on Windows; `None` where the conversion is refused. */
  function Format(t: Instant): Option<string> {
    if t < 0 || t > LAST_INSTANT then None else Some(Text(Civil(t)))
  }

  lemma {:induction false} CivilInverts(t: nat)
    requires t <= LAST_INSTANT
    ensures var f := Civil(t); IsDate(f) && IsTime(f) && 1970 <= f.year <= 3000 && InstantOf(f) == t
  {
    TimeOfDay(t);
    YearOfDay(t / 86400, YearFrom(1970, t / 86400).0);
  }

  lemma {:induction false} YearOfDay(days: nat, year: int)
    requires days <= LAST_INSTANT / 86400 && year == YearFrom(1970, days).0
    ensures 1970 <= year <= 3000 && DaysBeforeYear(year) + YearFrom(1970, days).1 == days
  {
    if year > 3000 {
      YearsAreOrdered(3001, year);
    }
  }

  lemma {:induction false} TimeOfDay(t: nat)
    ensures var hour, minute, second := t % 86400 / 3600, t % 86400 % 3600 / 60, t % 86400 % 3600 % 60;
      && 0 <= hour <= 23 && 0 <= minute <= 59 && 0 <= second <= 59
      && t == 86400 * (t / 86400) + 3600 * hour + 60 * minute + second
  {
    var rest := t % 86400;
    assert t == 86400 * (t / 86400) + rest;
    assert rest == 3600 * (rest / 3600) + rest % 3600;
  }

  lemma {:induction false} DayInItsYear(f: Fields)
    requires IsDate(f)
    ensures DaysBeforeYear(f.year) <= Days(f) < DaysBeforeYear(f.year + 1)
  {
    MonthsAreOrdered(f.year, f.month, 13);
    NextMonth(f.year, 12);
    NextYear(f.year);
  }

  lemma {:induction false} DaysDecideYear(f: Fields, days: int, year: int)
    requires IsDate(f) && days == DaysBeforeYear(year)
    ensures Days(f) >= days <==> f.year >= year
  {
    DayInItsYear(f);
    if f.year >= year {
      YearsAreOrdered(year, f.year);
    } else {
      NextYear(f.year);
      YearsAreOrdered(f.year, year);
    }
  }

  lemma {:induction false} DaysDecideInstant(f: Fields, days: int)
    requires IsDate(f) && IsTime(f)
    ensures InstantOf(f) >= 86400 * days <==> Days(f) >= days
  {
  }

  lemma {:induction false} InRange(f: Fields)
    requires IsDate(f) && IsTime(f)
    ensures 0 <= InstantOf(f) <= LAST_INSTANT <==> 1970 <= f.year <= 3000
  {
    DaysDecideYear(f, 0, 1970);
    DaysDecideYear(f, 376565, 3001);
    DaysDecideInstant(f, 0);
    DaysDecideInstant(f, 376565);
  }

  /** A digit-only timestamp is the text of its fields. */
  lemma {:induction false} TextOfFields(s: string)
    requires HasShape(s) && DigitsOnly(s)
    ensures ParseFields(s) == Some(FieldsIn(s)) && Text(FieldsIn(s)) == s
  {
    PaddedValue(s[0..4]);
    PaddedValue(s[5..7]);
    PaddedValue(s[8..10]);
    PaddedValue(s[11..13]);
    PaddedValue(s[14..16]);
    PaddedValue(s[17..19]);
    assert s == s[0..4] + "-" + s[5..7] + "-" + s[8..10] + "T" + s[11..13] + ":" + s[14..16] + ":" + s[17..19] + "Z";
  }

  lemma {:induction false} TextHasShape(f: Fields)
    requires f.year >= 0 && f.month >= 0 && f.day >= 0 && f.hour >= 0 && f.minute >= 0 && f.second >= 0
    ensures HasShape(Text(f)) && DigitsOnly(Text(f))
    ensures Text(f)[0..4] == Padded(f.year, 4) && Text(f)[5..7] == Padded(f.month, 2) && Text(f)[8..10] == Padded(f.day, 2)
    ensures Text(f)[11..13] == Padded(f.hour, 2) && Text(f)[14..16] == Padded(f.minute, 2) && Text(f)[17..19] == Padded(f.second, 2)
  {
  }

  lemma {:induction false} FormatOfFields(f: Fields)
    requires IsDate(f) && IsTime(f)
    ensures Format(InstantOf(f)) == if 1970 <= f.year <= 3000 then Some(Text(f)) else None
  {
    InRange(f);
    if 1970 <= f.year <= 3000 {
      CivilInverts(InstantOf(f));
      FieldsOrderIsChronological(Civil(InstantOf(f)), f);
    }
  }

  lemma {:induction false} TextIsDigitsIff(s: string)
    requires Parses(s) && ParseFields(s).value.year >= 0
    ensures Text(ParseFields(s).value) == s <==> DigitsOnly(s)
  {
    TextHasShape(ParseFields(s).value);
    if DigitsOnly(s) { TextOfFields(s); }
  }

  /** Formatting a parsed timestamp gives the same text exactly if it has digits only and a year that
      the conversion accepts. */
  lemma {:induction false} FormatUndoesParse(s: string)
    requires Parses(s)
    ensures Parse(s).Ok?
    ensures Format(Parse(s).value) == Some(s) <==> DigitsOnly(s) && 1970 <= ParseFields(s).value.year <= 3000
  {
    FormatOfFields(ParseFields(s).value);
    if 1970 <= ParseFields(s).value.year <= 3000 { TextIsDigitsIff(s); }
  }

  lemma {:induction false} FieldsOfText(f: Fields)
    requires 0 <= f.year < 10000 && 0 <= f.month < 100 && 0 <= f.day < 100
    requires 0 <= f.hour < 100 && 0 <= f.minute < 100 && 0 <= f.second < 100
    ensures HasShape(Text(f)) && DigitsOnly(Text(f)) && FieldsIn(Text(f)) == f
  {
    TextHasShape(f);
    assert Power10(2) == 100;
    assert Power10(4) == 10 * Power10(3);
    ValueOfPadded(f.year, 4);
    ValueOfPadded(f.month, 2);
    ValueOfPadded(f.day, 2);
    ValueOfPadded(f.hour, 2);
    ValueOfPadded(f.minute, 2);
    ValueOfPadded(f.second, 2);
  }

  lemma {:induction false} ParseUndoesFormat(t: Instant)
    requires 0 <= t <= LAST_INSTANT
    ensures Format(t).Some? && Parse(Format(t).value) == Ok(t) && DigitsOnly(Format(t).value)
  {
    var f := Civil(t);
    CivilInverts(t);
    FieldsOfText(f);
    DigitsParse(Text(f));
  }

  /** What comparing last-seen texts relies on: two instants are ordered like their texts. */
  lemma {:induction false} FormattedTextsAreChronological(t: Instant, u: Instant)
    requires 0 <= t <= LAST_INSTANT && 0 <= u <= LAST_INSTANT
    ensures Format(t).Some? && Format(u).Some? && (Less(Format(t).value, Format(u).value) <==> t < u)
  {
    ParseUndoesFormat(t);
    ParseUndoesFormat(u);
    TextOrderIsChronological(Format(t).value, Format(u).value);
  }
}

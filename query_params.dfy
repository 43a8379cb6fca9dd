/**
 * The query-parameter serializers of the analytics endpoints: two required
 * dates in the single accepted format `%Y-%m-%d`, a start that may not be
 * after the end, and (for one endpoint) a service type from the choice list.
 */
module QueryParams {
  import opened Common
  import IncidentModel

  /** A calendar date (`datetime.date`). */
  datatype Date = Date(year: int, month: int, day: int)

  /** Gregorian leap years, as Python's calendar computes them. */
  predicate IsLeapYear(y: int) {
    y % 4 == 0 && (y % 100 != 0 || y % 400 == 0)
  }

  function DaysInMonth(y: int, m: int): int
    requires 1 <= m <= 12
  {
    if m == 2 then (if IsLeapYear(y) then 29 else 28)
    else if m == 4 || m == 6 || m == 9 || m == 11 then 30
    else 31
  }

  /** A date `datetime.date` can represent: years 1 to 9999 and a day that exists in its month. */
  predicate ValidDate(d: Date) {
    1 <= d.year <= 9999 && 1 <= d.month <= 12 && 1 <= d.day <= DaysInMonth(d.year, d.month)
  }

  /** Chronological order of dates. */
  predicate After(a: Date, b: Date) {
    a.year > b.year
    || (a.year == b.year && a.month > b.month)
    || (a.year == b.year && a.month == b.month && a.day > b.day)
  }

  predicate IsDigit(c: char) { '0' <= c <= '9' }

  predicate IsNonZeroDigit(c: char) { '1' <= c <= '9' }

  function Digit(c: char): int
    requires IsDigit(c)
  {
    c as int - '0' as int
  }

  function DigitChar(n: int): (c: char)
    requires 0 <= n <= 9
    ensures IsDigit(c) && Digit(c) == n
  {
    ('0' as int + n) as char
  }

  /**
   * The `%m` directive followed by the literal `-`: the alternatives
   * `1[0-2]`, `0[1-9]` and `[1-9]` tried in that order, backtracking when the
   * `-` does not follow. Gives the month and the text after the `-`.
   */
  function MatchMonthDash(s: string): (r: Option<(int, string)>)
    ensures r.Some? ==> 1 <= r.value.0 <= 12 && |r.value.1| < |s|
  {
    if |s| >= 3 && s[0] == '1' && '0' <= s[1] <= '2' && s[2] == '-' then Some((10 + Digit(s[1]), s[3..]))
    else if |s| >= 3 && s[0] == '0' && IsNonZeroDigit(s[1]) && s[2] == '-' then Some((Digit(s[1]), s[3..]))
    else if |s| >= 2 && IsNonZeroDigit(s[0]) && s[1] == '-' then Some((Digit(s[0]), s[2..]))
    else None
  }

  /**
   * The `%d` directive at the end of the pattern: the first of the
   * alternatives `3[01]`, `[12]\d`, `0[1-9]`, `[1-9]`, ` [1-9]` that matches
   * a prefix of `s`. Gives the day and how many characters it took.
   */
  function MatchDay(s: string): (r: Option<(int, nat)>)
    ensures r.Some? ==> 1 <= r.value.0 <= 31 && 1 <= r.value.1 <= 2 && r.value.1 <= |s|
  {
    if |s| >= 2 && s[0] == '3' && (s[1] == '0' || s[1] == '1') then Some((30 + Digit(s[1]), 2))
    else if |s| >= 2 && (s[0] == '1' || s[0] == '2') && IsDigit(s[1]) then Some((10 * Digit(s[0]) + Digit(s[1]), 2))
    else if |s| >= 2 && s[0] == '0' && IsNonZeroDigit(s[1]) then Some((Digit(s[1]), 2))
    else if |s| >= 1 && IsNonZeroDigit(s[0]) then Some((Digit(s[0]), 1))
    else if |s| >= 2 && s[0] == ' ' && IsNonZeroDigit(s[1]) then Some((Digit(s[1]), 2))
    else None
  }

  /**
   * `datetime.strptime(s, '%Y-%m-%d').date()`: four digits, `-`, the month,
   * `-`, the day; text left over after the day is rejected ("unconverted
   * data remains"), and so is a year 0 or a day the month does not have.
   */
  function ParseYmd(s: string): (r: Option<Date>)
    ensures r.Some? ==> ValidDate(r.value)
  {
    if |s| < 5 || !(IsDigit(s[0]) && IsDigit(s[1]) && IsDigit(s[2]) && IsDigit(s[3])) || s[4] != '-' then None
    else
      var year := 1000 * Digit(s[0]) + 100 * Digit(s[1]) + 10 * Digit(s[2]) + Digit(s[3]);
      match MatchMonthDash(s[5..])
      case None => None
      case Some((month, rest)) =>
        match MatchDay(rest)
        case None => None
        case Some((day, used)) =>
          if used != |rest| then None
          else if year < 1 || day > DaysInMonth(year, month) then None
          else Some(Date(year, month, day))
  }

  /** How a month or day may be written: `08`, `8`, or (days only) ` 8`. */
  datatype Padding = ZeroPadded | Unpadded | SpacePadded

  /** Which spellings `%m` and `%d` accept for a given month and day. */
  predicate SpellingAllowed(d: Date, monthPad: Padding, dayPad: Padding) {
    && (monthPad == ZeroPadded || (monthPad == Unpadded && d.month <= 9))
    && (dayPad == ZeroPadded || d.day <= 9)
  }

  function TwoDigits(n: int): (s: string)
    requires 0 <= n <= 99
    ensures |s| == 2 && IsDigit(s[0]) && IsDigit(s[1]) && 10 * Digit(s[0]) + Digit(s[1]) == n
  {
    [DigitChar(n / 10), DigitChar(n % 10)]
  }

  function Padded(n: int, pad: Padding): (s: string)
    requires 1 <= n <= 99 && (pad == ZeroPadded || n <= 9)
  {
    match pad
    case ZeroPadded => TwoDigits(n)
    case Unpadded => [DigitChar(n)]
    case SpacePadded => [' ', DigitChar(n)]
  }

  function YearText(y: int): (s: string)
    requires 0 <= y <= 9999
    ensures |s| == 4 && IsDigit(s[0]) && IsDigit(s[1]) && IsDigit(s[2]) && IsDigit(s[3])
    ensures 1000 * Digit(s[0]) + 100 * Digit(s[1]) + 10 * Digit(s[2]) + Digit(s[3]) == y
  {
    TwoDigits(y / 100) + TwoDigits(y % 100)
  }

  /** A date written with the given month and day padding. */
  function Spell(d: Date, monthPad: Padding, dayPad: Padding): string
    requires ValidDate(d) && SpellingAllowed(d, monthPad, dayPad)
  {
    YearText(d.year) + "-" + Padded(d.month, monthPad) + "-" + Padded(d.day, dayPad)
  }

  /** The canonical `YYYY-MM-DD` spelling. */
  function FormatYmd(d: Date): string
    requires ValidDate(d)
  {
    Spell(d, ZeroPadded, ZeroPadded)
  }

  /** Every spelling `%Y-%m-%d` allows for a valid date is parsed back to that date. */
  lemma ParseSpelling(d: Date, monthPad: Padding, dayPad: Padding)
    requires ValidDate(d) && SpellingAllowed(d, monthPad, dayPad)
    ensures ParseYmd(Spell(d, monthPad, dayPad)) == Some(d)
  {
    var s := Spell(d, monthPad, dayPad);
    var m := Padded(d.month, monthPad);
    var dd := Padded(d.day, dayPad);
    assert s[..4] == YearText(d.year);
    assert s[4] == '-';
    assert s[5..] == m + "-" + dd;
    MonthSpelling(d.month, monthPad, dd);
    DaySpelling(d.day, dayPad);
  }

  /** `%m` reads a spelled month and the dash after it, and leaves the rest. */
  lemma MonthSpelling(month: int, pad: Padding, rest: string)
    requires 1 <= month <= 12 && (pad == ZeroPadded || (pad == Unpadded && month <= 9))
    ensures MatchMonthDash(Padded(month, pad) + "-" + rest) == Some((month, rest))
  {
    var m := Padded(month, pad);
    var s := m + "-" + rest;
    assert s[|m| + 1..] == rest;
    assert s[|m|] == '-';
    if pad == ZeroPadded {
      assert s[0] == m[0] && s[1] == m[1];
    } else {
      assert s[0] == m[0];
    }
  }

  /** `%d` reads the whole of a spelled day. */
  lemma DaySpelling(day: int, pad: Padding)
    requires 1 <= day <= 31 && (pad == ZeroPadded || day <= 9)
    ensures MatchDay(Padded(day, pad)) == Some((day, |Padded(day, pad)|))
  {
  }

  /** The canonical spelling round-trips. */
  lemma ParseFormatRoundTrip(d: Date)
    requires ValidDate(d)
    ensures ParseYmd(FormatYmd(d)) == Some(d)
  {
    ParseSpelling(d, ZeroPadded, ZeroPadded);
  }

  lemma TwoDigitsOf(a: char, b: char)
    requires IsDigit(a) && IsDigit(b)
    ensures TwoDigits(10 * Digit(a) + Digit(b)) == [a, b]
  {
    var n := 10 * Digit(a) + Digit(b);
    assert n / 10 == Digit(a) && n % 10 == Digit(b);
  }

  lemma YearTextOf(s: string)
    requires |s| == 4 && IsDigit(s[0]) && IsDigit(s[1]) && IsDigit(s[2]) && IsDigit(s[3])
    ensures YearText(1000 * Digit(s[0]) + 100 * Digit(s[1]) + 10 * Digit(s[2]) + Digit(s[3])) == s
  {
    var hi := 10 * Digit(s[0]) + Digit(s[1]);
    var lo := 10 * Digit(s[2]) + Digit(s[3]);
    var y := 100 * hi + lo;
    assert y / 100 == hi && y % 100 == lo;
    TwoDigitsOf(s[0], s[1]);
    TwoDigitsOf(s[2], s[3]);
  }

  /** What `MatchMonthDash` consumed is the month in one of its spellings, then `-`. */
  lemma MonthDashSpelled(s: string) returns (mp: Padding)
    requires MatchMonthDash(s).Some?
    ensures mp != SpacePadded && (mp == ZeroPadded || MatchMonthDash(s).value.0 <= 9)
    ensures s == Padded(MatchMonthDash(s).value.0, mp) + "-" + MatchMonthDash(s).value.1
  {
    if |s| >= 3 && (s[0] == '1' || s[0] == '0') && IsDigit(s[1]) && s[2] == '-' && MatchMonthDash(s).value.1 == s[3..] {
      mp := ZeroPadded;
      TwoDigitsOf(s[0], s[1]);
      assert s == s[..2] + "-" + s[3..];
    } else {
      mp := Unpadded;
      assert s == s[..1] + "-" + s[2..];
    }
  }

  /** A day that `MatchDay` read to the end of the text is the day in one of its spellings. */
  lemma DaySpelled(rest: string) returns (dp: Padding)
    requires MatchDay(rest).Some? && MatchDay(rest).value.1 == |rest|
    ensures dp == ZeroPadded || MatchDay(rest).value.0 <= 9
    ensures rest == Padded(MatchDay(rest).value.0, dp)
  {
    if |rest| == 1 {
      dp := Unpadded;
    } else if rest[0] == ' ' {
      dp := SpacePadded;
    } else {
      dp := ZeroPadded;
      TwoDigitsOf(rest[0], rest[1]);
    }
  }

  /** How an accepted text was read: four digits, `-`, a month and its dash, then a day taking the rest. */
  lemma ParsedParts(s: string)
    requires ParseYmd(s).Some?
    ensures |s| >= 5 && IsDigit(s[0]) && IsDigit(s[1]) && IsDigit(s[2]) && IsDigit(s[3]) && s[4] == '-'
    ensures MatchMonthDash(s[5..]).Some?
    ensures var (month, rest) := MatchMonthDash(s[5..]).value;
            && MatchDay(rest).Some? && MatchDay(rest).value.1 == |rest|
            && ParseYmd(s).value
               == Date(1000 * Digit(s[0]) + 100 * Digit(s[1]) + 10 * Digit(s[2]) + Digit(s[3]), month, MatchDay(rest).value.0)
  {
  }

  /** Conversely, every accepted text is one of the allowed spellings of the date it denotes. */
  lemma ParseOnlySpellings(s: string)
    requires ParseYmd(s).Some?
    ensures exists mp: Padding, dp: Padding :: SpellingAllowed(ParseYmd(s).value, mp, dp)
              && s == Spell(ParseYmd(s).value, mp, dp)
  {
    var d := ParseYmd(s).value;
    ParsedParts(s);
    var (month, rest) := MatchMonthDash(s[5..]).value;
    var day := MatchDay(rest).value.0;
    var mp := MonthDashSpelled(s[5..]);
    var dp := DaySpelled(rest);
    YearTextOf(s[..4]);
    var y, m, dd := YearText(d.year), Padded(month, mp), Padded(day, dp);
    assert y == s[..4] && s[5..] == m + "-" + rest && rest == dd;
    assert s == s[..4] + "-" + s[5..];
    assert Spell(d, mp, dp) == y + "-" + m + "-" + dd;
  }

  /** A query string: its (name, value) pairs in the order given. */
  type QueryString = seq<(string, string)>

  /** Looking a name up in a query dictionary: the last value given for it. */
  function LastValue(q: QueryString, key: string): (r: Option<string>)
    ensures r.None? <==> forall i :: 0 <= i < |q| ==> q[i].0 != key
    ensures r.Some? ==> exists i :: 0 <= i < |q| && q[i] == (key, r.value) && forall j :: i < j < |q| ==> q[j].0 != key
  {
    if |q| == 0 then None
    else if q[|q| - 1].0 == key then Some(q[|q| - 1].1)
    else LastValue(q[..|q| - 1], key)
  }

  /** A required `DateField` with `%Y-%m-%d` as its only input format. */
  function DateField(q: QueryString, key: string): (r: Result<Date, ValidationError>)
    ensures r.Ok? <==> LastValue(q, key).Some? && ParseYmd(LastValue(q, key).value).Some?
    ensures r.Ok? ==> ParseYmd(LastValue(q, key).value) == Some(r.value)
    ensures LastValue(q, key).None? ==> r == Err(Required)
    ensures LastValue(q, key).Some? && r.Err? ==> r.error == InvalidDate
  {
    match LastValue(q, key)
    case None => Err(Required)
    case Some(text) =>
      match ParseYmd(text)
      case None => Err(InvalidDate)
      case Some(d) => Ok(d)
  }

  /** A required `ChoiceField` over the service-type choice list: the code must be listed exactly. */
  function ServiceTypeField(q: QueryString, key: string): (r: Result<IncidentModel.ServiceType, ValidationError>)
    ensures r.Ok? <==> LastValue(q, key).Some? && LastValue(q, key).value in IncidentModel.Codes(IncidentModel.ServiceTypeChoices)
    ensures r.Ok? ==> IncidentModel.ServiceTypeCode(r.value) == LastValue(q, key).value
    ensures LastValue(q, key).None? ==> r == Err(Required)
  {
    match LastValue(q, key)
    case None => Err(Required)
    case Some(code) =>
      IncidentModel.ServiceTypeChoiceFieldAcceptsListed(code);
      match IncidentModel.ParseServiceType(code)
      case None => Err(InvalidChoice(code))
      case Some(t) => Ok(t)
  }

  /** The error a field reported, if any. */
  function ErrorOf<T>(r: Result<T, ValidationError>): Option<ValidationError> {
    if r.Err? then Some(r.error) else None
  }

  /** Records a field's error, if it reported one, under the field's name. */
  function AddError(errors: map<string, ValidationError>, key: string, e: Option<ValidationError>): map<string, ValidationError> {
    if e.Some? then errors[key := e.value] else errors
  }

  const StartDateKey: string := "start_date"
  const EndDateKey: string := "end_date"
  const DateKey: string := "date"
  const ServiceTypeKey: string := "type_of_service_request"

  /** The key and message of the error `validate` raises for a reversed range. */
  const RangeKey: string := "start_date, end_date"
  const RangeMessage: string := "start_date must be before end_date"

  datatype DateRange = DateRange(start: Date, end: Date)

  datatype DateRangeAndType = DateRangeAndType(start: Date, end: Date, serviceType: IncidentModel.ServiceType)

  /**
   * `DateRangeParams`: both date fields are validated and their errors
   * collected; only when both are valid does `validate` run, which rejects
   * a start strictly after the end. Equal dates are accepted.
   */
  function ValidateDateRange(q: QueryString): (r: Result<DateRange, map<string, ValidationError>>)
    ensures r.Ok? <==> DateField(q, StartDateKey).Ok? && DateField(q, EndDateKey).Ok?
                       && !After(DateField(q, StartDateKey).value, DateField(q, EndDateKey).value)
    ensures r.Ok? ==> r.value == DateRange(DateField(q, StartDateKey).value, DateField(q, EndDateKey).value)
    ensures r.Ok? ==> ValidDate(r.value.start) && ValidDate(r.value.end) && !After(r.value.start, r.value.end)
    ensures r.Err? ==> (StartDateKey in r.error <==> DateField(q, StartDateKey).Err?)
    ensures r.Err? ==> (EndDateKey in r.error <==> DateField(q, EndDateKey).Err?)
    ensures r.Err? ==> (RangeKey in r.error <==> DateField(q, StartDateKey).Ok? && DateField(q, EndDateKey).Ok?)
    ensures r.Err? && RangeKey in r.error ==> r.error == map[RangeKey := NonField(RangeMessage)]
    ensures r.Err? && StartDateKey in r.error ==> r.error[StartDateKey] == DateField(q, StartDateKey).error
    ensures r.Err? && EndDateKey in r.error ==> r.error[EndDateKey] == DateField(q, EndDateKey).error
  {
    var start := DateField(q, StartDateKey);
    var end := DateField(q, EndDateKey);
    if start.Err? || end.Err? then
      Err(AddError(AddError(map[], StartDateKey, ErrorOf(start)), EndDateKey, ErrorOf(end)))
    else if After(start.value, end.value) then
      Err(map[RangeKey := NonField(RangeMessage)])
    else
      Ok(DateRange(start.value, end.value))
  }

  /**
   * `DateAndRequestTypeParams`: the date range plus a service type from the
   * choice list. All three fields are checked before `validate`, so a bad
   * type hides a reversed range.
   */
  function ValidateDateAndRequestType(q: QueryString): (r: Result<DateRangeAndType, map<string, ValidationError>>)
    ensures r.Ok? <==> ValidateDateRange(q).Ok? && ServiceTypeField(q, ServiceTypeKey).Ok?
    ensures r.Ok? ==> r.value == DateRangeAndType(ValidateDateRange(q).value.start, ValidateDateRange(q).value.end,
                                                  ServiceTypeField(q, ServiceTypeKey).value)
  {
    var start := DateField(q, StartDateKey);
    var end := DateField(q, EndDateKey);
    var serviceType := ServiceTypeField(q, ServiceTypeKey);
    if start.Err? || end.Err? || serviceType.Err? then
      var errors := AddError(AddError(map[], StartDateKey, ErrorOf(start)), EndDateKey, ErrorOf(end));
      Err(AddError(errors, ServiceTypeKey, ErrorOf(serviceType)))
    else if After(start.value, end.value) then
      Err(map[RangeKey := NonField(RangeMessage)])
    else
      Ok(DateRangeAndType(start.value, end.value, serviceType.value))
  }

  /**
   * Which keys a rejection of `DateAndRequestTypeParams` reports: each
   * field that failed, and the range error only when all three fields passed.
   */
  lemma DateAndRequestTypeErrorKeys(q: QueryString)
    requires ValidateDateAndRequestType(q).Err?
    ensures var e := ValidateDateAndRequestType(q).error;
            && (ServiceTypeKey in e <==> ServiceTypeField(q, ServiceTypeKey).Err?)
            && (StartDateKey in e <==> DateField(q, StartDateKey).Err?)
            && (EndDateKey in e <==> DateField(q, EndDateKey).Err?)
            && (RangeKey in e <==>
                  (ValidateDateRange(q).Err? && RangeKey in ValidateDateRange(q).error && ServiceTypeField(q, ServiceTypeKey).Ok?))
  {
    var start := DateField(q, StartDateKey);
    var end := DateField(q, EndDateKey);
    var serviceType := ServiceTypeField(q, ServiceTypeKey);
    if start.Err? || end.Err? || serviceType.Err? {
      FieldErrorKeys(ErrorOf(start), ErrorOf(end), ErrorOf(serviceType));
    }
  }

  /** The three field errors recorded under their names, and nothing under the range key. */
  lemma FieldErrorKeys(start: Option<ValidationError>, end: Option<ValidationError>, serviceType: Option<ValidationError>)
    ensures var e := AddError(AddError(AddError(map[], StartDateKey, start), EndDateKey, end), ServiceTypeKey, serviceType);
            && (StartDateKey in e <==> start.Some?)
            && (EndDateKey in e <==> end.Some?)
            && (ServiceTypeKey in e <==> serviceType.Some?)
            && RangeKey !in e
  {
    assert StartDateKey != EndDateKey && StartDateKey != ServiceTypeKey && EndDateKey != ServiceTypeKey;
    assert RangeKey != StartDateKey && RangeKey != EndDateKey && RangeKey != ServiceTypeKey;
  }

  /** `DateParam`: one required date in the same format. */
  function ValidateDate(q: QueryString): (r: Result<Date, map<string, ValidationError>>)
    ensures r.Ok? <==> DateField(q, DateKey).Ok?
    ensures r.Ok? ==> ValidDate(r.value) && ParseYmd(LastValue(q, DateKey).value) == Some(r.value)
    ensures r.Err? ==> r.error == map[DateKey := DateField(q, DateKey).error]
  {
    match DateField(q, DateKey)
    case Err(e) => Err(map[DateKey := e])
    case Ok(d) => Ok(d)
  }

  /** The comparison is strict: a one-day range is accepted and returned as given. */
  lemma SameDayRangeAccepted(q: QueryString, d: Date)
    requires DateField(q, StartDateKey) == Ok(d) && DateField(q, EndDateKey) == Ok(d)
    ensures ValidateDateRange(q) == Ok(DateRange(d, d))
  {
  }

  /**
   * A well-formed start after a well-formed end is rejected under the
   * combined key only, whichever order the two names are given in
   * (`end_date=2020-08-01&start_date=2020-12-01`, say).
   */
  lemma ReversedRangeRejected(d1: Date, d2: Date)
    requires ValidDate(d1) && ValidDate(d2) && After(d1, d2)
    ensures ValidateDateRange([(EndDateKey, FormatYmd(d2)), (StartDateKey, FormatYmd(d1))])
            == Err(map[RangeKey := NonField(RangeMessage)])
  {
    TwoParams(EndDateKey, FormatYmd(d2), StartDateKey, FormatYmd(d1));
    ParseFormatRoundTrip(d1);
    ParseFormatRoundTrip(d2);
  }

  /** The last value of each of two distinct names given once each. */
  lemma TwoParams(k1: string, v1: string, k2: string, v2: string)
    requires k1 != k2
    ensures LastValue([(k1, v1), (k2, v2)], k1) == Some(v1)
    ensures LastValue([(k1, v1), (k2, v2)], k2) == Some(v2)
  {
    assert [(k1, v1), (k2, v2)][..1] == [(k1, v1)];
  }

  /** Text after the day makes a date invalid (`2020-08-01asd`, say); each such date is reported, and only those. */
  lemma TrailingCharactersRejected(d1: Date, d2: Date, extra: string)
    requires ValidDate(d1) && ValidDate(d2) && |extra| > 0
    ensures ValidateDateRange([(StartDateKey, FormatYmd(d1) + extra), (EndDateKey, FormatYmd(d2))])
            == Err(map[StartDateKey := InvalidDate])
    ensures ValidateDateRange([(StartDateKey, FormatYmd(d1)), (EndDateKey, FormatYmd(d2) + extra)])
            == Err(map[EndDateKey := InvalidDate])
    ensures ValidateDateRange([(StartDateKey, FormatYmd(d1) + extra), (EndDateKey, FormatYmd(d2) + extra)])
            == Err(map[StartDateKey := InvalidDate, EndDateKey := InvalidDate])
  {
    TrailingTextUnparsed(d1, extra);
    TrailingTextUnparsed(d2, extra);
    ParseFormatRoundTrip(d1);
    ParseFormatRoundTrip(d2);
    TwoParams(StartDateKey, FormatYmd(d1) + extra, EndDateKey, FormatYmd(d2));
    TwoParams(StartDateKey, FormatYmd(d1), EndDateKey, FormatYmd(d2) + extra);
    TwoParams(StartDateKey, FormatYmd(d1) + extra, EndDateKey, FormatYmd(d2) + extra);
  }

  /** `strptime` leaves the extra text unconverted, so the date does not parse. */
  lemma TrailingTextUnparsed(d: Date, extra: string)
    requires ValidDate(d) && |extra| > 0
    ensures ParseYmd(FormatYmd(d) + extra) == None
  {
    var s := FormatYmd(d) + extra;
    var m := Padded(d.month, ZeroPadded);
    var rest := Padded(d.day, ZeroPadded) + extra;
    assert s[..4] == YearText(d.year);
    assert s[4] == '-';
    assert s[5..] == m + "-" + rest;
    MonthSpelling(d.month, ZeroPadded, rest);
  }

  /** Missing dates are each reported as required. */
  lemma MissingDatesRequired()
    ensures ValidateDateRange([]) == Err(map[StartDateKey := Required, EndDateKey := Required])
    ensures ValidateDateRange([(StartDateKey, "2020-08-01")]) == Err(map[EndDateKey := Required])
  {
    assert ParseYmd("2020-08-01") == Some(Date(2020, 8, 1));
  }

  /** A date that is not in the calendar is rejected even though the text matches the pattern. */
  lemma CalendarChecked()
    ensures ParseYmd("2020-02-29") == Some(Date(2020, 2, 29))
    ensures ParseYmd("2019-02-29") == None
    ensures ParseYmd("0000-01-01") == None
    ensures ParseYmd("2020-8-1") == Some(Date(2020, 8, 1))
  {
    assert "2019-02-29"[5..] == "02-29";
    assert "2020-8-1"[5..] == "8-1";
  }

  /** Adding the service type never loosens the date rules: an accepted request has an accepted range. */
  lemma RequestTypeKeepsRangeRules(q: QueryString)
    ensures ValidateDateAndRequestType(q).Ok? ==>
              ValidateDateRange(q) == Ok(DateRange(ValidateDateAndRequestType(q).value.start, ValidateDateAndRequestType(q).value.end))
  {
  }

  /** A service type outside the choice list hides a reversed range: `validate` does not run. */
  lemma BadTypeHidesReversedRange(q: QueryString)
    requires DateField(q, StartDateKey).Ok? && DateField(q, EndDateKey).Ok?
    requires After(DateField(q, StartDateKey).value, DateField(q, EndDateKey).value)
    requires LastValue(q, ServiceTypeKey) == Some("TREE_TRIMS")
    ensures ValidateDateRange(q) == Err(map[RangeKey := NonField(RangeMessage)])
    ensures ValidateDateAndRequestType(q) == Err(map[ServiceTypeKey := InvalidChoice("TREE_TRIMS")])
  {
  }
}

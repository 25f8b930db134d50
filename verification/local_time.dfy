/** `_to_rfc3339`: `datetime.strptime(s, "%Y-%m-%d %H:%M").isoformat()`.
    The parser follows the patterns `strptime` builds for these directives: a four-digit
    year; a one- or two-digit month and day (the day may also be a space and one digit);
    one or more whitespace characters; a one- or two-digit hour and minute; nothing after.
    The calendar date must exist (`ValueError` otherwise). */
module LocalTime {
  import opened Outcomes
  import opened Strings

  datatype DateTime = DateTime(year: nat, month: nat, day: nat, hour: nat, minute: nat)

  predicate IsLeapYear(year: nat) {
    year % 4 == 0 && (year % 100 != 0 || year % 400 == 0)
  }

  function DaysInMonth(year: nat, month: nat): nat {
    if month == 2 then (if IsLeapYear(year) then 29 else 28)
    else if month == 4 || month == 6 || month == 9 || month == 11 then 30
    else 31
  }

  /** A moment `datetime` can represent, to the minute. */
  predicate Valid(dt: DateTime) {
    && 1 <= dt.year <= 9999
    && 1 <= dt.month <= 12
    && 1 <= dt.day <= DaysInMonth(dt.year, dt.month)
    && dt.hour <= 23
    && dt.minute <= 59
  }

  /** A one- or two-digit field at position `i`: its value and the position after it. */
  function Field(s: string, i: nat): (r: Option<(nat, nat)>)
    ensures r.Some? ==> i < r.value.1 <= |s| && r.value.1 <= i + 2 && r.value.0 < 100
  {
    if i < |s| && IsDigit(s[i]) then
      if i + 1 < |s| && IsDigit(s[i + 1]) then Some((10 * DigitValue(s[i]) + DigitValue(s[i + 1]), i + 2))
      else Some((DigitValue(s[i]), i + 1))
    else None
  }

  /** The `%d` field, which also accepts a space followed by one non-zero digit. */
  function DayField(s: string, i: nat): (r: Option<(nat, nat)>)
    ensures r.Some? ==> i < r.value.1 <= |s| && r.value.0 < 100
  {
    if i + 1 < |s| && s[i] == ' ' && '1' <= s[i + 1] <= '9' then Some((DigitValue(s[i + 1]), i + 2))
    else Field(s, i)
  }

  /** The position after a run of whitespace starting at `i`. */
  function SkipSpaces(s: string, i: nat): (j: nat)
    requires i <= |s|
    ensures i <= j <= |s|
    decreases |s| - i
  {
    if i < |s| && IsSpace(s[i]) then SkipSpaces(s, i + 1) else i
  }

  /** `datetime.strptime(s, "%Y-%m-%d %H:%M")`, `None` standing for `ValueError`. */
  function ParseLocal(s: string): (r: Option<DateTime>)
    ensures r.Some? ==> Valid(r.value)
  {
    if |s| < 5 || !AllDigits(s[..4]) || s[4] != '-' then None
    else
      var year := DigitsValue(s[..4]);
      match Field(s, 5)
      case None => None
      case Some((month, i)) =>
        if i >= |s| || s[i] != '-' then None
        else match DayField(s, i + 1)
          case None => None
          case Some((day, j)) =>
            var k := SkipSpaces(s, j);
            if k == j then None
            else match Field(s, k)
              case None => None
              case Some((hour, m)) =>
                if m >= |s| || s[m] != ':' then None
                else match Field(s, m + 1)
                  case None => None
                  case Some((minute, n)) =>
                    var dt := DateTime(year, month, day, hour, minute);
                    if n == |s| && Valid(dt) then Some(dt) else None
  }

  /** Two zero-padded digits, `%02d`. */
  function Pad2(n: nat): (r: string)
    requires n < 100
    ensures |r| == 2 && AllDigits(r)
  {
    [DigitChar(n / 10), DigitChar(n % 10)]
  }

  /** Four zero-padded digits, `%04d`. */
  function Pad4(n: nat): (r: string)
    requires n < 10000
    ensures |r| == 4 && AllDigits(r)
  {
    Pad2(n / 100) + Pad2(n % 100)
  }

  /** `datetime.isoformat()` of a whole-minute moment: seconds are always printed. */
  function IsoFormat(dt: DateTime): (r: string)
    requires Valid(dt)
    ensures |r| == 19 && r[4] == '-' && r[7] == '-' && r[10] == 'T' && r[13] == ':' && r[16..] == ":00"
  {
    var date := Pad4(dt.year) + "-" + Pad2(dt.month) + "-" + Pad2(dt.day);
    var clock := Pad2(dt.hour) + ":" + Pad2(dt.minute) + ":00";
    assert |date| == 10 && date[4] == '-' && date[7] == '-';
    assert |clock| == 8 && clock[2] == ':' && clock[5..] == ":00";
    date + "T" + clock
  }

  /** `_to_rfc3339`: `ValueError` for text `strptime` rejects. */
  function ToRfc3339(s: string): (r: Result<string>)
    ensures r.Ok? <==> ParseLocal(s).Some?
    ensures r.Ok? ==> |r.value| == 19 && r.value[10] == 'T'
  {
    match ParseLocal(s)
    case None => Raise("ValueError")
    case Some(dt) => Ok(IsoFormat(dt))
  }

  /** Fields narrow enough to print zero-padded, whether or not they form a real date. */
  predicate Printable(dt: DateTime) {
    dt.year < 10000 && dt.month < 100 && dt.day < 100 && dt.hour < 100 && dt.minute < 100
  }

  /** The canonical input text `YYYY-MM-DD HH:MM` of a moment. */
  function LocalText(dt: DateTime): (r: string)
    requires Printable(dt)
    ensures |r| == 16
  {
    Pad4(dt.year) + "-" + Pad2(dt.month) + "-" + Pad2(dt.day) + " " + Pad2(dt.hour) + ":" + Pad2(dt.minute)
  }

  lemma Pad2Value(n: nat)
    requires n < 100
    ensures DigitValue(Pad2(n)[0]) * 10 + DigitValue(Pad2(n)[1]) == n
  {
    DigitRoundTrip(n / 10);
    DigitRoundTrip(n % 10);
  }

  /** The value of four digits, place by place. */
  lemma DigitsValue4(s: string)
    requires |s| == 4 && AllDigits(s)
    ensures DigitsValue(s) == 1000 * DigitValue(s[0]) + 100 * DigitValue(s[1]) + 10 * DigitValue(s[2]) + DigitValue(s[3])
  {
    assert s[..3][..2] == s[..2];
    assert s[..2][..1] == s[..1];
    assert s[..1][..0] == [];
    assert DigitsValue(s[..1]) == DigitValue(s[0]);
    assert DigitsValue(s[..2]) == 10 * DigitValue(s[0]) + DigitValue(s[1]);
    assert DigitsValue(s[..3]) == 100 * DigitValue(s[0]) + 10 * DigitValue(s[1]) + DigitValue(s[2]);
  }

  lemma Pad4Value(n: nat)
    requires n < 10000
    ensures DigitsValue(Pad4(n)) == n
  {
    var s := Pad4(n);
    Pad2Value(n / 100);
    Pad2Value(n % 100);
    DigitsValue4(s);
  }

  lemma FieldOfPad2(s: string, i: nat, n: nat)
    requires n < 100 && i + 2 <= |s| && s[i..i + 2] == Pad2(n)
    requires i + 2 == |s| || !IsDigit(s[i + 2])
    ensures Field(s, i) == Some((n, i + 2))
  {
    Pad2Value(n);
  }

  /** The pieces of a canonical text, position by position. */
  lemma LocalTextLayout(dt: DateTime)
    requires Printable(dt)
    ensures var s := LocalText(dt);
            && s[..4] == Pad4(dt.year) && s[4] == '-'
            && s[5..7] == Pad2(dt.month) && s[7] == '-'
            && s[8..10] == Pad2(dt.day) && s[10] == ' '
            && s[11..13] == Pad2(dt.hour) && s[13] == ':'
            && s[14..16] == Pad2(dt.minute)
  {
  }

  /** `strptime` reads the canonical text of any printable fields back, and accepts it
      exactly when the fields form a valid moment. */
  lemma ParseLocalText(dt: DateTime)
    requires Printable(dt)
    ensures ParseLocal(LocalText(dt)) == if Valid(dt) then Some(dt) else None
  {
    var s := LocalText(dt);
    LocalTextLayout(dt);
    Pad4Value(dt.year);
    FieldOfPad2(s, 5, dt.month);
    assert s[8] == Pad2(dt.day)[0];
    FieldOfPad2(s, 8, dt.day);
    assert DayField(s, 8) == Some((dt.day, 10));
    assert SkipSpaces(s, 11) == 11;
    assert SkipSpaces(s, 10) == 11;
    FieldOfPad2(s, 11, dt.hour);
    FieldOfPad2(s, 14, dt.minute);
  }

  /** The canonical text of every valid moment is accepted and printed back in ISO form. */
  lemma ToRfc3339OfLocalText(dt: DateTime)
    requires Valid(dt)
    ensures ToRfc3339(LocalText(dt)) == Ok(IsoFormat(dt))
  {
    ParseLocalText(dt);
  }

  /** Single-digit fields are accepted and padded. */
  lemma ToRfc3339AcceptsShortFields()
    ensures ToRfc3339("2025-3-7 9:05") == Ok(IsoFormat(DateTime(2025, 3, 7, 9, 5)))
  {
    var a := "2025-3-7 9:05";
    assert a[..4] == "2025";
    DigitsValue4("2025");
    assert Field(a, 5) == Some((3, 6));
    assert DayField(a, 7) == Some((7, 8));
    assert SkipSpaces(a, 9) == 9;
    assert SkipSpaces(a, 8) == 9;
    assert Field(a, 9) == Some((9, 10));
    assert Field(a, 11) == Some((5, 13));
  }

  /** 29 February exists in a leap year and in no other. */
  lemma ToRfc3339LeapDay()
    ensures ToRfc3339("2024-02-29 10:00") == Ok(IsoFormat(DateTime(2024, 2, 29, 10, 0)))
  {
    LeapDayFields("2024-02-29 10:00");
    assert IsLeapYear(2024);
  }

  /** The field-by-field reading of the leap-day example. */
  lemma LeapDayFields(a: string)
    requires a == "2024-02-29 10:00"
    ensures |a| == 16 && AllDigits(a[..4]) && a[4] == '-' && DigitsValue(a[..4]) == 2024
    ensures Field(a, 5) == Some((2, 7)) && a[7] == '-' && DayField(a, 8) == Some((29, 10))
    ensures SkipSpaces(a, 10) == 11
    ensures Field(a, 11) == Some((10, 13)) && a[13] == ':' && Field(a, 14) == Some((0, 16))
  {
    assert a[..4] == "2024";
    DigitsValue4("2024");
    assert SkipSpaces(a, 11) == 11;
  }

  lemma ToRfc3339RejectsMissingLeapDay()
    ensures ToRfc3339("2025-02-29 10:00").Raise?
  {
    var c := "2025-02-29 10:00";
    assert c[..4] == "2025";
    DigitsValue4("2025");
    assert Field(c, 5) == Some((2, 7));
    assert DayField(c, 8) == Some((29, 10));
    assert SkipSpaces(c, 11) == 11;
    assert SkipSpaces(c, 10) == 11;
    assert Field(c, 11) == Some((10, 13));
    assert Field(c, 14) == Some((0, 16));
    assert !Valid(DateTime(2025, 2, 29, 10, 0));
  }

  /** An out-of-range hour and an ISO `T` separator are both rejected. */
  lemma ToRfc3339RejectsMalformed()
    ensures ToRfc3339("2025-03-07 24:00").Raise?
    ensures ToRfc3339("2025-03-07T10:00").Raise?
  {
    var d := "2025-03-07 24:00";
    assert d[..4] == "2025";
    assert Field(d, 5) == Some((3, 7));
    assert DayField(d, 8) == Some((7, 10));
    assert SkipSpaces(d, 11) == 11;
    assert SkipSpaces(d, 10) == 11;
    assert Field(d, 11) == Some((24, 13));
    var e := "2025-03-07T10:00";
    assert e[..4] == "2025";
    assert Field(e, 5) == Some((3, 7));
    assert DayField(e, 8) == Some((7, 10));
    assert !IsSpace(e[10]);
    assert SkipSpaces(e, 10) == 10;
  }
}

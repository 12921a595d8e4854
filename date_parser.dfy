/**
 * `DateParser.parse`: a strict "dd/MM/yyyy" shape check followed by a non-lenient
 * `SimpleDateFormat` parse, with every failure turned into `null`; and the same pattern
 * used the other way round to show a due date in the edit form.
 */
module DateParser {
  import opened Wrappers
  import opened Decimal
  import opened Calendar

  /** The regular expression `^\d{2}/\d{2}/\d{4}$`. */
  predicate MatchesDatePattern(s: string)
  {
    && |s| == 10
    && AllDigits(s[0..2]) && s[2] == '/'
    && AllDigits(s[3..5]) && s[5] == '/'
    && AllDigits(s[6..10])
  }

  /** The day, month and year fields the pattern "dd/MM/yyyy" reads. */
  function Fields(s: string): (d: Date)
    requires MatchesDatePattern(s)
    ensures 0 <= d.day < 100 && 0 <= d.month < 100 && 0 <= d.year < 10000
  {
    Date(Value(s[0..2]), Value(s[3..5]), Value(s[6..10]))
  }

  /**
   * `DateParser.parse`: the date the string names, or `None` when the shape is wrong or
   * the non-lenient calendar rejects the fields.
   */
  function Parse(s: string): (r: Option<Timestamp>)
    ensures r.Some? ==> MatchesDatePattern(s) && |s| == 10 && r.value == Fields(s)
  {
    if !MatchesDatePattern(s) then None
    else
      var d := Fields(s);
      if IsCalendarDate(d) then Some(d) else None
  }

  /** `SimpleDateFormat("dd/MM/yyyy").format`: zero-padded day, month and year. */
  function Format(t: Timestamp): (s: string)
    ensures |s| == 10
  {
    PadDigits(t.day, 2) + "/" + PadDigits(t.month, 2) + "/" + PadDigits(t.year, 4)
  }

  /** What a well-shaped string is accepted for: a month 1..12 and a day the month has. */
  lemma {:induction false} ParseAccepts(s: string)
    requires MatchesDatePattern(s)
    ensures Parse(s).Some? <==>
      var d := Fields(s);
      && 1 <= d.month <= 12
      && 1 <= d.day <= DaysInMonth(d.month, d.year)
      && d.year != 0
      && !InCutoverGap(d)
  {
  }

  /** Every date is shown as a string that parses back to it. */
  lemma {:induction false} ParseFormat(t: Timestamp)
    ensures MatchesDatePattern(Format(t))
    ensures Parse(Format(t)) == Some(t)
  {
    var s := Format(t);
    assert s[0..2] == PadDigits(t.day, 2);
    assert s[3..5] == PadDigits(t.month, 2);
    assert s[6..10] == PadDigits(t.year, 4);
    ValueOfPadDigits(t.day, 2);
    ValueOfPadDigits(t.month, 2);
    ValueOfPadDigits(t.year, 4);
  }

  /** Every accepted string is exactly how its date is shown: no other spelling is accepted. */
  lemma {:induction false} FormatParse(s: string)
    requires Parse(s).Some?
    ensures Format(Parse(s).value) == s
  {
    PadDigitsOfValue(s[0..2]);
    PadDigitsOfValue(s[3..5]);
    PadDigitsOfValue(s[6..10]);
    assert s == s[0..2] + "/" + s[3..5] + "/" + s[6..10];
  }

  /** Parsing is one-to-one on the strings it accepts. */
  lemma ParseInjective(s: string, s': string)
    requires Parse(s).Some? && Parse(s) == Parse(s')
    ensures s == s'
  {
    FormatParse(s);
    FormatParse(s');
  }

  /** The 29th of February is accepted exactly in leap years. */
  lemma {:induction false} LeapDay(year: nat)
    requires 1 <= year <= 9999
    ensures Parse("29/02/" + PadDigits(year, 4)).Some? <==> IsLeapYear(year)
  {
    var s := "29/02/" + PadDigits(year, 4);
    assert s[0..2] == "29" && s[3..5] == "02" && s[6..10] == PadDigits(year, 4);
    ValueOfPadDigits(year, 4);
    assert Value("29") == 29 && Value("02") == 2;
  }

  /** Day 00 and month 13 never parse. */
  lemma {:induction false} OutOfRangeFields(s: string)
    requires MatchesDatePattern(s)
    requires s[0..2] == "00" || s[3..5] == "13"
    ensures Parse(s) == None
  {
    assert Value("00") == 0 && Value("13") == 13;
  }

  /** The 31st of February does not exist. */
  lemma RejectsFebruary31()
    ensures Parse("31/02/2023") == None
  {
    var s := "31/02/2023";
    assert s[0..2] == "31" && s[3..5] == "02";
    assert Value("31") == 31 && Value("02") == 2;
  }

  /** "01/01/1970" is the first of January 1970. */
  lemma AcceptsEpoch()
    ensures Parse("01/01/1970") == Some(Date(1, 1, 1970))
  {
    var e := "01/01/1970";
    assert e[0..2] == "01" && e[3..5] == "01" && e[6..10] == "1970";
    assert Value("01") == 1;
    assert "1970"[..3] == "197" && "197"[..2] == "19" && "19"[..1] == "1";
    assert Value("1970") == 1970;
  }

  /**
   * The first two days of the era parse. Read in the Julian calendar, they fall before
   * 0001-01-01 of the proleptic Gregorian calendar, where Firebase's `Timestamp` begins.
   */
  lemma AcceptsFirstDaysOfEra()
    ensures Parse("01/01/0001") == Some(Date(1, 1, 1))
    ensures Parse("02/01/0001") == Some(Date(2, 1, 1))
  {
    var e, f := "01/01/0001", "02/01/0001";
    assert e[0..2] == "01" && e[3..5] == "01" && e[6..10] == "0001";
    assert f[0..2] == "02" && f[3..5] == "01" && f[6..10] == "0001";
    assert Value("01") == 1 && Value("02") == 2;
    assert "0001"[..3] == "000" && "000"[..2] == "00" && "00"[..1] == "0";
    assert Value("0001") == 1;
  }

  /** Text that is not shaped like a date is rejected. */
  lemma RejectsText()
    ensures Parse("not a date") == None
  {
    assert !IsDigit("not a date"[0]);
  }
}

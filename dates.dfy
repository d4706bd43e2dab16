/**
 * `format_date`: a timestamp rendered with the pattern
 * `%a, %d %b %Y %H:%M:%S +0000`, the date form of RSS 2.0 (section 5 of
 * RFC 822, with the four-digit year of section 5.2.14 of RFC 1123), in the
 * C locale. The calendar arithmetic behind the weekday is not modelled: the
 * weekday is a field of the timestamp.
 */
module Dates {
  import opened Wrappers
  import opened Text

  datatype Weekday = Mon | Tue | Wed | Thu | Fri | Sat | Sun

  datatype Month = Jan | Feb | Mar | Apr | May | Jun | Jul | Aug | Sep | Oct | Nov | Dec

  /** A timestamp to the second, as far as `strftime` with the pattern above
      can see it. */
  datatype DateTime = DateTime(weekday: Weekday, day: nat, month: Month, year: nat,
                               hour: nat, minute: nat, second: nat)

  /** The ranges a Python `datetime` keeps its fields in. */
  predicate Valid(d: DateTime)
  {
    1 <= d.day <= 31 && 1 <= d.year <= 9999 && d.hour < 24 && d.minute < 60 && d.second < 60
  }

  /** `%a` in the C locale. */
  function WeekdayName(w: Weekday): string
  {
    match w
    case Mon => "Mon" case Tue => "Tue" case Wed => "Wed" case Thu => "Thu"
    case Fri => "Fri" case Sat => "Sat" case Sun => "Sun"
  }

  /** `%b` in the C locale. */
  function MonthName(m: Month): string
  {
    match m
    case Jan => "Jan" case Feb => "Feb" case Mar => "Mar" case Apr => "Apr"
    case May => "May" case Jun => "Jun" case Jul => "Jul" case Aug => "Aug"
    case Sep => "Sep" case Oct => "Oct" case Nov => "Nov" case Dec => "Dec"
  }

  /** The weekday a three-letter abbreviation stands for, if any. */
  function WeekdayNamed(s: string): Option<Weekday>
  {
    if s == "Mon" then Some(Mon) else if s == "Tue" then Some(Tue)
    else if s == "Wed" then Some(Wed) else if s == "Thu" then Some(Thu)
    else if s == "Fri" then Some(Fri) else if s == "Sat" then Some(Sat)
    else if s == "Sun" then Some(Sun) else None
  }

  /** The month a three-letter abbreviation stands for, if any. */
  function MonthNamed(s: string): Option<Month>
  {
    if s == "Jan" then Some(Jan) else if s == "Feb" then Some(Feb)
    else if s == "Mar" then Some(Mar) else if s == "Apr" then Some(Apr)
    else if s == "May" then Some(May) else if s == "Jun" then Some(Jun)
    else if s == "Jul" then Some(Jul) else if s == "Aug" then Some(Aug)
    else if s == "Sep" then Some(Sep) else if s == "Oct" then Some(Oct)
    else if s == "Nov" then Some(Nov) else if s == "Dec" then Some(Dec)
    else None
  }

  /** `%d`, `%H`, `%M`, `%S`: two digits, zero-padded. */
  function TwoDigits(n: nat): (s: string)
    requires n < 100
    ensures |s| == 2 && IsDigits(s) && DecimalValue(s) == n
  {
    var s := [DigitChar(n / 10), DigitChar(n % 10)];
    assert s[..1][..0] == [] && s[..1] == [DigitChar(n / 10)];
    assert DecimalValue(s[..1]) == n / 10;
    assert DecimalValue(s) == (n / 10) * 10 + n % 10;
    s
  }

  /** `format_date(date)`. The year is printed as its plain decimal digits,
      which is four characters for every year from 1000 on. */
  function FormatDate(d: DateTime): (s: string)
    requires Valid(d)
    ensures |s| == 27 + |Decimal(d.year)|
    ensures d.year >= 1000 ==> |s| == 31
    ensures s[..3] == WeekdayName(d.weekday) && s[|s| - 6..] == " +0000"
  {
    DecimalFourDigits(d.year);
    WeekdayName(d.weekday) + (", " + (TwoDigits(d.day) + (" " + (MonthName(d.month) + (" "
      + (Decimal(d.year) + (" " + (TwoDigits(d.hour) + (":" + (TwoDigits(d.minute) + (":"
      + (TwoDigits(d.second) + " +0000"))))))))))))
  }

  /** The timestamp the fields of a date denote, if they are well formed:
      digits where numbers belong, the separators where they belong, and a
      known weekday and month abbreviation. */
  function DateOfFields(wd: string, comma: string, dd: string, sp1: string, mon: string, sp2: string,
                        yyyy: string, sp3: string, hh: string, colon1: string, mi: string,
                        colon2: string, ss: string, zone: string): Option<DateTime>
  {
    if comma == ", " && sp1 == " " && sp2 == " " && sp3 == " " && colon1 == ":" && colon2 == ":"
       && zone == " +0000" && IsDigits(dd) && IsDigits(yyyy) && IsDigits(hh) && IsDigits(mi)
       && IsDigits(ss) && WeekdayNamed(wd).Some? && MonthNamed(mon).Some?
    then Some(DateTime(WeekdayNamed(wd).value, DecimalValue(dd), MonthNamed(mon).value,
                       DecimalValue(yyyy), DecimalValue(hh), DecimalValue(mi), DecimalValue(ss)))
    else None
  }

  /** The timestamp a 31-character date in the form above denotes, if it is
      one: each field is read off the front of what is left. */
  function ParseDate(s: string): Option<DateTime>
  {
    if |s| != 31 then None
    else
      var wd, r1 := s[..3], s[3..];
      var comma, r2 := r1[..2], r1[2..];
      var dd, r3 := r2[..2], r2[2..];
      var sp1, r4 := r3[..1], r3[1..];
      var mon, r5 := r4[..3], r4[3..];
      var sp2, r6 := r5[..1], r5[1..];
      var yyyy, r7 := r6[..4], r6[4..];
      var sp3, r8 := r7[..1], r7[1..];
      var hh, r9 := r8[..2], r8[2..];
      var colon1, r10 := r9[..1], r9[1..];
      var mi, r11 := r10[..2], r10[2..];
      var colon2, r12 := r11[..1], r11[1..];
      var ss, zone := r12[..2], r12[2..];
      DateOfFields(wd, comma, dd, sp1, mon, sp2, yyyy, sp3, hh, colon1, mi, colon2, ss, zone)
  }

  /** Reading a piece off the front of a text gives the piece and what
      follows it. */
  lemma Peel(piece: string, rest: string)
    ensures (piece + rest)[..|piece|] == piece && (piece + rest)[|piece|..] == rest
  {
  }

  /** Reading the fields of a formatted date gives back the pieces it was
      assembled from. */
  lemma FormatDateFields(d: DateTime)
    requires Valid(d) && d.year >= 1000
    ensures ParseDate(FormatDate(d))
            == DateOfFields(WeekdayName(d.weekday), ", ", TwoDigits(d.day), " ", MonthName(d.month), " ",
                            Decimal(d.year), " ", TwoDigits(d.hour), ":", TwoDigits(d.minute), ":",
                            TwoDigits(d.second), " +0000")
  {
    DecimalFourDigits(d.year);
    var dd, yyyy, hh, mi, ss := TwoDigits(d.day), Decimal(d.year), TwoDigits(d.hour), TwoDigits(d.minute), TwoDigits(d.second);
    var r12 := ss + " +0000";
    var r11 := ":" + r12;
    var r10 := mi + r11;
    var r9 := ":" + r10;
    var r8 := hh + r9;
    var r7 := " " + r8;
    var r6 := yyyy + r7;
    var r5 := " " + r6;
    var r4 := MonthName(d.month) + r5;
    var r3 := " " + r4;
    var r2 := dd + r3;
    var r1 := ", " + r2;
    assert FormatDate(d) == WeekdayName(d.weekday) + r1;
    Peel(WeekdayName(d.weekday), r1);
    Peel(", ", r2);
    Peel(dd, r3);
    Peel(" ", r4);
    Peel(MonthName(d.month), r5);
    Peel(" ", r6);
    Peel(yyyy, r7);
    Peel(" ", r8);
    Peel(hh, r9);
    Peel(":", r10);
    Peel(mi, r11);
    Peel(":", r12);
    Peel(ss, " +0000");
  }

  /** The pieces a valid timestamp from the year 1000 on is formatted from
      denote that timestamp. */
  lemma FieldsRoundTrip(d: DateTime)
    requires Valid(d) && d.year >= 1000
    ensures DateOfFields(WeekdayName(d.weekday), ", ", TwoDigits(d.day), " ", MonthName(d.month), " ",
                         Decimal(d.year), " ", TwoDigits(d.hour), ":", TwoDigits(d.minute), ":",
                         TwoDigits(d.second), " +0000") == Some(d)
  {
    DecimalRoundTrip(d.year);
    assert WeekdayNamed(WeekdayName(d.weekday)) == Some(d.weekday);
    assert MonthNamed(MonthName(d.month)) == Some(d.month);
  }

  /** Every valid timestamp from the year 1000 on is read back from its
      formatted text: the format loses nothing but sub-second precision. */
  lemma FormatDateRoundTrip(d: DateTime)
    requires Valid(d) && d.year >= 1000
    ensures ParseDate(FormatDate(d)) == Some(d)
  {
    FormatDateFields(d);
    FieldsRoundTrip(d);
  }

  /** A formatted date is one line of text. */
  lemma FormatDateIsOneLine(d: DateTime)
    requires Valid(d)
    ensures '\n' !in FormatDate(d)
  {
    DigitsAreOneLine(Decimal(d.year));
    DigitsAreOneLine(TwoDigits(d.day));
    DigitsAreOneLine(TwoDigits(d.hour));
    DigitsAreOneLine(TwoDigits(d.minute));
    DigitsAreOneLine(TwoDigits(d.second));
  }

  /** Two different timestamps from the year 1000 on never share a date string. */
  lemma FormatDateInjective(d1: DateTime, d2: DateTime)
    requires Valid(d1) && d1.year >= 1000 && Valid(d2) && d2.year >= 1000
    requires FormatDate(d1) == FormatDate(d2)
    ensures d1 == d2
  {
    FormatDateRoundTrip(d1);
    FormatDateRoundTrip(d2);
  }
}

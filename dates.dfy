/**
 * Day keys: formatDate turns a calendar day into the "YYYY-MM-DD" key that
 * partitions the task lists, and getDisplayDate turns a key into the heading
 * shown above the list. The calendar fields come in as a Day value, since the
 * page reads them from the browser's Date object and clock.
 */
module Dates {
  import opened Options
  import opened Decimal

  /** A local calendar day: month is 1-based (getMonth() + 1), day is getDate(). */
  datatype Day = Day(year: int, month: nat, day: nat)

  /** Month and day fields as a Date object produces them. */
  predicate IsCalendarDay(d: Day) {
    1 <= d.month <= 12 && 1 <= d.day <= 31
  }

  /** The heading of the page: the word "Today", or the locale's long form of a key. */
  datatype DateLabel = Today | Localized(dayKey: string)

  /** A field prefixed with '0' when its numeral is shorter than two characters. */
  function Pad2(s: string): (padded: string) {
    if |s| < 2 then "0" + s else s
  }

  /** The two decimal digits of a number below 100, tens first. */
  function TwoDigits(n: nat): (s: string)
    requires n < 100
    ensures |s| == 2 && AllDigits(s) && DecToNat(s) == n
  {
    var s := [DigitChar(n / 10), DigitChar(n % 10)];
    var tens := [DigitChar(n / 10)];
    assert s[..1] == tens && tens[..0] == [];
    assert DecToNat(tens) == n / 10;
    assert DecToNat(s) == (n / 10) * 10 + n % 10;
    s
  }

  /** Padding the shortest numeral of a number below 100 gives its two digits. */
  lemma Pad2NatToDec(n: nat)
    requires n < 100
    ensures n < 10 ==> Pad2(NatToDec(n)) == "0" + NatToDec(n)
    ensures Pad2(NatToDec(n)) == TwoDigits(n)
  {
    if n >= 10 {
      assert NatToDec(n) == NatToDec(n / 10) + [DigitChar(n % 10)];
      assert NatToDec(n / 10) == [DigitChar(n / 10)];
    } else {
      assert DigitChar(0) == '0';
    }
  }

  /** The numeral of any value of 10 or more already has two characters and is left as it is. */
  lemma Pad2LongNumeral(n: nat)
    requires n >= 10
    ensures Pad2(NatToDec(n)) == NatToDec(n)
  {
  }

  /** formatDate: year, '-', the padded month, '-', the padded day. The year is not padded. */
  function FormatDate(d: Day): (key: string)
    ensures var y := IntToDec(d.year);
      d.month < 100 && d.day < 100 ==>
        && |key| == |y| + 6
        && key[..|y|] == y
        && key[|y|] == '-' && key[|y| + 3] == '-'
        && key[|y| + 1..|y| + 3] == TwoDigits(d.month)
        && key[|y| + 4..] == TwoDigits(d.day)
  {
    var y := IntToDec(d.year);
    var key := y + "-" + Pad2(NatToDec(d.month)) + "-" + Pad2(NatToDec(d.day));
    if d.month < 100 && d.day < 100 then
      Pad2NatToDec(d.month);
      Pad2NatToDec(d.day);
      key
    else
      key
  }

  /** Reads a key back into its fields, scanning from the end so that a negative year parses too. */
  function ParseDayKey(key: string): (r: Option<Day>)
  {
    var n := |key|;
    if n < 7 || key[n - 6] != '-' || key[n - 3] != '-' then None
    else
      var mm, dd := key[n - 5..n - 3], key[n - 2..];
      if !AllDigits(mm) || !AllDigits(dd) then None
      else
        match DecToInt(key[..n - 6])
        case None => None
        case Some(y) => Some(Day(y, DecToNat(mm), DecToNat(dd)))
  }

  /** Every key formatDate produces reads back as the day it came from. */
  lemma FormatDateRoundTrip(d: Day)
    requires d.month < 100 && d.day < 100
    ensures ParseDayKey(FormatDate(d)) == Some(d)
  {
    var key := FormatDate(d);
    var y := IntToDec(d.year);
    var n := |key|;
    assert key[..n - 6] == y;
    assert key[n - 5..n - 3] == TwoDigits(d.month);
    assert key[n - 2..] == TwoDigits(d.day);
    IntToDecRoundTrip(d.year);
  }

  /** Distinct days have distinct keys, so their task lists never share a storage entry. */
  lemma FormatDateInjective(d1: Day, d2: Day)
    requires d1.month < 100 && d1.day < 100 && d2.month < 100 && d2.day < 100
    ensures FormatDate(d1) == FormatDate(d2) <==> d1 == d2
  {
    FormatDateRoundTrip(d1);
    FormatDateRoundTrip(d2);
  }

  /**
   * getDisplayDate: "Today" when the key is the key of the current day, otherwise
   * the locale's rendering of the key, kept abstract.
   */
  function DisplayDate(key: string, now: Day): (heading: DateLabel)
    ensures heading == Today <==> key == FormatDate(now)
    ensures heading != Today ==> heading == Localized(key)
  {
    if key == FormatDate(now) then Today else Localized(key)
  }

  /** The heading of the key of a calendar day is "Today" exactly on that day. */
  lemma DisplayDateTodayIff(d: Day, now: Day)
    requires IsCalendarDay(d) && IsCalendarDay(now)
    ensures DisplayDate(FormatDate(d), now) == Today <==> d == now
  {
    FormatDateInjective(d, now);
  }
}

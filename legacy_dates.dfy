/**
 * `translate_date` of the older version (`__init__.py`): German month
 * abbreviations and the words `Gestern`/`Heute` are replaced, in a fixed
 * order, by English ones and by the dates of yesterday and today written
 * as `%d. %b %Y`.
 */
module LegacyDates {
  import opened Wrappers
  import opened Text
  import opened Numbers
  import opened Seqs

  // ---------------------------------------------------------------------------
  // Calendar dates

  datatype Date = Date(year: nat, month: nat, day: nat)

  predicate Leap(year: nat) {
    year % 4 == 0 && (year % 100 != 0 || year % 400 == 0)
  }

  /** The number of days of a month of the Gregorian calendar. */
  function DaysIn(year: nat, month: nat): (n: nat)
    requires 1 <= month <= 12
    ensures 28 <= n <= 31
  {
    if month == 2 then (if Leap(year) then 29 else 28)
    else if month in {4, 6, 9, 11} then 30
    else 31
  }

  /** A date `datetime` accepts: years from 1 on, a month, a day of that month. */
  predicate ValidDate(d: Date) {
    d.year >= 1 && 1 <= d.month <= 12 && 1 <= d.day <= DaysIn(d.year, d.month)
  }

  /** The first day `datetime` can represent; it has no day before it. */
  const FirstDay := Date(1, 1, 1)

  /**
   * `today.replace(day = today.day - 1)` (__init__.py:148): the same month
   * with the day one less, or `None` where `replace` raises `ValueError`
   * because the day is out of range.
   */
  function AsWrittenYesterday(today: Date): (r: Option<Date>)
    requires ValidDate(today)
    ensures r.None? <==> today.day == 1
    ensures r.Some? ==> ValidDate(r.value) && r.value.year == today.year && r.value.month == today.month
  {
    var day := today.day as int - 1;
    if 1 <= day <= DaysIn(today.year, today.month) then Some(Date(today.year, today.month, day)) else None
  }

  /** `today - timedelta(days=1)`: the day before, across month and year ends. */
  function PreviousDay(d: Date): (p: Date)
    requires ValidDate(d) && d != FirstDay
    ensures ValidDate(p)
  {
    if d.day > 1 then Date(d.year, d.month, d.day - 1)
    else if d.month > 1 then Date(d.year, d.month - 1, DaysIn(d.year, d.month - 1))
    else Date(d.year - 1, 12, 31)
  }

  /** `d + timedelta(days=1)`: the day after. */
  function NextDay(d: Date): (n: Date)
    requires ValidDate(d)
    ensures ValidDate(n) && n != FirstDay
  {
    if d.day < DaysIn(d.year, d.month) then Date(d.year, d.month, d.day + 1)
    else if d.month < 12 then Date(d.year, d.month + 1, 1)
    else Date(d.year + 1, 1, 1)
  }

  /** The day after the day before is the day itself. */
  lemma NextOfPrevious(d: Date)
    requires ValidDate(d) && d != FirstDay
    ensures NextDay(PreviousDay(d)) == d
  {
  }

  /** The day before the day after is the day itself. */
  lemma PreviousOfNext(d: Date)
    requires ValidDate(d)
    ensures PreviousDay(NextDay(d)) == d
  {
  }

  /** Where `replace` does not raise, it gives the day before. */
  lemma AsWrittenAgrees(d: Date)
    requires ValidDate(d) && d.day > 1
    ensures AsWrittenYesterday(d) == Some(PreviousDay(d))
  {
  }

  /** On 1 October 2020 `replace(day = 0)` raises, although 30 September 2020 is the day before. */
  lemma FirstOfMonthRaises()
    ensures ValidDate(Date(2020, 10, 1))
    ensures AsWrittenYesterday(Date(2020, 10, 1)).None?
    ensures PreviousDay(Date(2020, 10, 1)) == Date(2020, 9, 30)
  {
  }

  // ---------------------------------------------------------------------------
  // strftime("%d. %b %Y")

  /** `%b` in the C locale. */
  function MonthAbbr(month: nat): (a: string)
    requires 1 <= month <= 12
    ensures |a| == 3
  {
    match month
    case 1 => "Jan" case 2 => "Feb" case 3 => "Mar" case 4 => "Apr"
    case 5 => "May" case 6 => "Jun" case 7 => "Jul" case 8 => "Aug"
    case 9 => "Sep" case 10 => "Oct" case 11 => "Nov" case _ => "Dec"
  }

  /** The month an abbreviation names, 0 for none. */
  function MonthOfAbbr(a: string): nat {
    if a == "Jan" then 1 else if a == "Feb" then 2 else if a == "Mar" then 3
    else if a == "Apr" then 4 else if a == "May" then 5 else if a == "Jun" then 6
    else if a == "Jul" then 7 else if a == "Aug" then 8 else if a == "Sep" then 9
    else if a == "Oct" then 10 else if a == "Nov" then 11 else if a == "Dec" then 12
    else 0
  }

  /** `%d`: the day with two digits. */
  function TwoDigits(n: nat): (s: string)
    requires n < 100
    ensures |s| == 2 && AllDigits(s) && DigitsValue(s) == n
  {
    var s := [DigitChar(n / 10), DigitChar(n % 10)];
    assert s[..1] == [DigitChar(n / 10)] && s[..1][..0] == [];
    assert DigitsValue(s[..1]) == n / 10;
    s
  }

  /** `d.strftime("%d. %b %Y")`; the year is written without padding, as glibc does. */
  function FormatDate(d: Date): (s: string)
    requires ValidDate(d)
    ensures |s| >= 9 && s[2..4] == ". " && s[7] == ' '
    ensures AllDigits(s[..2]) && DigitsValue(s[..2]) == d.day
    ensures s[4..7] == MonthAbbr(d.month)
    ensures AllDigits(s[8..]) && DigitsValue(s[8..]) == d.year
  {
    var dd := TwoDigits(d.day);
    var yy := NatToString(d.year);
    DigitsValueOfNatToString(d.year);
    var s := dd + ". " + MonthAbbr(d.month) + " " + yy;
    assert s[..2] == dd && s[4..7] == MonthAbbr(d.month) && s[8..] == yy;
    s
  }

  /** Reading a `%d. %b %Y` text back. */
  function ReadDate(s: string): (r: Option<Date>) {
    if |s| >= 9 && s[2..4] == ". " && s[7] == ' ' && AllDigits(s[..2]) && AllDigits(s[8..])
      && MonthOfAbbr(s[4..7]) != 0
    then Some(Date(DigitsValue(s[8..]), MonthOfAbbr(s[4..7]), DigitsValue(s[..2])))
    else None
  }

  lemma MonthOfAbbrOf(month: nat)
    requires 1 <= month <= 12
    ensures MonthOfAbbr(MonthAbbr(month)) == month
  {
  }

  /** The formatted date determines the date. */
  lemma ReadFormatted(d: Date)
    requires ValidDate(d)
    ensures ReadDate(FormatDate(d)) == Some(d)
  {
    MonthOfAbbrOf(d.month);
  }

  /** Different dates are written differently. */
  lemma FormatDateInjective(d: Date, e: Date)
    requires ValidDate(d) && ValidDate(e) && FormatDate(d) == FormatDate(e)
    ensures d == e
  {
    ReadFormatted(d);
    ReadFormatted(e);
  }

  // ---------------------------------------------------------------------------
  // The replacements

  /** The keys of the dictionary of `translate_date`, in insertion order; the first is `Mär` read as Latin-1. */
  const MonthKeys: seq<string> := ["M\U{C3}\U{A4}r", "Mai", "Jun", "Jul", "Okt", "Dez"]

  /** The dictionary of `translate_date` as a list of pairs in insertion order. */
  function Replacements(yesterday: string, today: string): (ps: seq<(string, string)>)
    ensures |ps| == 8 && forall k | 0 <= k < |ps| :: ps[k].0 != []
  {
    [("M\U{C3}\U{A4}r", "Mar"), ("Mai", "May"), ("Jun", "Jun"), ("Jul", "Jul"),
     ("Okt", "Oct"), ("Dez", "Dec"), ("Gestern", yesterday), ("Heute", today)]
  }

  predicate NonEmptyKeys(pairs: seq<(string, string)>) {
    forall k | 0 <= k < |pairs| :: pairs[k].0 != []
  }

  /** `s.replace(key, value)` for every pair, one after the other. */
  function ReplaceAll(s: string, pairs: seq<(string, string)>): string
    requires NonEmptyKeys(pairs)
    decreases |pairs|
  {
    if pairs == [] then s
    else
      var last := pairs[|pairs| - 1];
      Replace(ReplaceAll(s, pairs[..|pairs| - 1]), last.0, last.1)
  }

  /** A string that holds none of the keys comes back unchanged. */
  lemma {:induction false} ReplaceAllAbsent(s: string, pairs: seq<(string, string)>)
    requires NonEmptyKeys(pairs)
    requires forall k | 0 <= k < |pairs| :: !Contains(s, pairs[k].0)
    ensures ReplaceAll(s, pairs) == s
    decreases |pairs|
  {
    if pairs != [] {
      var init := pairs[..|pairs| - 1];
      assert forall k | 0 <= k < |init| :: init[k] == pairs[k];
      ReplaceAllAbsent(s, init);
      ReplaceAbsent(s, pairs[|pairs| - 1].0, pairs[|pairs| - 1].1);
    }
  }

  /** What `translate_date(datestr)` returns on the day `now`, with the day before computed correctly. */
  function TranslatedOn(datestr: string, now: Date): string
    requires ValidDate(now) && now != FirstDay
  {
    ReplaceAll(datestr, Replacements(FormatDate(PreviousDay(now)), FormatDate(now)))
  }

  /** A date text without German month names and without `Gestern`/`Heute` is passed on unchanged. */
  lemma TranslatedPlain(datestr: string, now: Date)
    requires ValidDate(now) && now != FirstDay
    requires forall k | 0 <= k < |MonthKeys| :: !Contains(datestr, MonthKeys[k])
    requires !Contains(datestr, "Gestern") && !Contains(datestr, "Heute")
    ensures TranslatedOn(datestr, now) == datestr
  {
    var ps := Replacements(FormatDate(PreviousDay(now)), FormatDate(now));
    forall k | 0 <= k < |ps| ensures !Contains(datestr, ps[k].0) {
      if k < 6 {
        assert ps[k].0 == MonthKeys[k];
      }
    }
    ReplaceAllAbsent(datestr, ps);
  }

  /**
   * `translate_date` as written: `None` where it raises, which is on the
   * first day of every month, whatever the text to translate.
   */
  function AsWrittenTranslated(datestr: string, now: Date): (r: Option<string>)
    requires ValidDate(now)
    ensures r.None? <==> now.day == 1
  {
    match AsWrittenYesterday(now)
    case None => None
    case Some(y) => Some(ReplaceAll(datestr, Replacements(FormatDate(y), FormatDate(now))))
  }

  /** Apart from the first of a month, the text is the one of the corrected reading. */
  lemma AsWrittenTranslatedAgrees(datestr: string, now: Date)
    requires ValidDate(now) && now.day > 1
    ensures AsWrittenTranslated(datestr, now) == Some(TranslatedOn(datestr, now))
  {
    AsWrittenAgrees(now);
  }

  /**
   * `translate_date(datestr)` on the day `now`, as written: `None` where
   * the computation of `gestern` raises, otherwise the loop over the
   * dictionary.
   */
  method TranslateDate(datestr: string, now: Date) returns (r: Option<string>)
    requires ValidDate(now)
    ensures r == AsWrittenTranslated(datestr, now)
  {
    var yesterday := AsWrittenYesterday(now);
    if yesterday.None? {
      return None;
    }
    var pairs := Replacements(FormatDate(yesterday.value), FormatDate(now));
    var s := datestr;
    var i := 0;
    while i < |pairs|
      invariant 0 <= i <= |pairs|
      invariant s == ReplaceAll(datestr, pairs[..i])
    {
      assert pairs[..i + 1][..i] == pairs[..i];
      s := Replace(s, pairs[i].0, pairs[i].1);
      i := i + 1;
    }
    assert pairs[..|pairs|] == pairs;
    r := Some(s);
  }
}

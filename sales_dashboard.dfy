/**
 * The pure helpers of the sales dashboard (hour labels, file names, the
 * period's column), its date-range and period state, and the top-N cuts.
 */
module SalesDashboard {
  import opened Wrappers
  import opened Decimal
  import opened SalesPerformanceApi

  // ------------------------------------------------------------ hour labels

  /** `formatHour`: a 12-hour clock label. */
  function FormatHour(hour: int): string
  {
    if hour == 0 then "12 AM"
    else if hour == 12 then "12 PM"
    else if hour < 12 then IntToString(hour) + " AM"
    else IntToString(hour - 12) + " PM"
  }

  /** The label of an hour of the day: its 12-hour number and half. */
  lemma FormatHourCases(hour: nat)
    requires hour < 24
    ensures hour == 0 ==> FormatHour(hour) == "12 AM"
    ensures hour == 12 ==> FormatHour(hour) == "12 PM"
    ensures 1 <= hour < 12 ==> FormatHour(hour) == NatToString(hour) + " AM"
    ensures 13 <= hour ==> FormatHour(hour) == NatToString(hour - 12) + " PM"
  {
  }

  /** Splits a label into its number and its half. */
  lemma {:induction false} LabelParts(n: nat, half: string, m: nat, half2: string)
    requires |half| == 3 && |half2| == 3
    requires NatToString(n) + half == NatToString(m) + half2
    ensures n == m && half == half2
  {
    var s := NatToString(n) + half;
    assert NatToString(n) == s[..|s| - 3];
    assert NatToString(m) == (NatToString(m) + half2)[..|s| - 3];
    assert half == s[|s| - 3..];
    assert half2 == (NatToString(m) + half2)[|s| - 3..];
    NatToStringInjective(n, m);
  }

  /** Every hour of the day gets its own label. */
  lemma FormatHourInjective(a: nat, b: nat)
    requires a < 24 && b < 24
    requires FormatHour(a) == FormatHour(b)
    ensures a == b
  {
    var na := if a == 0 || a == 12 then 12 else if a < 12 then a else a - 12;
    var nb := if b == 0 || b == 12 then 12 else if b < 12 then b else b - 12;
    var ha := if a < 12 then " AM" else " PM";
    var hb := if b < 12 then " AM" else " PM";
    assert FormatHour(a) == NatToString(na) + ha by {
      if a == 0 || a == 12 {
        assert NatToString(12) == "12" by {
          assert NatToString(1) == "1";
          assert NatToString(2) == "2";
        }
      }
    }
    assert FormatHour(b) == NatToString(nb) + hb by {
      if b == 0 || b == 12 {
        assert NatToString(12) == "12" by {
          assert NatToString(1) == "1";
          assert NatToString(2) == "2";
        }
      }
    }
    LabelParts(na, ha, nb, hb);
  }

  // ------------------------------------------------------------- file names

  predicate IsAsciiAlnum(c: char)
  {
    ('a' <= c <= 'z') || ('A' <= c <= 'Z') || ('0' <= c <= '9')
  }

  /** `toLowerCase()` on an ASCII character; other characters are kept. */
  function LowerChar(c: char): char
  {
    if 'A' <= c <= 'Z' then (c as int - 'A' as int + 'a' as int) as char else c
  }

  /** `replace(/[^a-z0-9]/gi, '_')` then `toLowerCase()`, on one character. */
  function CleanChar(c: char): (r: char)
  {
    if IsAsciiAlnum(c) then LowerChar(c) else '_'
  }

  /** A character beyond the Basic Multilingual Plane takes two UTF-16 code units in JavaScript. */
  predicate IsAstral(c: char)
  {
    c as int >= 0x10000
  }

  /** The length JavaScript reports for a string: its number of UTF-16 code units. */
  function Utf16Length(s: string): nat
  {
    if s == [] then 0 else (if IsAstral(s[0]) then 2 else 1) + Utf16Length(s[1..])
  }

  /**
   * The regex has no `u` flag, so it matches code units: each of the two
   * units of an astral character is replaced on its own.
   */
  function CleanUnits(c: char): string
  {
    if IsAstral(c) then "__" else [CleanChar(c)]
  }

  function CleanName(s: string): (r: string)
    ensures |r| == Utf16Length(s)
  {
    if s == [] then [] else CleanUnits(s[0]) + CleanName(s[1..])
  }

  predicate InBmp(s: string)
  {
    forall i :: 0 <= i < |s| ==> !IsAstral(s[i])
  }

  /** Cleaning works character by character: it distributes over concatenation. */
  lemma {:induction false} CleanNameAppend(s: string, t: string)
    ensures CleanName(s + t) == CleanName(s) + CleanName(t)
  {
    if s != [] {
      assert (s + t)[0] == s[0] && (s + t)[1..] == s[1..] + t;
      CleanNameAppend(s[1..], t);
    } else {
      assert s + t == t;
    }
  }

  /** Without astral characters, the i-th character of the result is the cleaned i-th character. */
  lemma {:induction false} CleanNameBmp(s: string)
    requires InBmp(s)
    ensures |CleanName(s)| == |s|
    ensures forall i :: 0 <= i < |s| ==> CleanName(s)[i] == CleanChar(s[i])
  {
    if s != [] {
      CleanNameBmp(s[1..]);
      assert CleanName(s) == [CleanChar(s[0])] + CleanName(s[1..]);
    }
  }

  /** The result is made of [a-z0-9_] only. */
  lemma {:induction false} CleanNameAlphabet(s: string)
    ensures forall i :: 0 <= i < |CleanName(s)| ==>
      var c := CleanName(s)[i];
      ('a' <= c <= 'z') || ('0' <= c <= '9') || c == '_'
  {
    if s != [] {
      CleanNameAlphabet(s[1..]);
    }
  }

  /**
   * Only [a-z0-9_] appear; an astral character becomes two '_'; without
   * astral characters, each character maps to one, which is '_' iff the
   * character is not an ASCII letter or digit, lower-case letters are kept.
   */
  lemma CleanNameShape(s: string)
    ensures |CleanName(s)| >= |s|
    ensures forall i :: 0 <= i < |CleanName(s)| ==>
      var c := CleanName(s)[i];
      ('a' <= c <= 'z') || ('0' <= c <= '9') || c == '_'
    ensures forall c: char :: CleanName([c]) == if IsAstral(c) then "__" else [CleanChar(c)]
    ensures InBmp(s) ==> |CleanName(s)| == |s|
    ensures InBmp(s) ==> forall i :: 0 <= i < |s| ==> (CleanName(s)[i] == '_' <==> !IsAsciiAlnum(s[i]))
    ensures InBmp(s) ==> forall i :: 0 <= i < |s| && 'a' <= s[i] <= 'z' ==> CleanName(s)[i] == s[i]
  {
    Utf16AtLeast(s);
    CleanNameAlphabet(s);
    forall c: char
      ensures CleanName([c]) == if IsAstral(c) then "__" else [CleanChar(c)]
    {
      assert [c][1..] == [];
    }
    if InBmp(s) {
      CleanNameBmp(s);
    }
  }

  lemma {:induction false} Utf16AtLeast(s: string)
    ensures Utf16Length(s) >= |s|
  {
    if s != [] {
      Utf16AtLeast(s[1..]);
    }
  }

  /** An astral character, such as an emoji, becomes two underscores. */
  lemma AstralBecomesTwo()
    ensures CleanName("Joe\U{1F355}") == "joe__"
  {
    var s := "Joe\U{1F355}";
    assert s[1..][1..][1..][1..] == [];
  }

  /** Cleaning a cleaned name changes nothing. */
  lemma CleanNameIdempotent(s: string)
    ensures CleanName(CleanName(s)) == CleanName(s)
  {
    var r := CleanName(s);
    CleanNameAlphabet(s);
    CleanNameBmp(r);
  }

  /** `getCleanFilename`'s name part: "restaurant" for a missing or empty name. */
  function FilenameBase(restaurantName: Option<string>): string
  {
    if restaurantName.None? || restaurantName.value == "" then "restaurant"
    else CleanName(restaurantName.value)
  }

  lemma MissingNameIsRestaurant()
    ensures FilenameBase(None) == "restaurant" && FilenameBase(Some("")) == "restaurant"
    ensures FilenameBase(Some("Joe's Pizza")) == "joe_s_pizza"
  {
    var s := "Joe's Pizza";
    assert CleanName(s) == "joe_s_pizza";
  }

  datatype ExportFormat = Xlsx | Pdf

  /** The dates as `format(date, 'yyyy-MM-dd')` prints them. */
  type DayText = string

  function Filename(restaurantName: Option<string>, from: DayText, to: DayText, format: ExportFormat): string
  {
    FilenameBase(restaurantName) + "_sales_report_" + from + "_to_" + to
    + (match format case Xlsx => ".xlsx" case Pdf => ".pdf")
  }

  /** The two exports share the stem and differ only in the extension. */
  lemma FilenameStem(restaurantName: Option<string>, from: DayText, to: DayText)
    ensures var stem := FilenameBase(restaurantName) + "_sales_report_" + from + "_to_" + to;
      Filename(restaurantName, from, to, Xlsx) == stem + ".xlsx"
      && Filename(restaurantName, from, to, Pdf) == stem + ".pdf"
      && Filename(restaurantName, from, to, Xlsx) != Filename(restaurantName, from, to, Pdf)
  {
    var stem := FilenameBase(restaurantName) + "_sales_report_" + from + "_to_" + to;
    assert Filename(restaurantName, from, to, Xlsx)[|stem| + 1] == 'x';
    assert Filename(restaurantName, from, to, Pdf)[|stem| + 1] == 'p';
  }

  // ----------------------------------------------------------- period column

  /** The header row of the revenue-by-period sheet. */
  function PeriodHeader(p: Period): seq<string>
  {
    match p
    case Daily => ["Date", "Revenue"]
    case Weekly => ["Week", "Revenue"]
    case Monthly => ["Month", "Revenue"]
  }

  /** The field read from each row of the period's series. */
  function PeriodKey(p: Period): string
  {
    match p
    case Daily => "date"
    case Weekly => "week"
    case Monthly => "month"
  }

  function LowerAscii(s: string): string
  {
    seq(|s|, i requires 0 <= i < |s| => LowerChar(s[i]))
  }

  /** The first header names the column read by the key, and each period has its own. */
  lemma PeriodHeaderMatchesKey(p: Period, q: Period)
    ensures |PeriodHeader(p)| == 2 && PeriodHeader(p)[1] == "Revenue"
    ensures LowerAscii(PeriodHeader(p)[0]) == PeriodKey(p)
    ensures PeriodKey(p) == PeriodKey(q) ==> p == q
  {
    if PeriodKey(p) == PeriodKey(q) {
      assert PeriodKey(p)[0] == PeriodKey(q)[0];
    }
  }

  // ---------------------------------------------------------------- top N

  /** `slice(0, n)`. */
  function Take<T>(xs: seq<T>, n: nat): (r: seq<T>)
    ensures |r| <= n && |r| <= |xs|
    ensures |r| == if |xs| < n then |xs| else n
    ensures forall i :: 0 <= i < |r| ==> r[i] == xs[i]
  {
    if |xs| <= n then xs else xs[..n]
  }

  /** The charts' five items are the first five of the report's ten. */
  lemma ChartItemsPrefixOfPdf<T>(items: seq<T>)
    ensures |Take(items, 10)| <= 10 && |Take(items, 5)| <= 5
    ensures Take(items, 5) == Take(Take(items, 10), 5)
  {
  }

  // ------------------------------------------------------------------ state

  /** A picked date, with the two renderings the code uses. */
  datatype DateValue = DateValue(iso: IsoDate, day: DayText)

  class Dashboard {
    var from: DateValue
    var to: DateValue
    var period: Period

    constructor (from: DateValue, to: DateValue)
      ensures this.from == from && this.to == to && period == Daily
    {
      this.from := from;
      this.to := to;
      period := Daily;
    }

    /** The range picker's `onSelect`: the range changes only when both ends are picked. */
    method OnSelect(pickedFrom: Option<DateValue>, pickedTo: Option<DateValue>)
      modifies this
      ensures pickedFrom.Some? && pickedTo.Some? ==> from == pickedFrom.value && to == pickedTo.value
      ensures pickedFrom.None? || pickedTo.None? ==> from == old(from) && to == old(to)
      ensures period == old(period)
    {
      if pickedFrom.Some? && pickedTo.Some? {
        from := pickedFrom.value;
        to := pickedTo.value;
      }
    }

    method SetPeriod(p: Period)
      modifies this
      ensures period == p && from == old(from) && to == old(to)
    {
      period := p;
    }

    /** The request the dashboard's hook call issues for a restaurant, or for none. */
    function Request(restaurantId: Option<string>): Option<(string, seq<UrlParams.Entry>)>
      reads this
    {
      SalesRequest(if restaurantId.Some? then restaurantId.value else "", Some(from.iso), Some(to.iso), Some(period))
    }
  }

  /** Without a restaurant the id is "", so no report is requested. */
  lemma NoRestaurantNoRequest(from: DateValue, to: DateValue, period: Period)
    ensures SalesRequest("", Some(from.iso), Some(to.iso), Some(period)).None?
  {
  }
}

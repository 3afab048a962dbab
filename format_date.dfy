/**
 * formatTimeAgo: an elapsed time in milliseconds rendered as whole days,
 * hours or minutes. The elapsed time (`Date.now()` minus the instant) is a
 * parameter.
 */
module FormatDate {
  import opened Entities

  /**
   * `Math.floor(diff / 60000)`. Dafny's division rounds towards negative
   * infinity for a positive divisor, which is exactly that floor.
   */
  function Minutes(diff: int): int { diff / 60000 }

  function Hours(diff: int): int { Minutes(diff) / 60 }

  function Days(diff: int): int { Hours(diff) / 24 }

  /** The unit `formatTimeAgo` chooses and the count in it. */
  datatype Ago = DaysAgo(days: int) | HoursAgo(hours: int) | MinutesAgo(minutes: int)

  /** Decimal digits of a natural number, as a template literal writes them. */
  function NatToString(n: nat): (s: string)
    ensures |s| >= 1
    ensures forall k :: 0 <= k < |s| ==> '0' <= s[k] <= '9'
    decreases n
  {
    if n < 10 then [Digit(n)] else NatToString(n / 10) + [Digit(n % 10)]
  }

  function Digit(d: nat): (c: char)
    requires d < 10
    ensures '0' <= c <= '9' && c as int - '0' as int == d
  {
    (d + '0' as int) as char
  }

  /** A template literal of an integer: a minus sign before the digits of a negative count. */
  function IntToString(n: int): (s: string)
    ensures |s| >= 1
  {
    if n < 0 then "-" + NatToString(-n) else NatToString(n)
  }

  const DaysSuffix: string := " days ago"
  const HoursSuffix: string := " hrs ago"
  const MinutesSuffix: string := " mins ago"

  function Render(a: Ago): string {
    match a
    case DaysAgo(d) => IntToString(d) + DaysSuffix
    case HoursAgo(h) => IntToString(h) + HoursSuffix
    case MinutesAgo(m) => IntToString(m) + MinutesSuffix
  }

  /** The unit chosen: days when there is a whole day, else hours when there is a whole hour, else minutes. */
  function Bucket(diff: int): (a: Ago)
    ensures a.DaysAgo? <==> Days(diff) > 0
    ensures a.HoursAgo? <==> Days(diff) <= 0 && Hours(diff) > 0
    ensures a.DaysAgo? ==> a.days == Days(diff)
    ensures a.HoursAgo? ==> a.hours == Hours(diff)
    ensures a.MinutesAgo? ==> a.minutes == Minutes(diff)
  {
    if Days(diff) > 0 then DaysAgo(Days(diff))
    else if Hours(diff) > 0 then HoursAgo(Hours(diff))
    else MinutesAgo(Minutes(diff))
  }

  /** `formatTimeAgo` for `diff` elapsed milliseconds: its text reads back as exactly the bucket chosen. */
  function FormatTimeAgo(diff: int): (s: string)
    ensures ParseAgo(s) == Some(Bucket(diff))
  {
    RenderParses(Bucket(diff));
    Render(Bucket(diff))
  }

  // ---------------------------------------------------------------------------
  // Reading a rendered string back: the rendering loses nothing

  predicate AllDigits(s: string) {
    forall k :: 0 <= k < |s| ==> '0' <= s[k] <= '9'
  }

  function DigitsValue(s: string): nat
    requires AllDigits(s)
  {
    if s == [] then 0 else DigitsValue(s[..|s| - 1]) * 10 + (s[|s| - 1] as int - '0' as int)
  }

  function ParseInt(s: string): Option<int> {
    if |s| > 1 && s[0] == '-' then (if AllDigits(s[1..]) then Some(0 - DigitsValue(s[1..])) else None)
    else if |s| > 0 && AllDigits(s) then Some(DigitsValue(s))
    else None
  }

  function ParseAgo(s: string): Option<Ago> {
    if |s| >= |DaysSuffix| && s[|s| - |DaysSuffix|..] == DaysSuffix then
      match ParseInt(s[..|s| - |DaysSuffix|])
      case Some(n) => Some(DaysAgo(n))
      case None => None
    else if |s| >= |HoursSuffix| && s[|s| - |HoursSuffix|..] == HoursSuffix then
      match ParseInt(s[..|s| - |HoursSuffix|])
      case Some(n) => Some(HoursAgo(n))
      case None => None
    else if |s| >= |MinutesSuffix| && s[|s| - |MinutesSuffix|..] == MinutesSuffix then
      match ParseInt(s[..|s| - |MinutesSuffix|])
      case Some(n) => Some(MinutesAgo(n))
      case None => None
    else None
  }

  lemma {:induction false} NatToStringValue(n: nat)
    ensures DigitsValue(NatToString(n)) == n
    decreases n
  {
    var s := NatToString(n);
    if n >= 10 {
      NatToStringValue(n / 10);
      assert s[..|s| - 1] == NatToString(n / 10);
    }
  }

  lemma ParseNonNegative(n: nat)
    ensures ParseInt(NatToString(n)) == Some(n as int)
  {
    var t := NatToString(n);
    NatToStringValue(n);
    assert t[0] != '-';
    assert AllDigits(t);
  }

  lemma ParseNegative(n: nat)
    requires n > 0
    ensures ParseInt("-" + NatToString(n)) == Some(0 - n)
  {
    var t := NatToString(n);
    NatToStringValue(n);
    assert ("-" + t)[1..] == t;
    assert AllDigits(t);
  }

  lemma IntToStringParses(n: int)
    ensures ParseInt(IntToString(n)) == Some(n)
  {
    if n < 0 {
      ParseNegative(-n);
    } else {
      ParseNonNegative(n);
    }
  }


  /** The count and the suffix of a rendered string come apart again. */
  lemma SplitSuffix(t: string, suffix: string)
    ensures (t + suffix)[|t + suffix| - |suffix|..] == suffix
    ensures (t + suffix)[..|t + suffix| - |suffix|] == t
  {
  }

  lemma DaysParse(t: string)
    ensures ParseAgo(t + DaysSuffix) == if ParseInt(t).Some? then Some(DaysAgo(ParseInt(t).value)) else None
  {
    SplitSuffix(t, DaysSuffix);
  }

  lemma HoursParse(t: string)
    requires |t| >= 1
    ensures ParseAgo(t + HoursSuffix) == if ParseInt(t).Some? then Some(HoursAgo(ParseInt(t).value)) else None
  {
    var s := t + HoursSuffix;
    assert s[|s| - |DaysSuffix|..][1] == ' ';
    SplitSuffix(t, HoursSuffix);
  }

  lemma MinutesParse(t: string)
    ensures ParseAgo(t + MinutesSuffix) == if ParseInt(t).Some? then Some(MinutesAgo(ParseInt(t).value)) else None
  {
    var s := t + MinutesSuffix;
    assert s[|s| - |DaysSuffix|..][1] == 'm';
    assert s[|s| - |HoursSuffix|..][1] == 'i';
    SplitSuffix(t, MinutesSuffix);
  }

  /** Any count rendered with any unit reads back as that count and unit. */
  lemma RenderParses(a: Ago)
    ensures ParseAgo(Render(a)) == Some(a)
  {
    match a
    case DaysAgo(d) =>
      IntToStringParses(d);
      DaysParse(IntToString(d));
    case HoursAgo(h) =>
      IntToStringParses(h);
      HoursParse(IntToString(h));
    case MinutesAgo(m) =>
      IntToStringParses(m);
      MinutesParse(IntToString(m));
  }

  /** formatTimeAgo's text names the unit and the count chosen for the elapsed time. */
  // ---------------------------------------------------------------------------
  // Thresholds, ranges and monotonicity

  /** A day is shown from 86 400 000 ms on, an hour from 3 600 000 ms on. */
  lemma Thresholds(diff: int)
    ensures Days(diff) > 0 <==> diff >= 86400000
    ensures Hours(diff) > 0 <==> diff >= 3600000
    ensures Minutes(diff) > 0 <==> diff >= 60000
  {
  }

  /** For a past instant, an hours answer counts 1 to 23 hours and a minutes answer 0 to 59 minutes. */
  lemma BucketRanges(diff: int)
    requires diff >= 0
    ensures Bucket(diff).HoursAgo? ==> 1 <= Bucket(diff).hours <= 23
    ensures Bucket(diff).MinutesAgo? ==> 0 <= Bucket(diff).minutes <= 59
    ensures Bucket(diff).DaysAgo? ==> Bucket(diff).days >= 1
  {
  }

  /** A longer elapsed time never shows fewer minutes, hours or days. */
  lemma CountsMonotone(d1: int, d2: int)
    requires d1 <= d2
    ensures Minutes(d1) <= Minutes(d2)
    ensures Hours(d1) <= Hours(d2)
    ensures Days(d1) <= Days(d2)
  {
  }
}

/**
 * `formatTimeAgo` of src/components/PRListItem.tsx: how long ago a pull
 * request was updated, in minutes, hours or days. Times are integer
 * milliseconds; `Math.floor` of a quotient by a positive divisor is Dafny's
 * `/` on `int`.
 */
module PRListItem {
  import opened Decimal

  const MsPerMinute := 1000 * 60
  const MsPerHour := 1000 * 60 * 60
  const MsPerDay := 1000 * 60 * 60 * 24

  /** The bucket `formatTimeAgo` picks; `OnDate` is the locale date it falls back to. */
  datatype Ago = JustNow | MinutesAgo(m: nat) | HoursAgo(h: nat) | DaysAgo(d: nat) | OnDate

  /** The branch `formatTimeAgo` takes for `elapsed` = now minus the date, in ms. */
  function TimeAgo(elapsed: int): Ago
  {
    var minutes := elapsed / MsPerMinute;
    var hours := elapsed / MsPerHour;
    var days := elapsed / MsPerDay;
    if minutes < 1 then JustNow
    else if minutes < 60 then MinutesAgo(minutes)
    else if hours < 24 then HoursAgo(hours)
    else if days == 1 then DaysAgo(1)
    else if days < 30 then DaysAgo(days)
    else OnDate
  }

  /** The text shown; `localeDate` is what `toLocaleDateString()` gives. */
  function AgoText(a: Ago, localeDate: string): string
  {
    match a
    case JustNow => "just now"
    case MinutesAgo(m) => NatToString(m) + "m ago"
    case HoursAgo(h) => NatToString(h) + "h ago"
    case DaysAgo(d) => if d == 1 then "1d ago" else NatToString(d) + "d ago"
    case OnDate => localeDate
  }

  /** `formatTimeAgo` for a date `date` ms and a clock reading `now` ms. */
  function FormatTimeAgo(date: int, now: int, localeDate: string): string
  {
    AgoText(TimeAgo(now - date), localeDate)
  }

  /**
   * What each bucket means in elapsed milliseconds: under a minute (the
   * future included) is "just now"; whole minutes 1 to 59, whole hours 1 to
   * 23 and whole days 1 to 29 follow; from 30 days on the date is shown.
   */
  lemma Buckets(elapsed: int)
    ensures TimeAgo(elapsed) == JustNow <==> elapsed < MsPerMinute
    ensures TimeAgo(elapsed).MinutesAgo? <==> MsPerMinute <= elapsed < MsPerHour
    ensures TimeAgo(elapsed).HoursAgo? <==> MsPerHour <= elapsed < MsPerDay
    ensures TimeAgo(elapsed).DaysAgo? <==> MsPerDay <= elapsed < 30 * MsPerDay
    ensures TimeAgo(elapsed) == OnDate <==> 30 * MsPerDay <= elapsed
    ensures TimeAgo(elapsed).MinutesAgo? ==>
              TimeAgo(elapsed).m == elapsed / MsPerMinute && 1 <= TimeAgo(elapsed).m < 60
    ensures TimeAgo(elapsed).HoursAgo? ==>
              TimeAgo(elapsed).h == elapsed / MsPerHour && 1 <= TimeAgo(elapsed).h < 24
    ensures TimeAgo(elapsed).DaysAgo? ==>
              TimeAgo(elapsed).d == elapsed / MsPerDay && 1 <= TimeAgo(elapsed).d < 30
  {
    FloorBelow(elapsed, MsPerMinute);
    FloorBelow(elapsed, MsPerHour);
    FloorBelow(elapsed, MsPerDay);
  }

  /** Floor division by a positive `d`: `n / d < k` exactly when `n < k * d`. */
  lemma FloorBelow(n: int, d: int)
    requires d > 0
    ensures n / d < 1 <==> n < d
    ensures n / d < 24 <==> n < 24 * d
    ensures n / d < 30 <==> n < 30 * d
    ensures n / d < 60 <==> n < 60 * d
    ensures n / d == 1 <==> d <= n < 2 * d
  {
    var q := n / d;
    assert n == q * d + n % d && 0 <= n % d < d;
    FloorBelowAt(n, d, 1);
    FloorBelowAt(n, d, 2);
    FloorBelowAt(n, d, 24);
    FloorBelowAt(n, d, 30);
    FloorBelowAt(n, d, 60);
  }

  lemma FloorBelowAt(n: int, d: int, k: int)
    requires d > 0
    ensures n / d < k <==> n < k * d
  {
    var q, r := n / d, n % d;
    assert n == q * d + r && 0 <= r < d;
    if q < k {
      TimesBelow(q, k - 1, d);
      assert (k - 1) * d == k * d - d;
    } else {
      TimesBelow(k, q, d);
    }
  }

  /** Multiplying by a positive `d` keeps `<=`. */
  lemma TimesBelow(a: int, b: int, d: int)
    requires a <= b && d > 0
    ensures a * d <= b * d
  {
    assert b * d - a * d == (b - a) * d;
  }

  /** One day reads "1d ago" through its own branch as through the general one. */
  lemma OneDayText(localeDate: string)
    ensures AgoText(DaysAgo(1), localeDate) == NatToString(1) + "d ago"
  {
  }

  /** Each bucket's text names its count, which can be read back from it. */
  lemma TextNamesTheCount(a: Ago, localeDate: string)
    requires a.MinutesAgo? || a.HoursAgo? || a.DaysAgo?
    ensures var n := if a.MinutesAgo? then a.m else if a.HoursAgo? then a.h else a.d;
            var t := AgoText(a, localeDate);
            |t| == |NatToString(n)| + 5 && ParseNat(t[..|NatToString(n)|]) == n
            && t[|NatToString(n)|..] == (if a.MinutesAgo? then "m" else if a.HoursAgo? then "h" else "d") + " ago"
  {
    var n := if a.MinutesAgo? then a.m else if a.HoursAgo? then a.h else a.d;
    ParseNatToString(n);
    var t := AgoText(a, localeDate);
    assert t[..|NatToString(n)|] == NatToString(n);
  }
}

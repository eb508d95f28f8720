/**
 * `formatTimeAgo` of src/components/PRHeader.tsx, which counts whole days
 * only, and the header's badge (the shared `PullRequestView.StateBadge`).
 */
module PRHeader {
  import opened Wrappers
  import opened Decimal
  import opened PullRequestView

  const MsPerDay := 1000 * 60 * 60 * 24

  /** `formatTimeAgo` for `elapsed` = now minus the date, in ms. */
  function DaysText(elapsed: int): string
  {
    var days := elapsed / MsPerDay;
    if days == 0 then "today"
    else if days == 1 then "1d ago"
    else IntToString(days) + "d ago"
  }

  /**
   * Less than a day, counted forward, is "today"; any other whole number of
   * days `d`, a negative one for a date in the future included, is "{d}d ago".
   */
  lemma DaysTextMeaning(elapsed: int)
    ensures 0 <= elapsed < MsPerDay ==> DaysText(elapsed) == "today"
    ensures !(0 <= elapsed < MsPerDay) ==> DaysText(elapsed) == IntToString(elapsed / MsPerDay) + "d ago"
    ensures elapsed < 0 ==> elapsed / MsPerDay < 0
  {
    var q := elapsed / MsPerDay;
    assert elapsed == q * MsPerDay + elapsed % MsPerDay && 0 <= elapsed % MsPerDay < MsPerDay;
    if 0 <= elapsed < MsPerDay {
      assert q == 0;
    } else if q == 0 {
      assert false;
    }
  }

  /** "today" is never the text of a day count: the two branches cannot be confused. */
  lemma TodayIsNotACount(elapsed: int)
    requires !(0 <= elapsed < MsPerDay)
    ensures DaysText(elapsed) != "today"
  {
    DaysTextMeaning(elapsed);
    assert |IntToString(elapsed / MsPerDay) + "d ago"| > |"today"|;
  }

  /** An open pull request shows Open, whatever `merged_at` holds. */
  lemma OpenIgnoresMergedAt(mergedAt: Option<string>)
    ensures StateBadge("open", mergedAt) == Some(Open)
  {
  }

  /** A closed pull request shows Merged exactly when `merged_at` is set, and Closed otherwise. */
  lemma ClosedBadge(mergedAt: Option<string>)
    ensures StateBadge("closed", mergedAt) == (if Truthy(mergedAt) then Some(Merged) else Some(Closed))
  {
  }
}

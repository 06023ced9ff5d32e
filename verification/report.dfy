/**
 * The per-site accumulation of the report run: each processed site is added
 * to the site list and its averages to `avg_scores`; at the end the rankings
 * and the top table are built from them.
 */
module Report {
  import opened Wrappers
  import opened Assoc
  import opened StableSort
  import opened Rankings
  import opened Leaderboard
  import Summary

  /** The metric of a summary that a consideration averages: speed or accessibility. */
  function StatsFor(summary: Summary.Summary, c: Consideration): Option<Summary.MetricStats>
    requires c != ReadingAge
  {
    if c == Speed then summary.speed else summary.accessibility
  }

  /**
   * `scores.get('average_...', 0)`: the metric's mean when the site's summary
   * has that metric, and 0 when the site has no summary or the metric had no
   * samples.
   */
  function AverageOrZero(scores: Option<Summary.Summary>, c: Consideration): (avg: real)
    requires c != ReadingAge
    ensures scores.None? ==> avg == 0.0
    ensures scores.Some? && StatsFor(scores.value, c).None? ==> avg == 0.0
    ensures scores.Some? && StatsFor(scores.value, c).Some? ==> avg == StatsFor(scores.value, c).value.average
  {
    var stats := match scores
      case None => None
      case Some(summary) => StatsFor(summary, c);
    if stats.Some? then stats.value.average else 0.0
  }

  /** Distinct sites drawn from a list are at most as many as the list. */
  lemma {:induction false} DistinctWithinIsShorter(xs: seq<Site>, ys: seq<Site>)
    requires Distinct(xs)
    requires forall x :: x in xs ==> x in ys
    ensures |xs| <= |ys|
  {
    if xs != [] {
      assert xs[0] in xs;
      var k :| 0 <= k < |ys| && ys[k] == xs[0];
      var rest := ys[..k] + ys[k + 1..];
      forall x | x in xs[1..] ensures x in rest {
        assert x in xs;
        var j :| 0 <= j < |ys| && ys[j] == x;
        assert x != xs[0];
        if j < k { assert rest[j] == x; } else { assert rest[j - 1] == x; }
      }
      DistinctWithinIsShorter(xs[1..], rest);
    }
  }

  /**
   * When every listed site has a speed average, the top table built from the
   * rankings of those averages never raises.
   */
  lemma LeaderboardNeverFails(sites: seq<Site>, averages: PerConsideration)
    requires forall s :: s in sites ==> s in Keys(averages.speed)
    ensures TopTable(sites, CombinedRankings(averages)).Ok?
  {
    RankKeepsSites(averages.speed, Descending);
  }

  /** `site_list` and `avg_scores` as the main loop fills them. */
  class SiteReports {
    var siteList: seq<Site>
    var averages: PerConsideration

    /** Every listed site has a speed and an accessibility average, in list order; reading ages only for listed sites. */
    ghost predicate Valid()
      reads this
    {
      && Distinct(siteList)
      && Keys(averages.speed) == siteList
      && Keys(averages.accessibility) == siteList
      && UniqueKeys(averages.readingAge)
      && (forall s :: s in Keys(averages.readingAge) ==> s in siteList)
    }

    constructor ()
      ensures Valid()
      ensures siteList == [] && averages == PerConsideration([], [], [])
    {
      siteList := [];
      averages := PerConsideration([], [], []);
    }

    /**
     * Records one processed site: its reading age when there is one, its entry
     * in the site list, and its speed and accessibility averages (0 when the
     * site has no summary, because its audit data could not be found, or when
     * the metric had no samples).
     */
    method RecordSite(url: Site, scores: Option<Summary.Summary>, readingAge: Option<int>)
      requires Valid()
      modifies this
      ensures Valid()
      ensures siteList == if url in old(siteList) then old(siteList) else old(siteList) + [url]
      ensures averages.speed == Put(old(averages.speed), url, AverageOrZero(scores, Speed))
      ensures averages.accessibility == Put(old(averages.accessibility), url, AverageOrZero(scores, Accessibility))
      ensures averages.readingAge ==
                if readingAge.Some? && readingAge.value != 0
                then Put(old(averages.readingAge), url, readingAge.value as real)
                else old(averages.readingAge)
    {
      if readingAge.Some? && readingAge.value != 0 {
        averages := averages.(readingAge := Put(averages.readingAge, url, readingAge.value as real));
      }
      if url !in siteList {
        siteList := siteList + [url];
      }
      averages := averages.(speed := Put(averages.speed, url, AverageOrZero(scores, Speed)));
      averages := averages.(accessibility := Put(averages.accessibility, url, AverageOrZero(scores, Accessibility)));
    }

    /**
     * Builds the rankings and the top table of the recorded sites.  It never
     * fails, lists every site once, and every overall score lies between 2
     * and four times the number of sites.
     */
    method BuildLeaderboard() returns (rankings: PerConsideration, table: seq<Entry>)
      requires Valid()
      ensures rankings == CombinedRankings(averages)
      ensures TopTable(siteList, rankings) == Ok(table)
      ensures AllRankedForSpeed(siteList, rankings) && IsTopTableOf(table, siteList, rankings)
      ensures SitesOnce(table)
      ensures forall i :: 0 <= i < |table| ==> 2 <= table[i].overall <= 4 * |siteList|
    {
      rankings := BuildCombinedRankings(averages);
      LeaderboardNeverFails(siteList, averages);
      var result := BuildTopTable(siteList, rankings);
      table := result.value;
      RankKeepsSites(averages.speed, Descending);
      RankKeepsSites(averages.accessibility, Descending);
      RankKeepsSites(averages.readingAge, Ascending);
      DistinctWithinIsShorter(Keys(averages.readingAge), siteList);
      forall i | 0 <= i < |table| ensures 2 <= table[i].overall <= 4 * |siteList| {
        OverallBounds(table[i].site, |siteList|, rankings);
      }
    }
  }
}

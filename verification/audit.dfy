/**
 * The audit data of one site as the report generator sees it after loading:
 * one Lighthouse report per calendar day.
 */
module Audit {

  /**
   * A calendar day as a day ordinal.  The generator keys its dictionaries by
   * the ISO 8601 text `YYYY-MM-DD`; that text names each day exactly once and
   * orders days chronologically, so the ordinal stands for it.
   */
  type Day = int

  /** `report['categories'][c]['score']`: the key may be missing, the score may be JSON null. */
  datatype ScoreField = Missing | Null | Present(score: real)

  /** The two categories of a Lighthouse report that the generator reads. */
  datatype Report = Report(accessibility: ScoreField, performance: ScoreField)

  /** The two metrics; "speed" is Lighthouse's performance category. */
  datatype Metric = Accessibility | Speed

  function Field(report: Report, m: Metric): ScoreField {
    match m
    case Accessibility => report.accessibility
    case Speed => report.performance
  }

  /** No later snapshot in `snapshots` was fetched on the same day as snapshot `i`. */
  ghost predicate LastOfItsDay(snapshots: seq<(Day, Report)>, i: int)
    requires 0 <= i < |snapshots|
  {
    forall j :: i < j < |snapshots| ==> snapshots[j].0 != snapshots[i].0
  }

  /**
   * Indexes parsed snapshots (fetch day, report) by day.  Several snapshots of
   * one day collapse to the one loaded last.
   */
  method IndexByDate(snapshots: seq<(Day, Report)>) returns (data: map<Day, Report>)
    ensures forall d :: d in data <==> exists i :: 0 <= i < |snapshots| && snapshots[i].0 == d
    ensures forall i :: 0 <= i < |snapshots| && LastOfItsDay(snapshots, i) ==>
              data[snapshots[i].0] == snapshots[i].1
  {
    data := map[];
    for k := 0 to |snapshots|
      invariant forall d :: d in data <==> exists i :: 0 <= i < k && snapshots[i].0 == d
      invariant forall i :: 0 <= i < k && (forall j :: i < j < k ==> snapshots[j].0 != snapshots[i].0) ==>
                  data[snapshots[i].0] == snapshots[i].1
    {
      data := data[snapshots[k].0 := snapshots[k].1];
    }
  }
}

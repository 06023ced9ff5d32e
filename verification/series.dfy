/**
 * `extract_scores`: the gap-filled daily series of accessibility and speed
 * scores of one site, from its earliest snapshot day on.
 */
module Series {
  import opened Wrappers
  import opened Assoc
  import opened Audit

  /** The two dictionaries of the series, day -> score or `None`, in day order. */
  datatype DailyScores = DailyScores(accessibility: seq<(Day, Option<real>)>, speed: seq<(Day, Option<real>)>)

  /**
   * The sample recorded for day `d`: the day's score when a report exists for
   * that day and holds a number; `None` when the day, the category or the score
   * key is missing (the KeyError is caught) or the score is null.
   */
  function Sample(data: map<Day, Report>, d: Day, m: Metric): Option<real> {
    if d in data && Field(data[d], m).Present? then Some(Field(data[d], m).score) else None
  }

  /** The days the external date-range helper yields: `span` consecutive days from `first`. */
  function DaysFrom(first: Day, span: nat): (days: seq<Day>)
    ensures |days| == span
    ensures forall k :: 0 <= k < span ==> days[k] == first + k
  {
    seq(span, k requires 0 <= k < span => first + k)
  }

  function SeriesOf(data: map<Day, Report>, days: seq<Day>, m: Metric): seq<(Day, Option<real>)> {
    seq(|days|, k requires 0 <= k < |days| => (days[k], Sample(data, days[k], m)))
  }

  /** The series `extract_scores` builds for the days `DaysFrom(first, span)`. */
  function Daily(data: map<Day, Report>, first: Day, span: nat): DailyScores {
    var days := DaysFrom(first, span);
    DailyScores(SeriesOf(data, days, Accessibility), SeriesOf(data, days, Speed))
  }

  /**
   * Both dictionaries of the series hold the same days, each day of the range
   * once and in order, and the score recorded for a day is that day's sample.
   */
  lemma DailyCoversEachDayOnce(data: map<Day, Report>, first: Day, span: nat, m: Metric)
    ensures var series := Daily(data, first, span);
      && Keys(series.accessibility) == Keys(series.speed) == DaysFrom(first, span)
      && UniqueKeys(series.accessibility) && UniqueKeys(series.speed)
    ensures var series := if m == Accessibility then Daily(data, first, span).accessibility
                          else Daily(data, first, span).speed;
      forall d :: Get(series, d) == if first <= d < first + span then Some(Sample(data, d, m)) else None
  {
    var series := if m == Accessibility then Daily(data, first, span).accessibility
                  else Daily(data, first, span).speed;
    assert Keys(series) == DaysFrom(first, span);
    forall d ensures Get(series, d) == if first <= d < first + span then Some(Sample(data, d, m)) else None {
      if first <= d < first + span {
        assert Keys(series)[d - first] == d;
        var i := IndexOf(series, d);
        assert i == d - first;
      }
    }
  }

  ghost predicate SortedDays(s: seq<Day>) {
    forall i, j :: 0 <= i < j < |s| ==> s[i] <= s[j]
  }

  /** Exchanges the days at positions `j - 1` and `j`. */
  method SwapDown(a: array<Day>, j: int)
    requires 0 < j < a.Length
    modifies a
    ensures a[..] == old(a[..])[j - 1 := old(a[j])][j := old(a[j - 1])]
    ensures multiset(a[..]) == multiset(old(a[..]))
  {
    a[j - 1], a[j] := a[j], a[j - 1];
  }

  /** Moves `a[i]` down into the sorted prefix `a[..i]`, leaving `a[..i + 1]` sorted. */
  method SinkInto(a: array<Day>, i: int)
    requires 0 <= i < a.Length
    requires SortedDays(a[..i])
    modifies a
    ensures SortedDays(a[..i + 1])
    ensures a[i + 1..] == old(a[i + 1..])
    ensures multiset(a[..]) == multiset(old(a[..]))
  {
    var j := i;
    while j > 0 && a[j - 1] > a[j]
      invariant 0 <= j <= i
      invariant forall p, q :: 0 <= p < q <= i && q != j ==> a[p] <= a[q]
      invariant a[i + 1..] == old(a[i + 1..])
      invariant multiset(a[..]) == multiset(old(a[..]))
    {
      SwapDown(a, j);
      j := j - 1;
    }
  }

  /** `dates.sort()`: sorts the snapshot days in place. */
  method SortDays(a: array<Day>)
    modifies a
    ensures SortedDays(a[..])
    ensures multiset(a[..]) == multiset(old(a[..]))
  {
    for i := 0 to a.Length
      invariant SortedDays(a[..i])
      invariant multiset(a[..]) == multiset(old(a[..]))
    {
      SinkInto(a, i);
    }
    assert a[..a.Length] == a[..];
  }

  /**
   * `extract_scores(data, dates)`.  Sorts `dates` in place, then walks the
   * `span` days from the earliest of them, recording each day's accessibility
   * and speed sample.  An empty `dates` raises (IndexError at `dates[0]`).
   */
  method ExtractScores(data: map<Day, Report>, dates: array<Day>, span: nat) returns (r: Result<DailyScores>)
    modifies dates
    ensures SortedDays(dates[..]) && multiset(dates[..]) == multiset(old(dates[..]))
    ensures dates.Length == 0 <==> r == Err(NoSnapshotDates)
    ensures dates.Length > 0 ==> r == Ok(Daily(data, dates[0], span))
    ensures dates.Length > 0 ==> dates[0] in old(dates[..])
    ensures dates.Length > 0 ==> forall i :: 0 <= i < dates.Length ==> dates[0] <= old(dates[i])
  {
    SortDays(dates);
    if dates.Length == 0 {
      return Err(NoSnapshotDates);
    }
    ghost var sorted := dates[..];
    assert dates[0] in multiset(sorted);
    forall i | 0 <= i < dates.Length ensures dates[0] <= old(dates[i]) {
      assert old(dates[i]) in multiset(old(dates[..]));
    }
    var first := dates[0];
    var accessibility: seq<(Day, Option<real>)> := [];
    var speed: seq<(Day, Option<real>)> := [];
    var day := first;
    for k := 0 to span
      invariant day == first + k
      invariant accessibility == SeriesOf(data, DaysFrom(first, k), Accessibility)
      invariant speed == SeriesOf(data, DaysFrom(first, k), Speed)
    {
      accessibility := accessibility + [(day, Sample(data, day, Accessibility))];
      speed := speed + [(day, Sample(data, day, Speed))];
      day := day + 1;
    }
    r := Ok(DailyScores(accessibility, speed));
  }
}

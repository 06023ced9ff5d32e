/**
 * `calculate_scores`: max, mean and current value of each metric of one site,
 * over the days that have a sample.
 */
module Summary {
  import opened Wrappers
  import opened Assoc
  import opened Audit
  import opened Series

  /** `max_*`, `average_*` and `current_*` of one metric; the three keys exist together or not at all. */
  datatype MetricStats = MetricStats(max: real, average: real, current: Option<real>)

  /** The `calculations` dictionary: `None` where the metric's keys are absent. */
  datatype Summary = Summary(accessibility: Option<MetricStats>, speed: Option<MetricStats>)

  /** `list(filter(None.__ne__, samples))`: the samples that are not `None`, in order. */
  function Present(samples: seq<Option<real>>): (xs: seq<real>)
    ensures |xs| > 0 <==> exists i :: 0 <= i < |samples| && samples[i].Some?
    ensures forall j :: 0 <= j < |xs| ==> exists i :: 0 <= i < |samples| && samples[i] == Some(xs[j])
    ensures forall i :: 0 <= i < |samples| && samples[i].Some? ==> samples[i].value in xs
  {
    if samples == [] then []
    else
      var rest := Present(samples[1..]);
      assert forall i :: 1 <= i < |samples| ==> samples[i] == samples[1..][i - 1];
      match samples[0]
      case None => rest
      case Some(x) => [x] + rest
  }

  /**
   * The filter drops only the `None`s: every value is kept as many times as
   * it was sampled, so repeated samples weigh in the mean.
   */
  lemma {:induction false} PresentKeepsEveryOccurrence(samples: seq<Option<real>>)
    ensures forall v :: multiset(Present(samples))[v] == multiset(samples)[Some(v)]
  {
    if samples != [] {
      PresentKeepsEveryOccurrence(samples[1..]);
      assert samples == [samples[0]] + samples[1..];
    }
  }

  /** Python's `max`. */
  function MaxOf(xs: seq<real>): (m: real)
    requires xs != []
    ensures m in xs
    ensures forall j :: 0 <= j < |xs| ==> xs[j] <= m
  {
    if |xs| == 1 then xs[0]
    else
      var m := MaxOf(xs[1..]);
      assert forall j :: 1 <= j < |xs| ==> xs[j] == xs[1..][j - 1];
      if xs[0] >= m then xs[0] else m
  }

  /** The smallest sample; used only to state how the mean is bounded. */
  ghost function MinOf(xs: seq<real>): (m: real)
    requires xs != []
    ensures m in xs
    ensures forall j :: 0 <= j < |xs| ==> m <= xs[j]
  {
    if |xs| == 1 then xs[0]
    else
      var m := MinOf(xs[1..]);
      assert forall j :: 1 <= j < |xs| ==> xs[j] == xs[1..][j - 1];
      if xs[0] <= m then xs[0] else m
  }

  function Sum(xs: seq<real>): real {
    if xs == [] then 0.0 else xs[0] + Sum(xs[1..])
  }

  /** `statistics.mean`, exact. */
  function Mean(xs: seq<real>): real
    requires xs != []
  {
    Sum(xs) / (|xs| as real)
  }

  lemma {:induction false} SumBetween(xs: seq<real>, lo: real, hi: real)
    requires forall j :: 0 <= j < |xs| ==> lo <= xs[j] <= hi
    ensures (|xs| as real) * lo <= Sum(xs) <= (|xs| as real) * hi
  {
    if xs != [] {
      SumBetween(xs[1..], lo, hi);
    }
  }

  /** Dividing a total that lies between `n * lo` and `n * hi` by `n`. */
  lemma QuotientBetween(total: real, n: real, lo: real, hi: real)
    requires n > 0.0 && n * lo <= total <= n * hi
    ensures lo <= total / n <= hi
  {
    var q := total / n;
    assert (q - lo) * n == total - n * lo;
    assert (hi - q) * n == n * hi - total;
  }

  /** The mean of the samples lies between their minimum and their maximum. */
  lemma MeanBetween(xs: seq<real>)
    requires xs != []
    ensures MinOf(xs) <= Mean(xs) <= MaxOf(xs)
  {
    SumBetween(xs, MinOf(xs), MaxOf(xs));
    QuotientBetween(Sum(xs), |xs| as real, MinOf(xs), MaxOf(xs));
  }

  /**
   * `data[latest_date]['categories'][c]['score']`: fails when the day or the
   * score key is missing; a null score is reported as `None`.
   */
  function CurrentScore(data: map<Day, Report>, latest: Day, m: Metric): (r: Result<Option<real>>)
    ensures r.Err? <==> latest !in data || Field(data[latest], m).Missing?
    ensures r.Err? ==> r.failure == KeyMissing
    ensures r == Ok(None) <==> latest in data && Field(data[latest], m).Null?
    ensures r.Ok? && r.value.Some? ==> latest in data && Field(data[latest], m) == ScoreField.Present(r.value.value)
  {
    if latest !in data then Err(KeyMissing)
    else match Field(data[latest], m)
      case Missing => Err(KeyMissing)
      case Null => Ok(None)
      case Present(v) => Ok(Some(v))
  }

  /** The statistics the generator must report for one metric's samples. */
  ghost predicate Describes(stats: Option<MetricStats>, samples: seq<Option<real>>,
                            data: map<Day, Report>, latest: Day, m: Metric)
  {
    && (stats.Some? <==> exists i :: 0 <= i < |samples| && samples[i].Some?)
    && (stats.Some? ==>
          && (exists i :: 0 <= i < |samples| && samples[i] == Some(stats.value.max))
          && (forall i :: 0 <= i < |samples| && samples[i].Some? ==> samples[i].value <= stats.value.max)
          && (exists i :: 0 <= i < |samples| && samples[i].Some? && samples[i].value <= stats.value.average)
          && stats.value.average <= stats.value.max
          && stats.value.average == Mean(Present(samples))
          && CurrentScore(data, latest, m) == Ok(stats.value.current))
  }

  /** Every metric that has a sample can look up its current score. */
  ghost predicate CurrentAvailable(extracted: DailyScores, data: map<Day, Report>, latest: Day) {
    && (Present(Values(extracted.accessibility)) != [] ==> CurrentScore(data, latest, Accessibility).Ok?)
    && (Present(Values(extracted.speed)) != [] ==> CurrentScore(data, latest, Speed).Ok?)
  }

  /** Max, mean and current value of one metric, or `None` when it has no sample. */
  method SummariseMetric(samples: seq<Option<real>>, data: map<Day, Report>, latest: Day, m: Metric)
    returns (r: Result<Option<MetricStats>>)
    ensures r.Ok? <==> (Present(samples) != [] ==> CurrentScore(data, latest, m).Ok?)
    ensures r.Err? ==> r.failure == SummaryFailed
    ensures r.Ok? ==> Describes(r.value, samples, data, latest, m)
  {
    var xs := Present(samples);
    if |xs| == 0 {
      return Ok(None);
    }
    var current := CurrentScore(data, latest, m);
    if current.Err? {
      return Err(SummaryFailed);
    }
    var stats := MetricStats(MaxOf(xs), Mean(xs), current.value);
    MeanBetween(xs);
    var lo := MinOf(xs);
    assert lo in xs;
    r := Ok(Some(stats));
  }

  /**
   * `calculate_scores(latest_date, extracted, data)`.  Accessibility is
   * summarised first, then speed; a failed current-score lookup aborts the
   * whole summary (the handler then raises NameError at line 115).
   */
  method CalculateScores(latest: Day, extracted: DailyScores, data: map<Day, Report>) returns (r: Result<Summary>)
    ensures r.Ok? <==> CurrentAvailable(extracted, data, latest)
    ensures r.Err? ==> r.failure == SummaryFailed
    ensures r.Ok? ==> Describes(r.value.accessibility, Values(extracted.accessibility), data, latest, Accessibility)
    ensures r.Ok? ==> Describes(r.value.speed, Values(extracted.speed), data, latest, Speed)
  {
    var accessibility := SummariseMetric(Values(extracted.accessibility), data, latest, Accessibility);
    if accessibility.Err? {
      return Err(accessibility.failure);
    }
    var speed := SummariseMetric(Values(extracted.speed), data, latest, Speed);
    if speed.Err? {
      return Err(speed.failure);
    }
    r := Ok(Summary(accessibility.value, speed.value));
  }
}

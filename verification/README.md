# Scoring and ranking engine of the COVID-19 response site tracker

This project models, in Dafny, the scoring core of `scripts/generate_report.py`.
The script monitors government COVID-19 websites. It collects their daily
Lighthouse audits and the reading level of their text, and it produces a report
per site and a leaderboard across all sites. The model covers every step from
audit data that is already loaded to that leaderboard:

- **Alias lookup** (`UrlAlias`): which key a site's Lighthouse reports are filed
  under. The site's own URL is tried first, then its entry in the static alias
  table.
- **Snapshot indexing** (`Audit`): parsed reports are indexed by fetch day, and
  the last report of a day wins.
- **Daily series** (`Series`): `extract_scores` sorts the snapshot days in place.
  It then walks the days from the earliest one and records each day's
  accessibility and speed score, or `None` when the day has no score.
- **Summary statistics** (`Summary`): `calculate_scores` computes the maximum,
  the mean and the current value of each metric. Only the days that have a
  score are used, and a metric's three values are present together or not at
  all.
- **Reading age** (`ReadingAge`): `find_reading_age` picks a grade label, using
  dragnet's label and falling back to trafilatura's. `translate_reading_age`
  turns the first number in the label into an approximate age.
- **Rankings** (`Rankings`, over the generic stable sort in `StableSort`): the
  per-site averages are stably sorted. Speed and accessibility go highest
  first, and reading age goes lowest first.
- **Leaderboard** (`Leaderboard`): `build_top_table` gives each listed site an
  overall score from its rank positions, with speed counted twice. It then
  sorts the sites by that score, highest first, and keeps ties in list order.
- **Run accumulation** (`Report`): the main loop adds each site to `site_list`
  and its averages to `avg_scores`, then builds the rankings and the top table.

Dictionaries are modelled as item lists in insertion order (`Assoc`), because
rank positions are indices in a dictionary's key list. Calendar days are day
ordinals. The ISO 8601 text `YYYY-MM-DD` names each day once and sorts
chronologically, so the ordinal stands in for it. Scores and averages are exact
`real`s.

Some behaviours of the code are easy to misread, and the model keeps them as
written:

- A site missing from the *speed* ranking raises KeyError at line 175, because
  `'overall'` is only created at line 171. Missing from the accessibility or
  reading-age ranking only costs that ranking's points. `Leaderboard.TopTable`
  returns an error for the speed case. `Report.LeaderboardNeverFails` shows
  that the main loop never triggers it, because every listed site gets a speed
  average, 0 by default.
- The points for a rank position are counted from `len(site_list)` (line 159),
  not from the size of the ranking consulted.
- Grades 1 to 12 take the `< 13` branch at line 135, and grades above 13 take
  the `> 13` branch at line 137. Grade 13 falls into neither and gets no age
  (see Findings).
- A failure inside `calculate_scores` reaches the handler at lines 113-116,
  whose message names `url`, a name not defined there. That raises NameError,
  which the main loop does not catch (it catches only KeyError, line 235). The
  model reports the failure as the abstract `SummaryFailed`.
- `translate_reading_age` reads the caller's `scores['reading age']` instead of
  its parameter. At its only call the two hold the same label, so the model
  reads its argument.

## Model

| member | source | states |
|---|---|---|
| UrlAlias.TranslateToLighthouseKey | scripts/generate_report.py:28-33 | Returns the URL when it is a key. Otherwise returns the alias when it is a key, else the URL. Fails with KeyError exactly when the URL is neither a key nor in the alias table. A changed key always comes from the table. |
| UrlAlias.LookupFindsFiledData | scripts/generate_report.py:28-33 | For a URL that is a key or has an alias, the lookup succeeds. It lands on a key exactly when the URL or its alias is one. |
| Assoc.IndexOf | scripts/generate_report.py:171-179 | `list(d).index(k)` gives the position of the key in insertion order: the entry there has that key, and no earlier entry does. |
| Assoc.Put | scripts/generate_report.py:246 | `d[k] = v` stores `v` under `k` and leaves every other key's value alone. An existing key keeps its position, and a new key is appended. Keys stay unique. |
| Audit.IndexByDate | scripts/generate_report.py:59-66 | The index has one key per fetch day that occurs. Each day maps to the last snapshot loaded for that day. |
| Series.SortDays | scripts/generate_report.py:75 | Sorts the day array in place: the result is sorted and a permutation of the old contents. |
| Series.ExtractScores | scripts/generate_report.py:74-93 | Leaves `dates` sorted and a permutation of its old contents. An empty `dates` gives an error. Otherwise the result is the daily series from the smallest input day over `span` days. |
| Series.DailyCoversEachDayOnce | scripts/generate_report.py:80-91 | The accessibility and speed series have the same keys, which are exactly the consecutive days of the range, each once. Looking up a day in range gives that day's score or `None`, and a day outside the range is absent. |
| Summary.Present | scripts/generate_report.py:101-102 | The filtered samples are non-empty exactly when some sample is not `None`. Every kept value is a sample, and every non-`None` sample is kept. |
| Summary.PresentKeepsEveryOccurrence | scripts/generate_report.py:101-102 | The filter drops only the `None`s. Each value is kept exactly as many times as it was sampled. |
| Summary.MaxOf | scripts/generate_report.py:106 | `max` returns one of the samples, and it is at least every sample. |
| Summary.MeanBetween | scripts/generate_report.py:107 | The mean of the samples lies between their minimum and their maximum. |
| Summary.SumBetween | scripts/generate_report.py:107 | A total of n samples, each between lo and hi, lies between n·lo and n·hi. |
| Summary.CurrentScore | scripts/generate_report.py:108 | Reading the current score fails with KeyError when the latest day or its score key is missing. A null score gives `None`, and a number gives that number. |
| Summary.SummariseMetric | scripts/generate_report.py:105-112 | The statistics are present exactly when a non-`None` sample exists. Then max is a sample and at least every sample. Some sample is at most the mean, and the mean is at most max and equals the exact mean. Current is `data[latest_date]`'s score. A failed current lookup is an error. |
| Summary.CalculateScores | scripts/generate_report.py:95-117 | Succeeds exactly when every metric that has samples can look up its current score. On success, both metrics are described as in `SummariseMetric`. |
| ReadingAge.FindReadingAge | scripts/generate_report.py:119-129 | Uses dragnet's standard label when present, else trafilatura's, else `None`. The no-readable-content label becomes `None`, and no fallback happens in that case. |
| ReadingAge.FirstDigitAt | scripts/generate_report.py:133 | Gives the position of the leftmost digit: nothing before it is a digit, and it is a digit unless the label has none. |
| ReadingAge.FirstDigits | scripts/generate_report.py:133 | `re.search(r'\d+')` gives the run of digits that starts at the leftmost digit and extends as far as digits go. It is empty exactly when the label has no digit. |
| ReadingAge.AgeOfGrade | scripts/generate_report.py:135-140 | Grades 1 to 12 give grade + 5, and grades above 13 give 18. Grades 0 and 13 give `None`. |
| ReadingAge.TranslateReadingAge | scripts/generate_report.py:131-143 | No label gives `None`. An age is returned exactly when the label has digits whose value is neither 0 nor 13, and it lies between 6 and 18. |
| ReadingAge.GradeOfLabel | scripts/generate_report.py:133-134 | A label that starts with a grade number, followed by a non-digit, is read as that grade. |
| ReadingAge.SeventhGradeIsTwelve | scripts/generate_report.py:135-136 | "7th grade" gives age 12. |
| ReadingAge.FourteenthGradeIsCapped | scripts/generate_report.py:137-138 | "14th and 15th grade" gives age 18. |
| ReadingAge.NoReadableContentHasNoLabel | scripts/generate_report.py:127-128 | Dragnet's "-1th and 0th grade" gives `None`, even when trafilatura has a label. |
| ReadingAge.GradeThirteenDropped | scripts/generate_report.py:135-140 | As written, for any label text after the number that does not start with a digit (as in "13th and 14th grade"), grade 12 gives 17, grade 13 gives `None` and grade 14 gives 18. The capped rule gives 18 for grade 13. |
| ReadingAge.TranslateReadingAgeCapped | scripts/generate_report.py:131-143 | Corrected rule: an age exists exactly for labels with a positive grade. It agrees with the as-written rule on every grade other than 13. |
| ReadingAge.CappedAgeMonotone | scripts/generate_report.py:135-140 | With the cap, every positive grade gets an age, and a higher grade never gets a lower age. |
| StableSort.SortIsSorted | scripts/generate_report.py:152 | `sorted` orders the keys: non-increasing with `reverse=True`, non-decreasing otherwise. |
| StableSort.SortIsPermutation | scripts/generate_report.py:152 | `sorted` returns a permutation of its input. |
| StableSort.SortIsStable | scripts/generate_report.py:152 | For every key value, the items with that key appear in input order, also with `reverse=True`. |
| Rankings.RankKeepsSites | scripts/generate_report.py:152-154 | A ranking has as many entries as its input and lists exactly the same sites. |
| Rankings.RankIsRanking | scripts/generate_report.py:152-154 | A ranking is a permutation of the averages, ordered by value in its direction, with ties in input order. |
| Rankings.BuildCombinedRankings | scripts/generate_report.py:149-155 | Speed and accessibility are ranked best first by non-increasing average. Reading age is ranked by non-decreasing age. Each ranking is a stable permutation of its averages. |
| Rankings.AscendingIsDescendingOfNegated | scripts/generate_report.py:152-154 | Ranking reading ages lowest first gives the same order as ranking their negations highest first, ties included. |
| Leaderboard.Rows | scripts/generate_report.py:160-181 | One row per listed site, in list order, holding that site's row. |
| Leaderboard.TopTable | scripts/generate_report.py:157-182 | `build_top_table` as a value: fails with KeyError exactly when a listed site is missing from the speed ranking. Otherwise it has one entry per listed site, each naming a listed site. |
| Leaderboard.BuildTopTable | scripts/generate_report.py:157-182 | Fails with KeyError exactly when a listed site is missing from the speed ranking. Otherwise the table has one entry per listed site, and for a site list without repeats each site appears once, with its ranking values (`None` where absent). Its overall score is 2·(N − speed position), plus N − position for accessibility and reading age when ranked. Rows are ordered by non-increasing overall score, ties in site-list order. |
| Leaderboard.TopTableIsSortedRows | scripts/generate_report.py:182 | The sorted rows are a permutation of the per-site rows, ordered by non-increasing overall score and stable on ties. |
| Leaderboard.TopTableNamesEachSiteOnce | scripts/generate_report.py:157-182 | When the site list has no repeats, as the keys of the `site_list` dictionary never do, no site heads two entries of the top table. |
| Leaderboard.OverallBounds | scripts/generate_report.py:171-181 | When each ranking holds at most N sites, each ranking adds between 1 and N points (speed twice). The overall score lies between 2 and 4N. |
| Leaderboard.BetterPlacedScoresHigher | scripts/generate_report.py:171-181 | Take a site placed no lower than another in every ranking, and present wherever the other is. Its overall score is at least the other's. |
| Leaderboard.ThreeSiteExample | scripts/generate_report.py:157-182 | Speed [A,B,C], accessibility [B,C,A] and reading age [C,A,B] give A, B and C scores of 9, 8 and 7, in that order. |
| Report.AverageOrZero | scripts/generate_report.py:257-258 | A site with no summary gets 0. A site whose summary lacks the metric, because it had no samples, also gets 0. Otherwise the site gets the metric's mean. |
| Report.LeaderboardNeverFails | scripts/generate_report.py:257-262 | If every listed site has a speed average, the top table built from the rankings of those averages succeeds. |
| Report.SiteReports.constructor | scripts/generate_report.py:214-224 | The run starts with an empty site list and empty averages. |
| Report.SiteReports.RecordSite | scripts/generate_report.py:245-258 | Records a truthy reading age, the site, and its speed and accessibility averages (0 when absent). It keeps every listed site with both averages, in list order, and reading ages only for listed sites. |
| Report.SiteReports.BuildLeaderboard | scripts/generate_report.py:261-262 | On recorded sites the top table never fails. It lists every site, none twice, ordered by overall score. Every overall score lies between 2 and 4·(number of sites). |

## Left out

- Loading files and JSON (`get_reading_ages`, `get_map_of_lighthouse_data`, and the reading part of `get_date_indexed_lighthouse_data`): these are glob, file and JSON I/O. Only the "last snapshot of a day wins" rule is modelled, over snapshots that are already parsed.
- `process_site`: this is orchestration. Its steps are `ExtractScores` and `CalculateScores`.
- `generate_timelapse` and `add_video_elements`: these are an external `gm` shell call and filesystem checks.
- Template rendering and report/index writes in the main block: this is I/O. The values of `site_list` (government name, detail link) are not modelled, only its keys.
- `top_scores`: the main loop fills it with per-site maxima, but no ranking or table reads it.
- `c19utils.daterange` and `date.today()`: their code is not part of this model. `ExtractScores` takes `span`, the number of consecutive days the helper yields from the earliest snapshot day. Whether today is included is therefore left open.
- `c19utils.CovidSiteList` and `filter_bad_filename_chars`: these are external. The site URLs are inputs to `RecordSite`.
- Floating point: scores and means are exact reals, so the rounding of `statistics.mean` is not modelled.
- Series.ExtractScores: calendar dates are day ordinals, so a malformed `YYYY-MM-DD` text that `int()` or `date()` would reject cannot occur.
- ReadingAge.FirstDigits: only ASCII digits are recognised. Python's `\d` and `int()` also accept other Unicode decimal digits, and `int()` rejects digit runs longer than Python's conversion limit (both then give `None` or a different grade).
- JSON values of unexpected type: a non-dictionary where a dictionary is expected raises TypeError in the source, which is not modelled. Labels are text or absent. A JSON-null `dragnet.standard` would be chosen without falling back to trafilatura, and `translate_reading_age` would then return `None` through its bare `except` (line 142). The model has no null label, so that path is not represented.
- Summary.CalculateScores: the handler at lines 113-116 prints and then fails on the undefined `url`. The model reports this as the abstract failure `SummaryFailed`.
- A `SummaryFailed` aborts the whole run: the NameError is not caught by the main loop, so no ranking, top table or index is built. `Report.SiteReports` models runs in which every site's summary either succeeds or is absent.
- The no-op `next` at line 238: a site whose lookup or loading raises KeyError (lines 31, 187 and 62-63, all reached from `process_site`) falls through with empty scores. This appears as `RecordSite` with no scores, which gives averages of 0.

## Findings

| source | as written | input that shows it | evidently intended | confidence | as-written member | corrected member |
|---|---|---|---|---|---|---|
| scripts/generate_report.py:135-140 | Grades 1-12 map to grade + 5 and grades above 13 map to 18. Grade 13 matches neither branch and gets no reading age. | label "13th and 14th grade": no age, while "12th and 13th grade" gives 17 and "14th and 15th grade" gives 18 | every grade above 12 caps at age 18 | medium, not executed | ReadingAge.GradeThirteenDropped | ReadingAge.TranslateReadingAgeCapped |

The corrected rule is proved total on positive grades and monotone
(`ReadingAge.CappedAgeMonotone`). `Report.SiteReports.RecordSite` takes the
reading age as a value, so either rule can supply it.

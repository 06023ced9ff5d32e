/**
 * `build_top_table`: blends the three rankings into one overall score per
 * listed site, speed counting double, and orders the sites by it.
 */
module Leaderboard {
  import opened Wrappers
  import opened Assoc
  import opened StableSort
  import opened Rankings

  /**
   * One row of the top table.  A site missing from a ranking shows `None`
   * there (rendered as '-' for speed and accessibility).
   */
  datatype Entry = Entry(site: Site, accessibility: Option<real>, speed: Option<real>,
                         readingAge: Option<real>, overall: int)

  /** What a ranking adds to a site's overall score: `n` at position 0, one less per place, 0 if absent. */
  function Points(ranking: seq<(Site, real)>, site: Site, n: int): int {
    if site in Keys(ranking) then n - IndexOf(ranking, site) else 0
  }

  /** The overall score of a site that is in the speed ranking, for `n` listed sites. */
  function Overall(site: Site, n: int, rankings: PerConsideration): int
    requires site in Keys(rankings.speed)
  {
    2 * Points(rankings.speed, site, n) + Points(rankings.accessibility, site, n)
      + Points(rankings.readingAge, site, n)
  }

  function Row(site: Site, n: int, rankings: PerConsideration): Entry
    requires site in Keys(rankings.speed)
  {
    Entry(site, Get(rankings.accessibility, site), Get(rankings.speed, site),
          Get(rankings.readingAge, site), Overall(site, n, rankings))
  }

  predicate AllRankedForSpeed(sites: seq<Site>, rankings: PerConsideration) {
    forall s :: s in sites ==> s in Keys(rankings.speed)
  }

  /** No site is listed twice, as for the keys of the source's `site_list` dictionary. */
  ghost predicate Distinct(sites: seq<Site>) {
    forall i, j :: 0 <= i < j < |sites| ==> sites[i] != sites[j]
  }

  /** The rows in site-list order, before the final sort. */
  function Rows(sites: seq<Site>, n: int, rankings: PerConsideration): (rows: seq<Entry>)
    requires AllRankedForSpeed(sites, rankings)
    ensures |rows| == |sites|
    ensures forall i :: 0 <= i < |sites| ==> rows[i] == Row(sites[i], n, rankings)
  {
    seq(|sites|, i requires 0 <= i < |sites| => Row(sites[i], n, rankings))
  }

  function OverallKey(e: Entry): real {
    e.overall as real
  }

  /**
   * The top table: the rows sorted stably by overall score, highest first.  A
   * listed site missing from the speed ranking has no overall score to add to,
   * and the table raises KeyError.
   */
  function TopTable(sites: seq<Site>, rankings: PerConsideration): (r: Result<seq<Entry>>)
    ensures r.Ok? <==> forall s :: s in sites ==> s in Keys(rankings.speed)
    ensures r.Err? ==> r.failure == KeyMissing
    ensures r.Ok? ==> |r.value| == |sites|
    ensures r.Ok? ==> forall i :: 0 <= i < |r.value| ==> r.value[i].site in sites
  {
    if AllRankedForSpeed(sites, rankings) then
      var rows := Rows(sites, |sites|, rankings);
      SortPreservesElements(rows, OverallKey, Descending);
      var sorted := Sort(rows, OverallKey, Descending);
      assert forall i :: 0 <= i < |sorted| ==> sorted[i] in rows;
      Ok(sorted)
    else Err(KeyMissing)
  }

  /** Every site heads at most one entry. */
  ghost predicate SitesOnce(table: seq<Entry>) {
    forall i, j :: 0 <= i < j < |table| ==> table[i].site != table[j].site
  }

  /** Entries with pairwise different sites are each present once. */
  lemma {:induction false} RowsOfDistinctSitesOccurOnce(rows: seq<Entry>)
    requires SitesOnce(rows)
    ensures forall e :: multiset(rows)[e] <= 1
  {
    if rows != [] {
      RowsOfDistinctSitesOccurOnce(rows[1..]);
      assert rows == [rows[0]] + rows[1..];
      assert rows[0] !in rows[1..];
    }
  }

  /** Reordering entries that name each site once cannot name a site twice. */
  lemma PermutationKeepsSitesOnce(rows: seq<Entry>, sorted: seq<Entry>)
    requires SitesOnce(rows)
    requires multiset(sorted) == multiset(rows)
    ensures SitesOnce(sorted)
  {
    RowsOfDistinctSitesOccurOnce(rows);
    forall i, j | 0 <= i < j < |sorted| ensures sorted[i].site != sorted[j].site {
      assert sorted[i] in multiset(rows) && sorted[j] in multiset(rows);
      var p :| 0 <= p < |rows| && rows[p] == sorted[i];
      var q :| 0 <= q < |rows| && rows[q] == sorted[j];
      CountedTwice(sorted, i, j);
      if sorted[i].site == sorted[j].site {
        assert false;
      }
    }
  }

  /** An entry at two positions is counted twice. */
  lemma CountedTwice(s: seq<Entry>, i: nat, j: nat)
    requires i < j < |s|
    ensures s[i] == s[j] ==> multiset(s)[s[i]] >= 2
  {
    assert s == s[..j] + s[j..];
    assert s[i] in s[..j] && s[j] in s[j..];
  }

  /** What the top table promises: each listed site once, with its row, best overall first, ties in list order. */
  ghost predicate IsTopTableOf(table: seq<Entry>, sites: seq<Site>, rankings: PerConsideration)
    requires AllRankedForSpeed(sites, rankings)
  {
    && |table| == |sites|
    && (forall s :: s in sites <==> exists i :: 0 <= i < |table| && table[i].site == s)
    && (forall i :: 0 <= i < |table| ==> table[i] == Row(table[i].site, |sites|, rankings))
    && (forall i, j :: 0 <= i < j < |table| ==> table[i].overall >= table[j].overall)
    && Stable(Rows(sites, |sites|, rankings), table, OverallKey)
  }

  lemma TopTableIsSortedRows(sites: seq<Site>, rankings: PerConsideration)
    requires AllRankedForSpeed(sites, rankings)
    ensures TopTable(sites, rankings).Ok?
    ensures IsTopTableOf(TopTable(sites, rankings).value, sites, rankings)
  {
    var rows := Rows(sites, |sites|, rankings);
    var sorted := Sort(rows, OverallKey, Descending);
    SortPreservesElements(rows, OverallKey, Descending);
    SortIsSorted(rows, OverallKey, Descending);
    SortIsStable(rows, OverallKey, Descending);
    forall s | s in sites ensures exists i :: 0 <= i < |sorted| && sorted[i].site == s {
      var k :| 0 <= k < |sites| && sites[k] == s;
      assert rows[k] in sorted;
    }
    forall i | 0 <= i < |sorted| ensures sorted[i].site in sites && sorted[i] == Row(sorted[i].site, |sites|, rankings) {
      assert sorted[i] in rows;
    }
  }

  /** A site list without repeats gives a top table that names each site once. */
  lemma TopTableNamesEachSiteOnce(sites: seq<Site>, rankings: PerConsideration)
    requires AllRankedForSpeed(sites, rankings)
    ensures Distinct(sites) ==> SitesOnce(TopTable(sites, rankings).value)
  {
    if Distinct(sites) {
      var rows := Rows(sites, |sites|, rankings);
      SortIsPermutation(rows, OverallKey, Descending);
      PermutationKeepsSitesOnce(rows, Sort(rows, OverallKey, Descending));
    }
  }

  /**
   * `build_top_table(site_list, rankings)`.  For each listed site, in order,
   * reads its three ranking values and adds up its overall score; then sorts.
   */
  method BuildTopTable(sites: seq<Site>, rankings: PerConsideration) returns (table: Result<seq<Entry>>)
    ensures table == TopTable(sites, rankings)
    ensures table.Ok? <==> forall s :: s in sites ==> s in Keys(rankings.speed)
    ensures table.Err? ==> table.failure == KeyMissing
    ensures table.Ok? ==> IsTopTableOf(table.value, sites, rankings)
    ensures table.Ok? && Distinct(sites) ==> SitesOnce(table.value)
  {
    var n := |sites|;
    var rows: seq<Entry> := [];
    for i := 0 to |sites|
      invariant AllRankedForSpeed(sites[..i], rankings)
      invariant rows == Rows(sites[..i], n, rankings)
    {
      var site := sites[i];
      var accessibility := Get(rankings.accessibility, site);
      var speed := Get(rankings.speed, site);
      var readingAge := Get(rankings.readingAge, site);
      if site !in Keys(rankings.speed) {
        // 'overall' was never set, so the `+=` for accessibility raises KeyError.
        return Err(KeyMissing);
      }
      var overall := 2 * (n - IndexOf(rankings.speed, site));
      if site in Keys(rankings.accessibility) {
        overall := overall + (n - IndexOf(rankings.accessibility, site));
      }
      if site in Keys(rankings.readingAge) {
        overall := overall + (n - IndexOf(rankings.readingAge, site));
      }
      assert sites[..i + 1] == sites[..i] + [site];
      rows := rows + [Entry(site, accessibility, speed, readingAge, overall)];
    }
    assert sites[..|sites|] == sites;
    TopTableIsSortedRows(sites, rankings);
    TopTableNamesEachSiteOnce(sites, rankings);
    table := Ok(Sort(rows, OverallKey, Descending));
  }

  /**
   * Each ranking that holds at most `n` sites adds between 1 and `n` points,
   * speed twice: a site's overall score lies between 2 and 4n.
   */
  lemma OverallBounds(site: Site, n: int, rankings: PerConsideration)
    requires site in Keys(rankings.speed)
    requires |rankings.speed| <= n && |rankings.accessibility| <= n && |rankings.readingAge| <= n
    ensures 2 <= Overall(site, n, rankings) <= 4 * n
    ensures 2 * Points(rankings.speed, site, n) <= Overall(site, n, rankings)
  {
  }

  /**
   * A site placed no lower than another in every ranking, and present in every
   * ranking the other is in, scores at least as high overall.
   */
  lemma BetterPlacedScoresHigher(a: Site, b: Site, n: int, rankings: PerConsideration)
    requires a in Keys(rankings.speed) && b in Keys(rankings.speed)
    requires IndexOf(rankings.speed, a) <= IndexOf(rankings.speed, b)
    requires |rankings.accessibility| <= n && |rankings.readingAge| <= n
    requires b in Keys(rankings.accessibility) ==>
               a in Keys(rankings.accessibility) && IndexOf(rankings.accessibility, a) <= IndexOf(rankings.accessibility, b)
    requires b in Keys(rankings.readingAge) ==>
               a in Keys(rankings.readingAge) && IndexOf(rankings.readingAge, a) <= IndexOf(rankings.readingAge, b)
    ensures Overall(a, n, rankings) >= Overall(b, n, rankings)
  {
  }

  /** The rankings of the worked example: speed [A, B, C], accessibility [B, C, A], reading age [C, A, B]. */
  function ExampleRankings(): PerConsideration {
    PerConsideration([("A", 0.9), ("B", 0.8), ("C", 0.7)],
                     [("B", 0.9), ("C", 0.8), ("A", 0.7)],
                     [("C", 8.0), ("A", 10.0), ("B", 12.0)])
  }

  lemma ExampleRowA()
    ensures "A" in Keys(ExampleRankings().speed)
    ensures Row("A", 3, ExampleRankings()) == Entry("A", Some(0.7), Some(0.9), Some(10.0), 9)
  {
    var r := ExampleRankings();
    assert Keys(r.speed) == ["A", "B", "C"];
    assert Keys(r.accessibility) == ["B", "C", "A"];
    assert Keys(r.readingAge) == ["C", "A", "B"];
    assert IndexOf(r.accessibility, "A") == 2;
    assert IndexOf(r.readingAge, "A") == 1;
  }

  lemma ExampleRowB()
    ensures "B" in Keys(ExampleRankings().speed)
    ensures Row("B", 3, ExampleRankings()) == Entry("B", Some(0.9), Some(0.8), Some(12.0), 8)
  {
    var r := ExampleRankings();
    assert Keys(r.speed) == ["A", "B", "C"];
    assert Keys(r.accessibility) == ["B", "C", "A"];
    assert Keys(r.readingAge) == ["C", "A", "B"];
    assert IndexOf(r.speed, "B") == 1;
    assert IndexOf(r.readingAge, "B") == 2;
  }

  lemma ExampleRowC()
    ensures "C" in Keys(ExampleRankings().speed)
    ensures Row("C", 3, ExampleRankings()) == Entry("C", Some(0.8), Some(0.7), Some(8.0), 7)
  {
    var r := ExampleRankings();
    assert Keys(r.speed) == ["A", "B", "C"];
    assert Keys(r.accessibility) == ["B", "C", "A"];
    assert Keys(r.readingAge) == ["C", "A", "B"];
    assert IndexOf(r.speed, "C") == 2;
    assert IndexOf(r.accessibility, "C") == 1;
  }

  /**
   * Three sites A, B, C ranked [A, B, C] for speed, [B, C, A] for
   * accessibility and [C, A, B] for reading age score 9, 8 and 7, and the
   * table lists them A, B, C.
   */
  lemma ThreeSiteExample()
    ensures TopTable(["A", "B", "C"], ExampleRankings())
         == Ok([Entry("A", Some(0.7), Some(0.9), Some(10.0), 9),
                Entry("B", Some(0.9), Some(0.8), Some(12.0), 8),
                Entry("C", Some(0.8), Some(0.7), Some(8.0), 7)])
  {
    ExampleRowA();
    ExampleRowB();
    ExampleRowC();
    var a := Entry("A", Some(0.7), Some(0.9), Some(10.0), 9);
    var b := Entry("B", Some(0.9), Some(0.8), Some(12.0), 8);
    var c := Entry("C", Some(0.8), Some(0.7), Some(8.0), 7);
    var sites: seq<Site> := ["A", "B", "C"];
    assert AllRankedForSpeed(sites, ExampleRankings());
    var rows := Rows(sites, 3, ExampleRankings());
    assert rows[0] == a && rows[1] == b && rows[2] == c;
    assert rows == [a, b, c];
    assert Sort([c], OverallKey, Descending) == [c];
    assert Insert(b, [c], OverallKey, Descending) == [b, c];
    assert [b, c][1..] == [c];
    assert Sort([b, c], OverallKey, Descending) == [b, c];
    assert [a, b, c][1..] == [b, c];
    assert Sort([a, b, c], OverallKey, Descending) == Insert(a, [b, c], OverallKey, Descending) == [a, b, c];
  }
}

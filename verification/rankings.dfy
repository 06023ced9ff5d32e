/**
 * `build_combined_rankings`: one ranking per consideration, built from the
 * per-site averages by a stable sort on the average.
 */
module Rankings {
  import opened Assoc
  import opened StableSort

  /** A monitored site, identified by its canonical URL. */
  type Site = string

  /** The three considerations of the leaderboard. */
  datatype Consideration = Speed | Accessibility | ReadingAge

  /**
   * One ordered dictionary site -> value per consideration: `avg_scores`
   * before ranking, `rankings` after.  Reading ages are whole numbers of years.
   */
  datatype PerConsideration = PerConsideration(speed: seq<(Site, real)>,
                                               accessibility: seq<(Site, real)>,
                                               readingAge: seq<(Site, real)>)
  {
    function Get(c: Consideration): seq<(Site, real)> {
      match c
      case Speed => speed
      case Accessibility => accessibility
      case ReadingAge => readingAge
    }

    function With(c: Consideration, items: seq<(Site, real)>): (r: PerConsideration)
      ensures r.Get(c) == items
      ensures forall d :: d != c ==> r.Get(d) == Get(d)
    {
      match c
      case Speed => this.(speed := items)
      case Accessibility => this.(accessibility := items)
      case ReadingAge => this.(readingAge := items)
    }
  }

  function Value(item: (Site, real)): real {
    item.1
  }

  /** The ranking of `items`: `OrderedDict(sorted(items, key=value, reverse=...))`. */
  function Rank(items: seq<(Site, real)>, o: Order): seq<(Site, real)> {
    Sort(items, Value, o)
  }

  /** Higher speed and accessibility are better; a lower reading age is better. */
  function Direction(c: Consideration): Order {
    if c == ReadingAge then Ascending else Descending
  }

  function CombinedRankings(averages: PerConsideration): PerConsideration {
    PerConsideration(Rank(averages.speed, Direction(Speed)),
                     Rank(averages.accessibility, Direction(Accessibility)),
                     Rank(averages.readingAge, Direction(ReadingAge)))
  }

  /** `ranking` orders the entries of `items` by value in direction `o`, equal values in input order. */
  ghost predicate IsRankingOf(ranking: seq<(Site, real)>, items: seq<(Site, real)>, o: Order) {
    && multiset(ranking) == multiset(items)
    && (forall i, j :: 0 <= i < j < |ranking| ==> Precedes(ranking[i].1, ranking[j].1, o))
    && Stable(items, ranking, Value)
  }

  lemma RankIsRanking(items: seq<(Site, real)>, o: Order)
    ensures IsRankingOf(Rank(items, o), items, o)
  {
    SortIsPermutation(items, Value, o);
    SortIsSorted(items, Value, o);
    SortIsStable(items, Value, o);
  }

  /** A ranking lists exactly the sites of its input, and each site as often. */
  lemma RankKeepsSites(items: seq<(Site, real)>, o: Order)
    ensures |Rank(items, o)| == |items|
    ensures forall s :: s in Keys(Rank(items, o)) <==> s in Keys(items)
  {
    var r := Rank(items, o);
    SortPreservesElements(items, Value, o);
    forall s ensures s in Keys(r) <==> s in Keys(items) {
      if s in Keys(r) {
        var i :| 0 <= i < |r| && r[i].0 == s;
        assert r[i] in items;
      }
      if s in Keys(items) {
        var i :| 0 <= i < |items| && items[i].0 == s;
        assert items[i] in r;
      }
    }
  }

  /**
   * `build_combined_rankings(avg_scores)`: ranks speed and accessibility in a
   * loop, best (highest) first, then reading age, best (lowest) first.
   */
  method BuildCombinedRankings(averages: PerConsideration) returns (rankings: PerConsideration)
    ensures rankings == CombinedRankings(averages)
    ensures IsRankingOf(rankings.speed, averages.speed, Descending)
    ensures IsRankingOf(rankings.accessibility, averages.accessibility, Descending)
    ensures IsRankingOf(rankings.readingAge, averages.readingAge, Ascending)
  {
    rankings := PerConsideration([], [], []);
    var considerations := [Speed, Accessibility];
    for i := 0 to |considerations|
      invariant rankings.speed == if i >= 1 then Rank(averages.speed, Descending) else []
      invariant rankings.accessibility == if i >= 2 then Rank(averages.accessibility, Descending) else []
      invariant rankings.readingAge == []
    {
      var c := considerations[i];
      rankings := rankings.With(c, Rank(averages.Get(c), Descending));
    }
    rankings := rankings.With(ReadingAge, Rank(averages.readingAge, Ascending));
    RankIsRanking(averages.speed, Descending);
    RankIsRanking(averages.accessibility, Descending);
    RankIsRanking(averages.readingAge, Ascending);
  }

  function Negated(items: seq<(Site, real)>): (r: seq<(Site, real)>)
    ensures |r| == |items|
    ensures forall i :: 0 <= i < |items| ==> r[i] == (items[i].0, -items[i].1)
  {
    seq(|items|, i requires 0 <= i < |items| => (items[i].0, -items[i].1))
  }

  lemma {:induction false} NegatedInsert(x: (Site, real), s: seq<(Site, real)>)
    ensures Negated(Insert(x, s, Value, Ascending)) == Insert((x.0, -x.1), Negated(s), Value, Descending)
  {
    if s != [] && !Precedes(x.1, s[0].1, Ascending) {
      NegatedInsert(x, s[1..]);
      assert Negated(s)[1..] == Negated(s[1..]);
      assert Negated([s[0]] + Insert(x, s[1..], Value, Ascending))
          == [(s[0].0, -s[0].1)] + Negated(Insert(x, s[1..], Value, Ascending));
    } else if s != [] {
      assert Negated([x] + s) == [(x.0, -x.1)] + Negated(s);
    }
  }

  /**
   * Ranking reading ages lowest first is ranking their negations highest
   * first: the ascending ranking is the descending one with values negated,
   * ties included.
   */
  lemma {:induction false} AscendingIsDescendingOfNegated(items: seq<(Site, real)>)
    ensures Negated(Rank(items, Ascending)) == Rank(Negated(items), Descending)
  {
    if items != [] {
      AscendingIsDescendingOfNegated(items[1..]);
      NegatedInsert(items[0], Rank(items[1..], Ascending));
      assert Negated(items)[1..] == Negated(items[1..]);
    }
  }
}

/** The hitter-versus-stadium match scorer, the per-hitter comparison over every registered
    stadium, the top-N selection for one hitter and the per-stadium ranking rollup. */
module Comparison {
  import opened Optionals
  import opened Numeric
  import opened Sequences
  import opened Ordering
  import opened Stadiums
  import opened HitterData

  // ---------------------------------------------------------------- park label

  /** The three-way label of a park factor. */
  datatype ParkType = HitterFriendly | PitcherFriendly | Neutral {
    function Label(): string {
      match this
      case HitterFriendly => "Hitter-friendly"
      case PitcherFriendly => "Pitcher-friendly"
      case Neutral => "Neutral"
    }
  }

  /** The `stadium_advantage` label: strictly above 1.05 favours hitters, strictly below 0.95
      favours pitchers, everything in between (both thresholds included) is neutral. */
  function Advantage(pf: real): (t: ParkType)
    ensures t == HitterFriendly <==> pf > 1.05
    ensures t == PitcherFriendly <==> pf < 0.95
    ensures t == Neutral <==> 0.95 <= pf <= 1.05
  {
    if pf > 1.05 then HitterFriendly else if pf < 0.95 then PitcherFriendly else Neutral
  }

  /** The two registry parks sitting exactly on a threshold are labelled neutral. */
  lemma BoundaryParksAreNeutral()
    ensures StadiumLookup("Yankee Stadium").Some?
    ensures Advantage(StadiumLookup("Yankee Stadium").value.parkFactor) == Neutral
    ensures StadiumLookup("Oriole Park at Camden Yards").Some?
    ensures Advantage(StadiumLookup("Oriole Park at Camden Yards").value.parkFactor) == Neutral
  {
    assert Registry[0].name == "Yankee Stadium";
    assert Registry[4].name == "Oriole Park at Camden Yards";
  }

  // ---------------------------------------------------------------- match score

  /** The dictionary `calculate_stadium_match_score` returns. */
  datatype MatchScore = MatchScore(
    exitVelocityScore: real,
    hardHitScore: real,
    distanceScore: real,
    parkFactorBoost: real,
    overall: real,
    expectedHomeRuns: Option<real>,
    advantage: ParkType)

  /** The distance part of the score before the park factor is applied. A truthy average
      distance (non-zero, or NaN) takes the first branch of `calculate_stadium_match_score`: how
      far, in units of 50 ft, the average carries beyond the shortest of the three outfield
      distances, never below 0. A NaN average gives 0 there, because `max(0, nan)` keeps 0.
      A missing or zero average falls back to the hard-hit rate; the "0 for a zero rate"
      branch is the same number. */
  function DistanceBase(avgDistance: AvgDistance, hardHitRate: real, lf: real, cf: real, rf: real): (b: real)
    ensures hardHitRate >= 0.0 ==> b >= 0.0
    ensures avgDistance.NotANumber? ==> b == 0.0
    ensures avgDistance.Avg? && avgDistance.value != 0.0 ==> b >= 0.0
    ensures avgDistance.Avg? && avgDistance.value != 0.0 && avgDistance.value <= Min3(lf, cf, rf) ==> b == 0.0
    ensures avgDistance.Avg? && avgDistance.value != 0.0 && avgDistance.value >= Min3(lf, cf, rf) ==>
              b * 50.0 == avgDistance.value - Min3(lf, cf, rf)
    ensures avgDistance.NoColumn? || avgDistance == Avg(0.0) ==> b == hardHitRate
  {
    if avgDistance.NotANumber? then 0.0
    else if avgDistance.Avg? && avgDistance.value != 0.0 then
      Max2(0.0, (avgDistance.value - Min3(lf, cf, rf)) / 50.0)
    else if hardHitRate != 0.0 then hardHitRate
    else 0.0
  }

  /** The distance score: the distance base scaled by the park factor. */
  function DistanceScore(avgDistance: AvgDistance, hardHitRate: real, pf: real, lf: real, cf: real, rf: real): real {
    DistanceBase(avgDistance, hardHitRate, lf, cf, rf) * pf
  }

  /** The distance score is never negative for a non-negative rate and park factor, and it
      grows with the park factor. */
  lemma DistanceScoreMonotoneInParkFactor(avgDistance: AvgDistance, hardHitRate: real, p1: real, p2: real,
                                          lf: real, cf: real, rf: real)
    requires hardHitRate >= 0.0 && 0.0 <= p1 <= p2
    ensures 0.0 <= DistanceScore(avgDistance, hardHitRate, p1, lf, cf, rf)
    ensures DistanceScore(avgDistance, hardHitRate, p1, lf, cf, rf) <= DistanceScore(avgDistance, hardHitRate, p2, lf, cf, rf)
  {
    var b := DistanceBase(avgDistance, hardHitRate, lf, cf, rf);
    MulNonNeg(b, p1);
    MulMonotoneLeft(b, p1, p2);
  }

  /** The weighted combination of the four parts. */
  function Overall(evScore: real, hardHitRate: real, pf: real, distanceScore: real): real {
    evScore * 0.3 + hardHitRate * pf * 100.0 * 0.3 + distanceScore * 0.2 + pf * 20.0 * 0.2
  }

  /** `calculate_stadium_match_score`; `None` when either input is missing. */
  function Score(h: Option<Summary>, s: Option<StadiumInfo>): (r: Option<MatchScore>)
    ensures r.None? <==> h.None? || s.None?
    ensures r.Some? ==> r.value.parkFactorBoost == s.value.ParkFactor()
    ensures r.Some? ==> r.value.advantage == Advantage(s.value.ParkFactor())
    ensures r.Some? ==> (r.value.expectedHomeRuns.None? <==>
                           h.value.homeRunRate.None? || h.value.homeRunRate.value == 0.0)
    ensures r.Some? ==> r.value.exitVelocityScore == h.value.avgExitVelocity * s.value.ParkFactor()
    ensures r.Some? ==> r.value.hardHitScore == h.value.hardHitRate * s.value.ParkFactor() * 100.0
    ensures r.Some? ==> (r.value.distanceScore ==
                           DistanceScore(h.value.avgDistance, h.value.hardHitRate, s.value.ParkFactor(),
                                         s.value.LeftField(), s.value.CenterField(), s.value.RightField()))
    ensures r.Some? && r.value.expectedHomeRuns.Some? ==>
              r.value.expectedHomeRuns.value == h.value.homeRunRate.value * s.value.ParkFactor() * 100.0
    ensures r.Some? ==> r.value.overall == Overall(r.value.exitVelocityScore, h.value.hardHitRate,
                                                   r.value.parkFactorBoost, r.value.distanceScore)
    ensures r.Some? && s.value.ParkFactor() == 1.0 ==>
              r.value.exitVelocityScore == h.value.avgExitVelocity &&
              r.value.hardHitScore == 100.0 * h.value.hardHitRate
    ensures r.Some? && s.value.ParkFactor() == 1.0 && r.value.expectedHomeRuns.Some? ==>
              r.value.expectedHomeRuns.value == 100.0 * h.value.homeRunRate.value
    ensures r.Some? && s.value.ParkFactor() == 1.0 ==>
              r.value.distanceScore == DistanceBase(h.value.avgDistance, h.value.hardHitRate,
                                                    s.value.LeftField(), s.value.CenterField(), s.value.RightField())
  {
    if h.None? || s.None? then None
    else
      var hs, info := h.value, s.value;
      var pf := info.ParkFactor();
      var ev := hs.avgExitVelocity * pf;
      var hhr := hs.hardHitRate;
      var dist := DistanceScore(hs.avgDistance, hhr, pf, info.LeftField(), info.CenterField(), info.RightField());
      var hr := if hs.homeRunRate.Some? && hs.homeRunRate.value != 0.0
                then Some(hs.homeRunRate.value * pf * 100.0) else None;
      Some(MatchScore(ev, hhr * pf * 100.0, dist, pf, Overall(ev, hhr, pf, dist), hr, Advantage(pf)))
  }

  /** The weighted combination grows with its exit-velocity and distance parts. */
  lemma OverallMonotone(e1: real, e2: real, hardHitRate: real, pf: real, d1: real, d2: real)
    requires e1 <= e2 && d1 <= d2
    ensures Overall(e1, hardHitRate, pf, d1) <= Overall(e2, hardHitRate, pf, d2)
  {
  }

  /** When every part scales with the park factor, so does the combination: it is the park
      factor times `0.3 a + 30 h + 0.2 b + 4`. */
  lemma OverallScalesWithPark(a: real, hardHitRate: real, b: real, p1: real, p2: real)
    requires a >= 0.0 && hardHitRate >= 0.0 && b >= 0.0 && 0.0 <= p1 <= p2
    ensures Overall(a * p1, hardHitRate, p1, b * p1) <= Overall(a * p2, hardHitRate, p2, b * p2)
  {
    var e1, e2 := a * p1, a * p2;
    var k1, k2 := hardHitRate * p1, hardHitRate * p2;
    var d1, d2 := b * p1, b * p2;
    MulMonotoneLeft(a, p1, p2);
    MulMonotoneLeft(hardHitRate, p1, p2);
    MulMonotoneLeft(b, p1, p2);
    assert e1 <= e2 && k1 <= k2 && d1 <= d2;
    calc {
      Overall(e1, hardHitRate, p1, d1);
      e1 * 0.3 + k1 * 100.0 * 0.3 + d1 * 0.2 + p1 * 20.0 * 0.2;
    <=
      e2 * 0.3 + k2 * 100.0 * 0.3 + d2 * 0.2 + p2 * 20.0 * 0.2;
      Overall(e2, hardHitRate, p2, d2);
    }
  }

  /** A hitter with a larger average exit velocity never scores lower in the same park,
      provided the park factor is non-negative. */
  lemma ScoreMonotoneInExitVelocity(h: Summary, v: real, s: StadiumInfo)
    requires h.avgExitVelocity <= v
    requires s.ParkFactor() >= 0.0
    ensures Score(Some(h), Some(s)).value.overall <= Score(Some(h.(avgExitVelocity := v)), Some(s)).value.overall
  {
    var g := h.(avgExitVelocity := v);
    var m1, m2 := Score(Some(h), Some(s)).value, Score(Some(g), Some(s)).value;
    ScaledOrder(h.avgExitVelocity, v, s.ParkFactor(), m1.exitVelocityScore, m2.exitVelocityScore);
    OverallMonotone(m1.exitVelocityScore, m2.exitVelocityScore, h.hardHitRate, m1.parkFactorBoost,
                    m1.distanceScore, m2.distanceScore);
  }

  /** With the same dimensions, a park with a larger factor never lowers the score of a hitter
      whose averages and rates are non-negative. */
  lemma ScoreMonotoneInParkFactor(h: Summary, s: StadiumInfo, pf: real)
    requires h.avgExitVelocity >= 0.0 && h.hardHitRate >= 0.0
    requires 0.0 <= s.ParkFactor() <= pf
    ensures Score(Some(h), Some(s)).value.overall <= Score(Some(h), Some(s.(parkFactor := Some(pf)))).value.overall
  {
    var p1 := s.ParkFactor();
    var t := s.(parkFactor := Some(pf));
    assert t.ParkFactor() == pf;
    var lf, cf, rf := s.LeftField(), s.CenterField(), s.RightField();
    assert t.LeftField() == lf && t.CenterField() == cf && t.RightField() == rf;
    var a, hh := h.avgExitVelocity, h.hardHitRate;
    var b := DistanceBase(h.avgDistance, hh, lf, cf, rf);
    OverallScalesWithPark(a, hh, b, p1, pf);
    assert Score(Some(h), Some(s)).value.overall == Overall(a * p1, hh, p1, b * p1);
    assert Score(Some(h), Some(t)).value.overall == Overall(a * pf, hh, pf, b * pf);
  }

  /** The figures for a hitter averaging 95 mph with half the balls hit hard, no distance
      column, in a park of factor 1.1. */
  lemma WorkedExample(h: Summary, s: StadiumInfo)
    requires h.avgExitVelocity == 95.0 && h.hardHitRate == 0.5 && h.avgDistance.NoColumn?
    requires s.parkFactor == Some(1.1)
    ensures Score(Some(h), Some(s)).value.exitVelocityScore == 104.5
    ensures Score(Some(h), Some(s)).value.hardHitScore == 55.0
    ensures Score(Some(h), Some(s)).value.distanceScore == 0.55
    ensures Score(Some(h), Some(s)).value.overall == 52.36
    ensures Score(Some(h), Some(s)).value.advantage == HitterFriendly
  {
  }

  /** The same hitter when the distance column is present but holds no value: the NaN average
      is truthy, so the distance score is 0 instead of the hard-hit fallback, and the overall
      score is 0.11 lower. */
  lemma WorkedExampleWithoutDistances(h: Summary, s: StadiumInfo)
    requires h.avgExitVelocity == 95.0 && h.hardHitRate == 0.5 && h.avgDistance.NotANumber?
    requires s.parkFactor == Some(1.1)
    ensures Score(Some(h), Some(s)).value.distanceScore == 0.0
    ensures Score(Some(h), Some(s)).value.overall == 52.25
  {
  }

  // ---------------------------------------------------------------- one hitter, every park

  /** One row of `compare_hitter_to_all_stadiums`: who, where, the score, and the stadium's
      own entry (the `**stadium_info` part of the row). */
  datatype MatchRow = MatchRow(
    playerId: int,
    playerName: string,
    stadiumName: string,
    team: string,
    score: MatchScore,
    stadium: Stadium)

  function OverallScore(row: MatchRow): real { row.score.overall }

  /** `compare_hitter_to_all_stadiums` for an already computed summary: nothing when there is
      no summary, otherwise one row per registry entry in registry order. */
  function CompareToAllStadiums(summary: Option<Summary>, playerId: int, playerName: string): (r: seq<MatchRow>)
    ensures summary.None? ==> r == []
    ensures summary.Some? ==> |r| == |Registry|
    ensures forall i :: 0 <= i < |r| ==>
              r[i].playerId == playerId && r[i].playerName == playerName &&
              r[i].stadium == Registry[i] && r[i].stadiumName == Registry[i].name &&
              r[i].team == Registry[i].team
    ensures forall i :: 0 <= i < |r| ==> r[i].score.parkFactorBoost == Registry[i].parkFactor
    ensures forall i :: 0 <= i < |r| ==> Score(summary, Some(Registry[i].Info())) == Some(r[i].score)
    ensures forall i, j :: 0 <= i < j < |r| ==> r[i].stadiumName != r[j].stadiumName
  {
    NamesDistinct();
    if summary.None? then []
    else
      seq(|Registry|, i requires 0 <= i < |Registry| =>
        MatchRow(playerId, playerName, Registry[i].name, Registry[i].team,
                 Score(summary, Some(Registry[i].Info())).value, Registry[i]))
  }

  // ---------------------------------------------------------------- best matches

  /** The `player_name == name` mask. */
  function OfPlayer(name: string): MatchRow -> bool {
    (x: MatchRow) => x.playerName == name
  }

  /** The rows of the named hitter, in input order and with their multiplicities. */
  function HitterRows(name: string, rows: seq<MatchRow>): (r: seq<MatchRow>)
    ensures IsSubsequence(r, rows)
    ensures forall x :: x in r <==> x in rows && x.playerName == name
    ensures forall x :: x in rows && x.playerName == name ==> multiset(r)[x] == multiset(rows)[x]
  {
    FilterSubsequence(rows, OfPlayer(name));
    FilterKeepsPassing(rows, OfPlayer(name));
    FilterMultiset(rows, OfPlayer(name));
    Filter(rows, OfPlayer(name))
  }

  /** `get_best_stadium_matches`: the hitter's rows, highest overall score first, at most
      `topN` of them; an absent hitter gives nothing. */
  function BestMatches(hitterName: string, rows: seq<MatchRow>, topN: nat): (r: seq<MatchRow>)
    ensures var mine := HitterRows(hitterName, rows);
            |r| == if topN <= |mine| then topN else |mine|
    ensures forall x :: x in r ==> x in rows && x.playerName == hitterName
    ensures (forall x :: x in rows ==> x.playerName != hitterName) ==> r == []
    ensures NonIncreasing(r, OverallScore)
  {
    var r := Largest(HitterRows(hitterName, rows), OverallScore, topN);
    LargestIsSubmultiset(HitterRows(hitterName, rows), OverallScore, topN);
    r
  }

  /** No row of the hitter that `BestMatches` leaves out scores higher than one it keeps, and
      among equal scores the earlier rows are the ones kept. */
  lemma BestMatchesAreBest(hitterName: string, rows: seq<MatchRow>, topN: nat)
    ensures var mine := HitterRows(hitterName, rows);
            var r := BestMatches(hitterName, rows, topN);
            multiset(r) <= multiset(mine) &&
            (forall x, y :: x in r && y in multiset(mine) - multiset(r) ==> y.score.overall <= x.score.overall) &&
            (forall v :: IsPrefix(WithKey(r, OverallScore, v), WithKey(mine, OverallScore, v)))
  {
    var mine := HitterRows(hitterName, rows);
    LargestIsSubmultiset(mine, OverallScore, topN);
    LargestDominates(mine, OverallScore, topN);
    forall v ensures IsPrefix(WithKey(BestMatches(hitterName, rows, topN), OverallScore, v), WithKey(mine, OverallScore, v)) {
      LargestKeepsEarlierTies(mine, OverallScore, topN, v);
    }
  }

  // ---------------------------------------------------------------- stadium rankings

  /** One row of `get_stadium_rankings` (the standard deviation column is not modelled). */
  datatype RankingRow = RankingRow(
    stadiumName: string,
    avgScore: real,
    numHitters: nat,
    parkFactor: real,
    team: string)

  function AvgScore(row: RankingRow): real { row.avgScore }
  function RankedName(row: RankingRow): string { row.stadiumName }
  function NumHitters(row: RankingRow): int { row.numHitters }

  /** Some comparison row is about the named stadium. */
  ghost predicate Mentions(rows: seq<MatchRow>, name: string) {
    exists i :: 0 <= i < |rows| && rows[i].stadiumName == name
  }

  /** Appending a row adds exactly its stadium to the mentioned names. */
  lemma MentionsSnoc(init: seq<MatchRow>, x: MatchRow)
    ensures forall n :: Mentions(init + [x], n) <==> Mentions(init, n) || n == x.stadiumName
  {
    var rows := init + [x];
    forall n ensures Mentions(rows, n) <==> Mentions(init, n) || n == x.stadiumName {
      if Mentions(rows, n) {
        var i :| 0 <= i < |rows| && rows[i].stadiumName == n;
        if i < |init| {
          assert init[i] == rows[i];
        }
      }
      if Mentions(init, n) {
        var i :| 0 <= i < |init| && init[i].stadiumName == n;
        assert rows[i] == init[i];
      }
      if n == x.stadiumName {
        assert rows[|init|] == x;
      }
    }
  }

  /** The group keys: each mentioned stadium once, in order of first appearance. */
  function Names(rows: seq<MatchRow>): (r: seq<string>)
    ensures forall i, j :: 0 <= i < j < |r| ==> r[i] != r[j]
    ensures forall n :: n in r <==> Mentions(rows, n)
    decreases |rows|
  {
    if |rows| == 0 then []
    else
      var init := rows[..|rows| - 1];
      var last := rows[|rows| - 1];
      assert rows == init + [last];
      MentionsSnoc(init, last);
      var prev := Names(init);
      if last.stadiumName in prev then prev else prev + [last.stadiumName]
  }

  /** The `stadium_name == name` mask. */
  function AtStadium(name: string): MatchRow -> bool {
    (x: MatchRow) => x.stadiumName == name
  }

  /** The overall scores of the named stadium's rows, in order: the k-th score is that of the
      k-th row the stadium mask keeps. */
  function ScoresOf(name: string, rows: seq<MatchRow>): (r: seq<real>)
    ensures var mine := Filter(rows, AtStadium(name));
            |r| == |mine| && forall k :: 0 <= k < |r| ==> r[k] == mine[k].score.overall
    ensures |r| > 0 <==> Mentions(rows, name)
    decreases |rows|
  {
    if |rows| == 0 then []
    else
      var init := rows[..|rows| - 1];
      var last := rows[|rows| - 1];
      assert rows == init + [last];
      MentionsSnoc(init, last);
      FilterSnoc(init, last, AtStadium(name));
      ScoresOf(name, init) + (if last.stadiumName == name then [last.score.overall] else [])
  }

  /** Where the named stadium first appears, which is where `first` aggregation reads. */
  function FirstIndex(name: string, rows: seq<MatchRow>): (i: nat)
    requires Mentions(rows, name)
    ensures i < |rows| && rows[i].stadiumName == name
    ensures forall j :: 0 <= j < i ==> rows[j].stadiumName != name
  {
    if rows[0].stadiumName == name then 0
    else
      assert Mentions(rows[1..], name) by {
        var k :| 0 <= k < |rows| && rows[k].stadiumName == name;
        assert rows[1..][k - 1] == rows[k];
      }
      var i := FirstIndex(name, rows[1..]);
      assert forall j :: 0 < j <= i ==> rows[j] == rows[1..][j - 1];
      1 + i
  }

  /** The aggregate row of one stadium: mean and count of its scores, and the park factor and
      team of its first row. */
  function RowFor(name: string, rows: seq<MatchRow>): RankingRow
    requires Mentions(rows, name)
  {
    var scores := ScoresOf(name, rows);
    var first := rows[FirstIndex(name, rows)];
    RankingRow(name, Mean(scores), |scores|, first.stadium.parkFactor, first.team)
  }

  function Groups(names: seq<string>, rows: seq<MatchRow>): seq<RankingRow>
    requires forall n :: n in names ==> Mentions(rows, n)
  {
    seq(|names|, i requires 0 <= i < |names| => RowFor(names[i], rows))
  }

  /** `get_stadium_rankings`: one aggregate row per stadium, highest average first. */
  function Rankings(rows: seq<MatchRow>): (r: seq<RankingRow>)
    ensures |r| == |Names(rows)|
    ensures |rows| == 0 ==> r == []
    ensures NonIncreasing(r, AvgScore)
    ensures DistinctBy(r, RankedName)
  {
    var g := Groups(Names(rows), rows);
    SortDistinctBy(g, AvgScore, RankedName);
    SortDesc(g, AvgScore)
  }

  /** Every ranking row aggregates one mentioned stadium: its count is the number of that
      stadium's rows, its average their mean, its park factor and team those of its first row;
      and every input row's stadium has a ranking row. */
  lemma RankingsAggregate(rows: seq<MatchRow>)
    ensures forall x :: x in Rankings(rows) ==>
              Mentions(rows, x.stadiumName) &&
              x.numHitters == |ScoresOf(x.stadiumName, rows)| > 0 &&
              x.avgScore == Mean(ScoresOf(x.stadiumName, rows)) &&
              x.parkFactor == rows[FirstIndex(x.stadiumName, rows)].stadium.parkFactor &&
              x.team == rows[FirstIndex(x.stadiumName, rows)].team
    ensures forall i :: 0 <= i < |rows| ==> exists x :: x in Rankings(rows) && x.stadiumName == rows[i].stadiumName
  {
    var names := Names(rows);
    var g := Groups(names, rows);
    var r := Rankings(rows);
    assert multiset(r) == multiset(g);
    forall x | x in r
      ensures Mentions(rows, x.stadiumName) && x == RowFor(x.stadiumName, rows)
    {
      assert x in multiset(g);
      var k :| 0 <= k < |g| && g[k] == x;
      assert x == RowFor(names[k], rows);
    }
    forall i | 0 <= i < |rows| ensures exists x :: x in r && x.stadiumName == rows[i].stadiumName {
      var n := rows[i].stadiumName;
      assert Mentions(rows, n);
      var k :| 0 <= k < |names| && names[k] == n;
      assert g[k] in multiset(r);
    }
  }

  /** The sum over distinct names of their row counts. */
  function CountsSum(names: seq<string>, rows: seq<MatchRow>): int {
    if |names| == 0 then 0 else |ScoresOf(names[0], rows)| + CountsSum(names[1..], rows)
  }

  lemma {:induction false} SumByGroups(names: seq<string>, rows: seq<MatchRow>)
    requires forall n :: n in names ==> Mentions(rows, n)
    ensures SumBy(Groups(names, rows), NumHitters) == CountsSum(names, rows)
    decreases |names|
  {
    if |names| > 0 {
      SumByGroups(names[1..], rows);
      assert Groups(names, rows)[1..] == Groups(names[1..], rows);
    }
  }

  lemma {:induction false} CountsSumSnocName(names: seq<string>, n: string, rows: seq<MatchRow>)
    ensures CountsSum(names + [n], rows) == CountsSum(names, rows) + |ScoresOf(n, rows)|
    decreases |names|
  {
    if |names| > 0 {
      CountsSumSnocName(names[1..], n, rows);
      assert (names + [n])[1..] == names[1..] + [n];
    } else {
      assert (names + [n])[1..] == [];
    }
  }

  /** Appending a row adds one to the sum exactly when its stadium is among the names. */
  lemma {:induction false} CountsSumSnocRow(names: seq<string>, rows: seq<MatchRow>, x: MatchRow)
    requires forall i, j :: 0 <= i < j < |names| ==> names[i] != names[j]
    ensures CountsSum(names, rows + [x]) == CountsSum(names, rows) + (if x.stadiumName in names then 1 else 0)
    decreases |names|
  {
    if |names| > 0 {
      var all := rows + [x];
      assert all[..|all| - 1] == rows;
      assert |ScoresOf(names[0], all)| == |ScoresOf(names[0], rows)| + (if x.stadiumName == names[0] then 1 else 0);
      CountsSumSnocRow(names[1..], rows, x);
      assert x.stadiumName in names <==> x.stadiumName == names[0] || x.stadiumName in names[1..];
      assert x.stadiumName == names[0] ==> x.stadiumName !in names[1..];
    }
  }

  /** Every input row is counted exactly once over the group keys. */
  lemma {:induction false} CountsSumNames(rows: seq<MatchRow>)
    ensures CountsSum(Names(rows), rows) == |rows|
    decreases |rows|
  {
    if |rows| > 0 {
      var init := rows[..|rows| - 1];
      var x := rows[|rows| - 1];
      assert rows == init + [x];
      CountsSumNames(init);
      var prev := Names(init);
      CountsSumSnocRow(prev, init, x);
      if x.stadiumName !in prev {
        CountsSumSnocName(prev, x.stadiumName, rows);
        assert ScoresOf(x.stadiumName, init) == [];
        assert |ScoresOf(x.stadiumName, rows)| == 1;
      }
    }
  }

  /** The `num_hitters` column adds up to the number of comparison rows. */
  lemma RankingsCountAll(rows: seq<MatchRow>)
    ensures SumBy(Rankings(rows), NumHitters) == |rows|
  {
    var names := Names(rows);
    SortSumBy(Groups(names, rows), AvgScore, NumHitters);
    SumByGroups(names, rows);
    CountsSumNames(rows);
  }

  lemma {:induction false} ScoresOfWithin(name: string, rows: seq<MatchRow>, lo: real, hi: real)
    requires forall i :: 0 <= i < |rows| && rows[i].stadiumName == name ==> lo <= rows[i].score.overall <= hi
    ensures forall k :: 0 <= k < |ScoresOf(name, rows)| ==> lo <= ScoresOf(name, rows)[k] <= hi
    decreases |rows|
  {
    if |rows| > 0 {
      var init := rows[..|rows| - 1];
      assert forall i :: 0 <= i < |init| ==> init[i] == rows[i];
      ScoresOfWithin(name, init, lo, hi);
    }
  }

  /** A stadium's average lies within the range of its rows' scores. */
  lemma RankingAverageWithin(rows: seq<MatchRow>, x: RankingRow, lo: real, hi: real)
    requires x in Rankings(rows)
    requires forall i :: 0 <= i < |rows| && rows[i].stadiumName == x.stadiumName ==> lo <= rows[i].score.overall <= hi
    ensures lo <= x.avgScore <= hi
  {
    RankingsAggregate(rows);
    var scores := ScoresOf(x.stadiumName, rows);
    ScoresOfWithin(x.stadiumName, rows, lo, hi);
    MeanAtMost(scores, hi);
    MeanAtLeast(scores, lo);
  }

  /** Rows about distinct stadiums give one group key each. */
  lemma {:induction false} NamesOfDistinct(rows: seq<MatchRow>)
    requires forall i, j :: 0 <= i < j < |rows| ==> rows[i].stadiumName != rows[j].stadiumName
    ensures |Names(rows)| == |rows|
    decreases |rows|
  {
    if |rows| > 0 {
      var init := rows[..|rows| - 1];
      var x := rows[|rows| - 1];
      assert forall j :: 0 <= j < |init| ==> init[j] == rows[j];
      NamesOfDistinct(init);
      assert !Mentions(init, x.stadiumName);
    }
  }

  /** A stadium with a single row contributes exactly that row's score. */
  lemma {:induction false} ScoresOfSingle(name: string, rows: seq<MatchRow>, k: nat)
    requires k < |rows| && rows[k].stadiumName == name
    requires forall j :: 0 <= j < |rows| && j != k ==> rows[j].stadiumName != name
    ensures ScoresOf(name, rows) == [rows[k].score.overall]
    decreases |rows|
  {
    var init := rows[..|rows| - 1];
    if k < |rows| - 1 {
      assert forall j :: 0 <= j < |init| ==> init[j] == rows[j];
      ScoresOfSingle(name, init, k);
    } else {
      assert forall j :: 0 <= j < |init| ==> init[j] == rows[j];
      assert !Mentions(init, name);
    }
  }

  lemma SingleRowAggregate(rows: seq<MatchRow>, x: RankingRow)
    requires forall i, j :: 0 <= i < j < |rows| ==> rows[i].stadiumName != rows[j].stadiumName
    requires Mentions(rows, x.stadiumName)
    requires x.numHitters == |ScoresOf(x.stadiumName, rows)|
    requires x.avgScore == Mean(ScoresOf(x.stadiumName, rows))
    ensures x.numHitters == 1
    ensures exists i :: 0 <= i < |rows| && x.stadiumName == rows[i].stadiumName && x.avgScore == rows[i].score.overall
  {
    var n := x.stadiumName;
    var k :| 0 <= k < |rows| && rows[k].stadiumName == n;
    forall j | 0 <= j < |rows| && j != k ensures rows[j].stadiumName != n {
      if j < k {
        assert rows[j].stadiumName != rows[k].stadiumName;
      } else {
        assert rows[k].stadiumName != rows[j].stadiumName;
      }
    }
    ScoresOfSingle(n, rows, k);
    var v := rows[k].score.overall;
    MeanOfOne(v);
  }

  /** Ranking rows about distinct stadiums: one ranking row per input row, each counting
      one row and averaging just that row's score. */
  lemma RankingsOfDistinctStadiums(rows: seq<MatchRow>)
    requires forall i, j :: 0 <= i < j < |rows| ==> rows[i].stadiumName != rows[j].stadiumName
    ensures |Rankings(rows)| == |rows|
    ensures forall x :: x in Rankings(rows) ==>
              x.numHitters == 1 &&
              exists i :: 0 <= i < |rows| && x.stadiumName == rows[i].stadiumName && x.avgScore == rows[i].score.overall
  {
    RankingsAggregate(rows);
    NamesOfDistinct(rows);
    forall x | x in Rankings(rows)
      ensures x.numHitters == 1 &&
              exists i :: 0 <= i < |rows| && x.stadiumName == rows[i].stadiumName && x.avgScore == rows[i].score.overall
    {
      SingleRowAggregate(rows, x);
    }
  }

  /** Ranking one hitter's comparison gives every registry stadium once, counted once. */
  lemma RankingsOfOneHitter(h: Summary, playerId: int, playerName: string)
    ensures var rows := CompareToAllStadiums(Some(h), playerId, playerName);
            |Rankings(rows)| == |Registry| &&
            forall x :: x in Rankings(rows) ==> x.numHitters == 1
  {
    var rows := CompareToAllStadiums(Some(h), playerId, playerName);
    RankingsOfDistinctStadiums(rows);
  }
}

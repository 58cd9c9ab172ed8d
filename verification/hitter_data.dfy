/** Statcast pitch rows, the balls-in-play filter and the per-hitter summary fold. Fetching the
    rows is outside the model: the raw frame is an input. */
module HitterData {
  import opened Optionals
  import opened Sequences
  import opened Numeric

  /** One Statcast pitch. A field is `None` where the value is missing (NaN). */
  datatype Pitch = Pitch(
    kind: string,               // 'type': "X" ball in play, "S" strike, "B" ball
    launchSpeed: Option<real>,  // 'launch_speed', mph
    launchAngle: Option<real>,  // 'launch_angle', degrees
    hitDistance: Option<real>,  // 'hit_distance_sc', feet
    barrel: Option<int>,        // 'barrel', 1 for a barrel
    bbType: Option<string>,     // 'bb_type'
    events: Option<string>,     // 'events', e.g. "home_run"
    hcX: Option<real>,          // 'hc_x', pixels
    hcY: Option<real>,          // 'hc_y', pixels
    sprayAngle: Option<real>,   // 'spray_angle', degrees
    estimatedBa: Option<real>,  // 'estimated_ba_using_speedangle'
    xba: Option<real>,          // 'xba'
    estimatedSlg: Option<real>) // 'estimated_slg_using_speedangle'

  /** Which optional columns the frame carries. An absent column is not the same as a column
      whose values are all missing. 'type', 'launch_speed' and 'launch_angle' are always
      present. `hitCoordinates` stands for both 'hc_x' and 'hc_y'. */
  datatype Columns = Columns(
    hitDistance: bool,
    barrel: bool,
    bbType: bool,
    events: bool,
    hitCoordinates: bool,
    sprayAngle: bool,
    estimatedBa: bool,
    xba: bool,
    estimatedSlg: bool)

  datatype Frame = Frame(columns: Columns, rows: seq<Pitch>)

  /** The balls-in-play mask: type 'X' with a measured launch speed and launch angle. */
  predicate IsBallInPlay(p: Pitch) {
    p.kind == "X" && p.launchSpeed.Some? && p.launchAngle.Some?
  }

  type BallInPlay = p: Pitch | IsBallInPlay(p)
    witness Pitch("X", Some(0.0), Some(0.0), None, None, None, None, None, None, None, None, None, None)

  /** A frame that passed the balls-in-play mask. */
  datatype BipFrame = BipFrame(columns: Columns, rows: seq<BallInPlay>)

  function Speed(b: BallInPlay): real { b.launchSpeed.value }
  function Angle(b: BallInPlay): real { b.launchAngle.value }

  /** The filter of `get_hitter_bip_stats`: exactly the balls in play, in their original order,
      with the same columns. */
  function BallsInPlay(f: Frame): (r: BipFrame)
    ensures r.columns == f.columns
    ensures IsSubsequence(r.rows, f.rows)
    ensures forall p :: p in r.rows ==> p in f.rows
    ensures forall p :: p in f.rows && IsBallInPlay(p) ==> multiset(r.rows)[p] == multiset(f.rows)[p]
    ensures |r.rows| == 0 <==> forall p :: p in f.rows ==> !IsBallInPlay(p)
  {
    var kept := Filter(f.rows, IsBallInPlay);
    FilterMultiset(f.rows, IsBallInPlay);
    FilterSubsequence(f.rows, IsBallInPlay);
    FilterEmpty(f.rows, IsBallInPlay);
    BipFrame(f.columns, kept)
  }

  predicate IsBarrel(p: BallInPlay) { p.barrel == Some(1) }
  predicate IsHardHit(p: BallInPlay) { Speed(p) >= 95.0 }
  predicate IsPull(p: BallInPlay) { p.bbType == Some("pull") }
  predicate IsOppo(p: BallInPlay) { p.bbType == Some("oppo") }
  predicate IsHomeRun(p: BallInPlay) { p.events == Some("home_run") }
  predicate HasDistance(p: BallInPlay) { p.hitDistance.Some? }

  function Speeds(rows: seq<BallInPlay>): (r: seq<real>)
    ensures |r| == |rows|
    ensures forall i :: 0 <= i < |rows| ==> r[i] == Speed(rows[i])
  {
    seq(|rows|, i requires 0 <= i < |rows| => Speed(rows[i]))
  }

  function Angles(rows: seq<BallInPlay>): (r: seq<real>)
    ensures |r| == |rows|
    ensures forall i :: 0 <= i < |rows| ==> r[i] == Angle(rows[i])
  {
    seq(|rows|, i requires 0 <= i < |rows| => Angle(rows[i]))
  }

  /** The measured distances, skipping missing ones (as `Series.mean` skips NaN): the k-th
      value is the distance of the k-th ball that has one. */
  function Distances(rows: seq<BallInPlay>): (r: seq<real>)
    ensures var measured := Filter(rows, HasDistance);
            |r| == |measured| &&
            forall k :: 0 <= k < |r| ==> measured[k].hitDistance == Some(r[k])
  {
    var measured := Filter(rows, HasDistance);
    assert forall k :: 0 <= k < |measured| ==> measured[k].hitDistance.Some? by {
      forall k | 0 <= k < |measured| ensures measured[k].hitDistance.Some? {
        assert measured[k] in measured;
      }
    }
    seq(|measured|, k requires 0 <= k < |measured| => measured[k].hitDistance.value)
  }

  /** What `bip['hit_distance_sc'].mean()` yields: `None` without the column, NaN when the
      column holds no value, and otherwise the mean of the values. */
  datatype AvgDistance = NoColumn | NotANumber | Avg(value: real)

  /** `get_hitter_summary_stats`' dictionary. */
  datatype Summary = Summary(
    playerId: int,
    year: int,
    totalBip: nat,
    avgExitVelocity: real,
    maxExitVelocity: real,
    avgLaunchAngle: real,
    barrelRate: Option<real>,
    hardHitRate: real,
    pullRate: Option<real>,
    oppoRate: Option<real>,
    homeRunRate: Option<real>,
    avgDistance: AvgDistance)

  ghost predicate IsShare(r: Option<real>) {
    r.Some? ==> 0.0 <= r.value <= 1.0
  }

  /** The share of rows satisfying `keep`, or `None` when its column is absent. */
  function ShareOf(rows: seq<BallInPlay>, keep: BallInPlay -> bool, present: bool): (r: Option<real>)
    requires |rows| > 0
    ensures r.Some? <==> present
    ensures IsShare(r)
    ensures r.Some? ==> r.value == Rate(|Filter(rows, keep)|, |rows|)
  {
    if present then Some(Rate(|Filter(rows, keep)|, |rows|)) else None
  }

  /** The share of balls hit at 95 mph or harder; 95 itself counts. */
  function HardHitRate(rows: seq<BallInPlay>): (r: real)
    requires |rows| > 0
    ensures r == Rate(|Filter(rows, IsHardHit)|, |rows|)
    ensures 0.0 <= r <= 1.0
    ensures r == 1.0 <==> forall b :: b in rows ==> Speed(b) >= 95.0
    ensures r == 0.0 <==> forall b :: b in rows ==> Speed(b) < 95.0
  {
    var hard := Filter(rows, IsHardHit);
    FilterAll(rows, IsHardHit);
    FilterEmpty(rows, IsHardHit);
    assert |hard| == |rows| <==> hard == rows by {
      if |hard| == |rows| {
        FilterAllByLength(rows, IsHardHit);
      }
    }
    Rate(|hard|, |rows|)
  }

  /** The mean measured distance: no value without the column, NaN when no ball has one. */
  function AverageDistance(rows: seq<BallInPlay>, present: bool): (r: AvgDistance)
    ensures r.NoColumn? <==> !present
    ensures r.NotANumber? <==> present && forall b :: b in rows ==> !HasDistance(b)
    ensures r.Avg? <==> present && exists b :: b in rows && HasDistance(b)
    ensures r.Avg? ==> |Distances(rows)| > 0 && r.value == Mean(Distances(rows))
  {
    var distances := Distances(rows);
    FilterEmpty(rows, HasDistance);
    if !present then NoColumn
    else if |distances| == 0 then NotANumber
    else Avg(Mean(distances))
  }

  /** The fastest ball in play. */
  function MaxSpeed(rows: seq<BallInPlay>): (m: real)
    requires |rows| > 0
    ensures m in Speeds(rows)
    ensures forall b :: b in rows ==> Speed(b) <= m
    ensures Mean(Speeds(rows)) <= m
  {
    var speeds := Speeds(rows);
    MeanAtMostMax(speeds);
    assert forall b :: b in rows ==> Speed(b) <= Max(speeds) by {
      forall b | b in rows ensures Speed(b) <= Max(speeds) {
        var i :| 0 <= i < |rows| && rows[i] == b;
        assert speeds[i] in speeds;
      }
    }
    Max(speeds)
  }

  /** The summary fold over a non-empty balls-in-play frame. */
  function Summarize(playerId: int, year: int, bip: BipFrame): (r: Summary)
    requires |bip.rows| > 0
    ensures r.playerId == playerId && r.year == year
    ensures r.totalBip == |bip.rows|
    ensures r.avgExitVelocity == Mean(Speeds(bip.rows)) && r.avgLaunchAngle == Mean(Angles(bip.rows))
    ensures r.avgExitVelocity <= r.maxExitVelocity
    ensures r.maxExitVelocity in Speeds(bip.rows)
    ensures forall b :: b in bip.rows ==> Speed(b) <= r.maxExitVelocity
    ensures r.hardHitRate == HardHitRate(bip.rows)
    ensures 0.0 <= r.hardHitRate <= 1.0
    ensures r.hardHitRate == 1.0 <==> forall b :: b in bip.rows ==> Speed(b) >= 95.0
    ensures r.hardHitRate == 0.0 <==> forall b :: b in bip.rows ==> Speed(b) < 95.0
    ensures r.barrelRate == ShareOf(bip.rows, IsBarrel, bip.columns.barrel)
    ensures r.pullRate == ShareOf(bip.rows, IsPull, bip.columns.bbType)
    ensures r.oppoRate == ShareOf(bip.rows, IsOppo, bip.columns.bbType)
    ensures r.homeRunRate == ShareOf(bip.rows, IsHomeRun, bip.columns.events)
    ensures IsShare(r.barrelRate) && IsShare(r.pullRate) && IsShare(r.oppoRate) && IsShare(r.homeRunRate)
    ensures r.pullRate.Some? && r.oppoRate.Some? ==> r.pullRate.value + r.oppoRate.value <= 1.0
    ensures r.barrelRate.Some? <==> bip.columns.barrel
    ensures r.pullRate.Some? <==> bip.columns.bbType
    ensures r.oppoRate.Some? <==> bip.columns.bbType
    ensures r.homeRunRate.Some? <==> bip.columns.events
    ensures r.avgDistance == AverageDistance(bip.rows, bip.columns.hitDistance)
  {
    var rows := bip.rows;
    var n := |rows|;
    var pull := ShareOf(rows, IsPull, bip.columns.bbType);
    var oppo := ShareOf(rows, IsOppo, bip.columns.bbType);
    FilterDisjoint(rows, IsPull, IsOppo);
    RatesOfDisjointParts(|Filter(rows, IsPull)|, |Filter(rows, IsOppo)|, n);
    Summary(
      playerId,
      year,
      n,
      Mean(Speeds(rows)),
      MaxSpeed(rows),
      Mean(Angles(rows)),
      ShareOf(rows, IsBarrel, bip.columns.barrel),
      HardHitRate(rows),
      pull,
      oppo,
      ShareOf(rows, IsHomeRun, bip.columns.events),
      AverageDistance(rows, bip.columns.hitDistance))
  }

  /** `get_hitter_summary_stats` on a fetched frame: no summary without a ball in play. */
  function HitterSummary(playerId: int, year: int, raw: Frame): (r: Option<Summary>)
    ensures r.None? <==> forall p :: p in raw.rows ==> !IsBallInPlay(p)
    ensures r.Some? ==> r.value.totalBip == |Filter(raw.rows, IsBallInPlay)|
    ensures r.Some? ==> |BallsInPlay(raw).rows| > 0 && r.value == Summarize(playerId, year, BallsInPlay(raw))
  {
    var bip := BallsInPlay(raw);
    if |bip.rows| == 0 then None else Some(Summarize(playerId, year, bip))
  }
}

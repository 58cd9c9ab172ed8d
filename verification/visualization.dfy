/** The expected-outcome heuristics of the visualization module: the xBA estimate from exit
    velocity and launch angle, the distance estimates, the two fence-distance-by-direction
    rules, the expected home-run count and the per-stadium expected-stats record.
    Directions are given in degrees from the center-field axis (negative = left field); where
    the program derives them with trigonometry they are inputs here. */
module Visualization {
  import opened Optionals
  import opened Numeric
  import opened Sequences
  import opened HitterData
  import opened Stadiums

  // ---------------------------------------------------------------- xBA heuristic

  /** Exit velocity mapped linearly from [70, 100] mph onto [0, 1], clipped. */
  function EvFactor(ev: real): (r: real)
    ensures 0.0 <= r <= 1.0
    ensures r == 0.0 <==> ev <= 70.0
    ensures r == 1.0 <==> ev >= 100.0
  {
    Clip((ev - 70.0) / 30.0, 0.0, 1.0)
  }

  /** Launch-angle closeness to 10 degrees, falling linearly to 0 at 30 degrees away, clipped. */
  function LaFactor(la: real): (r: real)
    ensures 0.0 <= r <= 1.0
    ensures r == 0.0 <==> Abs(la - 10.0) >= 30.0
    ensures r == 1.0 <==> la == 10.0
  {
    Clip(1.0 - Abs(la - 10.0) / 30.0, 0.0, 1.0)
  }

  lemma UnitProductBounds(a: real, b: real)
    requires 0.0 <= a <= 1.0 && 0.0 <= b <= 1.0
    ensures 0.0 <= a * b <= 1.0
  {
    MulNonNeg(a, b);
    MulMonotone(a, 1.0, b);
    var p := a * b;
    assert p <= b;
  }

  lemma UnitProductExtremes(a: real, b: real)
    requires 0.0 <= a <= 1.0 && 0.0 <= b <= 1.0
    ensures a * b == 0.0 <==> a == 0.0 || b == 0.0
    ensures a * b == 1.0 <==> a == 1.0 && b == 1.0
  {
    if a > 0.0 && b > 0.0 {
      MulPos(a, b);
    }
    MulMonotone(a, 1.0, b);
    MulMonotone(b, 1.0, a);
    assert a * b == b * a;
    if a * b == 1.0 {
      assert 1.0 <= b;
      assert a * b == a * 1.0;
    }
  }

  /** The product of the two factors: how close the ball is to a line drive hit hard. */
  function Quality(ev: real, la: real): (q: real)
    ensures 0.0 <= q <= 1.0
  {
    UnitProductBounds(EvFactor(ev), LaFactor(la));
    EvFactor(ev) * LaFactor(la)
  }

  lemma QualityMonotoneInSpeed(ev1: real, ev2: real, la: real)
    requires ev1 <= ev2
    ensures Quality(ev1, la) <= Quality(ev2, la)
  {
    ClipMonotone((ev1 - 70.0) / 30.0, (ev2 - 70.0) / 30.0, 0.0, 1.0);
    var e1, e2, l := EvFactor(ev1), EvFactor(ev2), LaFactor(la);
    MulMonotone(e1, e2, l);
    calc {
      Quality(ev1, la);
      e1 * l;
    <= e2 * l;
      Quality(ev2, la);
    }
  }

  /** `calculate_xba_from_ev_la` for one ball. */
  function Xba(ev: real, la: real): (r: real)
    ensures 0.1 <= r <= 0.5
  {
    0.1 + 0.4 * Quality(ev, la)
  }

  /** The estimate sits at its floor 0.1 exactly when the ball is hit at 70 mph or softer or
      30 or more degrees away from 10, and at its ceiling 0.5 exactly when it is hit at 100 mph
      or harder at exactly 10 degrees. */
  lemma XbaExtremes(ev: real, la: real)
    ensures Xba(ev, la) == 0.1 <==> ev <= 70.0 || Abs(la - 10.0) >= 30.0
    ensures Xba(ev, la) == 0.5 <==> ev >= 100.0 && la == 10.0
  {
    UnitProductExtremes(EvFactor(ev), LaFactor(la));
  }

  /** A harder-hit ball never gets a lower xBA. */
  lemma XbaMonotoneInSpeed(ev1: real, ev2: real, la: real)
    requires ev1 <= ev2
    ensures Xba(ev1, la) <= Xba(ev2, la)
  {
    QualityMonotoneInSpeed(ev1, ev2, la);
  }

  /** The estimate is symmetric in launch angle about 10 degrees. */
  lemma XbaSymmetricInAngle(ev: real, d: real)
    ensures Xba(ev, 10.0 + d) == Xba(ev, 10.0 - d)
  {
    assert Abs(10.0 + d - 10.0) == Abs(10.0 - d - 10.0);
  }

  // ---------------------------------------------------------------- distance estimates

  /** The launch-angle-only distance of `estimate_hit_location`, clipped to [50, 450]. */
  function AngleOnlyDistance(la: real): (r: real)
    ensures 50.0 <= r <= 320.0
    ensures r == 320.0 <==> la == 10.0
  {
    Clip(200.0 + (12.0 - Abs(la - 10.0)) * 10.0, 50.0, 450.0)
  }

  /** The velocity-and-angle distance of `calculate_expected_home_runs`, clipped to [50, 450]. */
  function SpeedAngleDistance(ev: real, la: real): (r: real)
    ensures 50.0 <= r <= 450.0
  {
    Clip(ev * 2.5 + (12.0 - Abs(la - 10.0)) * 5.0, 50.0, 450.0)
  }

  lemma SpeedAngleDistanceMonotone(ev1: real, ev2: real, la: real)
    requires ev1 <= ev2
    ensures SpeedAngleDistance(ev1, la) <= SpeedAngleDistance(ev2, la)
  {
    var k := (12.0 - Abs(la - 10.0)) * 5.0;
    ClipMonotone(ev1 * 2.5 + k, ev2 * 2.5 + k, 50.0, 450.0);
  }

  // ---------------------------------------------------------------- linear fence (drawing fallback)

  function Lerp(a: real, b: real, t: real): real {
    a + (b - a) * t
  }

  lemma LerpBetween(a: real, b: real, t: real)
    requires 0.0 <= t <= 1.0
    ensures a <= b ==> a <= Lerp(a, b, t) <= b
    ensures b <= a ==> b <= Lerp(a, b, t) <= a
  {
    var d := b - a;
    var p := d * t;
    assert Lerp(a, b, t) == a + p;
    if a <= b {
      ScaleNonNeg(d, t);
    } else {
      ScaleNonPos(d, t);
    }
  }

  lemma LerpWithin(a: real, b: real, t: real)
    requires 0.0 <= t <= 1.0
    ensures Min(a, b) <= Lerp(a, b, t) <= Max2(a, b)
  {
    LerpBetween(a, b, t);
    if a <= b {
      assert Min(a, b) == a && Max2(a, b) == b;
    } else {
      assert Min(a, b) == b && Max2(a, b) == a;
    }
  }

  /** The fence distance the linear fallback of `draw_stadium_fence` draws at `angle`,
      interpolating between the anchors at -45, -22.5, 0, 22.5 and 45 degrees. */
  function LinearFence(angle: real, lf: real, lc: real, cf: real, rc: real, rf: real): real {
    if angle <= -22.5 then Lerp(lf, lc, (angle + 45.0) / 22.5)
    else if angle <= 0.0 then Lerp(lc, cf, (angle + 22.5) / 22.5)
    else if angle <= 22.5 then Lerp(cf, rc, angle / 22.5)
    else Lerp(rc, rf, (angle - 22.5) / 22.5)
  }

  /** The curve passes through the five anchors, and at each breakpoint the formula of the
      next segment gives the same value as the segment that owns it. */
  lemma LinearFenceAnchors(lf: real, lc: real, cf: real, rc: real, rf: real)
    ensures LinearFence(-45.0, lf, lc, cf, rc, rf) == lf
    ensures LinearFence(-22.5, lf, lc, cf, rc, rf) == lc
    ensures LinearFence(0.0, lf, lc, cf, rc, rf) == cf
    ensures LinearFence(22.5, lf, lc, cf, rc, rf) == rc
    ensures LinearFence(45.0, lf, lc, cf, rc, rf) == rf
    ensures Lerp(lc, cf, (-22.5 + 22.5) / 22.5) == LinearFence(-22.5, lf, lc, cf, rc, rf)
    ensures Lerp(cf, rc, 0.0 / 22.5) == LinearFence(0.0, lf, lc, cf, rc, rf)
    ensures Lerp(rc, rf, (22.5 - 22.5) / 22.5) == LinearFence(22.5, lf, lc, cf, rc, rf)
  {
  }

  /** Between two anchors the curve stays between their distances. */
  lemma LinearFenceBetweenAnchors(angle: real, lf: real, lc: real, cf: real, rc: real, rf: real)
    requires -45.0 <= angle <= 45.0
    ensures angle <= -22.5 ==> Min(lf, lc) <= LinearFence(angle, lf, lc, cf, rc, rf) <= Max2(lf, lc)
    ensures -22.5 <= angle <= 0.0 ==> Min(lc, cf) <= LinearFence(angle, lf, lc, cf, rc, rf) <= Max2(lc, cf)
    ensures 0.0 <= angle <= 22.5 ==> Min(cf, rc) <= LinearFence(angle, lf, lc, cf, rc, rf) <= Max2(cf, rc)
    ensures 22.5 <= angle ==> Min(rc, rf) <= LinearFence(angle, lf, lc, cf, rc, rf) <= Max2(rc, rf)
  {
    var v := LinearFence(angle, lf, lc, cf, rc, rf);
    if angle < -22.5 {
      LerpWithin(lf, lc, (angle + 45.0) / 22.5);
    } else if angle == -22.5 {
      assert v == lc;
    } else if angle < 0.0 {
      LerpWithin(lc, cf, (angle + 22.5) / 22.5);
    } else if angle == 0.0 {
      assert v == cf;
    } else if angle < 22.5 {
      LerpWithin(cf, rc, angle / 22.5);
    } else if angle == 22.5 {
      assert v == rc;
    } else {
      LerpWithin(rc, rf, (angle - 22.5) / 22.5);
    }
  }

  /** The drawn fence for a stadium dictionary, with the defaults of `draw_stadium_fence`. */
  function DrawnFence(info: StadiumInfo, angle: real): real {
    LinearFence(angle, info.LeftField(), info.LeftCenter(), info.CenterField(),
                info.RightCenter(), info.RightField())
  }

  // ---------------------------------------------------------------- counting fence

  /** The fence distance `calculate_expected_home_runs` compares against, as written. */
  function CountingFence(angle: real, lf: real, cf: real, rf: real): real {
    if angle <= -30.0 then
      var t := (angle + 45.0) / 15.0;
      lf + (cf - lf) * (1.0 - t)
    else if angle >= 30.0 then
      var t := (angle - 30.0) / 15.0;
      cf + (rf - cf) * t
    else if angle < 0.0 then
      var t := (angle + 30.0) / 30.0;
      lf + (cf - lf) * (1.0 + t)
    else
      var t := (30.0 - angle) / 30.0;
      rf + (cf - rf) * (1.0 + t)
  }

  /** Values at the five reference directions: center field at the left-field line, left
      field at -30, 2 CF - RF at dead center, center field at +30, right field at the line. */
  lemma CountingFenceAnchors(lf: real, cf: real, rf: real)
    ensures CountingFence(-45.0, lf, cf, rf) == cf
    ensures CountingFence(-30.0, lf, cf, rf) == lf
    ensures CountingFence(0.0, lf, cf, rf) == 2.0 * cf - rf
    ensures CountingFence(30.0, lf, cf, rf) == cf
    ensures CountingFence(45.0, lf, cf, rf) == rf
  {
  }

  /** The middle band near its ends: `e` degrees inside +30 the value is CF + (CF - RF) e/30
      (so it meets CF at +30); `e` degrees below 0 it is 2 CF - LF - (CF - LF) e/30 (so it
      tends to 2 CF - LF, not the 2 CF - RF taken at 0); `e` degrees above -30 it is
      CF + (CF - LF) e/30 (so it tends to CF, not the LF taken at -30). */
  lemma CountingFenceNearBreaks(e: real, lf: real, cf: real, rf: real)
    requires 0.0 < e < 30.0
    ensures CountingFence(30.0 - e, lf, cf, rf) == cf + (cf - rf) * (e / 30.0)
    ensures CountingFence(0.0 - e, lf, cf, rf) == 2.0 * cf - lf - (cf - lf) * (e / 30.0)
    ensures CountingFence(-30.0 + e, lf, cf, rf) == cf + (cf - lf) * (e / 30.0)
    ensures cf > lf ==> CountingFence(-30.0 + e, lf, cf, rf) - CountingFence(-30.0, lf, cf, rf) > cf - lf
  {
    var s := e / 30.0;
    var dl, dr := cf - lf, cf - rf;
    var pl, pr := dl * s, dr * s;
    assert (30.0 - (30.0 - e)) / 30.0 == s;
    assert dr * (1.0 + s) == dr + pr;
    assert CountingFence(30.0 - e, lf, cf, rf) == rf + dr * (1.0 + s);
    assert (0.0 - e + 30.0) / 30.0 == 1.0 - s;
    assert dl * (1.0 + (1.0 - s)) == 2.0 * dl - pl;
    assert CountingFence(0.0 - e, lf, cf, rf) == lf + dl * (1.0 + (1.0 - s));
    assert (-30.0 + e + 30.0) / 30.0 == s;
    assert dl * (1.0 + s) == dl + pl;
    assert CountingFence(-30.0 + e, lf, cf, rf) == lf + dl * (1.0 + s);
    if cf > lf {
      MulPos(dl, s);
    }
  }

  lemma LeftCornerBounds(angle: real, lf: real, cf: real, rf: real)
    requires -45.0 <= angle <= -30.0 && lf <= cf
    ensures lf <= CountingFence(angle, lf, cf, rf) <= cf
  {
    var t := (angle + 45.0) / 15.0;
    var u := 1.0 - t;
    var d := cf - lf;
    ScaleNonNeg(d, u);
    var p := d * u;
    assert 0.0 <= p <= d;
    assert CountingFence(angle, lf, cf, rf) == lf + p;
  }

  lemma RightCornerBounds(angle: real, lf: real, cf: real, rf: real)
    requires 30.0 <= angle <= 45.0 && rf <= cf
    ensures rf <= CountingFence(angle, lf, cf, rf) <= cf
  {
    var t := (angle - 30.0) / 15.0;
    var d := rf - cf;
    ScaleNonPos(d, t);
    var p := d * t;
    assert d <= p <= 0.0;
    assert CountingFence(angle, lf, cf, rf) == cf + p;
  }

  lemma LeftMiddleBounds(angle: real, lf: real, cf: real, rf: real)
    requires -30.0 < angle < 0.0 && lf <= cf
    ensures cf <= CountingFence(angle, lf, cf, rf) <= 2.0 * cf - lf
  {
    var t := (angle + 30.0) / 30.0;
    var u := 1.0 + t;
    var d := cf - lf;
    var p := d * u;
    ScaleUp(d, u, p);
    assert d <= p <= 2.0 * d;
    assert CountingFence(angle, lf, cf, rf) == lf + p;
  }

  lemma RightMiddleBounds(angle: real, lf: real, cf: real, rf: real)
    requires 0.0 <= angle < 30.0 && rf <= cf
    ensures cf <= CountingFence(angle, lf, cf, rf) <= 2.0 * cf - rf
  {
    var t := (30.0 - angle) / 30.0;
    var u := 1.0 + t;
    var d := cf - rf;
    var p := d * u;
    ScaleUp(d, u, p);
    assert d <= p <= 2.0 * d;
    assert CountingFence(angle, lf, cf, rf) == rf + p;
  }

  /** With center field the deepest of the three, the fence on fair territory lies between
      the shorter foul line and 2 CF minus the shorter foul line. */
  lemma CountingFenceBounds(angle: real, lf: real, cf: real, rf: real)
    requires -45.0 <= angle <= 45.0
    requires lf <= cf && rf <= cf
    ensures Min(lf, rf) <= CountingFence(angle, lf, cf, rf) <= 2.0 * cf - Min(lf, rf)
  {
    if angle <= -30.0 {
      LeftCornerBounds(angle, lf, cf, rf);
    } else if angle >= 30.0 {
      RightCornerBounds(angle, lf, cf, rf);
    } else if angle < 0.0 {
      LeftMiddleBounds(angle, lf, cf, rf);
    } else {
      RightMiddleBounds(angle, lf, cf, rf);
    }
  }

  // ---------------------------------------------------------------- home-run count

  /** A batted ball reduced to what the count compares: carry distance and direction. */
  datatype Flight = Flight(distance: real, direction: real)

  predicate Clears(f: Flight, lf: real, cf: real, rf: real) {
    f.distance >= CountingFence(f.direction, lf, cf, rf)
  }

  /** The number of flights whose distance reaches the fence in their direction. */
  function HomeRunCount(flights: seq<Flight>, lf: real, cf: real, rf: real): (n: nat)
    ensures n <= |flights|
  {
    if |flights| == 0 then 0
    else (if Clears(flights[0], lf, cf, rf) then 1 else 0) + HomeRunCount(flights[1..], lf, cf, rf)
  }

  /** The count is additive over concatenation. */
  lemma {:induction false} HomeRunCountAppend(a: seq<Flight>, b: seq<Flight>, lf: real, cf: real, rf: real)
    ensures HomeRunCount(a + b, lf, cf, rf) == HomeRunCount(a, lf, cf, rf) + HomeRunCount(b, lf, cf, rf)
    decreases |a|
  {
    if |a| > 0 {
      assert (a + b)[1..] == a[1..] + b;
      HomeRunCountAppend(a[1..], b, lf, cf, rf);
    } else {
      assert a + b == b;
    }
  }

  /** A single ball counts exactly when its distance is at least the fence distance. */
  lemma HomeRunCountSingle(f: Flight, lf: real, cf: real, rf: real)
    ensures HomeRunCount([f], lf, cf, rf) == 1 <==> f.distance >= CountingFence(f.direction, lf, cf, rf)
    ensures HomeRunCount([f], lf, cf, rf) == 0 <==> f.distance < CountingFence(f.direction, lf, cf, rf)
  {
    assert [f][1..] == [];
  }

  /** Longer hits in the same directions never give fewer home runs. */
  lemma {:induction false} HomeRunCountMonotone(a: seq<Flight>, b: seq<Flight>, lf: real, cf: real, rf: real)
    requires |a| == |b|
    requires forall i :: 0 <= i < |a| ==> a[i].direction == b[i].direction && a[i].distance <= b[i].distance
    ensures HomeRunCount(a, lf, cf, rf) <= HomeRunCount(b, lf, cf, rf)
    decreases |a|
  {
    if |a| > 0 {
      HomeRunCountMonotone(a[1..], b[1..], lf, cf, rf);
    }
  }

  /** Balls whose distance is 0 (a missing distance filled with 0) never count against a fence
      that is everywhere positive. */
  lemma {:induction false} ZeroDistanceNeverCounts(flights: seq<Flight>, lf: real, cf: real, rf: real)
    requires forall i :: 0 <= i < |flights| ==> flights[i].distance == 0.0
    requires forall i :: 0 <= i < |flights| ==> CountingFence(flights[i].direction, lf, cf, rf) > 0.0
    ensures HomeRunCount(flights, lf, cf, rf) == 0
    decreases |flights|
  {
    if |flights| > 0 {
      ZeroDistanceNeverCounts(flights[1..], lf, cf, rf);
    }
  }

  /** The distance used for a ball: the measured one (missing filled with 0) when the frame
      has the column, otherwise the velocity-and-angle estimate. */
  function HitDistance(columns: Columns, b: BallInPlay): real {
    if columns.hitDistance then b.hitDistance.GetOr(0.0) else SpeedAngleDistance(Speed(b), Angle(b))
  }

  /** Pixel coordinates inside the standard 250 x 250 field, both strictly positive. */
  predicate HasValidCoordinates(b: BallInPlay) {
    && b.hcX.Some? && b.hcY.Some?
    && 0.0 < b.hcX.value <= 250.0 && 0.0 < b.hcY.value <= 250.0
  }

  /** `arctan2(0, d)` in degrees: straight away for d >= 0, straight back otherwise. */
  function DistanceOnlyDirection(d: real): real {
    if d < 0.0 then 180.0 else 0.0
  }

  /** Flights of the rows with valid coordinates, in row order, each with its row's direction. */
  function ValidFlights(columns: Columns, rows: seq<BallInPlay>, directions: seq<real>): (r: seq<Flight>)
    requires |directions| == |rows|
    ensures |r| == |Filter(rows, HasValidCoordinates)|
    ensures forall k :: 0 <= k < |r| ==> r[k].distance == HitDistance(columns, Filter(rows, HasValidCoordinates)[k])
    ensures forall k :: 0 <= k < |r| ==> r[k].direction == directions[Positions(rows, HasValidCoordinates)[k]]
  {
    var at := Positions(rows, HasValidCoordinates);
    seq(|at|, k requires 0 <= k < |at| => Flight(HitDistance(columns, rows[at[k]]), directions[at[k]]))
  }

  /** The flights `calculate_expected_home_runs` compares with the fence. With usable pixel
      coordinates only those rows take part, each with its coordinate direction; otherwise,
      with a spray-angle column, every row with its spray direction; otherwise every row
      straight away from the plate. `directions[i]` is the direction the program computes for
      row `i` with `arctan2` from the coordinates or spray angle in use. */
  function CountedFlights(data: BipFrame, directions: seq<real>): (r: seq<Flight>)
    requires |directions| == |data.rows|
    ensures |r| <= |data.rows|
    ensures data.columns.hitCoordinates && |Filter(data.rows, HasValidCoordinates)| > 0 ==>
              |r| == |Filter(data.rows, HasValidCoordinates)| &&
              (forall k :: 0 <= k < |r| ==>
                 r[k].distance == HitDistance(data.columns, Filter(data.rows, HasValidCoordinates)[k]) &&
                 r[k].direction == directions[Positions(data.rows, HasValidCoordinates)[k]])
    ensures !(data.columns.hitCoordinates && |Filter(data.rows, HasValidCoordinates)| > 0) ==>
              |r| == |data.rows|
    ensures !(data.columns.hitCoordinates && |Filter(data.rows, HasValidCoordinates)| > 0) ==>
              forall i :: 0 <= i < |r| ==> r[i].distance == HitDistance(data.columns, data.rows[i])
    ensures !(data.columns.hitCoordinates && |Filter(data.rows, HasValidCoordinates)| > 0) && data.columns.sprayAngle ==>
              forall i :: 0 <= i < |r| ==> r[i].direction == directions[i]
    ensures !(data.columns.hitCoordinates && |Filter(data.rows, HasValidCoordinates)| > 0) && !data.columns.sprayAngle ==>
              forall i :: 0 <= i < |r| ==> r[i].direction == DistanceOnlyDirection(r[i].distance)
  {
    var cols := data.columns;
    var rows := data.rows;
    if cols.hitCoordinates && |Filter(rows, HasValidCoordinates)| > 0 then
      ValidFlights(cols, rows, directions)
    else if cols.sprayAngle then
      seq(|rows|, i requires 0 <= i < |rows| => Flight(HitDistance(cols, rows[i]), directions[i]))
    else
      seq(|rows|, i requires 0 <= i < |rows| =>
        Flight(HitDistance(cols, rows[i]), DistanceOnlyDirection(HitDistance(cols, rows[i]))))
  }

  /** `calculate_expected_home_runs`. */
  function ExpectedHomeRuns(data: BipFrame, info: StadiumInfo, directions: seq<real>): (n: nat)
    requires |directions| == |data.rows|
    ensures |data.rows| == 0 ==> n == 0
    ensures n <= |data.rows|
  {
    if |data.rows| == 0 then 0
    else HomeRunCount(CountedFlights(data, directions), info.LeftField(), info.CenterField(), info.RightField())
  }

  // ---------------------------------------------------------------- expected stats

  /** A ball's xBA: the provider's estimate (missing filled with 0.3) when a column carries
      it, otherwise the heuristic. */
  function XbaValue(columns: Columns, b: BallInPlay): real {
    if columns.estimatedBa then b.estimatedBa.GetOr(0.3)
    else if columns.xba then b.xba.GetOr(0.3)
    else Xba(Speed(b), Angle(b))
  }

  /** A ball's xSLG: the provider's estimate (missing filled with 0.4), otherwise 1.5 xBA. */
  function XslgValue(columns: Columns, b: BallInPlay): real {
    if columns.estimatedSlg then b.estimatedSlg.GetOr(0.4) else XbaValue(columns, b) * 1.5
  }

  function XbaValues(columns: Columns, rows: seq<BallInPlay>): (r: seq<real>)
    ensures |r| == |rows|
    ensures forall i :: 0 <= i < |rows| ==> r[i] == XbaValue(columns, rows[i])
  {
    seq(|rows|, i requires 0 <= i < |rows| => XbaValue(columns, rows[i]))
  }

  function XslgValues(columns: Columns, rows: seq<BallInPlay>): (r: seq<real>)
    ensures |r| == |rows|
    ensures forall i :: 0 <= i < |rows| ==> r[i] == XslgValue(columns, rows[i])
  {
    seq(|rows|, i requires 0 <= i < |rows| => XslgValue(columns, rows[i]))
  }

  /** The rough park adjustment of batting average: a tenth of the park factor's deviation. */
  function ParkAdjustedBa(ba: real, pf: real): (r: real)
    ensures pf == 1.0 ==> r == ba
    ensures pf > 1.0 && ba > 0.0 ==> r > ba
    ensures pf < 1.0 && ba > 0.0 ==> r < ba
  {
    var k := 1.0 + (pf - 1.0) * 0.1;
    ScaledAbove(ba, k);
    ScaledBelow(ba, k);
    ba * k
  }

  /** Slugging scaled by the full park factor. */
  function ParkAdjustedSlg(slg: real, pf: real): (r: real)
    ensures pf == 1.0 ==> r == slg
    ensures pf > 1.0 && slg > 0.0 ==> r > slg
    ensures pf < 1.0 && slg > 0.0 ==> r < slg
  {
    ScaledAbove(slg, pf);
    ScaledBelow(slg, pf);
    slg * pf
  }

  /** The average moves a tenth as far as slugging under the same factor, so above factor 1
      a non-negative average is adjusted less than slugging of the same value, and more below. */
  lemma ParkAdjustmentsCompared(x: real, pf: real)
    ensures ParkAdjustedBa(x, pf) - x == (ParkAdjustedSlg(x, pf) - x) / 10.0
    ensures pf >= 1.0 && x >= 0.0 ==> ParkAdjustedBa(x, pf) <= ParkAdjustedSlg(x, pf)
    ensures pf <= 1.0 && x >= 0.0 ==> ParkAdjustedSlg(x, pf) <= ParkAdjustedBa(x, pf)
  {
    var d := pf - 1.0;
    var m := x * d;
    assert x * (1.0 + d * 0.1) == x + m * 0.1;
    assert x * pf == x + m;
    if pf >= 1.0 && x >= 0.0 {
      MulNonNeg(x, d);
    }
    if pf <= 1.0 && x >= 0.0 {
      MulNonNeg(x, -d);
      assert x * -d == -m;
    }
  }

  /** The dictionary of `calculate_expected_stats_for_stadium`. */
  datatype ExpectedStats = ExpectedStats(
    expectedBa: real,
    expectedSlg: real,
    expectedOps: real,
    expectedHrCount: nat,
    expectedHrRate: real,
    actualHrCount: nat,
    actualHrRate: real,
    totalBip: nat,
    parkFactor: real,
    parkAdjustedBa: real,
    parkAdjustedSlg: real)

  /** Mean per-ball xBA over a non-empty set of balls in play. */
  function ExpectedBa(columns: Columns, rows: seq<BallInPlay>): (ba: real)
    requires |rows| > 0
    ensures columns.estimatedBa && (forall i :: 0 <= i < |rows| ==> rows[i].estimatedBa.None?) ==> ba == 0.3
    ensures !columns.estimatedBa && columns.xba && (forall i :: 0 <= i < |rows| ==> rows[i].xba.None?) ==> ba == 0.3
    ensures !columns.estimatedBa && !columns.xba ==> 0.1 <= ba <= 0.5
    ensures !columns.estimatedBa && !columns.xba && (forall i :: 0 <= i < |rows| ==> Speed(rows[i]) <= 70.0) ==> ba == 0.1
  {
    var xba := XbaValues(columns, rows);
    var allMissing := forall i :: 0 <= i < |rows| ==> XbaValue(columns, rows[i]) == 0.3;
    assert allMissing ==> Mean(xba) == 0.3 by {
      if allMissing {
        MeanAtMost(xba, 0.3);
        MeanAtLeast(xba, 0.3);
      }
    }
    assert !columns.estimatedBa && !columns.xba ==> 0.1 <= Mean(xba) <= 0.5 by {
      if !columns.estimatedBa && !columns.xba {
        MeanAtLeast(xba, 0.1);
        MeanAtMost(xba, 0.5);
      }
    }
    assert !columns.estimatedBa && !columns.xba && (forall i :: 0 <= i < |rows| ==> Speed(rows[i]) <= 70.0) ==> Mean(xba) == 0.1 by {
      if !columns.estimatedBa && !columns.xba && (forall i :: 0 <= i < |rows| ==> Speed(rows[i]) <= 70.0) {
        MeanAtMost(xba, 0.1);
        MeanAtLeast(xba, 0.1);
      }
    }
    Mean(xba)
  }

  /** Mean per-ball xSLG; without a slugging column it is 1.5 times the expected average. */
  function ExpectedSlg(columns: Columns, rows: seq<BallInPlay>): (slg: real)
    requires |rows| > 0
    ensures columns.estimatedSlg && (forall i :: 0 <= i < |rows| ==> rows[i].estimatedSlg.None?) ==> slg == 0.4
    ensures !columns.estimatedSlg ==> slg == 1.5 * ExpectedBa(columns, rows)
  {
    var xslg := XslgValues(columns, rows);
    assert columns.estimatedSlg && (forall i :: 0 <= i < |rows| ==> rows[i].estimatedSlg.None?) ==> Mean(xslg) == 0.4 by {
      if columns.estimatedSlg && (forall i :: 0 <= i < |rows| ==> rows[i].estimatedSlg.None?) {
        MeanAtMost(xslg, 0.4);
        MeanAtLeast(xslg, 0.4);
      }
    }
    assert !columns.estimatedSlg ==> Mean(xslg) == 1.5 * Mean(XbaValues(columns, rows)) by {
      if !columns.estimatedSlg {
        MeanScaled(XbaValues(columns, rows), xslg, 1.5);
      }
    }
    Mean(xslg)
  }

  /** With an `estimated_ba_using_speedangle` column the expected average is the mean of that
      column, missing values read as 0.3, whatever the `xba` column holds: values all in
      [lo, hi] give an average in [lo, hi]. */
  lemma ExpectedBaFromEstimates(columns: Columns, rows: seq<BallInPlay>, lo: real, hi: real)
    requires |rows| > 0 && columns.estimatedBa
    requires forall i :: 0 <= i < |rows| ==> lo <= rows[i].estimatedBa.GetOr(0.3) <= hi
    ensures lo <= ExpectedBa(columns, rows) <= hi
    ensures ExpectedBa(columns, rows) == ExpectedBa(columns.(xba := !columns.xba), rows)
  {
    var xba := XbaValues(columns, rows);
    MeanAtLeast(xba, lo);
    MeanAtMost(xba, hi);
    assert xba == XbaValues(columns.(xba := !columns.xba), rows);
  }

  /** Without the estimated column but with an `xba` column, the expected average is the
      mean of `xba`, missing values read as 0.3. */
  lemma ExpectedBaFromXba(columns: Columns, rows: seq<BallInPlay>, lo: real, hi: real)
    requires |rows| > 0 && !columns.estimatedBa && columns.xba
    requires forall i :: 0 <= i < |rows| ==> lo <= rows[i].xba.GetOr(0.3) <= hi
    ensures lo <= ExpectedBa(columns, rows) <= hi
  {
    var xba := XbaValues(columns, rows);
    MeanAtLeast(xba, lo);
    MeanAtMost(xba, hi);
  }

  /** With an `estimated_slg_using_speedangle` column the expected slugging is the mean of
      that column, missing values read as 0.4, whatever the average columns hold. */
  lemma ExpectedSlgFromEstimates(columns: Columns, rows: seq<BallInPlay>, lo: real, hi: real)
    requires |rows| > 0 && columns.estimatedSlg
    requires forall i :: 0 <= i < |rows| ==> lo <= rows[i].estimatedSlg.GetOr(0.4) <= hi
    ensures lo <= ExpectedSlg(columns, rows) <= hi
    ensures ExpectedSlg(columns, rows) == ExpectedSlg(columns.(estimatedBa := false, xba := false), rows)
  {
    var xslg := XslgValues(columns, rows);
    MeanAtLeast(xslg, lo);
    MeanAtMost(xslg, hi);
    assert xslg == XslgValues(columns.(estimatedBa := false, xba := false), rows);
  }

  /** Home runs actually hit: the rows whose event is a home run, or 0 without an events column. */
  function ActualHomeRuns(data: BipFrame): (n: nat)
    ensures n <= |data.rows|
    ensures data.columns.events ==> n == |Filter(data.rows, IsHomeRun)|
    ensures !data.columns.events ==> n == 0
  {
    if data.columns.events then |Filter(data.rows, IsHomeRun)| else 0
  }

  /** What holds of every expected-stats record, whatever the columns: counts within the
      number of balls, shares in [0, 1] that are the count over the number of balls and 0
      exactly for a zero count, OPS as the sum,
      and a park adjustment that is neutral at factor 1 and raises positive values above it. */
  ghost predicate Consistent(e: ExpectedStats) {
    && e.totalBip > 0
    && e.expectedHrCount <= e.totalBip && e.actualHrCount <= e.totalBip
    && 0.0 <= e.expectedHrRate <= 1.0 && 0.0 <= e.actualHrRate <= 1.0
    && (e.expectedHrRate == 0.0 <==> e.expectedHrCount == 0)
    && (e.actualHrRate == 0.0 <==> e.actualHrCount == 0)
    && e.expectedHrRate * e.totalBip as real == e.expectedHrCount as real
    && e.actualHrRate * e.totalBip as real == e.actualHrCount as real
    && e.expectedOps == e.expectedBa + e.expectedSlg
    && (e.parkFactor == 1.0 ==> e.parkAdjustedBa == e.expectedBa && e.parkAdjustedSlg == e.expectedSlg)
    && (e.parkFactor > 1.0 && e.expectedBa > 0.0 ==> e.parkAdjustedBa > e.expectedBa)
    && (e.parkFactor > 1.0 && e.expectedSlg > 0.0 ==> e.parkAdjustedSlg > e.expectedSlg)
    && (e.parkFactor < 1.0 && e.expectedBa > 0.0 ==> e.parkAdjustedBa < e.expectedBa)
    && (e.parkFactor < 1.0 && e.expectedSlg > 0.0 ==> e.parkAdjustedSlg < e.expectedSlg)
  }

  /** The record built from the two means, the two counts, the ball count and the factor. */
  function StatsOf(ba: real, slg: real, hr: nat, actual: nat, n: nat, pf: real): (e: ExpectedStats)
    requires n > 0 && hr <= n && actual <= n
    ensures Consistent(e)
    ensures e.expectedBa == ba && e.expectedSlg == slg
    ensures e.expectedHrCount == hr && e.actualHrCount == actual
    ensures e.totalBip == n && e.parkFactor == pf
    ensures e.parkAdjustedBa == ParkAdjustedBa(ba, pf) && e.parkAdjustedSlg == ParkAdjustedSlg(slg, pf)
  {
    ExpectedStats(ba, slg, ba + slg, hr, Rate(hr, n), actual, Rate(actual, n), n, pf,
                  ParkAdjustedBa(ba, pf), ParkAdjustedSlg(slg, pf))
  }

  /** `calculate_expected_stats_for_stadium`; `None` stands for the empty dictionary. */
  function ExpectedStatsFor(data: BipFrame, info: StadiumInfo, directions: seq<real>): (r: Option<ExpectedStats>)
    requires |directions| == |data.rows|
    ensures r.None? <==> |data.rows| == 0
    ensures r.Some? ==> Consistent(r.value)
    ensures r.Some? ==> r.value.totalBip == |data.rows| && r.value.parkFactor == info.ParkFactor()
    ensures r.Some? ==> r.value.expectedBa == ExpectedBa(data.columns, data.rows) && r.value.expectedSlg == ExpectedSlg(data.columns, data.rows)
    ensures r.Some? ==> r.value.parkAdjustedBa == ParkAdjustedBa(r.value.expectedBa, info.ParkFactor())
    ensures r.Some? ==> r.value.parkAdjustedSlg == ParkAdjustedSlg(r.value.expectedSlg, info.ParkFactor())
    ensures r.Some? ==> r.value.expectedHrCount == ExpectedHomeRuns(data, info, directions)
    ensures r.Some? && !data.columns.events ==> r.value.actualHrCount == 0
    ensures r.Some? && data.columns.events ==> r.value.actualHrCount == |Filter(data.rows, IsHomeRun)|
    ensures r.Some? && !data.columns.estimatedSlg ==> r.value.expectedSlg == 1.5 * r.value.expectedBa
    ensures r.Some? && !data.columns.estimatedBa && !data.columns.xba ==> 0.1 <= r.value.expectedBa <= 0.5
  {
    if |data.rows| == 0 then None
    else
      Some(StatsOf(
        ExpectedBa(data.columns, data.rows),
        ExpectedSlg(data.columns, data.rows),
        ExpectedHomeRuns(data, info, directions),
        ActualHomeRuns(data),
        |data.rows|,
        info.ParkFactor()))
  }
}

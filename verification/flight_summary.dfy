/**
 How the summary formulas of ProjectileMotion (totalTime, maxRange,
 maxHeight) relate to the closed-form trajectory they summarise, and what
 the evolve loop records relative to them. All statements assume a
 committed, non-zero gravity, which setValues stores as `g = -|g| < 0`.
 */
module FlightSummary {
  import opened Wrappers
  import opened Kinematics
  import opened ProjectileMotion
  import opened Evolution

  /** Height gained after time `t`, factored: `vy*t + g*t^2/2 = t*(vy + g*t/2)`. */
  lemma RiseFactored(s: State, g: real, t: real)
    ensures ClosedForm(s, g, t).y - s.y == t * (s.vy + 0.5 * g * t)
  {
  }

  /** At `totalTime` the projectile is back at launch height, falling at its launch vertical speed. */
  lemma FlightReturnsToLaunchHeight(f: Fields, origin: (real, real), heading: Heading)
    requires f.g < 0.0
    ensures var L, T := LaunchState(f, origin, heading), TotalTime(f, heading).value;
            ClosedForm(L, f.g, T).y == L.y && ClosedForm(L, f.g, T).vy == -L.vy
  {
    var L, T := LaunchState(f, origin, heading), TotalTime(f, heading).value;
    assert f.g * T == -2.0 * L.vy;
    RiseFactored(L, f.g, T);
    assert L.vy + 0.5 * f.g * T == 0.0;
  }

  /** maxRange is the horizontal distance covered during totalTime. */
  lemma RangeIsDistanceAtFlightTime(f: Fields, origin: (real, real), heading: Heading)
    requires f.g != 0.0
    ensures var L, T := LaunchState(f, origin, heading), TotalTime(f, heading).value;
            ClosedForm(L, f.g, T).x - L.x == MaxRange(f, heading).value
  {
  }

  /** Half-way through the flight the vertical speed is zero and the height is y0 + maxHeight. */
  lemma ApexAtHalfFlightTime(f: Fields, origin: (real, real), heading: Heading)
    requires f.g < 0.0
    ensures var L, T := LaunchState(f, origin, heading), TotalTime(f, heading).value;
            var apex := ClosedForm(L, f.g, T / 2.0);
            apex.vy == 0.0 && apex.y == L.y + MaxHeight(f, heading).value
  {
    var L, T, H := LaunchState(f, origin, heading), TotalTime(f, heading).value, MaxHeight(f, heading).value;
    var g := f.g;
    assert g * T == -2.0 * L.vy;
    RiseFactored(L, g, T / 2.0);
    assert L.vy + 0.5 * g * (T / 2.0) == 0.5 * L.vy;
    assert ClosedForm(L, g, T / 2.0).y - L.y == (T / 2.0) * (0.5 * L.vy);
    assert 2.0 * H * (-g) == L.vy * L.vy;
    assert (T / 2.0) * (0.5 * L.vy) * (-g) == -0.25 * L.vy * (g * T);
    MulCancel(H, (T / 2.0) * (0.5 * L.vy), -g);
  }

  lemma MulCancel(a: real, b: real, c: real)
    requires c != 0.0 && a * c == b * c
    ensures a == b
  {
  }

  /** maxHeight bounds the whole trajectory: no time `t` takes the projectile above y0 + maxHeight. */
  lemma MaxHeightBoundsTrajectory(f: Fields, origin: (real, real), heading: Heading, t: real)
    requires f.g < 0.0
    ensures var L := LaunchState(f, origin, heading);
            ClosedForm(L, f.g, t).y <= L.y + MaxHeight(f, heading).value
  {
    var L, H := LaunchState(f, origin, heading), MaxHeight(f, heading).value;
    var a := -f.g;
    var gap := H - L.vy * t + 0.5 * a * t * t;
    assert ClosedForm(L, f.g, t).y == L.y + L.vy * t - 0.5 * a * t * t;
    assert 2.0 * a * H == L.vy * L.vy;
    assert 2.0 * a * gap == (a * t - L.vy) * (a * t - L.vy);
    SquareNonNegative(a * t - L.vy);
    PositiveFactor(2.0 * a, gap);
  }

  lemma SquareNonNegative(x: real)
    ensures x * x >= 0.0
  {
  }

  lemma PositiveFactor(c: real, x: real)
    requires c > 0.0 && c * x >= 0.0
    ensures x >= 0.0
  {
  }

  /** Before totalTime the projectile is at or above launch height; from then on at or below. */
  lemma HeightAgainstFlightTime(f: Fields, origin: (real, real), heading: Heading, t: real)
    requires f.g < 0.0 && t >= 0.0
    ensures var L, T := LaunchState(f, origin, heading), TotalTime(f, heading).value;
            && (t <= T ==> ClosedForm(L, f.g, t).y >= L.y)
            && (t >= T ==> ClosedForm(L, f.g, t).y <= L.y)
  {
    var L, T, g := LaunchState(f, origin, heading), TotalTime(f, heading).value, f.g;
    assert g * T == -2.0 * L.vy;
    RiseFactored(L, g, t);
    // vy + g*t/2 = (g/2)*(t - T), which has the sign of T - t
    assert L.vy + 0.5 * g * t == 0.5 * g * (t - T);
    if t <= T {
      assert 0.5 * g * (t - T) >= 0.0 by { MulNonPos(0.5 * g, t - T); }
      MulNonNeg(t, L.vy + 0.5 * g * t);
    } else {
      assert 0.5 * g * (t - T) <= 0.0 by { MulMixed(0.5 * g, t - T); }
      MulMixed(L.vy + 0.5 * g * t, t);
    }
  }

  lemma MulNonNeg(a: real, b: real)
    requires a >= 0.0 && b >= 0.0
    ensures a * b >= 0.0
  {
  }

  lemma MulNonPos(a: real, b: real)
    requires a <= 0.0 && b <= 0.0
    ensures a * b >= 0.0
  {
  }

  lemma MulMixed(a: real, b: real)
    requires a <= 0.0 && b >= 0.0
    ensures a * b <= 0.0
  {
  }

  /** The number of steps `evolve` takes: one per element of the time vector. */
  function StepsOfEvolve(f: Fields, heading: Heading): nat
    requires f.g != 0.0
  {
    |GetTimeVec(f, heading).value|
  }

  /** The last grid time of `evolve` is the first multiple of DT at or past totalTime. */
  lemma TimeVecBracketsFlightTime(f: Fields, heading: Heading)
    requires f.g != 0.0
    ensures var m, T := StepsOfEvolve(f, heading), TotalTime(f, heading).value;
            && (m == 0 || (m - 1) as real * DT < T)
            && m as real * DT >= T
  {
    var ts := GetTimeVec(f, heading).value;
    assert |ts| > 0 ==> ts[|ts| - 1] == (|ts| - 1) as real * DT;
  }

  /**
   A history on the closed form whose first `m` sample times lie before
   totalTime and whose last lies at or after it: every sample but the last
   is at or above launch height, and the last is at or below.
   */
  lemma HeightsAroundFlightTime(h: History, f: Fields, heading: Heading, m: nat)
    requires f.g < 0.0 && Aligned(h) && |h.x| == m + 1
    requires OnClosedForm(h, LaunchState(f, (0.0, 0.0), heading), f.g)
    requires m == 0 || (m - 1) as real * DT < TotalTime(f, heading).value
    requires m == 0 || m as real * DT >= TotalTime(f, heading).value
    ensures forall k :: 0 <= k < m ==> h.y[k] >= h.y[0]
    ensures h.y[m] <= h.y[0]
  {
    var L := LaunchState(f, (0.0, 0.0), heading);
    assert Sample(h, 0) == ClosedForm(L, f.g, 0 as real * DT) == L;
    forall k | 0 <= k < m
      ensures h.y[k] >= L.y
    {
      assert Sample(h, k) == ClosedForm(L, f.g, k as real * DT);
      HeightAgainstFlightTime(f, (0.0, 0.0), heading, k as real * DT);
    }
    assert Sample(h, m) == ClosedForm(L, f.g, m as real * DT);
    if m > 0 {
      HeightAgainstFlightTime(f, (0.0, 0.0), heading, m as real * DT);
    }
  }

  /** After setValues, `m` steps bracketing totalTime record heights on either side of y0 as stated above. */
  lemma EvolvedHeightsAroundFlightTime(entries: seq<Entry>, heading: Heading, m: nat)
    requires AllNumeric(entries)
    requires var f := Launched(entries, heading).value.fields;
             && f.g < 0.0
             && (m == 0 || (m - 1) as real * DT < TotalTime(f, heading).value)
             && (m == 0 || m as real * DT >= TotalTime(f, heading).value)
    ensures var h := Evolved(entries, heading, m).hist;
            && Aligned(h) && |h.y| == m + 1
            && (forall k :: 0 <= k < m ==> h.y[k] >= h.y[0])
            && h.y[m] <= h.y[0]
  {
    LaunchRecordsLaunchState(entries, heading);
    HistoryFollowsClosedForm(entries, heading, m);
    HeightsAroundFlightTime(Evolved(entries, heading, m).hist, Launched(entries, heading).value.fields, heading, m);
  }

  lemma EvolveRunsTimeVec(e: Engine, heading: Heading)
    requires e.fields.g != 0.0 && Ready(e)
    ensures Evolve(e, heading) == Success(Run(e, StepsOfEvolve(e.fields, heading)))
  {
  }

  /**
   `evolve` after setValues (with a non-zero g entry) succeeds and stops at
   the first grid time at or past totalTime: every earlier sample is at or
   above launch height and the last one is at or below it. (The source
   keeps every recorded sample; it does not truncate at impact.)
   */
  lemma EvolveStopsAtLaunchHeight(entries: seq<Entry>, heading: Heading)
    requires AllNumeric(entries)
    requires LastValue(entries, G).Some? && LastValue(entries, G).value != 0.0
    ensures var e0 := Launched(entries, heading).value;
            var m, r := StepsOfEvolve(e0.fields, heading), Evolve(e0, heading);
            && r.Success?
            && var h := r.value.hist;
               && Aligned(h) && |h.y| == m + 1
               && (forall k :: 0 <= k < m ==> h.y[k] >= h.y[0])
               && h.y[m] <= h.y[0]
  {
    EvolveAfterLaunch(entries, heading);
    var f := Launched(entries, heading).value.fields;
    TimeVecBracketsFlightTime(f, heading);
    EvolvedHeightsAroundFlightTime(entries, heading, StepsOfEvolve(f, heading));
  }

  /** With a non-zero g entry, setValues stores g < 0 and evolve then runs the whole time vector. */
  lemma EvolveAfterLaunch(entries: seq<Entry>, heading: Heading)
    requires AllNumeric(entries)
    requires LastValue(entries, G).Some? && LastValue(entries, G).value != 0.0
    ensures var e0 := Launched(entries, heading).value;
            && e0.fields.g < 0.0
            && Evolve(e0, heading) == Success(Evolved(entries, heading, StepsOfEvolve(e0.fields, heading)))
  {
    LaunchRecordsLaunchState(entries, heading);
    var e0 := Launched(entries, heading).value;
    assert e0.fields.g < 0.0;
    EvolveRunsTimeVec(e0, heading);
  }
}

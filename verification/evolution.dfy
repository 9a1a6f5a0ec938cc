/**
 What the ProjectileMotion engine records once setValues has run on a fresh
 engine and the stepper has been driven for any number of steps: the whole
 history follows the closed-form trajectory, time is a uniform grid, forces
 are constant, momentum is mass times velocity, all eleven lists keep equal
 length and (with g <= 0) mechanical energy is exactly conserved. All of it
 is proved by induction over the step count.
 */
module Evolution {
  import opened Wrappers
  import opened Kinematics
  import opened ProjectileMotion

  /**
   The invariant the stepper keeps: `e` has taken `|x| - 1` steps from the
   launch state `s0`, and every recorded quantity is what the closed form
   and the derived-quantity formulas say it should be.
   */
  ghost predicate Tracks(e: Engine, s0: State)
  {
    && TracksState(e, s0)
    && TracksSamples(e.hist, e.fields, s0)
    && TracksDerived(e.hist, e.fields)
    && TracksForces(e.hist, e.fields)
  }

  /** The lists are aligned and the live state and clock sit at the last sample. */
  ghost predicate TracksState(e: Engine, s0: State)
  {
    var n := |e.hist.x|;
    && n >= 1 && Aligned(e.hist)
    && e.timeElapsed == (n - 1) as real * DT
    && e.state == Some(ClosedForm(s0, e.fields.g, (n - 1) as real * DT))
  }

  /**
   Every recorded sample `k` is the closed form at time `t = k*DT`:
   x = x0 + v0x*t, vx = v0x, y = y0 + v0y*t + g*t^2/2, vy = v0y + g*t.
   */
  ghost predicate OnClosedForm(h: History, s0: State, g: real)
    requires Aligned(h)
  {
    forall k :: 0 <= k < |h.x| ==> Sample(h, k) == ClosedForm(s0, g, k as real * DT)
  }

  /** The samples lie on the closed form, and `t[i]` records the time `i*DT`. */
  ghost predicate TracksSamples(h: History, f: Fields, s0: State)
    requires Aligned(h)
  {
    && OnClosedForm(h, s0, f.g)
    && (forall i :: 0 <= i < |h.x| ==> h.t[i] == i as real * DT)
  }

  /** Momentum and energies are the formulas of the recorded velocity and height. */
  ghost predicate TracksDerived(h: History, f: Fields)
    requires Aligned(h)
  {
    && (forall i :: 0 <= i < |h.x| ==> h.px[i] == f.mass * h.vx[i] && h.py[i] == f.mass * h.vy[i])
    && (forall i :: 0 <= i < |h.x| ==> h.k[i] == Kinetic(f.mass, h.vx[i], h.vy[i]))
    && (forall i :: 0 <= i < |h.x| ==> h.u[i] == Potential(f.mass, f.g, h.y[i]))
  }

  /** The initial force entry is (0, 0); every later one is (0, mass*g). */
  ghost predicate TracksForces(h: History, f: Fields)
    requires Aligned(h) && |h.x| >= 1
  {
    && h.fx[0] == 0.0 && h.fy[0] == 0.0
    && (forall i :: 1 <= i < |h.x| ==> h.fx[i] == 0.0 && h.fy[i] == f.mass * f.g)
  }

  /** The engine right after setValues on a fresh engine. */
  function Launched(entries: seq<Entry>, heading: Heading): Result<Engine, Error>
  {
    SetValues(Init(), entries, heading)
  }

  /**
   setValues on a fresh engine fails only on a non-numeric entry; otherwise
   every history list holds exactly one entry, the state is the launch state,
   the clock is at zero and the engine can step. A g entry is stored as
   minus its magnitude.
   */
  lemma LaunchRecordsLaunchState(entries: seq<Entry>, heading: Heading)
    ensures Launched(entries, heading).Success? <==> AllNumeric(entries)
    ensures Launched(entries, heading).Success? ==>
              var e := Launched(entries, heading).value;
              && Aligned(e.hist) && |e.hist.x| == 1 && Ready(e) && e.timeElapsed == 0.0
              && e.state == Some(LaunchState(e.fields, (0.0, 0.0), heading))
    ensures Launched(entries, heading).Success? && LastValue(entries, G).Some? ==>
              Launched(entries, heading).value.fields.g == -Abs(LastValue(entries, G).value)
  {
    var r := Launched(entries, heading);
    if r.Success? {
      LaunchRecordsOneSample(entries, heading, r.value);
    }
  }

  /** On a fresh engine, a successful setValues starts the tracking invariant. */
  lemma LaunchStartsTracking(entries: seq<Entry>, heading: Heading)
    requires AllNumeric(entries)
    ensures Launched(entries, heading).Success?
    ensures Tracks(Launched(entries, heading).value, Launched(entries, heading).value.state.value)
  {
    LaunchRecordsLaunchState(entries, heading);
    var e := Launched(entries, heading).value;
    LaunchRecordsOneSample(entries, heading, e);
    SingleSampleTracks(e);
  }

  lemma LaunchRecordsOneSample(entries: seq<Entry>, heading: Heading, e: Engine)
    requires SetValues(Init(), entries, heading) == Success(e)
    ensures e.state == Some(LaunchState(e.fields, (0.0, 0.0), heading)) && e.timeElapsed == 0.0
    ensures var h, s0, m, g := e.hist, e.state.value, e.fields.mass, e.fields.g;
            && Aligned(h) && |h.x| == 1
            && h.x[0] == s0.x && h.y[0] == s0.y && h.vx[0] == s0.vx && h.vy[0] == s0.vy
            && h.t[0] == 0.0 && h.fx[0] == 0.0 && h.fy[0] == 0.0
            && h.px[0] == m * s0.vx && h.py[0] == m * s0.vy
            && h.k[0] == Kinetic(m, s0.vx, s0.vy) && h.u[0] == Potential(m, g, s0.y)
  {
    var h := e.hist;
    assert |h.vx| == 1 && |h.vy| == 1 && |h.px| == 1 && |h.py| == 1 && |h.k| == 1 && |h.u| == 1;
  }

  /** An engine holding only its launch sample satisfies the tracking invariant. */
  lemma SingleSampleTracks(e: Engine)
    requires e.state.Some? && e.timeElapsed == 0.0
    requires var h, s0, m, g := e.hist, e.state.value, e.fields.mass, e.fields.g;
             && Aligned(h) && |h.x| == 1
             && h.x[0] == s0.x && h.y[0] == s0.y && h.vx[0] == s0.vx && h.vy[0] == s0.vy
             && h.t[0] == 0.0 && h.fx[0] == 0.0 && h.fy[0] == 0.0
             && h.px[0] == m * s0.vx && h.py[0] == m * s0.vy
             && h.k[0] == Kinetic(m, s0.vx, s0.vy) && h.u[0] == Potential(m, g, s0.y)
    ensures Tracks(e, e.state.value)
  {
    var h, s0 := e.hist, e.state.value;
    assert ClosedForm(s0, e.fields.g, 0 as real * DT) == s0;
    assert TracksState(e, s0);
    assert TracksSamples(h, e.fields, s0) by {
      assert Sample(h, 0) == s0;
    }
    assert TracksDerived(h, e.fields);
    assert TracksForces(h, e.fields);
  }

  /** A fresh engine cannot step: setValues has not installed a state. */
  lemma FreshEngineCannotStep()
    ensures Step(Init()) == Failure(MissingState)
  {
  }

  lemma ExtendedIndex(a: seq<real>, b: seq<real>, i: int)
    requires Extended(a, b, 1) && 0 <= i < |a|
    ensures b[i] == a[i]
  {
    assert b[..|a|][i] == b[i];
  }

  lemma StepKeepsState(e: Engine, s0: State)
    requires TracksState(e, s0)
    ensures Step(e).Success? && TracksState(Step(e).value, s0)
  {
    var n, g := |e.hist.x|, e.fields.g;
    var tn := (n - 1) as real * DT;
    ClosedFormComposes(s0, g, tn, DT);
    assert tn + DT == n as real * DT;
  }

  lemma StepKeepsSamples(e: Engine, s0: State)
    requires TracksState(e, s0) && TracksSamples(e.hist, e.fields, s0)
    ensures Step(e).Success? && Aligned(Step(e).value.hist)
    ensures TracksSamples(Step(e).value.hist, e.fields, s0)
  {
    StepKeepsState(e, s0);
    var h, h', n := e.hist, Step(e).value.hist, |e.hist.x|;
    forall i | 0 <= i < n + 1
      ensures Sample(h', i) == ClosedForm(s0, e.fields.g, i as real * DT)
      ensures h'.t[i] == i as real * DT
    {
      if i < n {
        ExtendedIndex(h.x, h'.x, i);
        ExtendedIndex(h.y, h'.y, i);
        ExtendedIndex(h.vx, h'.vx, i);
        ExtendedIndex(h.vy, h'.vy, i);
        ExtendedIndex(h.t, h'.t, i);
        assert Sample(h', i) == Sample(h, i);
      }
    }
  }

  lemma DerivedExtends(h: History, h': History, f: Fields)
    requires Aligned(h) && Aligned(h') && HistoryGrew(h, h', 1)
    requires TracksDerived(h, f)
    requires var n := |h.x|;
             && h'.px[n] == f.mass * h'.vx[n] && h'.py[n] == f.mass * h'.vy[n]
             && h'.k[n] == Kinetic(f.mass, h'.vx[n], h'.vy[n])
             && h'.u[n] == Potential(f.mass, f.g, h'.y[n])
    ensures TracksDerived(h', f)
  {
    var n := |h.x|;
    forall i | 0 <= i < n
      ensures h'.px[i] == f.mass * h'.vx[i] && h'.py[i] == f.mass * h'.vy[i]
      ensures h'.k[i] == Kinetic(f.mass, h'.vx[i], h'.vy[i])
      ensures h'.u[i] == Potential(f.mass, f.g, h'.y[i])
    {
      ExtendedIndex(h.y, h'.y, i);
      ExtendedIndex(h.vx, h'.vx, i);
      ExtendedIndex(h.vy, h'.vy, i);
      ExtendedIndex(h.px, h'.px, i);
      ExtendedIndex(h.py, h'.py, i);
      ExtendedIndex(h.k, h'.k, i);
      ExtendedIndex(h.u, h'.u, i);
    }
  }

  lemma CacheKeepsDerived(h: History, f: Fields, s: State, time: real)
    requires |h.vx| > 0 && |h.vy| > 0 && Aligned(h) && TracksDerived(h, f)
    ensures Aligned(Cache(h, f, s, time)) && TracksDerived(Cache(h, f, s, time), f)
  {
    var h', n := Cache(h, f, s, time), |h.x|;
    assert h'.px[n] == f.mass * s.vx && h'.py[n] == f.mass * s.vy;
    assert h'.k[n] == Kinetic(f.mass, s.vx, s.vy);
    assert h'.u[n] == Potential(f.mass, f.g, s.y);
    assert h'.vx[n] == s.vx && h'.vy[n] == s.vy && h'.y[n] == s.y;
    DerivedExtends(h, h', f);
  }

  lemma StepKeepsDerived(e: Engine, s0: State)
    requires TracksState(e, s0) && TracksDerived(e.hist, e.fields)
    ensures Step(e).Success? && Aligned(Step(e).value.hist)
    ensures TracksDerived(Step(e).value.hist, e.fields)
  {
    var e' := Step(e).value;
    CacheKeepsDerived(e.hist, e.fields, e'.state.value, e'.timeElapsed);
  }

  lemma ForcesExtend(h: History, h': History, f: Fields)
    requires Aligned(h) && Aligned(h') && |h.x| >= 1 && HistoryGrew(h, h', 1)
    requires TracksForces(h, f)
    requires h'.fx[|h.x|] == 0.0 && h'.fy[|h.x|] == f.mass * f.g
    ensures TracksForces(h', f)
  {
    forall i | 0 <= i < |h.x|
      ensures h'.fx[i] == h.fx[i] && h'.fy[i] == h.fy[i]
    {
      ExtendedIndex(h.fx, h'.fx, i);
      ExtendedIndex(h.fy, h'.fy, i);
    }
  }

  /** A force whose impulse over one step is `m*(a*DT)` is `m*a`. */
  lemma ImpulseOverStep(force: real, m: real, a: real)
    requires force * DT == m * (a * DT)
    ensures force == m * a
  {
    assert force * DT == (m * a) * DT;
  }

  /** Forces recorded by a cache whose velocity change is exactly (0, g*DT). */
  lemma CacheKeepsForces(h: History, f: Fields, s: State, time: real)
    requires |h.vx| > 0 && |h.vy| > 0 && Aligned(h) && |h.x| >= 1 && TracksForces(h, f)
    requires s.vx == Last(h.vx) && s.vy - Last(h.vy) == f.g * DT
    ensures Aligned(Cache(h, f, s, time)) && TracksForces(Cache(h, f, s, time), f)
  {
    var h', n := Cache(h, f, s, time), |h.x|;
    assert Last(h'.vx) == s.vx && Last(h'.vy) == s.vy;
    ImpulseOverStep(Last(h'.fx), f.mass, 0.0);
    ImpulseOverStep(Last(h'.fy), f.mass, f.g);
    ForcesExtend(h, h', f);
  }

  lemma StepKeepsForces(e: Engine, s0: State)
    requires TracksState(e, s0) && TracksSamples(e.hist, e.fields, s0) && TracksForces(e.hist, e.fields)
    ensures Step(e).Success? && Aligned(Step(e).value.hist) && |Step(e).value.hist.x| >= 1
    ensures TracksForces(Step(e).value.hist, e.fields)
  {
    var h, n := e.hist, |e.hist.x|;
    var e' := Step(e).value;
    var s, s' := e.state.value, e'.state.value;
    assert Sample(h, n - 1) == s;
    assert Last(h.vx) == s.vx && Last(h.vy) == s.vy;
    CacheKeepsForces(h, e.fields, s', e'.timeElapsed);
  }

  /** One step keeps the tracking invariant. */
  lemma StepPreservesTracks(e: Engine, s0: State)
    requires Tracks(e, s0)
    ensures Step(e).Success? && Tracks(Step(e).value, s0)
  {
    StepKeepsState(e, s0);
    StepKeepsSamples(e, s0);
    StepKeepsDerived(e, s0);
    StepKeepsForces(e, s0);
  }

  /** By induction over the step count, `n` steps keep the tracking invariant. */
  lemma {:induction false} RunPreservesTracks(e: Engine, s0: State, n: nat)
    requires Tracks(e, s0)
    ensures Ready(e) && Tracks(Run(e, n), s0)
    decreases n
  {
    if n > 0 {
      StepPreservesTracks(e, s0);
      RunPreservesTracks(Step(e).value, s0, n - 1);
    }
  }

  /** The engine after setValues and `n` steps. */
  function Evolved(entries: seq<Entry>, heading: Heading, n: nat): Engine
    requires AllNumeric(entries)
  {
    LaunchRecordsLaunchState(entries, heading);
    Run(Launched(entries, heading).value, n)
  }

  lemma EvolvedTracks(entries: seq<Entry>, heading: Heading, n: nat)
    requires AllNumeric(entries)
    ensures var e0 := Launched(entries, heading).value;
            Tracks(Evolved(entries, heading, n), e0.state.value)
            && Evolved(entries, heading, n).fields == e0.fields
            && |Evolved(entries, heading, n).hist.x| == n + 1
  {
    LaunchRecordsLaunchState(entries, heading);
    LaunchStartsTracking(entries, heading);
    var e0 := Launched(entries, heading).value;
    RunPreservesTracks(e0, e0.state.value, n);
    assert Evolved(entries, heading, n) == Run(e0, n);
  }

  /** After setValues each step appends one entry to every list, so all eleven stay equally long. */
  // no automatic induction on `n`: the proof is the call to EvolvedTracks
  lemma {:induction false} HistoryListsStayAligned(entries: seq<Entry>, heading: Heading, n: nat)
    requires AllNumeric(entries)
    ensures Aligned(Evolved(entries, heading, n).hist)
    ensures |Evolved(entries, heading, n).hist.t| == n + 1
  {
    EvolvedTracks(entries, heading, n);
  }

  /**
   Positions and velocities after `k` steps match the closed form at time
   `k*DT`: x = x0 + v0x*t, y = y0 + v0y*t + g*t^2/2, vx = v0x, vy = v0y + g*t.
   */
  // no automatic induction on `n`: the proof is the call to EvolvedTracks
  lemma {:induction false} HistoryFollowsClosedForm(entries: seq<Entry>, heading: Heading, n: nat)
    requires AllNumeric(entries)
    ensures var e0, e := Launched(entries, heading).value, Evolved(entries, heading, n);
            && Aligned(e.hist) && |e.hist.x| == n + 1
            && OnClosedForm(e.hist, e0.state.value, e0.fields.g)
            && e.state == Some(ClosedForm(e0.state.value, e0.fields.g, n as real * DT))
  {
    EvolvedTracks(entries, heading, n);
    var e0, e := Launched(entries, heading).value, Evolved(entries, heading, n);
    TrackedIsOnClosedForm(e, e0.state.value, n);
  }

  /** A tracked engine's samples and live state lie on the closed form from its launch state. */
  lemma TrackedIsOnClosedForm(e: Engine, s0: State, n: nat)
    requires Tracks(e, s0) && |e.hist.x| == n + 1
    ensures Aligned(e.hist) && OnClosedForm(e.hist, s0, e.fields.g)
    ensures e.state == Some(ClosedForm(s0, e.fields.g, n as real * DT))
  {
    assert TracksState(e, s0);
    assert (|e.hist.x| - 1) as real * DT == n as real * DT;
    assert TracksSamples(e.hist, e.fields, s0);
  }

  /** The recorded time after `k` steps is `k*DT`, so the time history is strictly increasing. */
  // no automatic induction on `n`: the proof is the call to EvolvedTracks
  lemma {:induction false} TimeHistoryIsUniformGrid(entries: seq<Entry>, heading: Heading, n: nat)
    requires AllNumeric(entries)
    ensures var h := Evolved(entries, heading, n).hist;
            && |h.t| == n + 1
            && (forall k :: 0 <= k <= n ==> h.t[k] == k as real * DT)
            && (forall i, j :: 0 <= i < j <= n ==> h.t[i] < h.t[j])
  {
    EvolvedTracks(entries, heading, n);
  }

  /**
   After the initial entry (0, 0), every recorded force is (0, mass*g), and
   every recorded momentum is mass times the recorded velocity.
   */
  // no automatic induction on `n`: the proof is the call to EvolvedTracks
  lemma {:induction false} ForcesAndMomentaAreExact(entries: seq<Entry>, heading: Heading, n: nat)
    requires AllNumeric(entries)
    ensures var e := Evolved(entries, heading, n);
            var h, m, g := e.hist, e.fields.mass, e.fields.g;
            && Aligned(h) && |h.x| == n + 1
            && h.fx[0] == 0.0 && h.fy[0] == 0.0
            && (forall k :: 1 <= k <= n ==> h.fx[k] == 0.0 && h.fy[k] == m * g)
            && (forall k :: 0 <= k <= n ==> h.px[k] == m * h.vx[k] && h.py[k] == m * h.vy[k])
  {
    EvolvedTracks(entries, heading, n);
  }

  /**
   When the entries include g (so that g is stored as -|g| <= 0), kinetic
   plus potential energy is the same at every recorded index.
   */
  // no automatic induction on `n`: the proof is the call to EvolvedTracks
  lemma {:induction false} EnergyIsConserved(entries: seq<Entry>, heading: Heading, n: nat)
    requires AllNumeric(entries) && LastValue(entries, G).Some?
    ensures var h := Evolved(entries, heading, n).hist;
            && Aligned(h) && |h.k| == n + 1
            && forall k :: 0 <= k <= n ==> h.k[k] + h.u[k] == h.k[0] + h.u[0]
  {
    EvolvedTracks(entries, heading, n);
    var e0, e := Launched(entries, heading).value, Evolved(entries, heading, n);
    var h, m, g, s0 := e.hist, e.fields.mass, e.fields.g, e0.state.value;
    assert g <= 0.0;
    forall k | 0 <= k <= n
      ensures h.k[k] + h.u[k] == Energy(m, g, s0)
    {
      assert h.k[k] + h.u[k] == Energy(m, g, Sample(h, k));
      EnergyConservedAlongClosedForm(m, g, s0, k as real * DT);
    }
  }
}

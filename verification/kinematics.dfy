/**
 The physics behind the projectile stepper: a state vector `(x, vx, y, vy)`,
 the closed-form motion under a constant vertical acceleration `g`, and the
 mechanical energy that motion conserves. Everything is over exact reals;
 IEEE rounding is not modelled, and the exactness results below hold only in
 that idealisation.
 */
module Kinematics {

  /** The stepper's state vector, in the order the source stores it. */
  datatype State = State(x: real, vx: real, y: real, vy: real)

  function Abs(a: real): (r: real)
    ensures r >= 0.0
    ensures r == a || r == -a
  {
    if a < 0.0 then -a else a
  }

  /** Exact trajectory at time `t` of a body that starts in `s` and falls with acceleration `g`. */
  function ClosedForm(s: State, g: real, t: real): State
  {
    State(s.x + s.vx * t, s.vx, s.y + s.vy * t + 0.5 * g * t * t, s.vy + g * t)
  }

  /**
   One update of length `dt` (ProjectileMotion.step): the horizontal velocity
   is kept, the vertical velocity gains `g*dt`, and each coordinate moves by
   the mean of its old and new velocity times `dt` — the exact displacement
   under a constant acceleration.
   */
  function Advance(s: State, g: real, dt: real): (r: State)
    ensures r.vx == s.vx
    ensures r.vy - s.vy == g * dt
    ensures r.x - s.x == (s.vx + r.vx) / 2.0 * dt
    ensures r.y - s.y == (s.vy + r.vy) / 2.0 * dt
  {
    State(s.x + s.vx * dt, s.vx, s.y + s.vy * dt + 0.5 * g * dt * dt, s.vy + g * dt)
  }

  /** Kinetic energy `0.5*m*(vx^2 + vy^2)`. */
  function Kinetic(m: real, vx: real, vy: real): real
  {
    0.5 * m * (vx * vx + vy * vy)
  }

  /** Potential energy `m*|g|*y`, measured from y = 0. */
  function Potential(m: real, g: real, y: real): real
  {
    m * Abs(g) * y
  }

  function Energy(m: real, g: real, s: State): real
  {
    Kinetic(m, s.vx, s.vy) + Potential(m, g, s.y)
  }

  /** One update lands exactly on the closed-form trajectory. */
  lemma AdvanceFollowsClosedForm(s: State, g: real, dt: real)
    ensures Advance(s, g, dt) == ClosedForm(s, g, dt)
  {
  }

  /** Following the trajectory for `t1` and then for `t2` is following it for `t1 + t2`. */
  lemma ClosedFormComposes(s: State, g: real, t1: real, t2: real)
    ensures ClosedForm(ClosedForm(s, g, t1), g, t2) == ClosedForm(s, g, t1 + t2)
  {
    var m := ClosedForm(s, g, t1);
    var c := ClosedForm(s, g, t1 + t2);
    var r := ClosedForm(m, g, t2);
    assert r.x == c.x by {
      assert s.vx * t1 + s.vx * t2 == s.vx * (t1 + t2);
    }
    assert r.vy == c.vy by {
      assert g * t1 + g * t2 == g * (t1 + t2);
    }
    assert r.y == c.y by {
      assert (s.vy + g * t1) * t2 == s.vy * t2 + g * t1 * t2;
      assert s.vy * t1 + s.vy * t2 == s.vy * (t1 + t2);
      assert 0.5 * g * (t1 + t2) * (t1 + t2) == 0.5 * g * t1 * t1 + g * t1 * t2 + 0.5 * g * t2 * t2;
    }
  }

  /**
   With `g <= 0` (so that `|g| = -g`), the closed-form motion keeps kinetic
   plus potential energy exactly constant.
   */
  lemma EnergyConservedAlongClosedForm(m: real, g: real, s: State, t: real)
    requires g <= 0.0
    ensures Energy(m, g, ClosedForm(s, g, t)) == Energy(m, g, s)
  {
    var c := ClosedForm(s, g, t);
    assert Abs(g) == -g;
    assert c.vy * c.vy == s.vy * s.vy + 2.0 * g * t * s.vy + g * g * t * t;
    // specific energy (per unit mass) is unchanged
    assert 0.5 * (c.vx * c.vx + c.vy * c.vy) - g * c.y == 0.5 * (s.vx * s.vx + s.vy * s.vy) - g * s.y;
    assert Kinetic(m, c.vx, c.vy) + Potential(m, g, c.y) == m * (0.5 * (c.vx * c.vx + c.vy * c.vy) - g * c.y);
    assert Kinetic(m, s.vx, s.vy) + Potential(m, g, s.y) == m * (0.5 * (s.vx * s.vx + s.vy * s.vy) - g * s.y);
  }

  /** Hence a single update conserves energy exactly. */
  lemma AdvanceConservesEnergy(m: real, g: real, s: State, dt: real)
    requires g <= 0.0
    ensures Energy(m, g, Advance(s, g, dt)) == Energy(m, g, s)
  {
    AdvanceFollowsClosedForm(s, g, dt);
    EnergyConservedAlongClosedForm(m, g, s, dt);
  }
}

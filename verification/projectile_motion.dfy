/**
 The ProjectileMotion engine: a parameter record, a four-element state
 vector, and eleven parallel history lists that grow by one entry per time
 step. Each operation of the source class is a pure function from one engine
 value to the next; the exceptions the source can raise become `Failure`
 results.

 Arithmetic is over exact reals. The trigonometric conversion of the launch
 angle is a `Heading` parameter, and string-to-float parsing is already done:
 an entry carries `None` where the source's `float()` would fail.
 */
module ProjectileMotion {
  import opened Wrappers
  import opened Kinematics

  /** The fixed time step `self.dt` (seconds). */
  const DT: real := 0.01

  /** The `fields` dictionary: mass (kg), g (m/s^2), launch speed v0 (m/s) and angle theta (degrees). */
  datatype Fields = Fields(mass: real, g: real, v0: real, theta: real)

  /**
   Maps an angle in degrees to `(cos, sin)` of that angle in radians; it
   stands for the source's `np.cos`/`np.sin` of `theta*pi/180`.
   */
  type Heading = real -> (real, real)

  /** A dictionary key other than the four the engine reads. */
  type UnknownKey = k: string | k !in {"mass", "g", "v0", "theta"} witness ""

  /**
   A key of the `fields` dictionary: the four the engine reads, and any other
   key, which setValues stores but nothing reads.
   */
  datatype FieldName = Mass | G | V0 | Theta | Other(key: UnknownKey)

  /** One form entry: a field name and its value, `None` when the text is not a number. */
  datatype Entry = Entry(field: FieldName, value: Option<real>)

  datatype Error =
    | NotANumber(field: FieldName)   // float() rejected the entry for this field
    | MissingState                // a list index on an empty state or history list
    | UndefinedFlightTime         // totalTime divides by |g| = 0

  /** The eleven parallel history lists of the source, in the order `cacheValues` fills them. */
  datatype History = History(
    x: seq<real>, y: seq<real>, vx: seq<real>, vy: seq<real>, t: seq<real>,
    fx: seq<real>, fy: seq<real>, px: seq<real>, py: seq<real>,
    k: seq<real>, u: seq<real>)

  datatype Engine = Engine(
    fields: Fields,
    origin: (real, real),
    timeElapsed: real,
    state: Option<State>,   // the source's `state` list: empty until setValues
    hist: History)

  function Last(s: seq<real>): real
    requires |s| > 0
  {
    s[|s| - 1]
  }

  /** `b` is `a` with exactly `n` entries appended: nothing recorded is ever rewritten. */
  predicate Extended(a: seq<real>, b: seq<real>, n: nat)
  {
    |b| == |a| + n && b[..|a|] == a
  }

  predicate HistoryGrew(h: History, h': History, n: nat)
  {
    && Extended(h.x, h'.x, n) && Extended(h.y, h'.y, n)
    && Extended(h.vx, h'.vx, n) && Extended(h.vy, h'.vy, n)
    && Extended(h.t, h'.t, n)
    && Extended(h.fx, h'.fx, n) && Extended(h.fy, h'.fy, n)
    && Extended(h.px, h'.px, n) && Extended(h.py, h'.py, n)
    && Extended(h.k, h'.k, n) && Extended(h.u, h'.u, n)
  }

  /** All eleven history lists have the same length. */
  predicate Aligned(h: History)
  {
    var n := |h.x|;
    && |h.y| == n && |h.vx| == n && |h.vy| == n && |h.t| == n
    && |h.fx| == n && |h.fy| == n && |h.px| == n && |h.py| == n
    && |h.k| == n && |h.u| == n
  }

  /** The recorded state vector at index `i`. */
  function Sample(h: History, i: nat): State
    requires Aligned(h) && i < |h.x|
  {
    State(h.x[i], h.vx[i], h.y[i], h.vy[i])
  }

  lemma ExtendedTrans(a: seq<real>, b: seq<real>, c: seq<real>, n: nat, m: nat)
    requires Extended(a, b, n) && Extended(b, c, m)
    ensures Extended(a, c, n + m)
  {
    assert c[..|a|] == c[..|b|][..|a|];
  }

  lemma HistoryGrewRefl(h: History)
    ensures HistoryGrew(h, h, 0)
  {
    assert h.x[..|h.x|] == h.x;
    assert h.y[..|h.y|] == h.y;
    assert h.vx[..|h.vx|] == h.vx;
    assert h.vy[..|h.vy|] == h.vy;
    assert h.t[..|h.t|] == h.t;
    assert h.fx[..|h.fx|] == h.fx;
    assert h.fy[..|h.fy|] == h.fy;
    assert h.px[..|h.px|] == h.px;
    assert h.py[..|h.py|] == h.py;
    assert h.k[..|h.k|] == h.k;
    assert h.u[..|h.u|] == h.u;
  }

  lemma HistoryGrewTrans(h1: History, h2: History, h3: History, n: nat, m: nat)
    requires HistoryGrew(h1, h2, n) && HistoryGrew(h2, h3, m)
    ensures HistoryGrew(h1, h3, n + m)
  {
    ExtendedTrans(h1.x, h2.x, h3.x, n, m);
    ExtendedTrans(h1.y, h2.y, h3.y, n, m);
    ExtendedTrans(h1.vx, h2.vx, h3.vx, n, m);
    ExtendedTrans(h1.vy, h2.vy, h3.vy, n, m);
    ExtendedTrans(h1.t, h2.t, h3.t, n, m);
    ExtendedTrans(h1.fx, h2.fx, h3.fx, n, m);
    ExtendedTrans(h1.fy, h2.fy, h3.fy, n, m);
    ExtendedTrans(h1.px, h2.px, h3.px, n, m);
    ExtendedTrans(h1.py, h2.py, h3.py, n, m);
    ExtendedTrans(h1.k, h2.k, h3.k, n, m);
    ExtendedTrans(h1.u, h2.u, h3.u, n, m);
  }

  // ---------------------------------------------------------------------------
  // Construction and parameters
  // ---------------------------------------------------------------------------

  /**
   `__init__`: default fields, origin (0, 0), no state yet. Position, time
   and force lists start with one entry; velocity, momentum and energy
   lists start empty and receive their first entry from setValues.
   */
  function Init(): (e: Engine)
    ensures e.fields.g == 9.81 && e.fields.mass == 1.0 && e.fields.v0 == 10.0 && e.fields.theta == 45.0
    ensures e.origin == (0.0, 0.0) && e.timeElapsed == 0.0 && e.state == None
    // position, time and force lists hold one entry each, at the origin and time zero
    ensures var h := e.hist;
            && h.x == [0.0] && h.y == [0.0] && h.t == [0.0] && h.fx == [0.0] && h.fy == [0.0]
            && |h.vx| == 0 && |h.vy| == 0 && |h.px| == 0 && |h.py| == 0 && |h.k| == 0 && |h.u| == 0
  {
    Engine(
      Fields(1.0, 9.81, 10.0, 45.0),
      (0.0, 0.0),
      0.0,
      None,
      History([0.0], [0.0], [], [], [0.0], [0.0], [0.0], [], [], [], []))
  }

  /** `getInitialVelocities`: the launch speed resolved along the heading of theta. */
  function InitialVelocities(f: Fields, heading: Heading): (real, real)
  {
    var dir := heading(f.theta);
    (f.v0 * dir.0, f.v0 * dir.1)
  }

  /**
   The initial velocity points along the heading: it is parallel to it, and
   its projection on the heading is `v0` times the heading's squared length.
   */
  lemma InitialVelocityAlongHeading(f: Fields, heading: Heading)
    ensures var v, dir := InitialVelocities(f, heading), heading(f.theta);
            && v.0 * dir.1 == v.1 * dir.0
            && v.0 * dir.0 + v.1 * dir.1 == f.v0 * (dir.0 * dir.0 + dir.1 * dir.1)
  {
    var c, s := heading(f.theta).0, heading(f.theta).1;
    assert (f.v0 * c) * s == (f.v0 * s) * c;
    assert (f.v0 * c) * c + (f.v0 * s) * s == f.v0 * (c * c + s * s);
  }

  /** With a unit heading, the initial velocity has magnitude `|v0|`. */
  lemma InitialSpeedIsV0(f: Fields, heading: Heading)
    requires heading(f.theta).0 * heading(f.theta).0 + heading(f.theta).1 * heading(f.theta).1 == 1.0
    ensures InitialVelocities(f, heading).0 * InitialVelocities(f, heading).0
          + InitialVelocities(f, heading).1 * InitialVelocities(f, heading).1 == f.v0 * f.v0
  {
    var c := heading(f.theta).0;
    var s := heading(f.theta).1;
    assert (f.v0 * c) * (f.v0 * c) + (f.v0 * s) * (f.v0 * s) == f.v0 * f.v0 * (c * c + s * s);
  }

  /** The state vector `[x0, v0x, y0, v0y]` that setValues installs. */
  function LaunchState(f: Fields, origin: (real, real), heading: Heading): State
  {
    var v := InitialVelocities(f, heading);
    State(origin.0, v.0, origin.1, v.1)
  }

  /** Stores one parsed value; g is stored as `-|g|`. */
  function Assign(f: Fields, name: FieldName, v: real): Fields
  {
    match name
    case Mass => f.(mass := v)
    case G => f.(g := -Abs(v))
    case V0 => f.(v0 := v)
    case Theta => f.(theta := v)
    case Other(_) => f
  }

  predicate AllNumeric(entries: seq<Entry>)
  {
    forall i :: 0 <= i < |entries| ==> entries[i].value.Some?
  }

  /** Reference definition: the value of the last numeric entry named `name`, if any. */
  function LastValue(entries: seq<Entry>, name: FieldName): Option<real>
  {
    if |entries| == 0 then None
    else if entries[|entries| - 1].field == name && entries[|entries| - 1].value.Some? then entries[|entries| - 1].value
    else LastValue(entries[..|entries| - 1], name)
  }

  function Updated(current: real, v: Option<real>): real
  {
    match v
    case Some(x) => x
    case None => current
  }

  /**
   `f'` is what `f` becomes once `entries` are committed: the last entry of
   each field wins, g is stored as minus its magnitude, and a field with no
   entry keeps its value.
   */
  predicate Committed(f: Fields, entries: seq<Entry>, f': Fields)
  {
    && f'.mass == Updated(f.mass, LastValue(entries, Mass))
    && f'.v0 == Updated(f.v0, LastValue(entries, V0))
    && f'.theta == Updated(f.theta, LastValue(entries, Theta))
    && f'.g == (match LastValue(entries, G) case Some(v) => -Abs(v) case None => f.g)
  }

  lemma {:induction false} LastValueCons(a: Entry, rest: seq<Entry>, name: FieldName)
    ensures LastValue([a] + rest, name)
         == if LastValue(rest, name).Some? then LastValue(rest, name)
            else if a.field == name && a.value.Some? then a.value else None
    decreases |rest|
  {
    var s := [a] + rest;
    if |rest| > 0 {
      var front := rest[..|rest| - 1];
      assert s[|s| - 1] == rest[|rest| - 1];
      assert s[..|s| - 1] == [a] + front;
      if !(rest[|rest| - 1].field == name && rest[|rest| - 1].value.Some?) {
        assert LastValue(s, name) == LastValue([a] + front, name);
        assert LastValue(rest, name) == LastValue(front, name);
        LastValueCons(a, front, name);
      }
    } else {
      assert s[..|s| - 1] == [];
    }
  }

  /** Entry `i` is the first one that is not a number. */
  predicate FirstNonNumeric(entries: seq<Entry>, i: int)
  {
    0 <= i < |entries| && entries[i].value.None? && AllNumeric(entries[..i])
  }

  lemma FirstNonNumericCons(entries: seq<Entry>, i: int)
    requires |entries| > 0 && entries[0].value.Some?
    requires FirstNonNumeric(entries[1..], i)
    ensures FirstNonNumeric(entries, i + 1) && entries[i + 1] == entries[1..][i]
  {
    assert entries[..i + 1] == [entries[0]] + entries[1..][..i];
  }

  lemma CommittedCons(f: Fields, entries: seq<Entry>, v: real, f': Fields)
    requires |entries| > 0 && entries[0].value == Some(v)
    requires Committed(Assign(f, entries[0].field, v), entries[1..], f')
    ensures Committed(f, entries, f')
  {
    var rest := entries[1..];
    assert entries == [entries[0]] + rest;
    LastValueCons(entries[0], rest, Mass);
    LastValueCons(entries[0], rest, G);
    LastValueCons(entries[0], rest, V0);
    LastValueCons(entries[0], rest, Theta);
  }

  /**
   The loop of `setValues` over its entries: parse, store, and abort on the
   first entry that is not a number.
   */
  function AssignAll(f: Fields, entries: seq<Entry>): (r: Result<Fields, Error>)
    ensures r.Success? <==> AllNumeric(entries)
    ensures r.Failure? ==> exists i :: FirstNonNumeric(entries, i) && r.error == NotANumber(entries[i].field)
    ensures r.Success? ==> Committed(f, entries, r.value)
    decreases |entries|
  {
    if |entries| == 0 then Success(f)
    else
      match entries[0].value
      case None =>
        assert FirstNonNumeric(entries, 0) by { assert entries[..0] == []; }
        Failure(NotANumber(entries[0].field))
      case Some(v) =>
        var r := AssignAll(Assign(f, entries[0].field, v), entries[1..]);
        assert r.Success? ==> Committed(f, entries, r.value) by {
          if r.Success? { CommittedCons(f, entries, v, r.value); }
        }
        assert r.Failure? ==> exists i :: FirstNonNumeric(entries, i) && r.error == NotANumber(entries[i].field) by {
          if r.Failure? {
            var i :| FirstNonNumeric(entries[1..], i) && r.error == NotANumber(entries[1..][i].field);
            FirstNonNumericCons(entries, i);
          }
        }
        assert r.Success? <==> AllNumeric(entries) by {
          assert AllNumeric(entries) <==> AllNumeric(entries[1..]) by {
            if AllNumeric(entries[1..]) {
              forall i | 0 <= i < |entries| ensures entries[i].value.Some? {
                if i > 0 { assert entries[i] == entries[1..][i - 1]; }
              }
            }
          }
        }
        r
  }

  /**
   `setValues`: commit the entries, then record the launch velocity, momentum
   and energy and install the state `[x0, v0x, y0, v0y]`. Potential energy
   uses `y[0]`, so an empty position history is an index error.
   */
  function SetValues(e: Engine, entries: seq<Entry>, heading: Heading): (r: Result<Engine, Error>)
    ensures r.Success? <==> AllNumeric(entries) && |e.hist.y| > 0
    ensures !AllNumeric(entries) ==> r.Failure? && r.error.NotANumber?
    ensures r.Success? ==> Committed(e.fields, entries, r.value.fields)
    ensures r.Success? && LastValue(entries, G).Some? ==> r.value.fields.g <= 0.0
    ensures r.Success? ==> r.value.state == Some(LaunchState(r.value.fields, e.origin, heading))
    ensures r.Success? ==>
              var h, h' := e.hist, r.value.hist;
              && h'.x == h.x && h'.y == h.y && h'.t == h.t && h'.fx == h.fx && h'.fy == h.fy
              && Extended(h.vx, h'.vx, 1) && Extended(h.vy, h'.vy, 1)
              && Extended(h.px, h'.px, 1) && Extended(h.py, h'.py, 1)
              && Extended(h.k, h'.k, 1) && Extended(h.u, h'.u, 1)
    // the appended entries describe the launch state
    ensures r.Success? ==>
              var h', m, s := r.value.hist, r.value.fields.mass, r.value.state.value;
              && Last(h'.vx) == s.vx && Last(h'.vy) == s.vy
              && Last(h'.px) == m * s.vx && Last(h'.py) == m * s.vy
              && Last(h'.k) == Kinetic(m, s.vx, s.vy)
              && Last(h'.u) == Potential(m, r.value.fields.g, e.hist.y[0])
    ensures r.Success? ==> r.value.origin == e.origin && r.value.timeElapsed == e.timeElapsed
  {
    match AssignAll(e.fields, entries)
    case Failure(err) => Failure(err)
    case Success(f) =>
      if |e.hist.y| == 0 then Failure(MissingState)
      else
        var s := LaunchState(f, e.origin, heading);
        var m := f.mass;
        var h := e.hist;
        Success(e.(fields := f, state := Some(s),
                   hist := h.(vx := h.vx + [s.vx], vy := h.vy + [s.vy],
                              px := h.px + [m * s.vx], py := h.py + [m * s.vy],
                              k := h.k + [Kinetic(m, s.vx, s.vy)],
                              u := h.u + [Potential(m, f.g, h.y[0])])))
  }

  // ---------------------------------------------------------------------------
  // Stepping
  // ---------------------------------------------------------------------------

  /** The engine can step: it has a state and a previous velocity to difference against. */
  predicate Ready(e: Engine)
  {
    e.state.Some? && |e.hist.vx| > 0 && |e.hist.vy| > 0
  }

  /**
   `cacheValues`: append the new state, the time, and the derived force,
   momentum and energy. Force is the change of momentum over one step.
   */
  function Cache(h: History, f: Fields, s: State, time: real): (r: History)
    requires |h.vx| > 0 && |h.vy| > 0
    ensures HistoryGrew(h, r, 1)
    ensures Last(r.x) == s.x && Last(r.vx) == s.vx && Last(r.y) == s.y && Last(r.vy) == s.vy
    ensures Last(r.t) == time
    // impulse over one step equals the change of momentum
    ensures Last(r.fx) * DT == f.mass * (Last(r.vx) - Last(h.vx))
    ensures Last(r.fy) * DT == f.mass * (Last(r.vy) - Last(h.vy))
    ensures Last(r.px) == f.mass * Last(r.vx) && Last(r.py) == f.mass * Last(r.vy)
    // kinetic and potential energy are recorded separately, and add up to the state's energy
    ensures Last(r.k) == Kinetic(f.mass, s.vx, s.vy) && Last(r.u) == Potential(f.mass, f.g, s.y)
    ensures Last(r.k) + Last(r.u) == Energy(f.mass, f.g, s)
  {
    var m := f.mass;
    History(
      h.x + [s.x], h.y + [s.y], h.vx + [s.vx], h.vy + [s.vy], h.t + [time],
      h.fx + [m * (s.vx - Last(h.vx)) / DT], h.fy + [m * (s.vy - Last(h.vy)) / DT],
      h.px + [m * s.vx], h.py + [m * s.vy],
      h.k + [Kinetic(m, s.vx, s.vy)], h.u + [Potential(m, f.g, s.y)])
  }

  /**
   `step`: one exact constant-acceleration update of length DT, then the
   clock advances and the values are cached. Stepping an engine that
   setValues has not prepared is the source's index error.
   */
  function Step(e: Engine): (r: Result<Engine, Error>)
    ensures r.Success? <==> Ready(e)
    ensures r.Success? ==> Ready(r.value)
    ensures r.Success? ==> r.value.fields == e.fields && r.value.origin == e.origin
    ensures r.Success? ==> r.value.timeElapsed == e.timeElapsed + DT
    ensures r.Success? ==> HistoryGrew(e.hist, r.value.hist, 1)
    ensures r.Success? ==> r.value.hist == Cache(e.hist, e.fields, r.value.state.value, r.value.timeElapsed)
    ensures r.Success? ==>
              var s, s' := e.state.value, r.value.state.value;
              s'.vx == s.vx && s'.x == s.x + s.vx * DT && s'.vy == s.vy + e.fields.g * DT
              && s' == ClosedForm(s, e.fields.g, DT)
    ensures r.Failure? ==> r.error == MissingState
  {
    if !Ready(e) then Failure(MissingState)
    else
      var s := Advance(e.state.value, e.fields.g, DT);
      AdvanceFollowsClosedForm(e.state.value, e.fields.g, DT);
      var time := e.timeElapsed + DT;
      Success(e.(timeElapsed := time, state := Some(s), hist := Cache(e.hist, e.fields, s, time)))
  }

  /** `n` consecutive steps of a ready engine. */
  function Run(e: Engine, n: nat): (r: Engine)
    requires Ready(e)
    ensures Ready(r)
    ensures r.fields == e.fields && r.origin == e.origin
    ensures r.timeElapsed == e.timeElapsed + n as real * DT
    ensures HistoryGrew(e.hist, r.hist, n)
    decreases n
  {
    if n == 0 then
      HistoryGrewRefl(e.hist);
      e
    else
      var e1 := Step(e).value;
      var r := Run(e1, n - 1);
      HistoryGrewTrans(e.hist, e1.hist, r.hist, 1, n - 1);
      r
  }

  // ---------------------------------------------------------------------------
  // Flight summary and the time vector
  // ---------------------------------------------------------------------------

  /**
   `totalTime` = 2*v0y/|g|: the time of flight back to launch height. With
   g = 0 the source divides by zero and gets a non-finite value, which has no
   real counterpart: `None`.
   */
  function TotalTime(f: Fields, heading: Heading): (r: Option<real>)
    ensures r.Some? <==> f.g != 0.0
    ensures r.Some? ==> r.value * Abs(f.g) == 2.0 * InitialVelocities(f, heading).1
  {
    if f.g == 0.0 then None else Some(2.0 * InitialVelocities(f, heading).1 / Abs(f.g))
  }

  /** `maxRange` = 2*v0x*v0y/|g|: the horizontal speed times the time of flight. */
  function MaxRange(f: Fields, heading: Heading): (r: Option<real>)
    ensures r.Some? <==> f.g != 0.0
    ensures r.Some? ==> r.value == InitialVelocities(f, heading).0 * TotalTime(f, heading).value
  {
    var v := InitialVelocities(f, heading);
    if f.g == 0.0 then None else Some((2.0 * v.0 * v.1) / Abs(f.g))
  }

  /** `maxHeight` = 0.5*v0y^2/|g|: never negative. */
  function MaxHeight(f: Fields, heading: Heading): (r: Option<real>)
    ensures r.Some? <==> f.g != 0.0
    ensures r.Some? ==> r.value >= 0.0
    ensures r.Some? ==> 2.0 * r.value * Abs(f.g) == InitialVelocities(f, heading).1 * InitialVelocities(f, heading).1
  {
    var v := InitialVelocities(f, heading);
    if f.g == 0.0 then None else Some(0.5 * (v.1 * v.1) / Abs(f.g))
  }

  function Ceil(a: real): int
  {
    -((-a).Floor)
  }

  lemma CeilBounds(a: real)
    ensures Ceil(a) as real >= a && (Ceil(a) - 1) as real < a
  {
  }

  /** The number of elements of `np.arange(0, stop, step)`: the multiples of `step` in `[0, stop)`. */
  function ArangeCount(stop: real, step: real): (n: nat)
    requires step > 0.0
    ensures n as real * step >= stop
    ensures n > 0 ==> (n - 1) as real * step < stop
  {
    var n := if stop <= 0.0 then 0 else Ceil(stop / step);
    ArangeCountBounds(stop, step, n);
    n
  }

  lemma ArangeCountBounds(stop: real, step: real, n: int)
    requires step > 0.0 && n == (if stop <= 0.0 then 0 else Ceil(stop / step))
    ensures n >= 0
    ensures n as real * step >= stop
    ensures n > 0 ==> (n - 1) as real * step < stop
  {
    CeilBounds(stop / step);
    assert (stop / step) * step == stop;
    if n > 0 {
      assert stop > 0.0 && n == Ceil(stop / step);
      assert (n - 1) as real < stop / step;
      MulStrict((n - 1) as real, stop / step, step);
      assert (n - 1) as real * step < stop;
      assert n as real >= stop / step;
      MulMono(stop / step, n as real, step);
    }
  }

  /** If the last multiple of `step` on the grid is under `stop`, every grid point is. */
  lemma GridBelow(stop: real, step: real, ts: seq<real>)
    requires step > 0.0
    requires forall i :: 0 <= i < |ts| ==> ts[i] == i as real * step
    requires |ts| > 0 ==> (|ts| - 1) as real * step < stop
    ensures forall i :: 0 <= i < |ts| ==> ts[i] < stop
  {
    forall i | 0 <= i < |ts| ensures ts[i] < stop {
      MulMono(i as real, (|ts| - 1) as real, step);
    }
  }

  /**
   `np.arange(0, stop, step)` over exact reals: every multiple of `step` in
   `[0, stop)`, in increasing order, and no other.
   */
  function Arange(stop: real, step: real): (ts: seq<real>)
    requires step > 0.0
    ensures forall i :: 0 <= i < |ts| ==> ts[i] == i as real * step
    ensures forall i :: 0 <= i < |ts| ==> ts[i] < stop
    ensures |ts| as real * step >= stop
  {
    var ts := seq(ArangeCount(stop, step), i requires 0 <= i => i as real * step);
    GridBelow(stop, step, ts);
    ts
  }

  lemma MulStrict(a: real, b: real, c: real)
    requires a < b && c > 0.0
    ensures a * c < b * c
  {
  }

  lemma MulMono(a: real, b: real, c: real)
    requires a <= b && c > 0.0
    ensures a * c <= b * c
  {
  }

  /** `getTimeVec`: the sample times `0, DT, 2*DT, ...` below the time of flight. */
  function GetTimeVec(f: Fields, heading: Heading): (r: Option<seq<real>>)
    ensures r.Some? <==> f.g != 0.0
    ensures r.Some? ==> forall i :: 0 <= i < |r.value| ==> r.value[i] == i as real * DT
    ensures r.Some? ==> forall i :: 0 <= i < |r.value| ==> r.value[i] < TotalTime(f, heading).value
    ensures r.Some? ==> |r.value| as real * DT >= TotalTime(f, heading).value
  {
    match TotalTime(f, heading)
    case None => None
    case Some(T) => Some(Arange(T, DT))
  }

  /**
   `evolve`: one step per element of the time vector. The simulated time
   then covers the whole flight and overshoots it by less than one step.
   */
  function Evolve(e: Engine, heading: Heading): (r: Result<Engine, Error>)
    ensures r.Success? <==> e.fields.g != 0.0 && (|GetTimeVec(e.fields, heading).value| == 0 || Ready(e))
    ensures e.fields.g == 0.0 ==> r == Failure(UndefinedFlightTime)
    ensures r.Success? ==>
              var n := |GetTimeVec(e.fields, heading).value|;
              HistoryGrew(e.hist, r.value.hist, n) && r.value.fields == e.fields
    ensures r.Success? ==>
              var T, d := TotalTime(e.fields, heading).value, r.value.timeElapsed - e.timeElapsed;
              d >= T && (d == 0.0 || d < T + DT)
  {
    match GetTimeVec(e.fields, heading)
    case None => Failure(UndefinedFlightTime)
    case Some(ts) =>
      if |ts| == 0 then
        HistoryGrewRefl(e.hist);
        Success(e)
      else if !Ready(e) then Failure(MissingState)
      else
        assert ts[|ts| - 1] == (|ts| - 1) as real * DT;
        Success(Run(e, |ts|))
  }
}

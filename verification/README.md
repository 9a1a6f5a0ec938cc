# Projectile motion solver — a Dafny model

This project models the numerical core of a small 2D projectile-motion
simulator: the `ProjectileMotion` class (parameter fields, the four-element
state vector `[x, vx, y, vy]`, the eleven parallel history lists, `setValues`,
`step`/`cacheValues`, `evolve` over `getTimeVec`, and the summary formulas
`totalTime`, `maxRange` and `maxHeight`), plus the axis-limit helper
`findMinMax` of the plotting class with its `SCALE_FACTOR = 1.05`.

Every operation is a pure function over exact reals. An engine value goes in
and the next engine value comes out. Python exceptions become `Failure`
results.

Modules:

- `Wrappers`: `Option` and `Result`.
- `Kinematics`: the state vector, the constant-acceleration update, its closed
  form, and kinetic/potential energy.
- `ProjectileMotion`: the engine itself.
- `Evolution`: what the history holds after `setValues` and any number of
  steps, proved by induction over the step count.
- `FlightSummary`: how `totalTime`, `maxRange` and `maxHeight` relate to the
  trajectory, and where `evolve` stops.
- `PMPlots`: `findMinMax`.

The step update is `x += vx*dt`, `y += vy*dt + g*dt^2/2`, `vy += g*dt`. This
is the exact solution for constant acceleration, so over the reals the
recorded history lies exactly on the closed-form parabola. Every recorded
force after the first is `(0, m*g)`. When g <= 0, which holds once a g entry
has been given, energy is also exactly conserved. The default g of +9.81
does not conserve it.

## Model

| member | source | states |
|---|---|---|
| `Kinematics.Advance` | ProjectileMotion.py:86-91 | one step keeps vx, changes vy by g*dt, and moves each coordinate by the mean of old and new velocity times dt |
| `Kinematics.ClosedFormComposes` | ProjectileMotion.py:83-97 | following the trajectory for t1 and then t2 equals following it for t1 + t2, which is why repeated steps compose |
| `Kinematics.EnergyConservedAlongClosedForm` | ProjectileMotion.py:76-80 | with g <= 0, K + U = 0.5*m*v^2 + m*abs(g)*y is the same at every time of the trajectory |
| `Kinematics.AdvanceConservesEnergy` | ProjectileMotion.py:76-91 | with g <= 0, a single step keeps K + U exactly |
| `ProjectileMotion.Init` | ProjectileMotion.py:24-43 | a fresh engine has mass 1, g = +9.81, v0 = 10, theta = 45, origin (0, 0), time 0 and no state; x, y, t, Fx and Fy hold one zero entry and the other six lists are empty |
| `ProjectileMotion.InitialVelocityAlongHeading` | ProjectileMotion.py:46-50 | the initial velocity is parallel to the (cos, sin) heading of theta, and its projection on the heading is v0 times the heading's squared length |
| `ProjectileMotion.InitialSpeedIsV0` | ProjectileMotion.py:46-50 | with a unit (cos, sin) heading the initial velocity components have magnitude abs(v0) |
| `ProjectileMotion.AssignAll` | ProjectileMotion.py:107-120 | the entry loop succeeds iff every entry parses; otherwise it fails on the first non-numeric entry, naming its field; on success the last entry per field wins and g is stored as -abs(g) |
| `ProjectileMotion.SetValues` | ProjectileMotion.py:106-130 | succeeds iff every entry parses (and y[0] exists); g ends up <= 0 when a g entry is given; the state becomes [x0, v0x, y0, v0y]; only the six velocity/momentum/energy lists gain one entry, holding v0, m*v0 and the launch energies; x, y, t, Fx and Fy are untouched |
| `ProjectileMotion.Cache` | ProjectileMotion.py:53-80 | every one of the eleven lists grows by exactly one entry and nothing earlier changes; Fx*dt and Fy*dt equal the change in momentum; px, py = m*v; K = 0.5*m*(vx^2 + vy^2) and U = m*abs(g)*y of the cached state, each stored separately, so K + U is its energy |
| `ProjectileMotion.Step` | ProjectileMotion.py:83-97 | a step succeeds iff setValues has prepared the engine; vx is unchanged, x advances by vx*dt, vy by g*dt, and the new state is the closed form at dt; time advances by dt; all lists grow by one; otherwise the index error |
| `ProjectileMotion.Run` | ProjectileMotion.py:100-103 | n steps advance time by n*dt, grow every list by n, and keep fields and origin |
| `ProjectileMotion.TotalTime` | ProjectileMotion.py:150-152 | defined iff g != 0, and then totalTime*abs(g) = 2*v0y |
| `ProjectileMotion.MaxRange` | ProjectileMotion.py:139-142 | defined iff g != 0, and then maxRange = v0x*totalTime |
| `ProjectileMotion.MaxHeight` | ProjectileMotion.py:133-136 | defined iff g != 0, never negative, and 2*maxHeight*abs(g) = v0y^2 |
| `ProjectileMotion.ArangeCount` | ProjectileMotion.py:146 | the arange length n is the least count whose grid reaches stop: n*step >= stop, and (n-1)*step < stop when n > 0 |
| `ProjectileMotion.Arange` | ProjectileMotion.py:146 | the arange grid: element i is i*step, every element is below stop, and the grid reaches stop |
| `ProjectileMotion.GetTimeVec` | ProjectileMotion.py:145-147 | defined iff g != 0; element i is i*dt, all lie below totalTime, and the vector covers totalTime |
| `ProjectileMotion.Evolve` | ProjectileMotion.py:100-103 | succeeds iff g != 0 and the engine can step (or there is nothing to do); one step per time-vector element; the elapsed time d satisfies d >= totalTime and d < totalTime + dt unless no step was taken |
| `Evolution.LaunchRecordsLaunchState` | ProjectileMotion.py:24-43 | setValues on a fresh engine succeeds iff all entries parse; it leaves every one of the eleven lists with exactly one entry, the clock at zero, the state at the launch state and the engine able to step; a g entry is stored as -abs(g) |
| `Evolution.LaunchStartsTracking` | ProjectileMotion.py:106-130 | the single launch sample satisfies the tracking invariant: it is the launch state at t = 0, forces (0, 0), momentum m*v0 and the launch energies |
| `Evolution.FreshEngineCannotStep` | ProjectileMotion.py:30 | stepping before setValues is the index error on the empty state |
| `Evolution.StepPreservesTracks` | ProjectileMotion.py:83-97 | one step keeps the tracking invariant: aligned lists, closed-form samples, t[i] = i*dt, derived quantities, and forces (0, m*g) |
| `Evolution.RunPreservesTracks` | ProjectileMotion.py:100-103 | any number of steps keeps the tracking invariant (induction on the step count) |
| `Evolution.HistoryListsStayAligned` | ProjectileMotion.py:53-80 | after setValues and n steps all eleven lists have length n + 1 |
| `Evolution.HistoryFollowsClosedForm` | ProjectileMotion.py:83-97 | after n steps, sample k is x0 + v0x*t, v0x, y0 + v0y*t + g*t^2/2, v0y + g*t at t = k*dt, and the live state is the closed form at n*dt |
| `Evolution.TimeHistoryIsUniformGrid` | ProjectileMotion.py:59 | t[k] = k*dt for every recorded k, so the time history is strictly increasing |
| `Evolution.ForcesAndMomentaAreExact` | ProjectileMotion.py:64-74 | the first force entry is (0, 0), every later one is (0, m*g), and every momentum entry is m times the recorded velocity |
| `Evolution.EnergyIsConserved` | ProjectileMotion.py:76-80 | when a g entry is given, K[k] + U[k] = K[0] + U[0] at every recorded index |
| `FlightSummary.FlightReturnsToLaunchHeight` | ProjectileMotion.py:150-152 | at totalTime the closed form is back at y0 with vertical speed -v0y |
| `FlightSummary.RangeIsDistanceAtFlightTime` | ProjectileMotion.py:139-142 | maxRange is the horizontal distance covered in totalTime |
| `FlightSummary.ApexAtHalfFlightTime` | ProjectileMotion.py:133-136 | at totalTime/2 the vertical speed is zero and the height is y0 + maxHeight |
| `FlightSummary.MaxHeightBoundsTrajectory` | ProjectileMotion.py:133-136 | at no time is the closed-form height above y0 + maxHeight |
| `FlightSummary.HeightAgainstFlightTime` | ProjectileMotion.py:150-152 | for t in [0, totalTime] the height is at least y0, and from totalTime on it is at most y0 |
| `FlightSummary.HeightsAroundFlightTime` | ProjectileMotion.py:145-147 | on a closed-form history whose last sample time is the first grid time at or past totalTime, every earlier height is >= y0 and the last is <= y0 |
| `FlightSummary.TimeVecBracketsFlightTime` | ProjectileMotion.py:145-152 | the last time-vector entry lies before totalTime and one more step reaches or passes it |
| `FlightSummary.EvolveAfterLaunch` | ProjectileMotion.py:100-130 | with a non-zero g entry setValues stores g < 0, and evolve then succeeds with one step per time-vector element |
| `FlightSummary.EvolveStopsAtLaunchHeight` | ProjectileMotion.py:100-152 | after setValues with a non-zero g entry, evolve succeeds; it records one sample per grid time plus the launch sample; every sample before the last is at or above launch height and the last is at or below it |
| `PMPlots.FindMinMax` | PMPlots.py:245-257 | the interval never shrinks; each bound keeps its sign; a bound is unchanged exactly when it is zero or the interval is inverted (min >= 0 > max) |
| `PMPlots.FindMinMaxIsPerBound` | PMPlots.py:245-257 | outside the inverted case each bound is widened by its own sign alone (lower: *1.05 if negative, /1.05 otherwise; upper: /1.05 if negative, *1.05 otherwise); an inverted interval comes back unchanged |
| `PMPlots.FindMinMaxWidensInterval` | PMPlots.py:245-257 | a well-formed interval (min <= max) stays well-formed and gets no narrower |
| `PMPlots.FindMinMaxZero` | PMPlots.py:245-257 | (0, 0) maps to (0, 0) |

## Left out

- The Tk GUI, the window construction, the executable script and all matplotlib plotting and animation: they are presentation only. `findMinMax` and `SCALE_FACTOR` are the only plotting pieces modelled.
- IEEE double rounding: arithmetic is over exact reals. The exact results (closed form, energy conservation, forces exactly `m*g`, `t[k] = k*dt`) hold in that idealisation, not bit-for-bit in floating point.
- The trigonometry of `getInitialVelocities`, `np.cos`/`np.sin` of `theta*pi/180`: it is a `Heading` parameter mapping theta to (cos, sin). `InitialSpeedIsV0` assumes only that the heading is a unit vector.
- Reading Tk entry widgets and `float()` parsing: an entry arrives already parsed, with `None` where `float()` would raise. Printing the message and calling `abort()` become `Failure(NotANumber(field))`.
- Dictionary keys other than mass, g, v0 and theta: setValues stores them but nothing reads them, so the model keeps no value for them. An `Other` key can never spell one of those four names.
- `np.arange` is modelled over exact reals. Its length is the number of multiples of dt below totalTime. Floating-point rounding in that count is not modelled.
- A zero g: `totalTime` (and `maxRange`, `maxHeight`) divide by `abs(g) = 0` and yield a non-finite float, which has no real counterpart. These are `None`, and `evolve` fails with `UndefinedFlightTime`.
- The initial g of `__init__` is +9.81. Only a g entry makes setValues store `-abs(g)`, so `EnergyIsConserved` and `EvolveStopsAtLaunchHeight` require such an entry.
- A failed setValues returns no engine. In the source, the raw entry text is stored in the field before `float()` runs, and the entries before the failing one stay committed; the `abort()` call that follows is not defined by any import visible in the class file. The model's `Failure` carries only the failing field's name, so that partial update is not modelled.
- A failed step returns no engine. In the source, `step` on an engine with no state raises an IndexError at ProjectileMotion.py:86, before anything is assigned. A partial update would need a state together with empty vx/vy lists, and no method of the class produces one.
- `SetValues` on an engine that has already stepped appends to six lists only, so the lists then differ in length. The alignment and tracking results are stated from a fresh engine.
- `ProjectileMotion.Arange`: stated for exact reals. It does not claim the numpy element count for stop values where float rounding changes that count.
- `evolve` keeps every sample, including the last one, which may lie below launch height. Nothing truncates the flight at impact, and the model does not either.
- The drag-enabled engine the front ends call (`evolve(useDrag)`, `clear()`, the `pos`/`F`/`p` attributes used in PMExec.py and ProjectileMotionGUI.py) is not part of this model: its source is a different version of the class that is not present.

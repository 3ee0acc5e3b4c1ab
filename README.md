# Two-body physics stepper of three-js-projects

`three-js-projects/main.js` animates an earth orbiting a sun with three.js.
Each rendered frame runs `simulate(now)`. It does three things in order:

1. `earth.update_force(sun)` sets the earth's force to Newtonian attraction, with G = 1.
2. `earth.advance(now)` and then `sun.advance(now)` run. Each unfrozen planet counts the frame. It also makes one semi-implicit Euler step, but only for a valid timestamp after its first valid one. A frozen planet does neither.
3. `update_trajectory()` appends the earth's new position to a trail, bounded to 1001 points.

A `Planet` is a small guarded state machine with these states:

- **frozen**: the step counter has passed `total_iteration` (100000). `update_force` and `advance` are then no-ops. `setPosition`, `setForce` and `update_velocity` have no such guard and still act.
- **unfrozen, no valid frame yet**: `last_t == 0`.
- **unfrozen, running**: the planet has a previous timestamp to measure `dt` from.

This project models that core in Dafny, in four modules:

- `Vectors` (vectors.dfy) holds the parts of three.js's `Vector3` that the stepper uses, over `real`.
  `Math.sqrt`, which `length()` and `normalize()` call, is a foreign function. The model receives it as a parameter `sqrt`.
  `RootAt(sqrt, s)` states that it returns the non-negative root at `s`. Every property that needs a root assumes it only at the points it uses. The lemmas about the opening frames assume only `sqrt(10000) == 100`, which `Math.sqrt` returns exactly.
- `Planets` (planets.dfy) holds two things:
  - the value `Body`, which is the state of one planet (mesh position, velocity, force, mass, `last_t`, `count`), with the functions `UpdatedForce`, `UpdatedVelocity` and `Advanced` that specify the three operations;
  - the class `Planet`, whose methods update its fields in place with the source's early returns. Each method is proved to produce exactly the function's result on `old(State())`.
- `Trajectories` (trajectories.dfy) holds the bounded FIFO `Recorded`, and the class `Trajectory` whose `Update` does the `shift`/`push` in place.
- `Simulation` (simulation.dfy) holds one frame `Step`, runs of frames, and the method `Simulate`. `Simulate` mutates the two planets and the trail in the source's order and is proved equal to `Step`.

A timestamp is `Timestamp.Invalid` or `Timestamp.Ms(t)`. `Invalid` stands for every value for which `isNaN` is true. An example is the `undefined` passed by the first, direct call `animate()`.

## Model

| member | source | states |
|---|---|---|
| `Vectors.LengthSqNonNegative` | three-js-projects/main.js:46-47 | `lengthSq` is never negative, and it is 0 exactly for the zero offset. So the test at line 47 holds exactly when the two planets are at the same place. |
| `Vectors.Length` | three-js-projects/main.js:46-49 | Where `sqrt` is a root, the length is non-negative, squares to `lengthSq`, and is positive when `lengthSq` is not 0. |
| `Vectors.Normalize` | three-js-projects/main.js:49 | `normalize` divides by the length, or by 1 when the length is 0. A vector of non-zero length is that length times the result. Where `sqrt` is a root, the result has unit length. |
| `Vectors.LengthScale` | three-js-projects/main.js:46-49 | Scaling a vector by k ≥ 0 scales its length by k. |
| `Planets.Attraction` | three-js-projects/main.js:46-49 | The force set by `update_force` lies along d: f·\|d\| = d·(other.mass·mass/\|d\|²). It points towards the other body: f·d > 0. |
| `Planets.AttractionMagnitude` | three-js-projects/main.js:48-49 | The squared magnitude of that force is (other.mass·mass/\|d\|²)². |
| `Planets.UpdatedForce` | three-js-projects/main.js:41-50 | Only the force changes. A frozen planet is unchanged, and so is one whose offset to the partner has `lengthSq` 0, the test at line 47. By `LengthSqNonNegative`, these are exactly the coincident positions. In every other case the force becomes the attraction towards the partner. |
| `Planets.ForceIdempotent` | three-js-projects/main.js:41-50 | A second `update_force` with the same partner changes nothing. In particular, coincident bodies keep their force across repeated calls. |
| `Planets.InverseSquare` | three-js-projects/main.js:46-49 | Moving the partner to twice the offset along the same line quarters the force. |
| `Planets.UpdatedVelocity` | three-js-projects/main.js:52-56 | Only the velocity changes. The change of momentum, mass·(v' − v), equals the force times (now − last_t)/1000. |
| `Planets.Advanced` | three-js-projects/main.js:58-75 | A frozen planet is unchanged. Otherwise `count` goes up by exactly 1, even for an invalid timestamp, which changes nothing else. The first valid frame only sets `last_t`. A later frame satisfies the impulse law and x' = x + v'·dt with the new velocity, and sets `last_t` to `now`. Force and mass never change. |
| `Planets.SemiImplicitEuler` | three-js-projects/main.js:68-72 | A normal frame moves the planet by v·dt + (F/m)·dt·dt. The full dt² (rather than dt²/2) shows that the position uses the updated velocity. |
| `Planets.CountAfterFrames` | three-js-projects/main.js:58-61 | From any count ≤ total_iteration + 1, after n frames the count is min(count + n, total_iteration + 1). It never passes total_iteration + 1. |
| `Planets.FrozenStaysFrozen` | three-js-projects/main.js:58-59 | A frozen planet is left exactly as it is by any sequence of frames. |
| `Planets.FreezesAfterBudget` | three-js-projects/main.js:5 | A fresh planet is frozen after total_iteration + 1 frames, and the next frame changes nothing. |
| `Planets.ForceAndMassKept` | three-js-projects/main.js:58-75 | No sequence of `advance` calls changes the force or the mass. |
| `Planets.ZeroForceKeepsVelocity` | three-js-projects/main.js:52-56 | With zero force, the velocity is the same after any frames. |
| `Planets.RestingBodyStaysPut` | three-js-projects/main.js:58-75 | A body with zero force and zero velocity keeps its position and zero velocity through any frames. |
| `Planets.RestingStep` | three-js-projects/main.js:58-75 | The same for a single frame. |
| `Planets.Planet.constructor` | three-js-projects/main.js:19-29 | A new planet has the given position, mass and velocity (zero by default), zero force, `last_t` 0 and `count` 0. |
| `Planets.Planet.SetPosition` | three-js-projects/main.js:31-33 | Replaces the position and nothing else. |
| `Planets.Planet.SetForce` | three-js-projects/main.js:35-37 | Replaces the force and nothing else. |
| `Planets.Planet.UpdateForce` | three-js-projects/main.js:41-50 | The new state is `UpdatedForce` of the old states of both planets. The partner may be the planet itself. |
| `Planets.Planet.UpdateVelocity` | three-js-projects/main.js:52-56 | The new state is `UpdatedVelocity` of the old one. |
| `Planets.Planet.Advance` | three-js-projects/main.js:58-75 | The new state is `Advanced` of the old one. |
| `Trajectories.Window` | three-js-projects/main.js:163-166 | The newest n elements of a sequence, or all of them when there are fewer. |
| `Trajectories.Recorded` | three-js-projects/main.js:163-166 | The new trail ends with the new point and is a suffix of the old trail plus the point. It drops exactly one old point iff the old length was > 1000. A trail of ≤ 1001 points stays within 1001. |
| `Trajectories.RecordedIsWindow` | three-js-projects/main.js:163-166 | On a trail of ≤ 1001 points, one update keeps the newest 1001 of the old points plus the new one. |
| `Trajectories.WindowOfWindow` | three-js-projects/main.js:163-166 | Windowing, appending, then windowing again is the same as appending then windowing. |
| `Trajectories.RecordThenWindow` | three-js-projects/main.js:163-166 | Recording a point and then windowing what follows equals windowing the whole sequence. |
| `Trajectories.RecordedAllIsWindow` | three-js-projects/main.js:158-166 | Starting from a trail of ≤ 1001 points (such as the empty one), any run of updates keeps exactly the newest 1001 points seen. |
| `Trajectories.Trajectory.constructor` | three-js-projects/main.js:158 | The trail starts empty. |
| `Trajectories.Trajectory.Update` | three-js-projects/main.js:163-166 | Shift when over 1000, then push. The new points are `Recorded` of the old ones. |
| `Simulation.Initial` | three-js-projects/main.js:153-158 | The opening scene has masses 10 and 1000, both counters at 0 and an empty trail. The sun starts at rest with no force, so `SunStaysPut` applies. The equal counters make `CountsInLockstep` apply, and the empty trail makes `TrailIsWindowOfPath` apply. |
| `Simulation.Step` | three-js-projects/main.js:174-187 | One frame keeps the sun's force and both masses. The trail ends with the earth's new position and stays within 1001 points. Equal counters stay equal. |
| `Simulation.EarthPath` | three-js-projects/main.js:179-186 | One recorded earth position per frame. |
| `Simulation.TrailIsWindowOfPath` | three-js-projects/main.js:158-186 | After any run, the trail is the newest 1001 of all earth positions recorded, oldest first. |
| `Simulation.SunStaysPut` | three-js-projects/main.js:179-181 | The sun is created at rest and its force is never updated, so it keeps its position and zero velocity for the whole run. |
| `Simulation.CountsInLockstep` | three-js-projects/main.js:180-181 | Earth and sun advance with the same timestamps, so planets that start with the same counter keep it equal and freeze together. |
| `Simulation.FrozenWorld` | three-js-projects/main.js:41-61 | Once both planets are frozen, a frame only appends the earth's unchanged position to the trail. |
| `Simulation.OpeningForce` | three-js-projects/main.js:153-154 | At the opening positions (masses 10 and 1000, distance 100), the pull on the earth is (1, 0, 0), given `sqrt(10000) == 100`. |
| `Simulation.PullAtStart` | three-js-projects/main.js:41-50 | While the earth is unfrozen and still at (−100, 0, 0), `update_force` sets its force to (1, 0, 0) and changes nothing else. |
| `Simulation.FirstFrame` | three-js-projects/main.js:198-207 | The first, timestamp-less frame pulls the earth without moving it, sets both counters to 1, and records the start position. |
| `Simulation.FirstTimestamp` | three-js-projects/main.js:58-67 | Suppose `update_force` leaves the earth unchanged, neither planet is frozen, and neither has a timestamp yet. Then a valid frame only sets `last_t` and bumps both counters, and appends the unmoved earth position to the trail. |
| `Simulation.SecondFrame` | three-js-projects/main.js:65-67 | The first timestamped frame records the time on both planets, moves nothing, and adds the same position to the trail again. |
| `Simulation.ThirdFrame` | three-js-projects/main.js:68-73 | The next frame gives the earth velocity (dt/10, 2, 0) and position (−100 + dt²/10, 2·dt, 0). |
| `Simulation.PulledStep` | three-js-projects/main.js:52-73 | The Euler step from the opening state with force (1, 0, 0) and mass 10. |
| `Simulation.Simulate` | three-js-projects/main.js:174-187 | The method runs earth `UpdateForce`, earth `Advance`, sun `Advance` and the trail `Update`, in that order, on distinct objects. The new state is exactly `Step` of the old. |

## Left out

- three.js scene plumbing is not modelled: scene, camera, lights, plane, renderer, orbit controls, resize handler and the GUI folder. `update_trajectory` also removes and re-adds a line mesh, which is not modelled either. These are foreign-library and UI calls with no physics behaviour.
- The driver is not modelled: the `requestAnimationFrame` loop and `renderer.render`. Instead, runs are given explicitly. `Run` and `AdvancedAll` take a sequence of timestamps. `RecordedAll` takes a sequence of points for the trail alone.
- `print_position` only writes to the console, so it is not modelled.
- The mesh radius, geometry and material that the `Planet` and `Object` constructors create are not modelled. So is `Object`'s `position` field, which holds the constructor argument and is never read again. The model's position is the mesh position.
- Floating point is not modelled: IEEE rounding, overflow, infinities and NaN arithmetic. Numbers are `real`. NaN appears only as the `Invalid` timestamp that `isNaN` rejects.
- `Math.sqrt` is a foreign call. It is a parameter. The lemmas that need a root assume `RootAt` at the values they use, and the opening-frame lemmas assume `sqrt(10000) == 100`.
- Vectors.Length: states no property of its own when `sqrt` is not a root at the squared length, because `Math.sqrt` is not part of this model.
- Vectors.Normalize: states unit length only where `sqrt` is a root, for the same reason.
- Planets.Attraction: states direction and magnitude only where `sqrt` is a root, for the same reason.
- Masses are the positive reals (`Mass`). The source never validates a mass. A zero mass would make `divideScalar` produce infinities, which the model excludes.
- Object identity is modelled only as far as `simulate` needs it. `Simulate` requires the earth and the sun to be distinct objects, as the two globals of main.js are. `Planet.constructor` copies the velocity argument. The source keeps a reference to it, but `update_velocity` always replaces the velocity with a fresh clone, so the argument object is never mutated.
- Timestamps are not validated by the code. A frame whose `now` is earlier than `last_t`, or equal to it, is processed with a negative or zero `dt`, and the model does the same. A `now` of exactly 0 is stored in `last_t` and is then indistinguishable from "no frame seen yet"; the model does the same.
- Only the stepper's behaviour is stated. Orbit stability and energy conservation are not properties of the code, so the model makes no claim about them.

/** The per-frame step of main.js: `simulate` pulls the earth towards the
    sun, advances both planets with the frame's timestamp and appends the
    earth's new position to its trail. The sun's force is never updated, so
    the sun, created at rest, never moves. */
module Simulation {
  import opened Vectors
  import opened Planets
  import opened Trajectories

  /** Everything `simulate` reads and writes: the two planets and the trail. */
  datatype World = World(earth: Body, sun: Body, trail: seq<Vec3>)

  /** The scene as main.js sets it up: the earth 100 units left of the sun,
      mass 10, moving up at 2 units per second, across the line to the sun;
      the sun of mass 1000 at rest at the origin with no force, so that
      SunStaysPut applies; both counters at 0, so that CountsInLockstep
      applies; an empty trail, so that TrailIsWindowOfPath applies. */
  function Initial(): (w: World)
    ensures w.sun.velocity == Zero && w.sun.force == Zero
    ensures w.earth.count == 0 && w.sun.count == 0
    ensures w.earth.mass == 10.0 && w.sun.mass == 1000.0
    ensures w.trail == []
  {
    World(Body(Vec3(-100.0, 0.0, 0.0), Vec3(0.0, 2.0, 0.0), Zero, 10.0, 0.0, 0),
          Body(Zero, Zero, Zero, 1000.0, 0.0, 0),
          [])
  }

  /** One `simulate(now)`. Only the earth feels a force; the sun keeps its
      own. The trail ends with the earth's new position and stays within
      Limit + 1 points. Two planets with the same counter advance in
      lockstep and keep the same counter. */
  function Step(w: World, now: Timestamp, sqrt: real -> real): (r: World)
    ensures r.sun.force == w.sun.force && r.sun.mass == w.sun.mass
    ensures r.earth.mass == w.earth.mass
    ensures 0 < |r.trail| && r.trail[|r.trail| - 1] == r.earth.position
    ensures |w.trail| <= Limit + 1 ==> |r.trail| <= Limit + 1
    ensures w.earth.count == w.sun.count ==> r.earth.count == r.sun.count
  {
    var earth := Advanced(UpdatedForce(w.earth, w.sun, sqrt), now);
    World(earth, Advanced(w.sun, now), Recorded(w.trail, earth.position))
  }

  /** `simulate` called once per timestamp of `frames`, in order. */
  function Run(w: World, frames: seq<Timestamp>, sqrt: real -> real): World
    decreases |frames|
  {
    if frames == [] then w else Run(Step(w, frames[0], sqrt), frames[1..], sqrt)
  }

  /** The earth positions that `simulate` records, one per frame. */
  function EarthPath(w: World, frames: seq<Timestamp>, sqrt: real -> real): (path: seq<Vec3>)
    ensures |path| == |frames|
    decreases |frames|
  {
    if frames == [] then []
    else
      var next := Step(w, frames[0], sqrt);
      [next.earth.position] + EarthPath(next, frames[1..], sqrt)
  }

  /** After any run the trail holds the newest Limit + 1 of the earth
      positions seen, oldest first; from the empty trail of main.js, the
      last min(n, 1001) positions. */
  lemma {:induction false} TrailIsWindowOfPath(w: World, frames: seq<Timestamp>, sqrt: real -> real)
    requires |w.trail| <= Limit + 1
    ensures Run(w, frames, sqrt).trail == Window(w.trail + EarthPath(w, frames, sqrt), Limit + 1)
    decreases |frames|
  {
    if frames != [] {
      var next := Step(w, frames[0], sqrt);
      var p := next.earth.position;
      var rest := EarthPath(next, frames[1..], sqrt);
      assert next.trail == Recorded(w.trail, p);
      TrailIsWindowOfPath(next, frames[1..], sqrt);
      RecordThenWindow(w.trail, p, rest);
      assert EarthPath(w, frames, sqrt) == [p] + rest;
    }
  }

  /** A sun at rest with no force stays where it is for the whole run. */
  lemma {:induction false} SunStaysPut(w: World, frames: seq<Timestamp>, sqrt: real -> real)
    requires w.sun.force == Zero && w.sun.velocity == Zero
    ensures Run(w, frames, sqrt).sun.position == w.sun.position
    ensures Run(w, frames, sqrt).sun.velocity == Zero
    decreases |frames|
  {
    if frames != [] {
      RestingStep(w.sun, frames[0]);
      SunStaysPut(Step(w, frames[0], sqrt), frames[1..], sqrt);
    }
  }

  /** Planets that start with the same counter keep the same counter, so
      they use up their step budget together. */
  lemma {:induction false} CountsInLockstep(w: World, frames: seq<Timestamp>, sqrt: real -> real)
    requires w.earth.count == w.sun.count
    ensures Run(w, frames, sqrt).earth.count == Run(w, frames, sqrt).sun.count
    decreases |frames|
  {
    if frames != [] {
      CountsInLockstep(Step(w, frames[0], sqrt), frames[1..], sqrt);
    }
  }

  /** Once both planets are frozen a frame moves nothing: it only appends
      the earth's unchanged position to the trail once more. */
  lemma FrozenWorld(w: World, now: Timestamp, sqrt: real -> real)
    requires Frozen(w.earth) && Frozen(w.sun)
    ensures Step(w, now, sqrt).earth == w.earth && Step(w, now, sqrt).sun == w.sun
    ensures Step(w, now, sqrt).trail == Recorded(w.trail, w.earth.position)
  {
  }

  /** The pull of the sun on the earth in main.js's opening position:
      masses 10 and 1000 at distance 100 give a force of magnitude
      1000 * 10 / 100^2 = 1 along the x axis. Math.sqrt(10000) is exactly
      100, the only square root the opening frames need. */
  lemma OpeningForce(sqrt: real -> real)
    requires sqrt(10000.0) == 100.0
    ensures LengthSq(Vec3(100.0, 0.0, 0.0)) != 0.0
    ensures Attraction(Vec3(100.0, 0.0, 0.0), 10.0, 1000.0, sqrt) == Vec3(1.0, 0.0, 0.0)
  {
    OpeningLength(sqrt);
    AttractionAt(Vec3(100.0, 0.0, 0.0), sqrt);
  }

  /** The opening attraction, for an offset given as a variable. */
  lemma AttractionAt(d: Vec3, sqrt: real -> real)
    requires d.x == 100.0 && d.y == 0.0 && d.z == 0.0
    requires LengthSq(d) == 10000.0 && Length(d, sqrt) == 100.0
    ensures Attraction(d, 10.0, 1000.0, sqrt) == Vec3(1.0, 0.0, 0.0)
  {
    AttractionOfKnownLength(d, 10.0, 1000.0, sqrt, 100.0, 10000.0, 0.01, 1.0);
    OpeningArithmetic(d);
  }

  /** The attraction along `d` once its length and squared length are known:
      `d` divided by its length and scaled by other * m / |d|^2. */
  lemma AttractionOfKnownLength(d: Vec3, m: Mass, other: Mass, sqrt: real -> real, len: real, lenSq: real, a: real, b: real)
    requires LengthSq(d) == lenSq && lenSq != 0.0 && Length(d, sqrt) == len && len != 0.0
    requires a * len == 1.0 && b * lenSq == other * m
    ensures Attraction(d, m, other, sqrt) == Scale(Scale(d, a), b)
  {
    AttractionIsScaledUnit(d, m, other, sqrt);
  }

  lemma OpeningArithmetic(d: Vec3)
    requires d.x == 100.0 && d.y == 0.0 && d.z == 0.0
    ensures Scale(Scale(d, 0.01), 1.0) == Vec3(1.0, 0.0, 0.0)
  {
    assert d == Vec3(100.0, 0.0, 0.0);
  }

  lemma OpeningLength(sqrt: real -> real)
    requires sqrt(10000.0) == 100.0
    ensures LengthSq(Vec3(100.0, 0.0, 0.0)) == 10000.0
    ensures Length(Vec3(100.0, 0.0, 0.0), sqrt) == 100.0
  {
    assert LengthSq(Vec3(100.0, 0.0, 0.0)) == 100.0 * 100.0;
  }

  /** In main.js's opening position, and whenever the earth is still there,
      update_force sets the earth's force to (1, 0, 0). */
  lemma PullAtStart(w: World, sqrt: real -> real)
    requires sqrt(10000.0) == 100.0 && !Frozen(w.earth)
    requires w.earth.position == Vec3(-100.0, 0.0, 0.0) && w.earth.mass == 10.0
    requires w.sun.position == Zero && w.sun.mass == 1000.0
    ensures UpdatedForce(w.earth, w.sun, sqrt) == w.earth.(force := Vec3(1.0, 0.0, 0.0))
  {
    OpeningOffset(w.earth.position, w.sun.position);
    OpeningForce(sqrt);
  }

  lemma OpeningOffset(earth: Vec3, sun: Vec3)
    requires earth == Vec3(-100.0, 0.0, 0.0) && sun == Zero
    ensures Sub(sun, earth) == Vec3(100.0, 0.0, 0.0)
  {
  }

  /** The first, direct call of animate passes no timestamp: the earth
      feels the force (1, 0, 0) but does not move, both counters become 1,
      and the trail holds the earth's starting position. */
  lemma FirstFrame(sqrt: real -> real)
    requires sqrt(10000.0) == 100.0
    ensures Step(Initial(), Invalid, sqrt)
         == World(Initial().earth.(force := Vec3(1.0, 0.0, 0.0), count := 1),
                  Initial().sun.(count := 1),
                  [Vec3(-100.0, 0.0, 0.0)])
  {
    PullAtStart(Initial(), sqrt);
  }

  /** The first frame with a timestamp only records it: nothing moves. */
  lemma SecondFrame(t1: real, sqrt: real -> real)
    requires sqrt(10000.0) == 100.0
    ensures var w1 := Step(Initial(), Invalid, sqrt);
      Step(w1, Ms(t1), sqrt)
        == World(w1.earth.(count := 2, lastT := t1), w1.sun.(count := 2, lastT := t1),
                 [Vec3(-100.0, 0.0, 0.0), Vec3(-100.0, 0.0, 0.0)])
  {
    FirstFrame(sqrt);
    PulledAgain(sqrt);
    FirstTimestamp(Step(Initial(), Invalid, sqrt), t1, sqrt);
  }

  /** After the first frame the earth already carries the opening pull, so
      update_force leaves it as it is. */
  lemma PulledAgain(sqrt: real -> real)
    requires sqrt(10000.0) == 100.0
    ensures var w1 := Step(Initial(), Invalid, sqrt);
      UpdatedForce(w1.earth, w1.sun, sqrt) == w1.earth
  {
    FirstFrame(sqrt);
    PullAtStart(Step(Initial(), Invalid, sqrt), sqrt);
  }

  /** A frame with the first valid timestamp, for an earth that update_force
      leaves unchanged: both planets only record the timestamp, and the
      unmoved earth position is appended to the trail. */
  lemma FirstTimestamp(w: World, t1: real, sqrt: real -> real)
    requires UpdatedForce(w.earth, w.sun, sqrt) == w.earth
    requires !Frozen(w.earth) && !Frozen(w.sun) && w.earth.lastT == 0.0 && w.sun.lastT == 0.0
    requires |w.trail| <= Limit
    ensures Step(w, Ms(t1), sqrt)
         == World(w.earth.(count := w.earth.count + 1, lastT := t1),
                  w.sun.(count := w.sun.count + 1, lastT := t1),
                  w.trail + [w.earth.position])
  {
    StepWithPull(w, Ms(t1), sqrt, w.earth);
  }

  /** A frame in which update_force leaves the earth as `pulled`. */
  lemma StepWithPull(w: World, now: Timestamp, sqrt: real -> real, pulled: Body)
    requires UpdatedForce(w.earth, w.sun, sqrt) == pulled
    ensures Step(w, now, sqrt)
         == World(Advanced(pulled, now), Advanced(w.sun, now), Recorded(w.trail, Advanced(pulled, now).position))
  {
  }

  /** The next frame, at t2, from the world that SecondFrame describes:
      the earth makes a semi-implicit Euler step of dt = (t2 - t1) / 1000
      seconds with acceleration (1/10, 0, 0). (The sun stays at the origin
      by SunStaysPut.) */
  lemma ThirdFrame(w: World, t1: real, t2: real, sqrt: real -> real)
    requires sqrt(10000.0) == 100.0 && t1 != 0.0
    requires w.earth == Body(Vec3(-100.0, 0.0, 0.0), Vec3(0.0, 2.0, 0.0), Vec3(1.0, 0.0, 0.0), 10.0, t1, 2)
    requires w.sun.position == Zero && w.sun.mass == 1000.0
    ensures var dt := (t2 - t1) / MsPerSecond;
      && Step(w, Ms(t2), sqrt).earth.velocity == Vec3(dt / 10.0, 2.0, 0.0)
      && Step(w, Ms(t2), sqrt).earth.position == Vec3(-100.0 + dt * dt / 10.0, 2.0 * dt, 0.0)
  {
    PullAtStart(w, sqrt);
    var pulled := UpdatedForce(w.earth, w.sun, sqrt);
    assert pulled == w.earth;
    PulledStep(pulled, t1, t2);
    assert Step(w, Ms(t2), sqrt).earth == Advanced(pulled, Ms(t2));
  }

  /** One Euler step of an earth that main.js has pulled for two frames. */
  lemma PulledStep(e: Body, t1: real, t2: real)
    requires e.position == Vec3(-100.0, 0.0, 0.0) && e.velocity == Vec3(0.0, 2.0, 0.0)
    requires e.force == Vec3(1.0, 0.0, 0.0) && e.mass == 10.0
    requires e.lastT == t1 && t1 != 0.0 && e.count == 2
    ensures var dt := (t2 - t1) / MsPerSecond;
      && Advanced(e, Ms(t2)).velocity == Vec3(dt / 10.0, 2.0, 0.0)
      && Advanced(e, Ms(t2)).position == Vec3(-100.0 + dt * dt / 10.0, 2.0 * dt, 0.0)
  {
    var dt := (t2 - t1) / MsPerSecond;
    var v := Advanced(e, Ms(t2)).velocity;
    assert v == Add(e.velocity, Scale(Scale(e.force, 1.0 / e.mass), dt));
    assert v == Vec3(dt / 10.0, 2.0, 0.0);
    assert Advanced(e, Ms(t2)).position == Add(Scale(v, dt), e.position);
  }

  /** `simulate(now)` on the two planets and the trail of main.js, which are
      distinct objects: the new state is exactly one Step of the old. */
  method Simulate(earth: Planet, sun: Planet, trajectory: Trajectory, now: Timestamp, sqrt: real -> real)
    requires earth != sun
    modifies earth, sun, trajectory
    ensures World(earth.State(), sun.State(), trajectory.points)
         == Step(World(old(earth.State()), old(sun.State()), old(trajectory.points)), now, sqrt)
  {
    earth.UpdateForce(sun, sqrt);
    earth.Advance(now);
    sun.Advance(now);
    trajectory.Update(earth.position);
  }
}

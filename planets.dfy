/** The physics core of main.js: the Planet class, a point mass that three.js
    draws as a sphere, and the three operations that move it (update_force,
    update_velocity, advance). Body is the value of a Planet's state; the
    functions on Body specify the methods of the Planet class. */
module Planets {
  import opened Vectors

  /** `total_iteration`: a planet whose counter exceeds it is frozen. */
  const TotalIteration: nat := 100000

  /** Timestamps are milliseconds; velocities are per second. */
  const MsPerSecond: real := 1000.0

  /** Masses are positive: the acceleration divides by the mass. */
  type Mass = m: real | 0.0 < m witness 1.0

  /** The argument of `advance`. `Invalid` stands for every value for which
      JavaScript's isNaN is true, such as the `undefined` that the first,
      direct call of `animate()` passes down. */
  datatype Timestamp = Invalid | Ms(t: real)

  /** The state of one Planet. `position` is the mesh position, the one that
      moves; `lastT == 0.0` means that no valid frame has been seen yet. */
  datatype Body = Body(position: Vec3, velocity: Vec3, force: Vec3, mass: Mass, lastT: real, count: nat)

  /** Seconds from the body's `last_t` to the timestamp `t`. */
  function Elapsed(b: Body, t: real): real {
    (t - b.lastT) / MsPerSecond
  }

  /** A frozen planet has used up its step budget: `update_force` and
      `advance` no longer change it. */
  predicate Frozen(b: Body) {
    b.count > TotalIteration
  }

  /** Newtonian attraction with G = 1 on a body of mass `m` from a body of
      mass `other` displaced from it by `d`: normalize(d) times
      other * m / |d|^2. Multiplied out, f * |d| == d * other * m / |d|^2: the
      force lies along `d` with magnitude other * m / |d|^2, and it points
      towards the other body (a positive dot product with `d`). */
  function Attraction(d: Vec3, m: Mass, other: Mass, sqrt: real -> real): (f: Vec3)
    requires LengthSq(d) != 0.0
    ensures RootAt(sqrt, LengthSq(d)) ==> Scale(f, Length(d, sqrt)) == Scale(d, other * m / LengthSq(d))
    ensures RootAt(sqrt, LengthSq(d)) ==> 0.0 < Dot(f, d)
  {
    LengthSqNonNegative(d);
    var magnitude := other * m / LengthSq(d);
    var u := Normalize(d, sqrt);
    AlongUnit(d, u, Length(d, sqrt), magnitude);
    Scale(u, magnitude)
  }

  /** The magnitude of the attraction, squared: (other * m / |d|^2)^2. */
  lemma AttractionMagnitude(d: Vec3, m: Mass, other: Mass, sqrt: real -> real)
    requires LengthSq(d) != 0.0 && RootAt(sqrt, LengthSq(d))
    ensures var k := other * m / LengthSq(d);
      LengthSq(Attraction(d, m, other, sqrt)) == k * k
  {
    var k := other * m / LengthSq(d);
    AttractionIsScaledUnit(d, m, other, sqrt);
    LengthSqScale(Normalize(d, sqrt), k);
  }

  /** k * u, where `d` is len * u for a unit vector u, is (k / len) * d and
      has a positive dot product with `d` when k and len are positive. */
  lemma AlongUnit(d: Vec3, u: Vec3, len: real, k: real)
    ensures d == Scale(u, len) ==> Scale(Scale(u, k), len) == Scale(d, k)
    ensures LengthSq(u) == 1.0 && d == Scale(u, len) && 0.0 < len && 0.0 < k ==> 0.0 < Dot(Scale(u, k), d)
  {
    DotOfMultiples(u, k, len);
    if 0.0 < len && 0.0 < k {
      PositiveProduct(k, len);
    }
  }

  lemma PositiveProduct(a: real, b: real)
    requires 0.0 < a && 0.0 < b
    ensures 0.0 < a * b
  {
  }

  /** update_force: a frozen planet, or one at the same place as `other`
      (`lengthSq() == 0`), keeps its force; otherwise the force is replaced by
      the attraction towards `other`. Only the force changes. */
  function UpdatedForce(b: Body, other: Body, sqrt: real -> real): (r: Body)
    ensures r == b.(force := r.force)
    ensures Frozen(b) || LengthSq(Sub(other.position, b.position)) == 0.0 ==> r == b
    ensures Frozen(b) || other.position == b.position ==> r == b
    ensures !Frozen(b) && LengthSq(Sub(other.position, b.position)) != 0.0 ==>
      r.force == Attraction(Sub(other.position, b.position), b.mass, other.mass, sqrt)
  {
    if Frozen(b) then
      b
    else
      var d := Sub(other.position, b.position);
      LengthSqNonNegative(d);
      if LengthSq(d) == 0.0 then b
      else b.(force := Attraction(d, b.mass, other.mass, sqrt))
  }

  /** update_velocity: explicit Euler on the velocity with the stored force,
      over the time since `lastT`. The change of momentum is the force times
      the elapsed seconds, and nothing but the velocity changes. */
  function UpdatedVelocity(b: Body, now: real): (r: Body)
    ensures r == b.(velocity := r.velocity)
    ensures Scale(Sub(r.velocity, b.velocity), b.mass) == Scale(b.force, Elapsed(b, now))
  {
    var acc := Scale(b.force, 1.0 / b.mass);
    Impulse(b.velocity, b.force, b.mass, Elapsed(b, now));
    b.(velocity := Add(b.velocity, Scale(acc, Elapsed(b, now))))
  }

  lemma Impulse(v: Vec3, f: Vec3, m: Mass, dt: real)
    ensures Scale(Sub(Add(v, Scale(Scale(f, 1.0 / m), dt)), v), m) == Scale(f, dt)
  {
    assert (1.0 / m) * m == 1.0;
  }

  /** advance: the per-frame entry point.
      - a frozen planet is left exactly as it is;
      - otherwise the counter goes up by one, whatever the timestamp;
      - an invalid timestamp changes nothing else;
      - the first valid frame (lastT == 0) only records the time;
      - a later frame does a semi-implicit Euler step over dt = (now - lastT)
        / 1000 seconds: the velocity changes by force / mass * dt, then the
        position moves by the NEW velocity times dt, and lastT becomes now.
      The force and the mass never change. */
  function Advanced(b: Body, now: Timestamp): (r: Body)
    ensures r.mass == b.mass && r.force == b.force
    ensures Frozen(b) ==> r == b
    ensures !Frozen(b) ==> r.count == b.count + 1
    ensures !Frozen(b) && now.Invalid? ==> r == b.(count := b.count + 1)
    ensures !Frozen(b) && now.Ms? && b.lastT == 0.0 ==> r == b.(count := b.count + 1, lastT := now.t)
    ensures !Frozen(b) && now.Ms? && b.lastT != 0.0 ==>
      && r.lastT == now.t
      && Scale(Sub(r.velocity, b.velocity), b.mass) == Scale(b.force, Elapsed(b, now.t))
      && r.position == Add(b.position, Scale(r.velocity, Elapsed(b, now.t)))
  {
    if Frozen(b) then
      b
    else
      var counted := b.(count := b.count + 1);
      match now
      case Invalid => counted
      case Ms(t) =>
        if counted.lastT == 0.0 then
          counted.(lastT := t)
        else
          var moved := UpdatedVelocity(counted, t);
          moved.(position := Add(Scale(moved.velocity, Elapsed(counted, t)), moved.position), lastT := t)
  }

  /** The step of `advance` written out: the new position is the old one plus
      v * dt plus (force / mass) * dt^2, a full dt^2 rather than the dt^2 / 2
      of an exact constant-acceleration step, because the position is moved
      with the velocity that was already updated. */
  lemma SemiImplicitEuler(b: Body, t: real)
    requires !Frozen(b) && b.lastT != 0.0
    ensures Advanced(b, Ms(t)).position
      == Add(Add(b.position, Scale(b.velocity, Elapsed(b, t))),
             Scale(Scale(Scale(b.force, 1.0 / b.mass), Elapsed(b, t)), Elapsed(b, t)))
  {
    StepPosition(b, t);
    EulerExpand(b.position, b.velocity, Scale(b.force, 1.0 / b.mass), Elapsed(b, t));
  }

  /** The position update of a normal frame, before any arithmetic is rearranged. */
  lemma StepPosition(b: Body, t: real)
    requires !Frozen(b) && b.lastT != 0.0
    ensures Advanced(b, Ms(t)).position
      == Add(Scale(Add(b.velocity, Scale(Scale(b.force, 1.0 / b.mass), Elapsed(b, t))), Elapsed(b, t)), b.position)
  {
  }

  /** Moving by the updated velocity is moving by the old one plus a·dt². */
  lemma EulerExpand(x: Vec3, v: Vec3, a: Vec3, dt: real)
    ensures Add(Scale(Add(v, Scale(a, dt)), dt), x) == Add(Add(x, Scale(v, dt)), Scale(Scale(a, dt), dt))
  {
    Distribute(x.x, v.x, a.x, dt);
    Distribute(x.y, v.y, a.y, dt);
    Distribute(x.z, v.z, a.z, dt);
  }

  lemma Distribute(x: real, v: real, a: real, dt: real)
    ensures (v + a * dt) * dt + x == x + v * dt + a * dt * dt
  {
  }

  /** `advance` applied to each timestamp of `frames` in turn. */
  function AdvancedAll(b: Body, frames: seq<Timestamp>): Body
    decreases |frames|
  {
    if frames == [] then b else AdvancedAll(Advanced(b, frames[0]), frames[1..])
  }

  function Min(a: int, b: int): int {
    if a <= b then a else b
  }

  /** Every frame that finds the planet unfrozen counts once, so from any
      count up to TotalIteration + 1 the counter after n frames is
      min(count + n, TotalIteration + 1): it never passes TotalIteration + 1. */
  lemma {:induction false} CountAfterFrames(b: Body, frames: seq<Timestamp>)
    requires b.count <= TotalIteration + 1
    ensures AdvancedAll(b, frames).count == Min(b.count + |frames|, TotalIteration + 1)
    decreases |frames|
  {
    if frames != [] {
      CountAfterFrames(Advanced(b, frames[0]), frames[1..]);
    }
  }

  /** A frozen planet stays exactly as it is, whatever frames follow. */
  lemma {:induction false} FrozenStaysFrozen(b: Body, frames: seq<Timestamp>)
    requires Frozen(b)
    ensures AdvancedAll(b, frames) == b
    decreases |frames|
  {
    if frames != [] {
      FrozenStaysFrozen(Advanced(b, frames[0]), frames[1..]);
    }
  }

  /** With the ceiling N = TotalIteration, a fresh planet is frozen after
      N + 1 calls of `advance`: call N + 2 moves nothing. */
  lemma FreezesAfterBudget(b: Body, frames: seq<Timestamp>, next: Timestamp)
    requires b.count == 0 && |frames| == TotalIteration + 1
    ensures Frozen(AdvancedAll(b, frames))
    ensures Advanced(AdvancedAll(b, frames), next) == AdvancedAll(b, frames)
  {
    CountAfterFrames(b, frames);
  }

  /** `advance` never touches the force or the mass. */
  lemma {:induction false} ForceAndMassKept(b: Body, frames: seq<Timestamp>)
    ensures AdvancedAll(b, frames).force == b.force
    ensures AdvancedAll(b, frames).mass == b.mass
    decreases |frames|
  {
    if frames != [] {
      ForceAndMassKept(Advanced(b, frames[0]), frames[1..]);
    }
  }

  /** Without a force the velocity stays what it was, whatever the frames. */
  lemma {:induction false} ZeroForceKeepsVelocity(b: Body, frames: seq<Timestamp>)
    requires b.force == Zero
    ensures AdvancedAll(b, frames).velocity == b.velocity
    decreases |frames|
  {
    if frames != [] {
      var next := Advanced(b, frames[0]);
      if !Frozen(b) && frames[0].Ms? && b.lastT != 0.0 {
        ZeroImpulse(b.velocity, next.velocity, b.mass, Elapsed(b, frames[0].t));
      }
      ZeroForceKeepsVelocity(next, frames[1..]);
    }
  }

  lemma ZeroImpulse(v: Vec3, v': Vec3, m: Mass, dt: real)
    requires Scale(Sub(v', v), m) == Scale(Zero, dt)
    ensures v' == v
  {
    assert (v'.x - v.x) * m == 0.0 && (v'.y - v.y) * m == 0.0 && (v'.z - v.z) * m == 0.0;
  }

  /** A planet at rest with no force stays where it is, whatever the frames:
      this is the sun of main.js, whose force is never updated. */
  lemma {:induction false} RestingBodyStaysPut(b: Body, frames: seq<Timestamp>)
    requires b.force == Zero && b.velocity == Zero
    ensures AdvancedAll(b, frames).position == b.position
    ensures AdvancedAll(b, frames).velocity == Zero
    decreases |frames|
  {
    if frames != [] {
      RestingStep(b, frames[0]);
      RestingBodyStaysPut(Advanced(b, frames[0]), frames[1..]);
    }
  }

  lemma RestingStep(b: Body, now: Timestamp)
    requires b.force == Zero && b.velocity == Zero
    ensures Advanced(b, now).force == Zero
    ensures Advanced(b, now).velocity == Zero
    ensures Advanced(b, now).position == b.position
  {
    if !Frozen(b) && now.Ms? && b.lastT != 0.0 {
      var next := Advanced(b, now);
      ZeroImpulse(b.velocity, next.velocity, b.mass, Elapsed(b, now.t));
      assert Scale(next.velocity, Elapsed(b, now.t)) == Zero;
    }
  }

  /** update_force depends only on what it does not change, so a second call
      with the same partner changes nothing: in particular, with coincident
      bodies both calls leave the force as it was. */
  lemma ForceIdempotent(b: Body, other: Body, sqrt: real -> real)
    ensures UpdatedForce(UpdatedForce(b, other, sqrt), other, sqrt) == UpdatedForce(b, other, sqrt)
  {
  }

  /** Inverse-square law: moving the other body to twice the distance along
      the same line divides the squared magnitude of the force by 16, that
      is, the magnitude by 4. */
  lemma InverseSquare(b: Body, other: Body, sqrt: real -> real)
    requires !Frozen(b) && LengthSq(Sub(other.position, b.position)) != 0.0
    requires RootAt(sqrt, LengthSq(Sub(other.position, b.position)))
    requires RootAt(sqrt, LengthSq(Scale(Sub(other.position, b.position), 2.0)))
    ensures var far := other.(position := Add(b.position, Scale(Sub(other.position, b.position), 2.0)));
      UpdatedForce(b, far, sqrt).force == Scale(UpdatedForce(b, other, sqrt).force, 0.25)
  {
    var d := Sub(other.position, b.position);
    var far := other.(position := Add(b.position, Scale(d, 2.0)));
    assert Sub(far.position, b.position) == Scale(d, 2.0);
    DoubleLengthSq(d);
    AttractionAtDouble(d, b.mass, other.mass, sqrt);
  }

  lemma DoubleLengthSq(d: Vec3)
    ensures LengthSq(Scale(d, 2.0)) == 4.0 * LengthSq(d)
  {
    LengthSqScale(d, 2.0);
  }

  /** Doubling the offset keeps the direction and quarters the magnitude. */
  lemma AttractionAtDouble(d: Vec3, m: Mass, other: Mass, sqrt: real -> real)
    requires LengthSq(d) != 0.0
    requires RootAt(sqrt, LengthSq(d)) && RootAt(sqrt, LengthSq(Scale(d, 2.0)))
    ensures LengthSq(Scale(d, 2.0)) != 0.0
    ensures Attraction(Scale(d, 2.0), m, other, sqrt) == Scale(Attraction(d, m, other, sqrt), 0.25)
  {
    var d2 := Scale(d, 2.0);
    DoubleLengthSq(d);
    NormalizeDouble(d, sqrt);
    AttractionIsScaledUnit(d, m, other, sqrt);
    AttractionIsScaledUnit(d2, m, other, sqrt);
    var k := other * m / LengthSq(d);
    QuarterOf(other * m, LengthSq(d), LengthSq(d2));
    ScaleScale(Normalize(d, sqrt), k, 0.25);
  }

  lemma NormalizeDouble(d: Vec3, sqrt: real -> real)
    requires LengthSq(d) != 0.0
    requires RootAt(sqrt, LengthSq(d)) && RootAt(sqrt, LengthSq(Scale(d, 2.0)))
    ensures Normalize(Scale(d, 2.0), sqrt) == Normalize(d, sqrt)
  {
    DoubleLengthSq(d);
    LengthScale(d, 2.0, sqrt);
    var len := Length(d, sqrt);
    HalfOfDouble(d.x, len);
    HalfOfDouble(d.y, len);
    HalfOfDouble(d.z, len);
  }

  lemma QuarterOf(a: real, l: real, l4: real)
    requires l != 0.0 && l4 == 4.0 * l
    ensures a / l4 == (a / l) * 0.25
  {
  }

  lemma AttractionIsScaledUnit(d: Vec3, m: Mass, other: Mass, sqrt: real -> real)
    requires LengthSq(d) != 0.0
    ensures Attraction(d, m, other, sqrt) == Scale(Normalize(d, sqrt), other * m / LengthSq(d))
  {
  }

  lemma HalfOfDouble(a: real, len: real)
    requires len != 0.0
    ensures a * 2.0 * (1.0 / (2.0 * len)) == a * (1.0 / len)
  {
  }

  /** A Planet of main.js: the state three.js draws (the mesh position) and
      the state the simulation keeps (velocity, force, mass, the time of the
      last valid frame and the step counter). Every method is specified by
      the function on Body above that it implements. */
  class Planet {
    var position: Vec3
    var velocity: Vec3
    var force: Vec3
    const mass: Mass
    var lastT: real
    var count: nat

    function State(): Body
      reads this
    {
      Body(position, velocity, force, mass, lastT, count)
    }

    /** A new planet starts with no force, no valid frame and a zero counter;
        the velocity defaults to zero. */
    constructor (position: Vec3, mass: Mass, velocity: Vec3 := Zero)
      ensures State() == Body(position, velocity, Zero, mass, 0.0, 0)
    {
      this.position := position;
      this.velocity := velocity;
      this.force := Zero;
      this.mass := mass;
      this.lastT := 0.0;
      this.count := 0;
    }

    method SetPosition(p: Vec3)
      modifies this
      ensures State() == old(State()).(position := p)
    {
      position := p;
    }

    method SetForce(f: Vec3)
      modifies this
      ensures State() == old(State()).(force := f)
    {
      force := f;
    }

    /** The partner may be this very planet: then the offset is zero and
        nothing changes. */
    method UpdateForce(other: Planet, sqrt: real -> real)
      modifies this
      ensures State() == UpdatedForce(old(State()), old(other.State()), sqrt)
    {
      if count > TotalIteration {
        return;
      }
      var d := Sub(other.position, position);
      if LengthSq(d) == 0.0 {
        return;
      }
      var magnitude := other.mass * mass / LengthSq(d);
      AttractionIsScaledUnit(d, mass, other.mass, sqrt);
      SetForce(Scale(Normalize(d, sqrt), magnitude));
    }

    method UpdateVelocity(now: real)
      modifies this
      ensures State() == UpdatedVelocity(old(State()), now)
    {
      var acc := Scale(force, 1.0 / mass);
      var dt := Elapsed(State(), now);
      velocity := Add(velocity, Scale(acc, dt));
    }

    method Advance(now: Timestamp)
      modifies this
      ensures State() == Advanced(old(State()), now)
    {
      if count > TotalIteration {
        return;
      }
      count := count + 1;
      if now.Invalid? {
        return;
      }
      if lastT == 0.0 {
        lastT := now.t;
        return;
      }
      UpdateVelocity(now.t);
      var dt := Elapsed(State(), now.t);
      var v := Scale(velocity, dt);
      SetPosition(Add(v, position));
      lastT := now.t;
    }
  }
}

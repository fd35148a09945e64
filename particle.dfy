/** One point of the swarm: its position, the base position it springs back
    to, its velocity and its fixed looks, with the per-frame physics. */
module Particles {
  import opened Raster

  const Friction: real := 0.93
  const Ease: real := 0.04
  /** Distance below which the pointer pushes a particle away. */
  const ForceRadius: real := 120.0
  const PushStrength: real := 0.12

  /** The uniform values in [0, 1) that one construction draws from the host's
      random source: a horizontal spread, a drop, an upward jump (only for
      particles entering from the bottom), then size, depth and hue. */
  datatype Draw = Draw(spread: real, drop: real, jump: real, size: real, depth: real, hue: real)
  {
    predicate Valid()
    {
      0.0 <= spread < 1.0 && 0.0 <= drop < 1.0 && 0.0 <= jump < 1.0
      && 0.0 <= size < 1.0 && 0.0 <= depth < 1.0 && 0.0 <= hue < 1.0
    }

    function Size(): (s: real)
      requires Valid()
      ensures 0.3 <= s < 1.5
    {
      size * 1.2 + 0.3
    }

    function Depth(): (d: real)
      requires Valid()
      ensures 0.0 <= d < 30.0
    {
      depth * 30.0
    }

    function Hue(): (h: real)
      requires Valid()
      ensures 0.0 <= h < 360.0
    {
      hue * 360.0
    }
  }

  /** The observable state of a particle. */
  datatype ParticleState = ParticleState(
    x: real, y: real, baseX: real, baseY: real, velX: real, velY: real,
    color: Color, size: real, depth: real, hue: real)

  /** The state of a particle created without the bottom entry: it sits on
      its base, motionless. */
  function AtBase(x: real, y: real, color: Color, r: Draw): (p: ParticleState)
    requires r.Valid()
    ensures p.x == p.baseX == x && p.y == p.baseY == y && p.velX == 0.0 && p.velY == 0.0
    ensures p.color == color && 0.3 <= p.size < 1.5 && 0.0 <= p.depth < 30.0 && 0.0 <= p.hue < 360.0
  {
    ParticleState(x, y, x, y, 0.0, 0.0, color, r.Size(), r.Depth(), r.Hue())
  }

  /** The state of a particle created with the bottom entry: aiming at (x, y),
      it starts at most 100 to either side of it, at most 50 below the bottom
      edge of a canvas of height `canvasHeight`, jumping upwards. */
  function Entering(x: real, y: real, color: Color, canvasHeight: real, r: Draw): (p: ParticleState)
    requires r.Valid()
    ensures p.baseX == x && p.baseY == y && p.velX == 0.0 && -7.0 < p.velY <= -2.0
    ensures x - 100.0 <= p.x < x + 100.0 && canvasHeight <= p.y < canvasHeight + 50.0
    ensures p.color == color && 0.3 <= p.size < 1.5 && 0.0 <= p.depth < 30.0 && 0.0 <= p.hue < 360.0
  {
    ParticleState(x + (r.spread - 0.5) * 200.0, canvasHeight + r.drop * 50.0, x, y, 0.0, -r.jump * 5.0 - 2.0,
                  color, r.Size(), r.Depth(), r.Hue())
  }

  /** One frame of spring, friction and integration, with no pointer force:
      only position and velocity change, and the position moves by the new
      velocity. */
  function Drift(p: ParticleState): (q: ParticleState)
    ensures q == p.(x := q.x, y := q.y, velX := q.velX, velY := q.velY)
    ensures q.x == p.x + q.velX && q.y == p.y + q.velY
  {
    var vx := (p.velX + (p.baseX - p.x) * Ease) * Friction;
    var vy := (p.velY + (p.baseY - p.y) * Ease) * Friction;
    p.(x := p.x + vx, y := p.y + vy, velX := vx, velY := vy)
  }

  predicate AtRest(p: ParticleState)
  {
    p.x == p.baseX && p.y == p.baseY && p.velX == 0.0 && p.velY == 0.0
  }

  /** The resting states are exactly the states a frame leaves unchanged. */
  lemma DriftFixedPoint(p: ParticleState)
    ensures Drift(p) == p <==> AtRest(p)
  {
  }

  function DriftFrames(p: ParticleState, n: nat): ParticleState
  {
    if n == 0 then p else Drift(DriftFrames(p, n - 1))
  }

  /** A particle at rest on its base stays exactly put, however many frames run. */
  lemma {:induction false} RestIsPermanent(p: ParticleState, n: nat)
    requires AtRest(p)
    ensures DriftFrames(p, n) == p
  {
    if n > 0 {
      RestIsPermanent(p, n - 1);
      DriftFixedPoint(p);
    }
  }

  function Shift(p: ParticleState, dx: real, dy: real): ParticleState
  {
    p.(x := p.x + dx, y := p.y + dy, baseX := p.baseX + dx, baseY := p.baseY + dy)
  }

  /** The motion relative to the base does not depend on where the base is:
      moving position and base together moves every later frame by the same. */
  lemma {:induction false} DriftFramesTranslate(p: ParticleState, dx: real, dy: real, n: nat)
    ensures DriftFrames(Shift(p, dx, dy), n) == Shift(DriftFrames(p, n), dx, dy)
  {
    if n > 0 {
      DriftFramesTranslate(p, dx, dy, n - 1);
      var q := DriftFrames(p, n - 1);
      assert Drift(Shift(q, dx, dy)) == Shift(Drift(q), dx, dy);
    }
  }

  /** The speed change the pointer imposes at distance `dist`. */
  function Push(dist: real): (f: real)
    requires dist >= 0.0
    ensures 0.0 <= f <= ForceRadius * PushStrength
    ensures f == 0.0 <==> dist >= ForceRadius
  {
    if dist < ForceRadius then (ForceRadius - dist) * PushStrength else 0.0
  }

  /** The push only weakens with distance, so it is strongest on the pointer itself. */
  lemma PushFadesWithDistance(near: real, far: real)
    requires 0.0 <= near <= far
    ensures Push(far) <= Push(near) <= Push(0.0)
  {
  }

  /** The velocity change away from the pointer, along the unit vector
      (cosAngle, sinAngle) that points from the particle to the pointer. */
  function Repel(p: ParticleState, dist: real, cosAngle: real, sinAngle: real): (q: ParticleState)
    ensures q == p.(velX := q.velX, velY := q.velY)
    ensures dist == ForceRadius ==> q == p
  {
    p.(velX := p.velX - cosAngle * (ForceRadius - dist) * PushStrength,
       velY := p.velY - sinAngle * (ForceRadius - dist) * PushStrength)
  }

  /** Within the radius the velocity changes by exactly `Push(dist)`. */
  lemma RepelMagnitude(p: ParticleState, dist: real, cosAngle: real, sinAngle: real)
    requires 0.0 <= dist < ForceRadius && cosAngle * cosAngle + sinAngle * sinAngle == 1.0
    ensures var q := Repel(p, dist, cosAngle, sinAngle);
      (q.velX - p.velX) * (q.velX - p.velX) + (q.velY - p.velY) * (q.velY - p.velY) == Push(dist) * Push(dist)
  {
    var k := (ForceRadius - dist) * PushStrength;
    assert (cosAngle * k) * (cosAngle * k) + (sinAngle * k) * (sinAngle * k)
        == (cosAngle * cosAngle + sinAngle * sinAngle) * (k * k);
  }

  /** One full frame: the pointer's push when it is close, then the drift. */
  function Step(p: ParticleState, dist: real, cosAngle: real, sinAngle: real): (q: ParticleState)
    ensures q == p.(x := q.x, y := q.y, velX := q.velX, velY := q.velY)
    ensures dist >= ForceRadius ==> q == Drift(p)
  {
    Drift(if dist < ForceRadius then Repel(p, dist, cosAngle, sinAngle) else p)
  }

  /** A pointer at squared distance at least 120 squared has no effect. */
  lemma FarPointerIsIgnored(p: ParticleState, dx: real, dy: real, dist: real, cosAngle: real, sinAngle: real)
    requires dist >= 0.0 && dist * dist == dx * dx + dy * dy
    requires dx * dx + dy * dy >= ForceRadius * ForceRadius
    ensures Step(p, dist, cosAngle, sinAngle) == Drift(p)
  {
    SquareBelowRadius(dist);
  }

  lemma SquareBelowRadius(d: real)
    requires d >= 0.0
    ensures d < ForceRadius ==> d * d < ForceRadius * ForceRadius
  {
    if d < ForceRadius {
      var e := ForceRadius - d;
      assert e > 0.0;
      assert d * e >= 0.0;
      assert d * d <= d * ForceRadius;
    }
  }

  class Particle {
    var x: real
    var y: real
    var baseX: real
    var baseY: real
    var velX: real
    var velY: real
    const size: real
    const color: Color
    const depth: real
    const initialHue: real

    ghost function State(): ParticleState
      reads this
    {
      ParticleState(x, y, baseX, baseY, velX, velY, color, size, depth, initialHue)
    }

    /** A particle aiming at (x, y). Entering from the bottom it starts below a
        canvas of height `canvasHeight`, spread sideways, jumping upwards;
        otherwise it starts on its base. */
    constructor (x: real, y: real, color: Color, startFromBottom: bool, canvasHeight: real, r: Draw)
      requires r.Valid()
      ensures startFromBottom ==> State() == Entering(x, y, color, canvasHeight, r)
      ensures !startFromBottom ==> State() == AtBase(x, y, color, r)
    {
      baseX := x;
      baseY := y;
      velX := 0.0;
      if startFromBottom {
        this.x := x + (r.spread - 0.5) * 200.0;
        this.y := canvasHeight + r.drop * 50.0;
        velY := -r.jump * 5.0 - 2.0;
      } else {
        this.x := x;
        this.y := y;
        velY := 0.0;
      }
      size := r.Size();
      this.color := color;
      depth := r.Depth();
      initialHue := r.Hue();
    }

    method SetNewBasePosition(newX: real, newY: real)
      modifies this`baseX, this`baseY
      ensures State() == old(State()).(baseX := newX, baseY := newY)
    {
      baseX := newX;
      baseY := newY;
    }

    /** One frame with the pointer at (mouseX, mouseY). The host's square root
        and angle are given as `dist` and the unit vector (cosAngle, sinAngle). */
    method Update(mouseX: real, mouseY: real, dist: real, cosAngle: real, sinAngle: real)
      requires dist >= 0.0
      requires dist * dist == (mouseX - x) * (mouseX - x) + (mouseY - y) * (mouseY - y)
      requires cosAngle * cosAngle + sinAngle * sinAngle == 1.0
      requires dist > 0.0 ==> dist * cosAngle == mouseX - x && dist * sinAngle == mouseY - y
      requires dist == 0.0 ==> cosAngle == 1.0 && sinAngle == 0.0
      modifies this`x, this`y, this`velX, this`velY
      ensures State() == Step(old(State()), dist, cosAngle, sinAngle)
      ensures (mouseX - old(x)) * (mouseX - old(x)) + (mouseY - old(y)) * (mouseY - old(y))
                >= ForceRadius * ForceRadius
              ==> State() == Drift(old(State()))
    {
      ghost var before := State();
      if dist < ForceRadius {
        velX := velX - cosAngle * (ForceRadius - dist) * PushStrength;
        velY := velY - sinAngle * (ForceRadius - dist) * PushStrength;
      }
      velX := velX + (baseX - x) * Ease;
      velY := velY + (baseY - y) * Ease;
      velX := velX * Friction;
      velY := velY * Friction;
      x := x + velX;
      y := y + velY;
      var dx, dy := mouseX - before.x, mouseY - before.y;
      if dx * dx + dy * dy >= ForceRadius * ForceRadius {
        FarPointerIsIgnored(before, dx, dy, dist, cosAngle, sinAngle);
      }
    }
  }
}

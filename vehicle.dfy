/** The car: heading update under a discrete steering command, one Euler
    step of position, and the three probe points placed at a fixed
    distance ahead of it. Trigonometry is an input: a table giving the
    direction (cos, sin) of every whole-degree heading. */
module Vehicle {
  import opened Field

  /** Distance from the car to each of its three probes. */
  const SensorLength: real := 30.0

  /** Steering command, in degrees, for each of the agent's actions. */
  const ActionToRotation: seq<int> := [0, 20, -20]

  /** An action index the agent may return. */
  type Action = a: int | 0 <= a < 3

  /** Speeds: on sand, and everywhere else. */
  const SandSpeed: int := 1
  const NormalSpeed: int := 6

  /** The new heading after turning by rotation degrees: it lies in
      [0, 360) and is congruent to angle + rotation modulo 360. (Dafny's %
      agrees with Python's for a positive divisor.) */
  function Heading(angle: int, rotation: int): (h: int)
    ensures 0 <= h < 360
    ensures (h - angle - rotation) % 360 == 0
  {
    (angle + rotation) % 360
  }

  /** Every steering command is a multiple of 20 degrees, so headings
      reached from 0 stay on the 18 multiples of 20 in [0, 360). */
  lemma HeadingStaysOnGrid(angle: int, action: Action)
    requires angle % 20 == 0
    ensures Heading(angle, ActionToRotation[action]) % 20 == 0
  {
    var r := ActionToRotation[action];
    assert r % 20 == 0;
    var k := (angle + r) / 360;
    assert Heading(angle, r) == angle + r - 360 * k;
  }

  /** A direction as (cos, sin). */
  datatype Dir = Dir(cos: real, sin: real)

  predicate Unit(d: Dir)
  {
    d.cos * d.cos + d.sin * d.sin == 1.0
  }

  /** trig[a] is the unit direction of the whole-degree heading a, for
      every a in [0, 360). */
  predicate IsTrig(trig: seq<Dir>)
  {
    |trig| == 360 && forall a :: 0 <= a < 360 ==> Unit(trig[a])
  }

  lemma UnitBounds(d: Dir)
    requires Unit(d)
    ensures -1.0 <= d.cos <= 1.0 && -1.0 <= d.sin <= 1.0
  {
    assert d.cos * d.cos >= 0.0 && d.sin * d.sin >= 0.0;
  }

  /** The probe point SensorLength ahead of p in direction d. */
  function Probe(p: Vec, d: Dir): Vec
  {
    Vec(p.x + SensorLength * d.cos, p.y + SensorLength * d.sin)
  }

  /** A probe in a unit direction lies exactly SensorLength from p. */
  lemma ProbeDistance(p: Vec, d: Dir)
    requires Unit(d)
    ensures Dist2(p, Probe(p, d)) == SensorLength * SensorLength
  {
    var q := Probe(p, d);
    assert q.x - p.x == SensorLength * d.cos && q.y - p.y == SensorLength * d.sin;
    assert (SensorLength * d.cos) * (SensorLength * d.cos) + (SensorLength * d.sin) * (SensorLength * d.sin)
        == SensorLength * SensorLength * (d.cos * d.cos + d.sin * d.sin);
  }

  /** One Euler step of the given speed along direction d. */
  function Step(p: Vec, velocity: int, d: Dir): Vec
  {
    Vec(p.x + velocity as real * d.cos, p.y + velocity as real * d.sin)
  }

  /** A step of speed 1 or 6 in a unit direction moves each coordinate by
      at most 6. */
  lemma StepBounds(p: Vec, velocity: int, d: Dir)
    requires velocity == SandSpeed || velocity == NormalSpeed
    requires Unit(d)
    ensures var q := Step(p, velocity, d);
            p.x - 6.0 <= q.x <= p.x + 6.0 && p.y - 6.0 <= q.y <= p.y + 6.0
  {
    UnitBounds(d);
    if velocity == NormalSpeed {
      assert -6.0 <= 6.0 * d.cos <= 6.0 && -6.0 <= 6.0 * d.sin <= 6.0;
    }
  }

  /** The car as a value: position, heading, last steering command,
      speed, the three probe points and the readings last taken there. */
  datatype CarState = CarState(pos: Vec, angle: int, rotation: int, velocity: int,
                               sensor1: Vec, sensor2: Vec, sensor3: Vec,
                               signal1: real, signal2: real, signal3: real)

  /** The car c after turning by r degrees and stepping forward at its
      speed along the new heading, with the front probe on that heading
      and the side probes at +30 and -30 degrees from it. Speed and
      readings do not change. */
  function Moved(c: CarState, r: int, trig: seq<Dir>): CarState
    requires |trig| == 360
  {
    var a := Heading(c.angle, r);
    var d := trig[a];
    var p := Step(c.pos, c.velocity, d);
    c.(pos := p, angle := a, rotation := r,
       sensor1 := Probe(p, d), sensor2 := Probe(p, trig[(a + 30) % 360]), sensor3 := Probe(p, trig[(a - 30) % 360]))
  }

  /** A move turns the heading by r (modulo 360), moves each coordinate by
      at most 6 and puts every probe exactly SensorLength from the new
      position; speed and readings are kept. */
  lemma MovedGeometry(c: CarState, r: int, trig: seq<Dir>)
    requires IsTrig(trig)
    requires c.velocity == SandSpeed || c.velocity == NormalSpeed
    ensures var m := Moved(c, r, trig);
            && m.rotation == r && 0 <= m.angle < 360 && (m.angle - c.angle - r) % 360 == 0
            && c.pos.x - 6.0 <= m.pos.x <= c.pos.x + 6.0 && c.pos.y - 6.0 <= m.pos.y <= c.pos.y + 6.0
            && Dist2(m.pos, m.sensor1) == SensorLength * SensorLength
            && Dist2(m.pos, m.sensor2) == SensorLength * SensorLength
            && Dist2(m.pos, m.sensor3) == SensorLength * SensorLength
            && m.velocity == c.velocity
            && m.signal1 == c.signal1 && m.signal2 == c.signal2 && m.signal3 == c.signal3
  {
    var m := Moved(c, r, trig);
    var a := m.angle;
    StepBounds(c.pos, c.velocity, trig[a]);
    ProbeDistance(m.pos, trig[a]);
    ProbeDistance(m.pos, trig[(a + 30) % 360]);
    ProbeDistance(m.pos, trig[(a - 30) % 360]);
  }

  class Car {
    var x: real
    var y: real
    var angle: int
    var rotation: int
    var velocity: int
    /** Front probe, probe at +30 degrees, probe at -30 degrees. */
    var sensor1: Vec
    var sensor2: Vec
    var sensor3: Vec
    /** The readings last taken at the three probes. */
    var signal1: real
    var signal2: real
    var signal3: real

    function State(): CarState
      reads this
    {
      CarState(Vec(x, y), angle, rotation, velocity, sensor1, sensor2, sensor3, signal1, signal2, signal3)
    }

    /** A car at (x0, y0), heading 0, not turning, at normal speed, probes
        at the origin, readings 0. */
    constructor (x0: real, y0: real)
      ensures State() == CarState(Vec(x0, y0), 0, 0, NormalSpeed, Vec(0.0, 0.0), Vec(0.0, 0.0), Vec(0.0, 0.0), 0.0, 0.0, 0.0)
    {
      x, y := x0, y0;
      angle, rotation, velocity := 0, 0, NormalSpeed;
      sensor1, sensor2, sensor3 := Vec(0.0, 0.0), Vec(0.0, 0.0), Vec(0.0, 0.0);
      signal1, signal2, signal3 := 0.0, 0.0, 0.0;
    }

    /** Turn by r degrees, step forward along the new heading and place the
        three probes around the new position, in place. */
    method Move(r: int, trig: seq<Dir>)
      requires |trig| == 360
      modifies this
      ensures State() == Moved(old(State()), r, trig)
    {
      var a := (angle + r) % 360;
      var d, d2, d3 := trig[a], trig[(a + 30) % 360], trig[(a - 30) % 360];
      var nx, ny := x + velocity as real * d.cos, y + velocity as real * d.sin;
      rotation, angle, x, y := r, a, nx, ny;
      sensor1 := Vec(nx + SensorLength * d.cos, ny + SensorLength * d.sin);
      sensor2 := Vec(nx + SensorLength * d2.cos, ny + SensorLength * d2.sin);
      sensor3 := Vec(nx + SensorLength * d3.cos, ny + SensorLength * d3.sin);
    }
  }
}

/** The game state and its three operations on it: one simulation tick
    (Update), painting a mouse stroke of sand (HandleMouseDrawing) and
    wiping the sand (Clear). The learning agent, the clock and the
    trigonometry come in as parameters. */
module Simulation {
  import opened Field
  import opened Stroke
  import opened Vehicle
  import opened Rules

  datatype Option<T> = None | Some(value: T)

  /** The game as a value, apart from the sand: the car, the goal, the
      reward of the latest tick, the agent's scores, the squared distance
      and clock reading the next tick compares against, and the transcript
      of the agent boundary (the reward handed to the agent, the
      observation handed to it and the reward then earned, one entry per
      tick). */
  datatype State = State(car: CarState, goal: Goal, lastReward: real, scores: seq<real>,
                         lastDistanceSq: real, startingTime: real,
                         fed: seq<real>, observed: seq<seq<real>>, earned: seq<real>)

  /** The six numbers the agent observes on a tick: the three probe
      readings, the orientation term and its negation, and the seconds
      since the last goal switch. */
  function Observation(s1: real, s2: real, s3: real, orientation: real, duration: real): (o: seq<real>)
    ensures |o| == 6 && o[3] == -o[4]
  {
    [s1, s2, s3, orientation, -orientation, duration]
  }

  /** The latest reward earned, 0 before the first tick. */
  function LastEarned(earned: seq<real>): real
  {
    if earned == [] then 0.0 else earned[|earned| - 1]
  }

  /** fed[n] is the reward handed to the agent on tick n: 0 on the first
      tick, and on every later tick the reward the tick before earned. */
  ghost predicate Handed(fed: seq<real>, earned: seq<real>)
  {
    |fed| == |earned| &&
    (fed != [] ==> fed[0] == 0.0) &&
    (forall n :: 0 < n < |fed| ==> fed[n] == earned[n - 1])
  }

  /** Handing the agent the latest reward and then recording the reward of
      the new tick keeps the two columns in step. */
  lemma HandedExtend(fed: seq<real>, earned: seq<real>, r: real)
    requires Handed(fed, earned)
    ensures Handed(fed + [LastEarned(earned)], earned + [r])
  {
    var f, e := fed + [LastEarned(earned)], earned + [r];
    forall n | 0 < n < |f|
      ensures f[n] == e[n - 1]
    {
      if n < |fed| {
        assert f[n] == fed[n] && e[n - 1] == earned[n - 1];
      } else {
        assert e[n - 1] == earned[|earned| - 1];
      }
    }
  }

  /** The car is inside the margins, at one of its two speeds, on a
      heading that is a multiple of 20 degrees in [0, 360). */
  predicate CarOk(c: CarState)
  {
    InMargins(c.pos) && (c.velocity == SandSpeed || c.velocity == NormalSpeed) &&
    0 <= c.angle < 360 && c.angle % 20 == 0
  }

  /** What every reachable state satisfies: a well-placed car, one of the
      two goals, a non-negative distance, and a transcript with one entry
      per tick in every column, in which the agent is handed 0 first and on
      every later tick the reward the tick before earned, lastReward being
      the latest reward earned. */
  ghost predicate Good(s: State)
  {
    CarOk(s.car) && IsGoal(s.goal) && 0.0 <= s.lastDistanceSq &&
    Handed(s.fed, s.earned) && |s.observed| == |s.earned| && |s.scores| == |s.earned| &&
    s.lastReward == LastEarned(s.earned)
  }

  /** The orientation term the agent sees: 0 when the car sits exactly on
      the goal, otherwise the angle term supplied from outside. */
  function Orientation(s: State, arccosTerm: real): real
  {
    if s.goal.x as real == s.car.pos.x && s.goal.y as real == s.car.pos.y then 0.0 else arccosTerm
  }

  /** The agent's half of a tick at clock reading now on sand g: the
      probes placed on the previous tick read g, the observation is
      recorded and the previous reward is handed to the agent. */
  function Perceived(g: Grid, s: State, now: real, arccosTerm: real): (p: State)
    requires IsGrid(g)
  {
    var c := s.car.(signal1 := Signal(g, s.car.sensor1), signal2 := Signal(g, s.car.sensor2),
                    signal3 := Signal(g, s.car.sensor3));
    s.(car := c, fed := s.fed + [s.lastReward],
       observed := s.observed + [Observation(c.signal1, c.signal2, c.signal3, Orientation(s, arccosTerm),
                                             now - s.startingTime)])
  }

  /** The car's half of a tick: steer by the action and move, then settle
      position, speed, reward, goal, clock and distance, and record the
      agent's score and the reward earned. */
  function Acted(g: Grid, s: State, action: Action, trig: seq<Dir>, durationTime: real, later: real, score: real): State
    requires IsGrid(g) && CarOk(s.car) && IsTrig(trig)
  {
    var m := Moved(s.car, ActionToRotation[action], trig);
    MovedGeometry(s.car, ActionToRotation[action], trig);
    NearMarginsInField(m.pos);
    var st := Settle(g, m.pos, s.goal, s.lastDistanceSq, s.startingTime, durationTime > TimeBudget, later);
    s.(car := m.(pos := st.pos, velocity := st.velocity), lastReward := st.reward, goal := st.goal,
       startingTime := st.startingTime, lastDistanceSq := st.lastDistanceSq,
       scores := s.scores + [score], earned := s.earned + [st.reward])
  }

  /** One tick from state s on sand g, which a tick does not change. now
      and later are the clock readings taken at the start of the tick and
      on arrival at a goal, arccosTerm the orientation term, decide the
      agent's choice, score its running score, trig the direction table.
      The probes are read where the previous tick left them, before the
      car moves; the agent is handed the previous reward; every column of
      the record grows by one entry. */
  function Tick(g: Grid, s: State, now: real, later: real, arccosTerm: real,
                decide: (real, seq<real>) -> Action, score: real, trig: seq<Dir>): (t: State)
    requires IsGrid(g) && CarOk(s.car) && IsTrig(trig)
    ensures t.car.signal1 == Signal(g, s.car.sensor1) && t.car.signal2 == Signal(g, s.car.sensor2)
            && t.car.signal3 == Signal(g, s.car.sensor3)
    ensures t.fed == s.fed + [s.lastReward]
    ensures t.observed == s.observed + [Observation(t.car.signal1, t.car.signal2, t.car.signal3,
                                                    Orientation(s, arccosTerm), now - s.startingTime)]
    ensures t.car.rotation == ActionToRotation[decide(s.lastReward, t.observed[|t.observed| - 1])]
    ensures t.scores == s.scores + [score] && t.earned == s.earned + [t.lastReward]
  {
    var p := Perceived(g, s, now, arccosTerm);
    Acted(g, p, decide(s.lastReward, p.observed[|p.observed| - 1]), trig, now - s.startingTime, later, score)
  }

  /** The empty 800 x 600 grid. */
  function BlankGrid(): (g: Grid)
    ensures IsGrid(g) && Blank(g)
  {
    seq(Width, x => seq(Height, y => 0))
  }

  /** The state of a new game at clock reading now: the car in the centre,
      heading 0 at normal speed, the first goal, no reward, no
      distance and an empty transcript. */
  function Initial(now: real): State
  {
    State(CarState(Vec((Width / 2) as real, (Height / 2) as real), 0, 0, NormalSpeed,
                   Vec(0.0, 0.0), Vec(0.0, 0.0), Vec(0.0, 0.0), 0.0, 0.0, 0.0),
          FirstGoal, 0.0, [], 0.0, now, [], [], [])
  }

  /** A new game satisfies the invariants of the game. */
  lemma InitialGood(now: real)
    ensures Good(Initial(now))
  {
  }

  /** A tick keeps every invariant of the game. */
  lemma TickKeepsGood(g: Grid, s: State, now: real, later: real, arccosTerm: real,
                      decide: (real, seq<real>) -> Action, score: real, trig: seq<Dir>)
    requires IsGrid(g) && Good(s) && IsTrig(trig)
    ensures Good(Tick(g, s, now, later, arccosTerm, decide, score, trig))
  {
    var p := Perceived(g, s, now, arccosTerm);
    var action := decide(s.lastReward, p.observed[|p.observed| - 1]);
    HeadingStaysOnGrid(s.car.angle, action);
    MovedGeometry(p.car, ActionToRotation[action], trig);
    var m := Moved(p.car, ActionToRotation[action], trig);
    NearMarginsInField(m.pos);
    SettleSpec(g, m.pos, p.goal, p.lastDistanceSq, p.startingTime, now - s.startingTime > TimeBudget, later);
    HandedExtend(s.fed, s.earned, Tick(g, s, now, later, arccosTerm, decide, score, trig).lastReward);
  }

  /** The car a tick steers turns by the chosen command: its heading
      stays a multiple of 20 degrees in [0, 360) congruent to the old
      heading plus the command, and its three probes end SensorLength away
      from where it stepped to. */
  lemma TickSteers(g: Grid, s: State, now: real, later: real, arccosTerm: real,
                   decide: (real, seq<real>) -> Action, score: real, trig: seq<Dir>)
    requires IsGrid(g) && CarOk(s.car) && IsTrig(trig)
    ensures var t := Tick(g, s, now, later, arccosTerm, decide, score, trig);
            var m := Moved(s.car, t.car.rotation, trig);
            && (t.car.rotation == 0 || t.car.rotation == 20 || t.car.rotation == -20)
            && 0 <= t.car.angle < 360 && t.car.angle % 20 == 0
            && (t.car.angle - s.car.angle - t.car.rotation) % 360 == 0
            && Dist2(m.pos, t.car.sensor1) == SensorLength * SensorLength
            && Dist2(m.pos, t.car.sensor2) == SensorLength * SensorLength
            && Dist2(m.pos, t.car.sensor3) == SensorLength * SensorLength
  {
    var t := Tick(g, s, now, later, arccosTerm, decide, score, trig);
    var p := Perceived(g, s, now, arccosTerm);
    var action := decide(s.lastReward, p.observed[|p.observed| - 1]);
    HeadingStaysOnGrid(s.car.angle, action);
    MovedGeometry(p.car, ActionToRotation[action], trig);
  }

  /** After stepping from inside the margins, the car's cell is a valid
      index of the grid on both axes, and never a negative one. */
  lemma SandLookupInRange(c: CarState, r: int, trig: seq<Dir>)
    requires CarOk(c) && IsTrig(trig)
    ensures var p := Moved(c, r, trig).pos;
            InField(Trunc(p.x), Trunc(p.y))
  {
    MovedGeometry(c, r, trig);
    NearMarginsInField(Moved(c, r, trig).pos);
  }

  /** The car's half of a tick, in the terms of the game: with p the
      position the car stepped to, the speed drops to 1 exactly on sand;
      past the time budget (measured from the start of the tick, even on a
      tick that reaches the goal) the reward is the living cost; within it,
      the reward is the approach reward exactly when p is inside the
      margins, off sand and closer to the goal than the remembered
      distance, -1 exactly when p is on sand or outside the margins, and
      the living cost otherwise; the car ends inside the margins, where it stands still only if p was
      inside them; the remembered distance becomes the distance from p to
      the goal it was heading for; the goal flips exactly on arrival and
      the clock then restarts at later. */
  lemma TickSettles(g: Grid, s: State, now: real, later: real, arccosTerm: real,
                    decide: (real, seq<real>) -> Action, score: real, trig: seq<Dir>)
    requires IsGrid(g) && Good(s) && IsTrig(trig)
    ensures var t := Tick(g, s, now, later, arccosTerm, decide, score, trig);
            var p := Moved(s.car, t.car.rotation, trig).pos;
            var overTime := now - s.startingTime > TimeBudget;
            && InField(Trunc(p.x), Trunc(p.y))
            && (t.car.velocity == SandSpeed <==> OnSand(g, p))
            && (overTime ==> t.lastReward == LivingCost)
            && (t.lastReward == ApproachReward || t.lastReward == SandPenalty || t.lastReward == LivingCost)
            && (t.lastReward == LivingCost <==>
                  overTime || (InMargins(p) && !OnSand(g, p) && !(t.lastDistanceSq < s.lastDistanceSq)))
            && (t.lastReward == ApproachReward <==>
                  !overTime && InMargins(p) && !OnSand(g, p) && t.lastDistanceSq < s.lastDistanceSq)
            && (t.lastReward == SandPenalty <==> !overTime && (!InMargins(p) || OnSand(g, p)))
            && InMargins(t.car.pos) && (t.car.pos == p <==> InMargins(p))
            && t.lastDistanceSq == Dist2(p, GoalVec(s.goal))
            && IsGoal(t.goal) && (t.goal != s.goal <==> Arrived(t.lastDistanceSq))
            && t.startingTime == if t.goal != s.goal then later else s.startingTime
  {
    var p := Perceived(g, s, now, arccosTerm);
    var action := decide(s.lastReward, p.observed[|p.observed| - 1]);
    var m := Moved(p.car, ActionToRotation[action], trig);
    SandLookupInRange(p.car, ActionToRotation[action], trig);
    SettleSpec(g, m.pos, p.goal, p.lastDistanceSq, p.startingTime, now - s.startingTime > TimeBudget, later);
  }

  class Game {
    const car: Car
    /** sand[x, y] is 1 where sand has been painted, 0 elsewhere. */
    var sand: array2<int>
    var goalX: int
    var goalY: int
    var lastReward: real
    var scores: seq<real>
    /** The distance to the goal measured on the previous tick, squared. */
    var lastDistanceSq: real
    var startingTime: real
    /** The previous mouse position of the stroke being drawn, if any. */
    var lastPos: Option<Point>

    /** The transcript of the agent boundary, one entry per tick: the
        reward handed to the agent, the observation handed to it, and the
        reward the tick then earned. */
    ghost var fed: seq<real>
    ghost var observed: seq<seq<real>>
    ghost var earned: seq<real>

    /** The sand grid as a value. */
    function Cells(): (g: Grid)
      reads this`sand, sand
      requires sand.Length0 == Width && sand.Length1 == Height
      ensures IsGrid(g)
      ensures forall x, y :: 0 <= x < Width && 0 <= y < Height ==> g[x][y] == sand[x, y]
    {
      var a := sand;
      seq(Width, x requires 0 <= x < Width reads a =>
        seq(Height, y requires 0 <= y < Height reads a => a[x, y]))
    }

    /** The game as a value. */
    ghost function Snapshot(): State
      reads this, car
    {
      State(car.State(), Goal(goalX, goalY), lastReward, scores, lastDistanceSq, startingTime,
            fed, observed, earned)
    }

    ghost predicate Valid()
      reads this, car, sand
    {
      sand.Length0 == Width && sand.Length1 == Height && Binary(Cells()) && Good(Snapshot())
    }

    /** The part of the state a tick settles after the car has moved. */
    function Settlement(): Settled
      reads this, car
    {
      Settled(Vec(car.x, car.y), car.velocity, lastReward, Goal(goalX, goalY), startingTime, lastDistanceSq)
    }

    /** A new game at clock reading now. */
    constructor (now: real)
      ensures Valid() && fresh(car) && fresh(sand)
      ensures Snapshot() == Initial(now) && Cells() == BlankGrid() && lastPos == None
    {
      car := new Car((Width / 2) as real, (Height / 2) as real);
      sand := new int[Width, Height]((x, y) => 0);
      goalX := 20;
      goalY := Height - 20;
      lastReward := 0.0;
      scores := [];
      lastDistanceSq := 0.0;
      startingTime := now;
      lastPos := None;
      fed, observed, earned := [], [], [];
      new;
      GridExt(Cells(), BlankGrid());
      InitialGood(now);
    }

    /** Replace the sand by a blank grid; nothing else changes, and
        afterwards every in-field probe reads 0. */
    method Clear()
      requires Valid()
      modifies this`sand
      ensures Valid() && fresh(sand)
      ensures Snapshot() == old(Snapshot()) && Cells() == BlankGrid()
      ensures forall p: Vec :: InField(Trunc(p.x), Trunc(p.y)) ==> Signal(Cells(), p) == 0.0
    {
      sand := new int[Width, Height]((x, y) => 0);
      GridExt(Cells(), BlankGrid());
      forall p: Vec | InField(Trunc(p.x), Trunc(p.y))
        ensures Signal(Cells(), p) == 0.0
      {
        SignalOfBlank(Cells(), p);
      }
    }

    /** The mouse moved to pos while the button is held. Below the field
        (the button bar) nothing happens; the first position of a stroke is
        only remembered; otherwise the stroke from the remembered position
        to pos is painted in place and pos is remembered. Nothing else
        changes. */
    method HandleMouseDrawing(pos: Point)
      requires Valid()
      modifies this`lastPos, sand
      ensures Valid()
      ensures lastPos == if pos.y >= Height then old(lastPos) else Some(pos)
      ensures Snapshot() == old(Snapshot())
      ensures Cells() == if pos.y < Height && old(lastPos).Some? then Paint(old(Cells()), old(lastPos).value, pos)
                         else old(Cells())
    {
      if pos.y >= Height {
        return;
      }
      if lastPos.None? {
        lastPos := Some(pos);
        return;
      }
      var a := lastPos.value;
      var len := StrokeLength(a, pos);
      if len > 0 {
        var i := 0;
        while i < len
          invariant 0 <= i <= len
          invariant forall x, y :: 0 <= x < Width && 0 <= y < Height ==>
            sand[x, y] == if CoveredBy(a, pos, len, i, x, y) then 1 else old(sand[x, y])
        {
          var s := Sample(a, pos, len, i);
          if 0 <= s.x < Width && 0 <= s.y < Height {
            forall cx, cy | Max(0, s.x - StampHalf) <= cx < Min(Width, s.x + StampHalf) &&
                            Max(0, s.y - StampHalf) <= cy < Min(Height, s.y + StampHalf)
            {
              sand[cx, cy] := 1;
            }
          }
          i := i + 1;
        }
      }
      lastPos := Some(pos);
      GridExt(Cells(), Paint(old(Cells()), a, pos));
      PaintOnlySets(old(Cells()), a, pos);
    }

    /** One tick, in place: the new state is Tick of the old one. now and
        later are the two clock readings the tick takes, arccosTerm the
        orientation term the agent sees, decide the agent's choice, score
        the agent's running score, trig the direction table. */
    method Update(now: real, later: real, arccosTerm: real,
                  decide: (real, seq<real>) -> Action, score: real, trig: seq<Dir>)
      requires Valid() && IsTrig(trig)
      modifies this, car
      ensures Valid()
      ensures sand == old(sand) && lastPos == old(lastPos) && Cells() == old(Cells())
      ensures Snapshot() == Tick(Cells(), old(Snapshot()), now, later, arccosTerm, decide, score, trig)
    {
      var durationTime := now - startingTime;
      var action := Perceive(now, arccosTerm, decide);
      Act(action, trig, durationTime, later, score);
      TickKeepsGood(Cells(), old(Snapshot()), now, later, arccosTerm, decide, score, trig);
    }

    /** Each of the three probes reads the sand around it. */
    method Sense()
      requires sand.Length0 == Width && sand.Length1 == Height
      modifies car`signal1, car`signal2, car`signal3
      ensures car.signal1 == Signal(old(Cells()), car.sensor1)
      ensures car.signal2 == Signal(old(Cells()), car.sensor2)
      ensures car.signal3 == Signal(old(Cells()), car.sensor3)
    {
      var g := Cells();
      car.signal1 := Signal(g, car.sensor1);
      car.signal2 := Signal(g, car.sensor2);
      car.signal3 := Signal(g, car.sensor3);
    }

    /** The agent's half of a tick: the probes are read, the observation
        is assembled (the three readings, the orientation term and its
        negation, the time since the last goal switch) and the agent,
        handed the previous reward, picks an action. */
    method Perceive(now: real, arccosTerm: real, decide: (real, seq<real>) -> Action) returns (action: Action)
      requires sand.Length0 == Width && sand.Length1 == Height
      modifies car`signal1, car`signal2, car`signal3, this`fed, this`observed
      ensures Snapshot() == Perceived(Cells(), old(Snapshot()), now, arccosTerm)
      ensures action == decide(old(lastReward), observed[|observed| - 1])
    {
      ghost var s0, g := Snapshot(), Cells();
      var xx := goalX as real - car.x;
      var yy := goalY as real - car.y;
      var orientation := if xx != 0.0 || yy != 0.0 then arccosTerm else 0.0;
      assert orientation == Orientation(s0, arccosTerm);

      Sense();
      assert Cells() == g;
      assert Snapshot() == s0.(car := s0.car.(signal1 := Signal(g, s0.car.sensor1), signal2 := Signal(g, s0.car.sensor2),
                                              signal3 := Signal(g, s0.car.sensor3)));

      var lastSignal := Observation(car.signal1, car.signal2, car.signal3, orientation, now - startingTime);
      action := decide(lastReward, lastSignal);
      fed, observed := fed + [lastReward], observed + [lastSignal];
    }

    /** The car's half of a tick: steer by the chosen action, move, then
        settle speed, reward, border, goal and distance, and record the
        score and the reward. */
    method Act(action: Action, trig: seq<Dir>, durationTime: real, later: real, score: real)
      requires sand.Length0 == Width && sand.Length1 == Height
      requires CarOk(car.State()) && IsTrig(trig)
      modifies car, this`lastReward, this`goalX, this`goalY, this`startingTime, this`lastDistanceSq,
               this`scores, this`earned
      ensures Snapshot() == Acted(Cells(), old(Snapshot()), action, trig, durationTime, later, score)
    {
      ghost var s0 := Snapshot();
      var rotation := ActionToRotation[action];
      car.Move(rotation, trig);
      ghost var s1 := Snapshot();
      assert s1 == s0.(car := Moved(s0.car, rotation, trig));
      MovedGeometry(s0.car, rotation, trig);
      NearMarginsInField(Vec(car.x, car.y));
      Judge(durationTime, later);
      ghost var st := Settle(Cells(), s1.car.pos, s1.goal, s1.lastDistanceSq, s1.startingTime,
                             durationTime > TimeBudget, later);
      assert Snapshot() == s1.(car := s1.car.(pos := st.pos, velocity := st.velocity), lastReward := st.reward,
                               goal := st.goal, startingTime := st.startingTime, lastDistanceSq := st.lastDistanceSq);
      scores, earned := scores + [score], earned + [lastReward];
    }

    /** Everything a tick does after the car has moved: the sand test,
        the border clamp, the goal switch and the time budget, in that
        order, and finally recording the distance to the (old) goal. */
    method Judge(durationTime: real, later: real)
      requires sand.Length0 == Width && sand.Length1 == Height
      requires InField(Trunc(car.x), Trunc(car.y))
      modifies car`x, car`y, car`velocity, this`lastReward, this`goalX, this`goalY, this`startingTime, this`lastDistanceSq
      ensures Settlement() == Settle(Cells(), old(Vec(car.x, car.y)), old(Goal(goalX, goalY)), old(lastDistanceSq),
                                     old(startingTime), durationTime > TimeBudget, later)
    {
      var distanceSq := Dist2(Vec(car.x, car.y), GoalVec(Goal(goalX, goalY)));
      SandTest(distanceSq);
      ClampToBorder();
      SwitchGoal(distanceSq, later);
      if durationTime > TimeBudget {
        lastReward := LivingCost;
      }
      lastDistanceSq := distanceSq;
    }

    /** Speed and reward from the car's cell: on sand slow down and take
        the sand penalty; elsewhere go at normal speed and earn the approach
        reward when the squared distance to the goal dropped, the living
        cost otherwise. */
    method SandTest(distanceSq: real)
      requires sand.Length0 == Width && sand.Length1 == Height
      requires InField(Trunc(car.x), Trunc(car.y))
      modifies car`velocity, this`lastReward
      ensures var ix, iy := Trunc(car.x), Trunc(car.y);
              var onSand := ix < Width && iy < Height && sand[ix, iy] > 0;
              && car.velocity == (if onSand then SandSpeed else NormalSpeed)
              && lastReward == TickReward(onSand, distanceSq < lastDistanceSq, false, false)
    {
      var ix, iy := Trunc(car.x), Trunc(car.y);
      if ix < Width && iy < Height && sand[ix, iy] > 0 {
        car.velocity := SandSpeed;
        lastReward := SandPenalty;
      } else {
        car.velocity := NormalSpeed;
        lastReward := LivingCost;
        if distanceSq < lastDistanceSq {
          lastReward := ApproachReward;
        }
      }
    }

    /** Each coordinate outside its margins is pulled back onto the margin,
        and any such pull sets the wall penalty. */
    method ClampToBorder()
      modifies car`x, car`y, this`lastReward
      ensures Vec(car.x, car.y) == ClampPosition(old(Vec(car.x, car.y)))
      ensures lastReward == if !InMargins(old(Vec(car.x, car.y))) then WallPenalty else old(lastReward)
    {
      if car.x < Margin {
        car.x := Margin;
        lastReward := WallPenalty;
      }
      if car.x > Width as real - Margin {
        car.x := Width as real - Margin;
        lastReward := WallPenalty;
      }
      if car.y < Margin {
        car.y := Margin;
        lastReward := WallPenalty;
      }
      if car.y > Height as real - Margin {
        car.y := Height as real - Margin;
        lastReward := WallPenalty;
      }
    }

    /** On arrival the goal is reflected to the other corner and the clock
        of the time budget restarts at the reading later. */
    method SwitchGoal(distanceSq: real, later: real)
      modifies this`goalX, this`goalY, this`startingTime
      ensures Goal(goalX, goalY) == if Arrived(distanceSq) then Mirror(old(Goal(goalX, goalY))) else old(Goal(goalX, goalY))
      ensures startingTime == if Arrived(distanceSq) then later else old(startingTime)
    {
      if Arrived(distanceSq) {
        goalX := Width - goalX;
        goalY := Height - goalY;
        startingTime := later;
      }
    }
  }
}

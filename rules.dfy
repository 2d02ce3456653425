/** The per-tick rules of the simulation that do not touch the grid: the
    reward a tick earns, the border clamp, the two alternating goals and
    the arrival test. */
module Rules {
  import opened Field
  import opened Vehicle

  /** Inset of the playable area from every edge. */
  const Margin: real := 10.0
  /** The goal is reached at a distance below 100, that is, a squared
      distance below 100 * 100. */
  const ArrivalRadius: real := 100.0
  /** Seconds since the last goal switch after which every reward is -0.2. */
  const TimeBudget: real := 10.0

  const SandPenalty: real := -1.0
  const WallPenalty: real := -1.0
  const ApproachReward: real := 0.1
  const LivingCost: real := -0.2

  /** The reward of a tick, as a decision list read from the highest
      priority down: over the time budget, then a border clamp, then sand,
      then whether the car got closer to the goal. */
  function TickReward(onSand: bool, closer: bool, clamped: bool, overTime: bool): (r: real)
    ensures r == LivingCost || r == SandPenalty || r == ApproachReward
    ensures overTime ==> r == LivingCost
    ensures r == ApproachReward <==> !overTime && !clamped && !onSand && closer
    ensures r == SandPenalty <==> !overTime && (clamped || onSand)
  {
    if overTime then LivingCost
    else if clamped then WallPenalty
    else if onSand then SandPenalty
    else if closer then ApproachReward
    else LivingCost
  }

  /** On sand the penalty wins even when the car got closer, unless the
      time budget is exhausted. */
  lemma SandBeatsApproach(clamped: bool, overTime: bool)
    ensures TickReward(true, true, clamped, overTime) == (if overTime then LivingCost else SandPenalty)
  {
  }

  /** v pulled into [lo, hi]. */
  function Clamp(v: real, lo: real, hi: real): (r: real)
    requires lo <= hi
    ensures lo <= r <= hi
    ensures r == v <==> lo <= v <= hi
    ensures v < lo ==> r == lo
    ensures hi < v ==> r == hi
  {
    if v < lo then lo else if hi < v then hi else v
  }

  /** Clamping twice is clamping once. */
  lemma ClampIdempotent(v: real, lo: real, hi: real)
    requires lo <= hi
    ensures Clamp(Clamp(v, lo, hi), lo, hi) == Clamp(v, lo, hi)
  {
  }

  /** The car is inside the inset playable area. */
  predicate InMargins(p: Vec)
  {
    Margin <= p.x <= Width as real - Margin && Margin <= p.y <= Height as real - Margin
  }

  /** Each axis is clamped into its margins on its own. */
  function ClampPosition(p: Vec): (q: Vec)
    ensures InMargins(q)
    ensures q == p <==> InMargins(p)
    ensures Margin <= p.x <= Width as real - Margin ==> q.x == p.x
    ensures Margin <= p.y <= Height as real - Margin ==> q.y == p.y
  {
    Vec(Clamp(p.x, Margin, Width as real - Margin), Clamp(p.y, Margin, Height as real - Margin))
  }

  /** The sand test on the car's cell. The program guards only the
      upper bounds of the index; the lower bounds are a precondition here, met
      because the car is never more than one step outside the margins. */
  predicate OnSand(g: Grid, p: Vec)
    requires IsGrid(g) && 0 <= Trunc(p.x) && 0 <= Trunc(p.y)
  {
    Trunc(p.x) < Width && Trunc(p.y) < Height && g[Trunc(p.x)][Trunc(p.y)] > 0
  }

  /** A position at most one step (6 units) outside the margins truncates
      to a cell index that is in range on both axes. */
  lemma NearMarginsInField(p: Vec)
    requires Margin - 6.0 <= p.x <= Width as real - Margin + 6.0
    requires Margin - 6.0 <= p.y <= Height as real - Margin + 6.0
    ensures InField(Trunc(p.x), Trunc(p.y))
  {
  }

  datatype Goal = Goal(x: int, y: int)

  const FirstGoal: Goal := Goal(20, Height - 20)
  const SecondGoal: Goal := Goal(Width - 20, 20)

  predicate IsGoal(g: Goal)
  {
    g == FirstGoal || g == SecondGoal
  }

  /** The goal point reflected through the centre of the field. It swaps
      the two goals with each other. */
  function Mirror(g: Goal): (m: Goal)
    ensures g == FirstGoal <==> m == SecondGoal
    ensures g == SecondGoal <==> m == FirstGoal
  {
    Goal(Width - g.x, Height - g.y)
  }

  /** Flipping twice restores the goal, and a goal flips to a goal. */
  lemma MirrorInvolutive(g: Goal)
    ensures Mirror(Mirror(g)) == g
    ensures IsGoal(g) ==> IsGoal(Mirror(g)) && Mirror(g) != g
  {
  }

  function GoalVec(g: Goal): Vec
  {
    Vec(g.x as real, g.y as real)
  }

  /** The arrival test on the squared distance. */
  predicate Arrived(d2: real)
  {
    d2 < ArrivalRadius * ArrivalRadius
  }

  /** Comparing squared distances decides the same as comparing distances:
      for non-negative a and b, a < b exactly when a * a < b * b. The model
      therefore keeps squared distances and needs no square root. */
  lemma SquaresKeepOrder(a: real, b: real)
    requires 0.0 <= a && 0.0 <= b
    ensures a < b <==> a * a < b * b
  {
    assert b * b - a * a == (b - a) * (b + a);
    if a < b {
      PositiveProduct(b - a, b + a);
    } else {
      NonNegativeProduct(a - b, a + b);
      assert a * a - b * b == (a - b) * (a + b);
    }
  }

  lemma PositiveProduct(x: real, y: real)
    requires 0.0 < x && 0.0 < y
    ensures 0.0 < x * y
  {
  }

  lemma NonNegativeProduct(x: real, y: real)
    requires 0.0 <= x && 0.0 <= y
    ensures 0.0 <= x * y
  {
  }

  /** The part of the state a tick settles once the car has moved: where
      the car ends up, its speed for the next tick, the reward, the goal,
      the clock reading the time budget counts from, and the (squared)
      distance to remember. */
  datatype Settled = Settled(pos: Vec, velocity: int, reward: real, goal: Goal,
                             startingTime: real, lastDistanceSq: real)

  /** What a tick settles for a car that has moved to p on grid g, given the
      goal, the remembered distance and clock reading before the tick,
      whether the time budget was already exceeded when the tick began, and
      the clock reading taken on arrival. The reward and speed come from the
      sand and the approach, then the border clamp overrides the reward, then
      the time budget does; on arrival the goal flips. */
  function Settle(g: Grid, p: Vec, goal: Goal, lastDistanceSq: real, startingTime: real,
                  overTime: bool, later: real): Settled
    requires IsGrid(g) && InField(Trunc(p.x), Trunc(p.y))
  {
    var d2 := Dist2(p, GoalVec(goal));
    var onSand := OnSand(g, p);
    var goal' := if Arrived(d2) then Mirror(goal) else goal;
    Settled(ClampPosition(p), if onSand then SandSpeed else NormalSpeed,
            TickReward(onSand, d2 < lastDistanceSq, !InMargins(p), overTime),
            goal', if Arrived(d2) then later else startingTime, d2)
  }

  /** What a tick settles: the car ends inside the margins, and moves only
      if it had left them; it is slowed exactly on sand; it earns the
      approach reward exactly when within the time budget, inside the
      margins, off sand and closer than before, and a penalty exactly when
      within the time budget and on sand or outside the margins, and the
      living cost otherwise, which is always what it pays past the budget;
      the distance remembered is the
      (non-negative) distance to the goal it was heading for; a goal flips
      to the other goal exactly on arrival, and the clock restarts at later
      exactly then. */
  lemma SettleSpec(g: Grid, p: Vec, goal: Goal, lastDistanceSq: real, startingTime: real,
                   overTime: bool, later: real)
    requires IsGrid(g) && InField(Trunc(p.x), Trunc(p.y))
    ensures var s := Settle(g, p, goal, lastDistanceSq, startingTime, overTime, later);
            && InMargins(s.pos) && (s.pos == p <==> InMargins(p))
            && (s.velocity == SandSpeed || s.velocity == NormalSpeed)
            && (s.velocity == SandSpeed <==> OnSand(g, p))
            && (s.reward == ApproachReward <==>
                  !overTime && InMargins(p) && !OnSand(g, p) && s.lastDistanceSq < lastDistanceSq)
            && (s.reward == SandPenalty <==> !overTime && (!InMargins(p) || OnSand(g, p)))
            && (s.reward == ApproachReward || s.reward == SandPenalty || s.reward == LivingCost)
            && (s.reward == LivingCost <==>
                  overTime || (InMargins(p) && !OnSand(g, p) && !(s.lastDistanceSq < lastDistanceSq)))
            && (overTime ==> s.reward == LivingCost)
            && 0.0 <= s.lastDistanceSq && s.lastDistanceSq == Dist2(p, GoalVec(goal))
            && (IsGoal(goal) ==> IsGoal(s.goal) && (s.goal != goal <==> Arrived(s.lastDistanceSq)))
            && (IsGoal(goal) ==> s.startingTime == if s.goal != goal then later else startingTime)
  {
    Dist2NonNegative(p, GoalVec(goal));
  }
}

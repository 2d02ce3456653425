# Self-driving car simulation: a verified model of its mechanics

The program is a small reinforcement-learning playground. A car drives over
an 800 x 600 field on which the user paints sand with the mouse. Three
probes ahead of the car measure how much sand lies around them. On every
tick a learning agent receives those readings and the previous reward, and
picks one of three steering commands. The car then turns, steps forward and
earns a reward:

- −1 on sand or against the border;
- 0.1 when it got closer to the goal;
- −0.2 otherwise, and always once ten seconds have passed since the game
  started or the last goal was reached.

Reaching a goal moves it to the opposite corner.

This project models that mechanics in Dafny and proves its properties. The
modules follow the program's pieces:

- `Field` (field.dfy):
  - the sand grid as a value (`Grid`, indexed `[x][y]`);
  - Python's truncating `int()` (`Trunc`);
  - the clipped 20 x 20 window count behind a probe (`WindowSum`, `SensorCount`);
  - the probe reading rule (`Signal`).
- `Stroke` (stroke.dfy): painting a mouse stroke.
  - `StrokeLength` is the integer length, computed with an integer square root.
  - `Sample` gives the interpolated samples, and `Stamps` the clipped 10 x 10 stamp of a sample.
  - `Paint` is the grid after the stroke.
- `Vehicle` (vehicle.dfy): the car.
  - `Heading` is the modular heading update.
  - `Step` and `Probe` place the car and its probes; `Moved` is a whole move.
  - `class Car` has the in-place `Move`.
- `Rules` (rules.dfy): the per-tick rules that do not touch the grid.
  - `TickReward` is the reward as a decision list.
  - `ClampPosition` is the border clamp.
  - `Mirror` covers the two alternating goals, and `Arrived` the arrival test.
  - `Settle` is everything a tick decides once the car has moved.
- `Simulation` (game.dfy): the game.
  - `State` is the game as a value; `Tick` is one tick on values; `Good` is the invariant a tick keeps.
  - `class Game` holds the sand as an `array2<int>`.
  - Its `Update`, `HandleMouseDrawing` and `Clear` change the game in place.
  - Each method is proved against a pure definition.
    - `Update` leaves `Snapshot() == Tick(Cells(), old(Snapshot()), …)`.
    - `HandleMouseDrawing` leaves `Cells() == Paint(old(Cells()), …)`.
    - `Clear` leaves `Cells() == BlankGrid()`.
  - `Update` runs in the program's order through the phases `Perceive`, `Act` and `Judge`; `Judge` in turn runs `SandTest`, `ClampToBorder` and `SwitchGoal`, then applies the time budget.
  - Each phase is proved against its share of `Tick`.

Some inputs become parameters:

- **Trigonometry:** `trig`, a 360-entry table holding a unit `(cos, sin)` per whole-degree heading.
- **Orientation term:** `arccosTerm`.
- **Clock:** `now`, read at the start of the tick, and `later`, read when a goal is reached.
- **Agent:** the decision `decide` and the self-reported `score`.

## Model

| member | source | states |
|---|---|---|
| Field.Trunc | map.py:164 | `int()` of a float truncates toward zero: `n <= r < n + 1` for `r >= 0` and `n - 1 < r <= n` for `r < 0` |
| Field.WindowSumBounds | map.py:166-169 | a window of 0/1 cells sums to at least 0 and at most its area |
| Field.WindowSumMono | map.py:166-169 | raising cells never lowers a window sum |
| Field.WindowSumBlank | map.py:166-169 | every window of an all-zero grid sums to 0 |
| Field.WindowSum | map.py:166-169 | no contract of its own: the two-dimensional slice sum, whose properties are `WindowSumBounds`, `WindowSumMono`, `WindowSumBlank` and `WindowSumFull` |
| Field.SensorCountBounds | map.py:164-171 | the border-clipped 20 x 20 window count of an in-field probe lies in [0, 400] on a 0/1 grid |
| Field.SensorCount | map.py:164-171 | no contract of its own: the window clipped with `max(0, c - 10)` and `min(size, c + 10)` on each axis; `SensorCountBounds` bounds it and `SignalOfFull` gives its value on a full grid |
| Field.SignalBounds | map.py:164-191 | on a 0/1 grid every reading lies in [0, 1], and a probe whose truncated coordinates leave the field reads exactly 1.0 |
| Field.Signal | map.py:164-191 | no contract of its own: the reading rule applied to each of the three probes; its contract is stated by `SignalBounds`, `SignalMono`, `SignalOfBlank`, `SignalOfFull`, `SignalAtMostArea` and `NearEdgeProbeReadsWindow` |
| Field.WindowSumFull | map.py:166-169 | every window of a fully sanded grid sums to its area |
| Field.SignalOfFull | map.py:164-171 | on a fully sanded grid an in-field probe reads the clipped window's area over 400, so the divisor stays 400 however much of the window the border cuts away |
| Field.SignalAtMostArea | map.py:164-171 | on a 0/1 grid an in-field probe reads at most the clipped window's area over 400 |
| Field.CornerProbeReadsQuarter | map.py:164-171 | a probe that truncates to the corner cell (0, 0), such as one at (0.0, 0.0), sees a 10 x 10 window and reads at most 0.25 on any 0/1 grid |
| Field.SignalOfBlank | map.py:164-171 | on an all-zero grid every in-field probe reads 0 |
| Field.SignalMono | map.py:164-191 | painting more sand never lowers a reading |
| Field.NearEdgeProbeReadsWindow | map.py:164 | a probe at x = −0.5 truncates to column 0, so it is read as in-field (0 on a blank grid) rather than as the off-field 1.0 |
| Stroke.ISqrt | map.py:129 | the integer square root: `r * r <= n < (r + 1) * (r + 1)` |
| Stroke.StrokeLength | map.py:129 | the stroke length is the Euclidean length rounded down, and it is 0 exactly when the stroke does not move |
| Stroke.Sample | map.py:132-134 | sample 0 is the stroke's starting point |
| Stroke.CoveredByExists | map.py:131-137 | a cell is covered by the first n samples exactly when one of them stamps it |
| Stroke.Stamps | map.py:135-137 | no contract of its own: the on-field test and the clipped 10 x 10 square of one sample; `PaintStampsSample` and `PaintLeavesUnstamped` state what it means for the grid |
| Stroke.PaintStampsSample | map.py:135-137 | every on-field sample sets every cell of its clipped 10 x 10 square to 1 |
| Stroke.PaintLeavesUnstamped | map.py:131-137 | a cell that no sample stamps keeps its value, which includes the effect of every off-field sample |
| Stroke.PaintOnlySets | map.py:136-137 | painting only ever sets cells to 1, so a 0/1 grid stays 0/1 |
| Stroke.PaintStill | map.py:129-130 | a stroke that does not move paints nothing |
| Stroke.PaintMono | map.py:129-137 | painting never lowers a window sum |
| Stroke.Paint | map.py:129-137 | the painted grid keeps the field's size; its cells are stated by `PaintStampsSample`, `PaintLeavesUnstamped`, `PaintOnlySets`, `PaintStill` and `PaintMono` |
| Vehicle.Heading | map.py:40 | the new heading lies in [0, 360) and is congruent to the old heading plus the rotation modulo 360 |
| Vehicle.HeadingStaysOnGrid | map.py:98 | every command of the table is a multiple of 20, so a heading that is a multiple of 20 stays one |
| Vehicle.ProbeDistance | map.py:51-62 | a probe along a unit direction lies exactly 30 from the car |
| Vehicle.StepBounds | map.py:46-47 | a step at speed 1 or 6 moves each coordinate by at most 6 |
| Vehicle.Step | map.py:46-47 | no contract of its own: one Euler step along the heading's direction; `StepBounds` bounds it |
| Vehicle.Probe | map.py:51-62 | no contract of its own: a point 30 ahead along a direction; `ProbeDistance` states its distance |
| Vehicle.MovedGeometry | map.py:37-62 | a move records the command, turns the heading into [0, 360) congruently, moves each coordinate by at most 6, puts all three probes 30 from the new position, and keeps the speed and readings |
| Vehicle.Moved | map.py:37-62 | no contract of its own: the car after `move`, with the probes at the heading and at +30 and −30 degrees from it; `MovedGeometry` states its geometry and `Car.Move` is proved to produce it |
| Vehicle.Car.constructor | map.py:23-35 | a new car is at the given point, heading 0, not turning, at speed 6, with probes at the origin and readings 0 |
| Vehicle.Car.Move | map.py:37-62 | the in-place move leaves the car in the state `Moved` gives for the old state |
| Rules.TickReward | map.py:212-244 | the latest rule that applies wins: the time budget over the border clamp over sand over approach; the 0.1 reward comes exactly from an unclamped, off-sand, in-time, closer tick, and −1 exactly from an in-time clamp or sand |
| Rules.SandBeatsApproach | map.py:212-220 | on sand the −1 wins even when the car got closer, unless the time budget is exceeded |
| Rules.Clamp | map.py:223-228 | the clamped value lies in [lo, hi], equals v exactly when v was inside, and is the nearer bound otherwise |
| Rules.ClampIdempotent | map.py:223-234 | clamping twice is clamping once |
| Rules.ClampPosition | map.py:223-234 | each axis is clamped into its 10-unit margins on its own; the result is inside the margins, and it differs from the input exactly when the input was outside |
| Rules.NearMarginsInField | map.py:212-213 | a position at most 6 outside the margins truncates to a cell index in range on both axes |
| Rules.OnSand | map.py:212-213 | no contract of its own: the guarded sand lookup at the car's cell; `SettleSpec` states that the car is slowed exactly when it holds and, within the time budget, then earns −1 |
| Rules.Mirror | map.py:237-239 | reflecting through the field centre swaps the two goals (20, 580) and (780, 20) |
| Rules.MirrorInvolutive | map.py:237-239 | reflecting twice restores the goal, and a goal reflects to the other goal |
| Rules.SquaresKeepOrder | map.py:209-219 | for non-negative distances, comparing squares decides the same as comparing distances, so squared distances serve for both the approach test and the arrival test |
| Rules.Arrived | map.py:237 | no contract of its own: the test `distance < 100` on the squared distance, justified by `SquaresKeepOrder`; `SettleSpec` states that the goal flips exactly when it holds |
| Rules.Settle | map.py:209-246 | no contract of its own: everything the tick decides after the move; its contract is `SettleSpec` |
| Rules.SettleSpec | map.py:209-246 | after the move, the car is slowed exactly on sand; the speed is 1 or 6; the reward is 0.1 exactly when in time, inside the margins, off sand and closer, −1 exactly when in time and on sand or outside, and −0.2 exactly when past the budget or inside the margins, off sand and not closer; the car ends inside the margins and moves back only if it left them; the remembered distance is the distance to the goal it headed for; the goal flips exactly on arrival and the clock restarts then |
| Simulation.Observation | map.py:194-201 | the observation has six entries, and the fifth is the negation of the fourth |
| Simulation.Orientation | map.py:146-160 | no contract of its own: only the zero case at map.py:159-160, a car standing exactly on the goal, is pinned down; otherwise the term is the parameter `arccosTerm` |
| Simulation.HandedExtend | map.py:204 | handing the agent the latest reward and then recording this tick's reward keeps "reward handed on tick n = reward earned on tick n − 1, 0 at first" |
| Simulation.Tick | map.py:141-247 | the probes read the grid where the previous tick placed them; the agent is handed the previous reward and the observation; the command is the table entry of the agent's action; scores, rewards, observations and handed rewards each grow by exactly one entry |
| Simulation.Perceived | map.py:141-204 | no contract of its own: the agent's half of the tick; `Tick`'s contract states its effect on the readings, the handed reward and the observation, and `Game.Perceive` is proved to produce it |
| Simulation.Acted | map.py:205-247 | no contract of its own: the car's half of the tick; `TickKeepsGood`, `TickSteers` and `TickSettles` state its effect, and `Game.Act` is proved to produce it |
| Simulation.TickKeepsGood | map.py:141-247 | a tick keeps the invariant: the car inside the margins at speed 1 or 6 on a heading that is a multiple of 20 in [0, 360); one of the two goals; a non-negative distance; lastReward the latest reward earned; and the reward handed on each tick being the previous tick's |
| Simulation.TickSteers | map.py:204-206 | a tick steers by 0, +20 or −20; the new heading is a multiple of 20 in [0, 360) congruent to the old heading plus the command; every probe ends 30 from the stepped position |
| Simulation.SandLookupInRange | map.py:212-213 | from inside the margins, the stepped position's cell is a valid, non-negative grid index, so the sand lookup never relies on Python's negative indexing |
| Simulation.TickSettles | map.py:209-246 | `SettleSpec` stated for a whole tick, including that the reward is 0.1, −1 or −0.2 and −0.2 exactly past the budget or inside the margins, off sand and not closer; the time budget is measured from the start of the tick, even on a tick that reaches the goal |
| Simulation.BlankGrid | map.py:295 | the cleared grid has the field's size and holds no sand |
| Simulation.Initial | map.py:84-106 | no contract of its own: the state `Game.__init__` builds; `InitialGood` proves the invariant of it and `Game.constructor` is proved to produce it |
| Simulation.InitialGood | map.py:84-106 | a new game satisfies the invariant |
| Simulation.Game.constructor | map.py:84-106 | a new game is `Initial(now)`: car at (400, 300) heading 0 at speed 6, first goal (20, 580), reward 0, distance 0, no scores, the clock at now, no sand, no stroke in progress |
| Simulation.Game.Clear | map.py:293-295 | clearing leaves fresh all-zero sand and everything else unchanged, after which every in-field probe reads 0 |
| Simulation.Game.HandleMouseDrawing | map.py:113-139 | below the field nothing happens; the first point of a stroke is only remembered; otherwise the sand becomes `Paint` of the stroke, in place, and the point is remembered; the rest of the game is unchanged |
| Simulation.Game.Update | map.py:141-247 | the in-place tick leaves the game in the state `Tick` gives for the old state, with the sand and the stroke untouched, and keeps the invariant |
| Simulation.Game.Sense | map.py:164-191 | each probe's reading becomes `Signal` of the sand at that probe |
| Simulation.Game.Perceive | map.py:141-204 | the agent's half of the tick leaves the state `Perceived` gives, and returns the agent's choice for the previous reward and the new observation |
| Simulation.Game.Act | map.py:205-247 | the car's half of the tick leaves the state `Acted` gives |
| Simulation.Game.Judge | map.py:209-246 | after the move, the car's position and speed, the reward, goal, clock and distance become what `Settle` gives |
| Simulation.Game.SandTest | map.py:212-220 | on a sand cell the speed becomes 1 and the reward −1; otherwise the speed is 6 and the reward 0.1 when closer, −0.2 if not |
| Simulation.Game.ClampToBorder | map.py:223-234 | the position becomes its clamp into the margins, and the reward becomes −1 exactly when a clamp happened |
| Simulation.Game.SwitchGoal | map.py:237-240 | on arrival the goal is mirrored and the clock restarts at the new reading; otherwise both stay |

## Left out

- Rendering and input are not modelled: `Button`, `Game.draw`, every `pygame` call including the line drawn while painting, and the `main` event loop. This also leaves out the `drawing` flag and the reset of `last_pos` on mouse-up, which live in that loop. These are UI and I/O.
- The learning agent is not modelled: `Dqn`, `brain.update`, `brain.score`, `save`, `load` and `plt.plot`. The module `ai` is not part of this model. Its decision is the parameter `decide`, a function into {0, 1, 2}, and its score is the parameter `score`.
- Floating-point trigonometry is an input. The positions and probes computed with `np.cos` and `np.sin` come from the unit-vector table `trig`, and the arccos orientation term is the parameter `arccosTerm`. Only the case of a car standing exactly on the goal (term 0) is modelled.
- `default_timer()` is not modelled. Its two readings on a tick are the parameters `now` and `later`.
- Floating point is not modelled. Coordinates, distances and readings are exact reals.
- The distance is not modelled through `np.sqrt`. It is kept squared (`lastDistanceSq`), which decides both the `distance < last_distance` and the `distance < 100` tests the same way (`Rules.SquaresKeepOrder`). The stroke length uses an exact integer square root, which agrees with `int(sqrt(…))` on the integer inputs the mouse produces.
- The `torch` tensors are not modelled. The sand is an `array2<int>` of 0/1 cells, and the probes are `Vec` values.
- Python's negative indexing in `self.sand[int(x), int(y)]` is not modelled. It never happens (`Simulation.SandLookupInRange`), so `SandTest` and `Judge` require an in-field cell.
- Stroke.Sample: the contract states only that the first sample is the starting point. The placement of the other samples is given by its body; no property is proved about it.
- Three behaviours of the program that are easy to misread:
  - Reaching the time budget only forces the −0.2 reward; it does not flip the goal.
  - A probe at a negative coordinate above −1 truncates to 0 and is read as in-field, not as 1.0 (`Field.NearEdgeProbeReadsWindow`).
  - On arrival the clock restarts at a fresh reading (`later`), not at zero.

# Asteroids survival: the world update and its initialiser

This project models the simulation core of a two-player raylib arcade game
("asteroids survival"). Two player ships, a boss and a field of meteors move
in an 800 × 450 arena, and players fire bullets. Forty meteors are spawned at
the start, and forty more on every restart, added to those still flying. The core consists of two
functions of `main.cpp`:

- `InitGame` resets the frame counter, the pause flag, both players and every boss,
  and appends forty meteors. A meteor's position and speed come from random
  draws that are rejected and drawn again while they fall near the centre of the
  arena (position) or are both zero (speed).
- `UpdateGame` runs one frame:
  - while the game is over, ENTER restarts it;
  - otherwise P toggles the pause, and an unpaused frame then:
    - counts the frame;
    - turns the boss every 300th frame and moves it;
    - steers the players from the held keys and fires bullets on ENTER and SPACE;
    - moves both players and applies the wall rule;
    - collides each player with the meteors;
    - moves the meteors and despawns those that left the arena.

Both collision and despawn remove entries from a dynamic array with the same
"mark, then compact" pattern. A scan pushes the position of every meteor to
drop, in ascending order. Those positions are then erased from the highest
down, so every pending position still names the meteor it named during the
scan.

Layout (one module per file):

- `compaction.dfy`, module `Compaction`: the mark-then-compact theory.
  - `Marked` is the list the scan collects.
  - `Compact` is what erasing a list of positions leaves.
  - `Keep` is the intended result, the unmarked entries in order.
  - `EraseMarkedKeepsUnmarked` proves that `Compact` and `Keep` agree.
- `arena.dfy`, module `Arena`: the arena size, vectors, the ship wall rule,
  the circle-overlap test, and the range of raylib's `GetRandomValue` applied to a raw draw.
- `entities.dfy`, module `Entities`: ships, meteors, bullets and the input snapshot.
  - What one frame does to a single entity: heading, throttle, movement, boss step,
    meteor drift, despawn test and bullet shot.
  - The re-roll loops of meteor spawning, as functions over streams of draws.
- `rules.dfy`, module `Rules`: the game's globals as one value `GameState`,
  and the stage functions one frame is made of.
  - `Init` and `Update` are the reference definitions of the two source functions.
  - `Consistent` is the invariant that holds between frames.
- `properties.dfy`, module `Properties`: lemmas about those functions.
  They cover the pause/game-over/restart state machine, what InitGame resets and
  spawns, damage and ordering of the collision passes, the meteor pass, and
  preservation of the invariant.
- `world.dfy`, module `Simulation`: the globals as the fields of the class `World`.
  - `InitGame` and `UpdateGame` update the fields in place, loop by loop as the source does.
    This includes the re-roll `while` loops, the collision scan and the
    descending erase loops.
  - Each method is proved to leave exactly the state the matching `Rules` function
    describes.
  - `UpdateGame` also keeps `Valid()`, the invariant.

Modelling choices:

- Hit points, meteor positions and meteor speeds are whole numbers, held in
  floats by the source, so they are `int` here and exact.
- The player's acceleration changes in steps of 0.04 and 0.02. It is counted
  as an integer number of 0.02 steps: `throttle`, with acceleration = `throttle / 50`.
  The boss's fixed 0.1 is 5.
- Ship positions are `real`.
- Sine and cosine are a parameter `Trig`. The height of a ship `shipHeight` is a
  positive parameter fixed when the `World` is constructed.
- Random draws are explicit:
  - a `nat` per raw draw, with `GetRandomValue(min, max)` modelled as
    `min + draw % (max - min + 1)`;
  - per meteor, a stream of x, y and velocity draws plus the coin that picks its size;
  - per frame, a draw for each boss turn and two for each bullet fired.

Behaviours of the code that a reader might not expect, all modelled as written:

- hp is not floored at 0, and a player that is down still collides;
- any one player down ends the game;
- there is no victory;
- bullets are appended but never move, collide or despawn;
- meteor damage is 10 whatever the meteor's size;
- a restart does not clear the old meteors or bullets;
- the wall rule resets a coordinate more than `shipHeight` before the near wall to 0;
- a throttle can reach 1.02;
- only the first meteor of each InitGame call keeps its x out of the centre band.
  The flag `correctRange` is still set when the second meteor starts, at main.cpp:225.

## Model

| member | source | states |
|---|---|---|
| `Compaction.Marked` | main.cpp:445-454 | the positions the scan pushes are strictly increasing, within the array, and are exactly the flagged ones |
| `Compaction.MarkedCount` | main.cpp:449-450 | the scan pushes one position per flagged meteor |
| `Compaction.KeepLength` | main.cpp:455-457 | compaction drops exactly as many entries as are flagged |
| `Compaction.KeepMembers` | main.cpp:455-457 | an entry remains if and only if it sits at an unflagged position |
| `Compaction.CompactStep` | main.cpp:455-457 | erasing one position below all those already erased equals erasing it together with them from the original array, so erasing from the top down is correct |
| `Compaction.EraseMarkedKeepsUnmarked` | main.cpp:444-457 | erasing all the scanned positions from the array leaves exactly the unflagged entries in their original order; that the descending loop performs this erase is the contract of `Simulation.World.EraseMeteors`, proved step by step with `CompactStep` |
| `Compaction.Compact` | main.cpp:455-457 | what erasing a list of positions leaves; that the descending loop computes it is `Simulation.World.EraseMeteors`, and that it equals `Keep` is `EraseMarkedKeepsUnmarked` |
| `Compaction.Keep` | main.cpp:455-457 | the unflagged entries in order, the intended result of a pass; its length is `KeepLength` and its members `KeepMembers` |
| `Compaction.KeepAll` | main.cpp:491-493 | with nothing flagged the array is unchanged |
| `Compaction.CountIsCardinality` | main.cpp:445-451 | the number of hits is the size of the set of flagged positions |
| `Arena.Clamp` | main.cpp:280-281 | one axis of the wall rule: the result lies in [-shipHeight, limit], values in range are untouched, beyond the far wall goes to the wall, past the allowance at the near wall goes to 0 |
| `Arena.ClampToBox` | main.cpp:433-438 | after the wall rule a ship lies in [-shipHeight, 800] × [-shipHeight, 450], and a ship already there does not move |
| `Arena.CirclesOverlap` | main.cpp:447 | the collision test of two circles by squared distance; its properties are `ConcentricOverlap` and `OverlapSymmetric` |
| `Arena.ConcentricOverlap` | main.cpp:447 | circles with the same centre always overlap, so a meteor centred on a collider is always hit |
| `Arena.OverlapSymmetric` | main.cpp:447 | the collision test does not depend on which circle is given first |
| `Arena.RandomValue` | main.cpp:196 | a draw lands in [min, max], and small raw draws map one to one |
| `Entities.Heading` | main.cpp:290-298 | the last held key in the order up, down, left, right decides the rotation (0, 180, -90, 90); with no key the rotation is kept; a heading stays a heading |
| `Entities.Throttle` | main.cpp:310-398 | only the current heading's block runs; with its key held the throttle rises by 0.04 exactly when below 1 and is kept at or above 1; with its key released it falls by 0.02 when positive, a negative one becomes 0, and 0 stays 0; off the four headings it is untouched; [0, 1.02] is preserved |
| `Entities.Pressing` | main.cpp:310-398 | whether the key of the current heading is held (UP at 0, DOWN at 180, RIGHT at 90, LEFT at -90 for the first player; W, S, D, A for the second), the test each heading's block makes; what it decides is stated by `Entities.Throttle` |
| `Entities.Steer` | main.cpp:290-398 | steering one player keeps its position, hp and collider, keeps a heading among the four, sets the speed to the player speed along the new heading, and keeps the throttle in [0, 1.02] |
| `Entities.ShipSpeed` | main.cpp:303-307 | the speed vector (sin, cos) of the heading times the top speed, also used for the boss at main.cpp:267-270; `Entities.Steer` and `Entities.Aim` state that each ship's speed is this vector for its new heading |
| `Entities.Advance` | main.cpp:274-275 | movement changes only the position, and a ship with no acceleration stays put (the same code moves the players at main.cpp:427-428) |
| `Entities.Wall` | main.cpp:433-438 | the wall rule changes only the position, leaves it within the box, and leaves a ship already within the box where it is |
| `Entities.BossRotation` | main.cpp:262 | a new boss heading is a whole angle in [-179, 180] |
| `Entities.Aim` | main.cpp:260-270 | aiming keeps the boss's position, throttle, hp and collider; on a turn the heading is the drawn angle in [-179, 180], otherwise it is kept; the speed is the boss speed along the heading |
| `Entities.BossStep` | main.cpp:257-284 | a boss frame keeps throttle, hp and collider, sets the rotation as drawn on a turn, and leaves the boss within the box |
| `Entities.ColliderOf` | main.cpp:443 | the collider a little ahead of the ship along its heading; that it reproduces the collider InitGame stores is `Properties.ColliderAtStart` |
| `Entities.Drift` | main.cpp:474-478 | an active meteor moves by exactly its speed; an inactive one is untouched |
| `Entities.Reroll` | main.cpp:198-212 | the re-roll loop ends with a coordinate in [0, max] outside the centre band of half-width 150 |
| `Entities.NearCentre` | main.cpp:198-212 | the re-roll test, a coordinate strictly within 150 of the axis' centre; `Entities.Reroll`, `Entities.RerollSkips` and `Entities.RerollFirst` state that a roll passing it is redrawn and one failing it is kept |
| `Entities.RerollSkips` | main.cpp:200 | a draw in the centre band is dropped and the loop continues on the remaining draws |
| `Entities.RerollFirst` | main.cpp:198-202 | the loop returns the first acceptable draw, and every draw before it was in the centre band |
| `Entities.RerollSpeed` | main.cpp:215-226 | the velocity loop ends with components in [-2, 2], not both 0 |
| `Entities.MeteorSpeed` | main.cpp:215-226 | a velocity drawn from two rolls, each component in [-2, 2]; `Entities.RerollSpeed` and `Simulation.DrawSpeed` state its range and the redraw of (0, 0) |
| `Entities.RerollSpeedSkips` | main.cpp:220-223 | a (0, 0) velocity is dropped and the loop continues on the remaining draws |
| `Entities.RerollSpeedFirst` | main.cpp:215-226 | the velocity loop returns the first pair of draws that is not (0, 0), and every pair before it was (0, 0) |
| `Entities.Spawn` | main.cpp:194-239 | a spawned meteor is active, of radius 10 or 20, with y in [0, 75] ∪ [375, 450], x in [0, 800] (and in [0, 250] ∪ [550, 800] if it is the first of the call), speed in [-2, 2]² and not (0, 0) |
| `Entities.Shot` | main.cpp:401-422 | a bullet starts at the firing player with radius 5, active, each speed component in [min, 2] |
| `Rules.Spawned` | main.cpp:194-240 | InitGame spawns forty meteors, all active, of radius 10 or 20, with x in [0, 800], y in [0, 75] ∪ [375, 450], speed in [-2, 2]² other than (0, 0); the first has x in [0, 250] ∪ [550, 800] |
| `Rules.PlayerStart` | main.cpp:169-176 | a player as InitGame leaves it; `Properties.StartPositions` states its position (400, 225 - h/2), collider, rest and 50 hp |
| `Rules.BossStart` | main.cpp:181-188 | the boss as InitGame leaves it; `Properties.StartPositions` states its position (266, 150 - h/4), collider, throttle 0.1 and 1000 hp |
| `Properties.StartPositions` | main.cpp:90-103 | the globals before InitGame (`Rules.Startup`, built of value-initialised `Rules.Idle` ships: two players, one boss, no meteors or bullets, counter 0, neither paused nor over) and the start positions of InitGame's players and boss with the integer halves and thirds of 800 × 450 written out |
| `Rules.Init` | main.cpp:155-241 | InitGame keeps two players and the number of bosses, clears pause and the frame count, leaves gameOver and the bullets, and appends forty meteors after the old ones (full resets in `Properties.InitResets`, spawn ranges in `Properties.InitSpawns`) |
| `Rules.TogglePause` | main.cpp:248 | P flips the pause flag and nothing else changes |
| `Rules.TurnBosses` | main.cpp:257-284 | the boss stage changes only the bosses, keeps their number, hp and throttle, leaves each within the box, and changes headings only on a frame that is a multiple of 300, to angles in [-179, 180] |
| `Rules.SteerPlayers` | main.cpp:290-398 | steering changes only the players, keeps their positions and hp, keeps headings among the four and throttles in [0, 1.02] |
| `Rules.Shots` | main.cpp:401-423 | one bullet per key pressed (ENTER, SPACE), each well formed; ENTER's starts at player 0, SPACE's at player 1 with non-negative speed |
| `Rules.FireBullets` | main.cpp:401-423 | firing changes only the bullets: the old ones are kept as a prefix, at most two well-formed bullets are appended |
| `Rules.MovePlayers` | main.cpp:426-438 | movement changes only the players' positions and leaves both within the box; a player with no acceleration already within the box does not move |
| `Rules.Collide` | main.cpp:443-457 | a player's collision pass leaves the boss, bullets, frame counter and pause alone |
| `Rules.CollidePlayers` | main.cpp:442-458 | the passes of players 0 then 1 leave the boss, bullets, frame counter and pause alone |
| `Rules.Motion` | main.cpp:252-438 | the stages before the collisions count the frame and keep two players, the bosses and the pause flag |
| `Rules.MoveMeteors` | main.cpp:471-493 | the meteor pass changes only the meteors and drops exactly as many as the despawn test flags (which meteors survive is `Properties.MeteorPass`) |
| `Rules.Frame` | main.cpp:250-494 | an unpaused frame increments the frame counter by one and keeps the shape of the world |
| `Rules.Update` | main.cpp:244-504 | UpdateGame keeps two players and the bosses; while the game is over it waits for ENTER, which restarts it unpaused at frame 0; otherwise P flips the pause flag, a paused frame changes nothing else, and an unpaused one counts the frame |
| `Properties.PausedFrameFreezes` | main.cpp:248-250 | a frame that leaves the game paused changes nothing but the pause flag |
| `Properties.RunningFrameCounts` | main.cpp:250-252 | a frame that leaves the game running advances the frame counter by exactly one |
| `Properties.PauseTwiceRestores` | main.cpp:248 | two frames with P pressed restore the pause flag, and pausing a running game changes nothing else |
| `Properties.OverWaitsForEnter` | main.cpp:496-503 | while the game is over, a frame without ENTER changes nothing |
| `Properties.RestartResets` | main.cpp:496-503 | ENTER after game over runs InitGame and clears gameOver; the game is then running, unpaused, at frame 0 |
| `Properties.InitResets` | main.cpp:155-189 | InitGame clears pause and the frame count; players get hp 50, acceleration 0, rotation 0 and no speed; bosses get hp 1000, acceleration 0.1 and rotation 0; the old meteors are kept as a prefix, forty are appended, bullets are untouched |
| `Properties.InitSpawns` | main.cpp:194-239 | every appended meteor is active, of size 10 or 20, y outside the centre band, speed in [-2, 2]² other than (0, 0); the first also has x outside the band |
| `Properties.ColliderAtStart` | main.cpp:173 | with sine 0 and cosine 1 at heading 0, the collider InitGame stores for a player or boss is the one the collision pass recomputes at main.cpp:443 |
| `Entities.HitMask` | main.cpp:445-447 | the flags of one player's scan; what they mean is `Properties.HitMaskCounts` |
| `Entities.Hits` | main.cpp:447 | the collision test of the scan: the collider's circle overlaps the meteor's and the meteor is active; `Properties.HitMaskCounts` and `Properties.CollideDamage` state what follows from it |
| `Entities.Drifted` | main.cpp:472-478 | the meteor list after every meteor drifts; what it means is `Properties.DriftedMoves` |
| `Entities.DespawnMask` | main.cpp:481-488 | the flags of the despawn test; what they mean is `Properties.DespawnMaskCounts` |
| `Entities.OffArena` | main.cpp:481-488 | the despawn test, the centre outside [-r, 800 + r] × [-r, 450 + r]; `Simulation.MeteorWallBehaviour` proves the four-branch test equal to it and `Properties.DespawnMaskCounts` counts it |
| `Properties.HitMaskCounts` | main.cpp:445-451 | a player's scan flags only active meteors, and flags as many as there are active meteors whose circle overlaps the collider |
| `Properties.CollideDamage` | main.cpp:443-457 | hp falls by exactly 10 per active meteor the collider touches, with no early exit and no floor; exactly those meteors are erased, all others remain; other players are untouched; the game ends when a hit leaves hp at or below 0 |
| `Properties.CollideMiss` | main.cpp:445-457 | a player that touches no active meteor keeps its hp, removes no meteor and does not end the game |
| `Properties.CrossPlayerOrder` | main.cpp:442-458 | meteors hit by player 0 are erased before player 1 scans, so a meteor touching both damages player 0 only, and player 1's pass leaves player 0 alone |
| `Properties.CollideKeepsOverWhenDown` | main.cpp:449-451 | across a collision pass, gameOver holds exactly when some player's hp is at or below 0 |
| `Properties.MeteorPass` | main.cpp:472-493 | the meteor pass erases exactly the despawned positions; every surviving active meteor lies within the arena box; inactive meteors stay; an active meteor that stays inside survives moved by its speed; nothing new appears |
| `Properties.DriftedMoves` | main.cpp:472-478 | the meteor array keeps its length; each active meteor is displaced by exactly its speed, each inactive one is untouched, and activity, size and speed are kept |
| `Properties.DespawnMaskCounts` | main.cpp:481-488 | only active meteors are flagged; an active meteor left unflagged lies within [-r, 800 + r] × [-r, 450 + r]; the number flagged is the number of active meteors outside that box |
| `Properties.MeteorPassAllStay` | main.cpp:472-493 | when no moved meteor leaves the arena, the pass only moves them and removes none |
| `Properties.InitConsistent` | main.cpp:155-241 | InitGame followed by clearing gameOver establishes the invariant |
| `Properties.TurnBossesConsistent` | main.cpp:257-284 | the boss stage keeps the invariant |
| `Properties.PlayersConsistent` | main.cpp:290-438 | steering, firing and moving the players keep the invariant |
| `Properties.MotionConsistent` | main.cpp:252-438 | the stages before the collisions keep the invariant |
| `Properties.CollideConsistent` | main.cpp:442-458 | a collision pass keeps the invariant |
| `Properties.MeteorPassConsistent` | main.cpp:472-493 | the meteor pass keeps the invariant |
| `Properties.FrameConsistent` | main.cpp:250-494 | an unpaused frame keeps the invariant |
| `Properties.UpdateKeepsConsistent` | main.cpp:244-504 | every UpdateGame call keeps the invariant: ships inside the wall rule's box, throttles in [0, 1.02], headings among the four, boss heading in [-179, 180], meteors active, well formed and inside the arena, bullets well formed, and gameOver exactly when a player is down |
| `Simulation.WallBehaviour` | main.cpp:433-438 | the imperative wall rule leaves the ship within the box and agrees with `ClampToBox` |
| `Simulation.DrawCoordinate` | main.cpp:196-212 | the re-roll loop returns the first draw when `correctRange` is already set, and otherwise the first draw outside the centre band; it always ends with the flag set |
| `Simulation.DrawSpeed` | main.cpp:215-226 | the velocity re-roll loop ends with components in [-2, 2], not both 0, equal to `RerollSpeed` of the draws, which `Entities.RerollSpeedFirst` shows is the first pair that is not (0, 0) |
| `Simulation.MeteorWallBehaviour` | main.cpp:481-488 | the four edge tests of a moved meteor flag it exactly when its centre is beyond its radius past an edge |
| `Simulation.CollideAsScanned` | main.cpp:443-457 | the collider, the scan's positions erased, and the scan's hp and gameOver written back are exactly one collision pass |
| `Simulation.ScanMeteors` | main.cpp:445-454 | the scan collects exactly the positions of the meteors the collider touches, charges 10 hp for each, and sets gameOver when a hit leaves hp at or below 0 |
| `Simulation.World.constructor` | main.cpp:155-241 | the globals as the program starts followed by main's InitGame call give the state `Init` describes, which satisfies the invariant |
| `Simulation.World.InitGame` | main.cpp:155-241 | the new state is exactly `Init` of the old one |
| `Simulation.World.ResetPlayers` | main.cpp:169-176 | both players are put at their starting state and nothing else changes |
| `Simulation.World.ResetBosses` | main.cpp:181-188 | every boss is put at its starting state and nothing else changes |
| `Simulation.World.SpawnMeteors` | main.cpp:194-240 | the meteor loop appends exactly `Spawned` of the draws and nothing else changes |
| `Simulation.World.UpdateGame` | main.cpp:244-504 | the new state is exactly `Update` of the old one, and the invariant is kept |
| `Simulation.World.PlayFrame` | main.cpp:252-494 | the unpaused part of the update leaves exactly `Frame` of the old state |
| `Simulation.World.UpdateBoss` | main.cpp:257-284 | the four boss loops leave exactly `TurnBosses` of the old state |
| `Simulation.World.AimBosses` | main.cpp:260-270 | the rotation and speed loops aim every boss and change nothing else |
| `Simulation.World.MoveBosses` | main.cpp:273-284 | the movement and wall loops move every boss and apply the wall rule, changing nothing else |
| `Simulation.World.SteerPlayers` | main.cpp:290-398 | the rotation, speed and controller code leave exactly `SteerPlayers` of the old state |
| `Simulation.World.FireBullets` | main.cpp:401-423 | ENTER and SPACE append exactly the bullets `Shots` describes |
| `Simulation.World.MovePlayers` | main.cpp:426-438 | the movement and wall loops leave exactly `MovePlayers` of the old state |
| `Simulation.World.CollidePlayer` | main.cpp:443-457 | one player's collider, scan and descending erase leave exactly `Collide` of the old state |
| `Simulation.World.EraseMeteors` | main.cpp:455-457 | erasing the listed positions from the last to the first leaves `Compact` of the old meteors and nothing else changes |
| `Simulation.World.DriftMeteors` | main.cpp:472-490 | the movement and despawn loop moves every meteor as `Drifted` says, collects exactly the positions the despawn test flags, in order, and changes nothing else |
| `Simulation.World.UpdateMeteors` | main.cpp:471-493 | the movement/despawn scan and the descending erase leave exactly `MoveMeteors` of the old state |

## Left out

- Rendering and the program shell are not modelled: `DrawGame`, `UpdateDrawFrame`, `UnloadGame`, the window and the main loop. They are presentation only.
- The bullet-against-meteor loop (main.cpp:464-468) has an empty body and changes nothing, so there is nothing to model.
- Colours are not modelled; nothing in the update reads them.
- Floating point is not modelled. Sine and cosine are the parameter `Trig`, and ship positions, speeds and colliders are exact reals.
- `shipHeight` is the `tanf` expression InitGame recomputes, to the same value, on every call. Here it is a positive constant fixed at construction.
- `Arena.CirclesOverlap`: raylib's `CheckCollisionCircles` compares a square root computed in floats. The model compares exact squared distances, so touches decided by rounding can differ. The squared form also reports an overlap when the radii sum to a negative number, which the square-root test never does; every call passes non-negative radii (12 for the collider, 10 or 20 for a meteor), where the two agree.
- `Entities.Throttle`: the source adds 0.04f and subtracts 0.02f in single precision. The model counts exact steps of 0.02, so the step at which "acceleration < 1" stops holding may differ by rounding. The boss's 0.1f is likewise taken as exactly 0.1. In single precision the decay can also leave a tiny positive residue (after four frames held, the throttle falls through 0.020000014 and 1.49e-08 to about -0.02), so the source's reset of a negative throttle to 0 (main.cpp:318) can run for one frame, and the ship drifts back about 0.12 px. In the model that reset never runs, and the `0 <= throttle` part of `Rules.Consistent` holds only in exact arithmetic.
- The random generators are not modelled: `srand(time(NULL))`, `rand`, raylib's `GetRandomValue`, and the default-seeded `default_random_engine` with `bernoulli_distribution`. Their draws are explicit parameters.
  - The size coin of each meteor is a free boolean. The source's engine is seeded afresh in every InitGame call, so it in fact yields the same sequence of sizes on every call.
- Re-roll loops that would never end are excluded. `InitRollsOk` requires of the supplied draws that each loop meets an acceptable draw; with draws that never leave the centre band, the source loops forever.
- `framesCounter` is unbounded; the source's `int` would overflow after 2^31 frames.
- `Simulation.World.InitGame` requires the two-element player array that the program's static initialisation creates. The constructor models that initialisation followed by main's first InitGame call.
- `Simulation.ScanMeteors` accumulates the player's hp in a local variable and `CollidePlayer` writes it back after the scan; the source writes the field at every hit. Nothing reads the field during the scan, so the resulting state is the same.
- The loops of `Simulation.World.SteerPlayers`, `MovePlayers`, `AimBosses`, `MoveBosses` and `DriftMeteors` update a local copy of the array and store it in the field once the loop ends; the source writes the global element by element. Nothing reads the global during these loops, so the resulting state is the same.

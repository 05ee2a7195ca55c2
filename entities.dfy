/** The entities of the arena (ships, meteors, bullets), the input snapshot
    one frame reads, and what one frame does to a single entity. */
module Entities {
  import opened Arena

  const PlayerSpeed: real := 6.0
  const BossSpeed: real := 3.0
  const PlayerMaxHp: int := 50
  const BossMaxHp: int := 1000
  const MeteorsSpeed: int := 2
  const MaxMeteors: int := 40
  const MeteorDamage: int := 10
  const ColliderRadius: real := 12.0
  const BulletRadius: int := 5
  const BigMeteor: int := 20
  const SmallMeteor: int := 10
  /** Half-width of the band around the centre that the spawn rolls avoid. */
  const SpawnMargin: int := 150
  /** The boss turns every this many frames. */
  const BossTurnPeriod: int := 300

  // Ship acceleration is counted in steps of 0.02: acceleration == throttle / 50.
  const ThrottleScale: real := 50.0
  /** Acceleration 1.0, below which the throttle may rise. */
  const FullThrottle: int := 50
  /** +0.04 per frame. */
  const ThrottleRise: int := 2
  /** Highest throttle reachable from 0: one rise from just below full. */
  const ThrottleCeiling: int := FullThrottle - 1 + ThrottleRise
  /** The boss's fixed acceleration 0.1. */
  const BossThrottle: int := 5

  /** A player or the boss: position, speed vector, acceleration, rotation
      in degrees, the centre of its collision circle, and hit points. */
  datatype Ship = Ship(position: Vec, speed: Vec, throttle: int, rotation: int, collider: Vec, hp: int)

  /** Meteor positions and speeds are whole numbers held in floats, so they
      are exact here. */
  datatype Meteor = Meteor(x: int, y: int, vx: int, vy: int, radius: int, active: bool)

  datatype Bullet = Bullet(position: Vec, vx: int, vy: int, radius: int, active: bool)

  /** Which of one player's four direction keys are held down. */
  datatype Keys = Keys(up: bool, down: bool, left: bool, right: bool)

  /** One frame's input: held keys (arrows drive player 0, W/A/S/D player 1)
      and the keys pressed this frame (P, ENTER, SPACE). */
  datatype Input = Input(arrows: Keys, wasd: Keys, pausePressed: bool, enterPressed: bool, spacePressed: bool)

  /** Sine and cosine of an angle in degrees, as the floating-point library
      computes them. */
  datatype Trig = Trig(sin: int -> real, cos: int -> real)

  // ---------------------------------------------------------------- ships

  predicate IsHeading(rotation: int)
  {
    rotation == 0 || rotation == 180 || rotation == -90 || rotation == 90
  }

  /** The four key tests of one player in source order: each held key
      overwrites the rotation set by the previous ones. */
  function Heading(rotation: int, keys: Keys): (r: int)
    ensures keys.right ==> r == 90
    ensures !keys.right && keys.left ==> r == -90
    ensures !keys.right && !keys.left && keys.down ==> r == 180
    ensures !keys.right && !keys.left && !keys.down && keys.up ==> r == 0
    ensures !keys.right && !keys.left && !keys.down && !keys.up ==> r == rotation
    ensures IsHeading(rotation) ==> IsHeading(r)
  {
    var afterUp := if keys.up then 0 else rotation;
    var afterDown := if keys.down then 180 else afterUp;
    var afterLeft := if keys.left then -90 else afterDown;
    if keys.right then 90 else afterLeft
  }

  /** Whether the key that drives forward along `rotation` is held. */
  predicate Pressing(rotation: int, keys: Keys)
  {
    if rotation == 0 then keys.up
    else if rotation == 180 then keys.down
    else if rotation == -90 then keys.left
    else if rotation == 90 then keys.right
    else false
  }

  /** The controller of one player: only the block of the current heading
      runs; with its key held the throttle rises by 0.04 while below 1,
      otherwise it falls by 0.02 while positive and a negative one is reset. */
  function Throttle(throttle: int, rotation: int, keys: Keys): (t: int)
    ensures 0 <= throttle <= ThrottleCeiling ==> 0 <= t <= ThrottleCeiling
    ensures t > throttle ==>
      (Pressing(rotation, keys) && throttle < FullThrottle && t == throttle + ThrottleRise) ||
      (!Pressing(rotation, keys) && IsHeading(rotation) && throttle < 0 && t == 0)
    ensures t < throttle ==> !Pressing(rotation, keys) && IsHeading(rotation) && t == throttle - 1
    ensures Pressing(rotation, keys) && throttle < FullThrottle ==> t == throttle + ThrottleRise
    ensures !IsHeading(rotation) ==> t == throttle
    ensures Pressing(rotation, keys) && throttle >= FullThrottle ==> t == throttle
    ensures IsHeading(rotation) && !Pressing(rotation, keys) ==>
      t == (if throttle > 0 then throttle - 1 else if throttle < 0 then 0 else throttle)
  {
    if !IsHeading(rotation) then throttle
    else if Pressing(rotation, keys) then
      (if throttle < FullThrottle then throttle + ThrottleRise else throttle)
    else if throttle > 0 then throttle - 1
    else if throttle < 0 then 0
    else throttle
  }

  /** The speed vector of a ship heading `rotation` at top speed `scale`. */
  function ShipSpeed(rotation: int, trig: Trig, scale: real): Vec
  {
    Vec(trig.sin(rotation) * scale, trig.cos(rotation) * scale)
  }

  /** One player's heading, speed and throttle for this frame. */
  function Steer(p: Ship, keys: Keys, trig: Trig): (r: Ship)
    ensures r.position == p.position && r.hp == p.hp && r.collider == p.collider
    ensures IsHeading(p.rotation) ==> IsHeading(r.rotation)
    ensures r.speed == ShipSpeed(r.rotation, trig, PlayerSpeed)
    ensures 0 <= p.throttle <= ThrottleCeiling ==> 0 <= r.throttle <= ThrottleCeiling
  {
    var r := Heading(p.rotation, keys);
    p.(rotation := r, speed := ShipSpeed(r, trig, PlayerSpeed), throttle := Throttle(p.throttle, r, keys))
  }

  function Acceleration(s: Ship): real
  {
    s.throttle as real / ThrottleScale
  }

  /** Movement: x grows with the speed, y shrinks with it (screen up is −y). */
  function Advance(s: Ship): (r: Ship)
    ensures r.speed == s.speed && r.throttle == s.throttle && r.rotation == s.rotation
    ensures r.collider == s.collider && r.hp == s.hp
    ensures s.throttle == 0 ==> r == s
  {
    s.(position := Vec(s.position.x + s.speed.x * Acceleration(s), s.position.y - s.speed.y * Acceleration(s)))
  }

  function Wall(s: Ship, shipHeight: real): (r: Ship)
    requires 0.0 < shipHeight
    ensures InBox(r.position, shipHeight)
    ensures r.(position := s.position) == s
    ensures InBox(s.position, shipHeight) ==> r == s
  {
    s.(position := ClampToBox(s.position, shipHeight))
  }

  /** The boss's new heading from one draw of the C generator: a whole angle
      in [-179, 180]. */
  function BossRotation(roll: nat): (r: int)
    ensures -179 <= r <= 180
  {
    roll % 360 + 1 - 180
  }

  /** The boss's heading for this frame (a new one on a turn) and its
      speed vector along that heading; nothing else changes. */
  function Aim(b: Ship, turn: bool, roll: nat, trig: Trig): (r: Ship)
    ensures r.position == b.position && r.throttle == b.throttle && r.hp == b.hp && r.collider == b.collider
    ensures turn ==> -179 <= r.rotation <= 180 && r.rotation == BossRotation(roll)
    ensures !turn ==> r.rotation == b.rotation
    ensures r.speed == ShipSpeed(r.rotation, trig, BossSpeed)
  {
    var turned := if turn then b.(rotation := BossRotation(roll)) else b;
    turned.(speed := ShipSpeed(turned.rotation, trig, BossSpeed))
  }

  /** One frame of the boss: aim, movement at its fixed acceleration, and
      the wall rule. */
  function BossStep(b: Ship, turn: bool, roll: nat, trig: Trig, shipHeight: real): (r: Ship)
    requires 0.0 < shipHeight
    ensures r.throttle == b.throttle && r.hp == b.hp && r.collider == b.collider
    ensures r.rotation == if turn then BossRotation(roll) else b.rotation
    ensures InBox(r.position, shipHeight)
  {
    Wall(Advance(Aim(b, turn, roll, trig)), shipHeight)
  }

  /** Centre of a ship's collision circle, a little ahead of its position. */
  function ColliderOf(p: Ship, trig: Trig, shipHeight: real): Vec
  {
    Vec(p.position.x + trig.sin(p.rotation) * (shipHeight / 2.5), p.position.y - trig.cos(p.rotation) * (shipHeight / 2.5))
  }

  // -------------------------------------------------------------- meteors

  function Centre(m: Meteor): Vec
  {
    Vec(m.x as real, m.y as real)
  }

  /** The player test: the collision circles overlap and the meteor is active. */
  predicate Hits(collider: Vec, m: Meteor)
  {
    CirclesOverlap(collider, ColliderRadius, Centre(m), m.radius as real) && m.active
  }

  /** Flags the active meteors that touch the collider. */
  function HitMask(collider: Vec, ms: seq<Meteor>): seq<bool>
  {
    seq(|ms|, k requires 0 <= k < |ms| => Hits(collider, ms[k]))
  }

  /** An active meteor moves by exactly its speed; an inactive one stays. */
  function Drift(m: Meteor): (r: Meteor)
    ensures r.active == m.active && r.vx == m.vx && r.vy == m.vy && r.radius == m.radius
    ensures m.active ==> r.x - m.x == m.vx && r.y - m.y == m.vy
    ensures !m.active ==> r == m
  {
    if m.active then m.(x := m.x + m.vx, y := m.y + m.vy) else m
  }

  /** Every meteor of the list drifts. */
  function Drifted(ms: seq<Meteor>): seq<Meteor>
  {
    seq(|ms|, k requires 0 <= k < |ms| => Drift(ms[k]))
  }

  /** The centre lies outside [-r, W + r] x [-r, H + r]. */
  predicate OffArena(m: Meteor)
  {
    m.x > ScreenWidth + m.radius || m.x < 0 - m.radius ||
    m.y > ScreenHeight + m.radius || m.y < 0 - m.radius
  }

  /** The despawn test, made only for active meteors. */
  function DespawnMask(ms: seq<Meteor>): seq<bool>
  {
    seq(|ms|, k requires 0 <= k < |ms| => ms[k].active && OffArena(ms[k]))
  }

  // ------------------------------------------------------------- spawning

  /** The raw draws of the generator that one meteor of InitGame consumes:
      x rolls (the first, then re-rolls), y rolls, velocity roll pairs, and
      the coin that picks the size. */
  datatype MeteorRolls = MeteorRolls(xs: seq<nat>, ys: seq<nat>, velocities: seq<(nat, nat)>, large: bool)

  /** Strictly within the spawn margin of the centre `max / 2` of an axis. */
  predicate NearCentre(v: int, max: int)
  {
    max / 2 - SpawnMargin < v < max / 2 + SpawnMargin
  }

  /** Some roll gives a coordinate away from the centre. */
  predicate AcceptsCoordinate(rolls: seq<nat>, max: nat)
  {
    exists k :: 0 <= k < |rolls| && !NearCentre(RandomValue(rolls[k], 0, max), max)
  }

  lemma AcceptsCoordinateTail(rolls: seq<nat>, max: nat)
    requires AcceptsCoordinate(rolls, max)
    requires NearCentre(RandomValue(rolls[0], 0, max), max)
    ensures AcceptsCoordinate(rolls[1..], max)
  {
    var k :| 0 <= k < |rolls| && !NearCentre(RandomValue(rolls[k], 0, max), max);
    assert rolls[1..][k - 1] == rolls[k];
  }

  /** The re-roll loop of a coordinate: the first roll that is not near the centre. */
  function Reroll(rolls: seq<nat>, max: nat): (v: int)
    requires AcceptsCoordinate(rolls, max)
    ensures 0 <= v <= max && !NearCentre(v, max)
    decreases |rolls|
  {
    var v := RandomValue(rolls[0], 0, max);
    if !NearCentre(v, max) then v
    else AcceptsCoordinateTail(rolls, max); Reroll(rolls[1..], max)
  }

  /** A roll near the centre is skipped: the loop goes on with the rest. */
  lemma RerollSkips(rolls: seq<nat>, max: nat)
    requires AcceptsCoordinate(rolls, max)
    requires NearCentre(RandomValue(rolls[0], 0, max), max)
    ensures AcceptsCoordinate(rolls[1..], max)
    ensures Reroll(rolls, max) == Reroll(rolls[1..], max)
  {
    AcceptsCoordinateTail(rolls, max);
  }

  /** The re-roll loop takes the first acceptable roll and skips nothing acceptable. */
  lemma {:induction false} RerollFirst(rolls: seq<nat>, max: nat)
    requires AcceptsCoordinate(rolls, max)
    ensures exists k :: 0 <= k < |rolls| && Reroll(rolls, max) == RandomValue(rolls[k], 0, max) &&
                        (forall j :: 0 <= j < k ==> NearCentre(RandomValue(rolls[j], 0, max), max))
    decreases |rolls|
  {
    if NearCentre(RandomValue(rolls[0], 0, max), max) {
      AcceptsCoordinateTail(rolls, max);
      RerollFirst(rolls[1..], max);
      var k :| 0 <= k < |rolls[1..]| && Reroll(rolls[1..], max) == RandomValue(rolls[1..][k], 0, max) &&
               (forall j :: 0 <= j < k ==> NearCentre(RandomValue(rolls[1..][j], 0, max), max));
      assert forall j :: 0 <= j < k + 1 ==> NearCentre(RandomValue(rolls[j], 0, max), max) by {
        forall j | 0 <= j < k + 1 ensures NearCentre(RandomValue(rolls[j], 0, max), max) {
          if j > 0 { assert rolls[j] == rolls[1..][j - 1]; }
        }
      }
      assert Reroll(rolls, max) == RandomValue(rolls[k + 1], 0, max);
    } else {
      assert Reroll(rolls, max) == RandomValue(rolls[0], 0, max);
    }
  }

  /** A velocity from a pair of rolls, each component in [-2, 2]. */
  function MeteorSpeed(roll: (nat, nat)): (int, int)
  {
    (RandomValue(roll.0, -MeteorsSpeed, MeteorsSpeed), RandomValue(roll.1, -MeteorsSpeed, MeteorsSpeed))
  }

  predicate AcceptsSpeed(rolls: seq<(nat, nat)>)
  {
    exists k :: 0 <= k < |rolls| && MeteorSpeed(rolls[k]) != (0, 0)
  }

  lemma AcceptsSpeedTail(rolls: seq<(nat, nat)>)
    requires AcceptsSpeed(rolls)
    requires MeteorSpeed(rolls[0]) == (0, 0)
    ensures AcceptsSpeed(rolls[1..])
  {
    var k :| 0 <= k < |rolls| && MeteorSpeed(rolls[k]) != (0, 0);
    assert rolls[1..][k - 1] == rolls[k];
  }

  /** The velocity re-roll loop: the first pair of rolls that is not (0, 0). */
  function RerollSpeed(rolls: seq<(nat, nat)>): (v: (int, int))
    requires AcceptsSpeed(rolls)
    ensures v != (0, 0)
    ensures -MeteorsSpeed <= v.0 <= MeteorsSpeed && -MeteorsSpeed <= v.1 <= MeteorsSpeed
    decreases |rolls|
  {
    var v := MeteorSpeed(rolls[0]);
    if v != (0, 0) then v
    else AcceptsSpeedTail(rolls); RerollSpeed(rolls[1..])
  }

  /** The velocity loop takes the first pair that is not (0, 0) and skips no other. */
  lemma {:induction false} RerollSpeedFirst(rolls: seq<(nat, nat)>)
    requires AcceptsSpeed(rolls)
    ensures exists k :: 0 <= k < |rolls| && RerollSpeed(rolls) == MeteorSpeed(rolls[k]) &&
                        (forall j :: 0 <= j < k ==> MeteorSpeed(rolls[j]) == (0, 0))
    decreases |rolls|
  {
    if MeteorSpeed(rolls[0]) == (0, 0) {
      AcceptsSpeedTail(rolls);
      RerollSpeedFirst(rolls[1..]);
      var k :| 0 <= k < |rolls[1..]| && RerollSpeed(rolls[1..]) == MeteorSpeed(rolls[1..][k]) &&
               (forall j :: 0 <= j < k ==> MeteorSpeed(rolls[1..][j]) == (0, 0));
      assert forall j :: 0 <= j < k + 1 ==> MeteorSpeed(rolls[j]) == (0, 0) by {
        forall j | 0 <= j < k + 1 ensures MeteorSpeed(rolls[j]) == (0, 0) {
          if j > 0 { assert rolls[j] == rolls[1..][j - 1]; }
        }
      }
      assert RerollSpeed(rolls) == MeteorSpeed(rolls[k + 1]);
    } else {
      assert RerollSpeed(rolls) == MeteorSpeed(rolls[0]);
    }
  }

  /** A (0, 0) pair is skipped: the loop goes on with the rest. */
  lemma RerollSpeedSkips(rolls: seq<(nat, nat)>)
    requires AcceptsSpeed(rolls)
    requires MeteorSpeed(rolls[0]) == (0, 0)
    ensures AcceptsSpeed(rolls[1..])
    ensures RerollSpeed(rolls) == RerollSpeed(rolls[1..])
  {
    AcceptsSpeedTail(rolls);
  }

  /** Rolls that let the re-roll loops of one meteor end; the x loop runs
      only for the first meteor of an InitGame call. */
  predicate RollsOk(d: MeteorRolls, first: bool)
  {
    |d.xs| > 0 &&
    (first ==> AcceptsCoordinate(d.xs, ScreenWidth)) &&
    AcceptsCoordinate(d.ys, ScreenHeight) &&
    AcceptsSpeed(d.velocities)
  }

  /** The meteor InitGame appends for one set of rolls. */
  function Spawn(d: MeteorRolls, first: bool): (m: Meteor)
    requires RollsOk(d, first)
    ensures m.active && (m.radius == SmallMeteor || m.radius == BigMeteor)
    ensures 0 <= m.x <= ScreenWidth
    ensures first ==> m.x <= 250 || 550 <= m.x
    ensures 0 <= m.y <= 75 || 375 <= m.y <= 450
    ensures -MeteorsSpeed <= m.vx <= MeteorsSpeed && -MeteorsSpeed <= m.vy <= MeteorsSpeed
    ensures m.vx != 0 || m.vy != 0
  {
    var x := if first then Reroll(d.xs, ScreenWidth) else RandomValue(d.xs[0], 0, ScreenWidth);
    var v := RerollSpeed(d.velocities);
    Meteor(x, Reroll(d.ys, ScreenHeight), v.0, v.1, if d.large then BigMeteor else SmallMeteor, true)
  }

  // -------------------------------------------------------------- bullets

  /** A bullet fired from `from`, each speed component drawn in [min, 2]. */
  function Shot(from: Vec, roll: (nat, nat), min: int): (b: Bullet)
    requires min <= MeteorsSpeed
    ensures b.position == from && b.active && b.radius == BulletRadius
    ensures min <= b.vx <= MeteorsSpeed && min <= b.vy <= MeteorsSpeed
  {
    Bullet(from, RandomValue(roll.0, min, MeteorsSpeed), RandomValue(roll.1, min, MeteorsSpeed), BulletRadius, true)
  }
}

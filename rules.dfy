/** The game's globals as one value, what InitGame and UpdateGame do to it
    (stage by stage, in the order UpdateGame runs them), the invariant every
    frame keeps, and the properties of a frame. */
module Rules {
  import opened Arena
  import opened Entities
  import opened Compaction

  /** The globals InitGame and UpdateGame read and write. */
  datatype GameState = GameState(
    players: seq<Ship>,
    boss: seq<Ship>,
    meteors: seq<Meteor>,
    bullets: seq<Bullet>,
    framesCounter: int,
    pause: bool,
    gameOver: bool)

  /** The draws one UpdateGame call may consume: the C generator for each
      boss's turn, two GetRandomValue rolls per fired bullet, and the rolls of
      InitGame when the frame restarts the game. */
  datatype TickRolls = TickRolls(bossRolls: seq<nat>, shot0: (nat, nat), shot1: (nat, nat), restart: seq<MeteorRolls>)

  /** A value-initialised ship. */
  const Idle: Ship := Ship(Vec(0.0, 0.0), Vec(0.0, 0.0), 0, 0, Vec(0.0, 0.0), 0)

  /** The globals as the program starts, before main's first InitGame call:
      two players, one boss, no meteors and no bullets. */
  const Startup: GameState := GameState([Idle, Idle], [Idle], [], [], 0, false, false)

  predicate Shaped(s: GameState)
  {
    |s.players| == 2
  }

  // ------------------------------------------------------------- InitGame

  /** A player as InitGame leaves it: centred, still, heading up, full hp;
      its collider is computed at rotation 0, where sine and cosine are exact. */
  function PlayerStart(shipHeight: real): Ship
  {
    var p := Vec((ScreenWidth / 2) as real, (ScreenHeight / 2) as real - shipHeight / 2.0);
    Ship(p, Vec(0.0, 0.0), 0, 0, Vec(p.x, p.y - shipHeight / 2.5), PlayerMaxHp)
  }

  /** The boss as InitGame leaves it, at a third of each axis (integer division). */
  function BossStart(shipHeight: real): Ship
  {
    var p := Vec((ScreenWidth / 3) as real, (ScreenHeight / 3) as real - shipHeight / 4.0);
    Ship(p, Vec(0.0, 0.0), BossThrottle, 0, Vec(p.x, p.y - shipHeight / 2.5), BossMaxHp)
  }

  /** Rolls for the forty meteors of one InitGame call; `correctRange` starts
      false in each call, so only the first meteor runs the x re-roll loop. */
  predicate InitRollsOk(ds: seq<MeteorRolls>)
  {
    |ds| == MaxMeteors && forall i :: 0 <= i < |ds| ==> RollsOk(ds[i], i == 0)
  }

  function Spawned(ds: seq<MeteorRolls>): (ms: seq<Meteor>)
    requires InitRollsOk(ds)
    ensures |ms| == MaxMeteors
    ensures forall i :: 0 <= i < |ms| ==> ms[i] == Spawn(ds[i], i == 0)
    ensures forall i :: 0 <= i < |ms| ==>
      && ms[i].active && (ms[i].radius == SmallMeteor || ms[i].radius == BigMeteor)
      && 0 <= ms[i].x <= ScreenWidth && (0 <= ms[i].y <= 75 || 375 <= ms[i].y <= 450)
      && -MeteorsSpeed <= ms[i].vx <= MeteorsSpeed && -MeteorsSpeed <= ms[i].vy <= MeteorsSpeed
      && (ms[i].vx != 0 || ms[i].vy != 0)
    ensures ms[0].x <= 250 || 550 <= ms[0].x
  {
    seq(MaxMeteors, i requires 0 <= i < MaxMeteors => Spawn(ds[i], i == 0))
  }

  /** InitGame: resets the flags it owns and the ships, and appends forty
      meteors; it clears neither meteors nor bullets and leaves gameOver. */
  function Init(s: GameState, ds: seq<MeteorRolls>, shipHeight: real): (r: GameState)
    requires InitRollsOk(ds)
    ensures Shaped(r) && |r.boss| == |s.boss|
    ensures !r.pause && r.framesCounter == 0 && r.gameOver == s.gameOver && r.bullets == s.bullets
    ensures |r.meteors| == |s.meteors| + MaxMeteors && r.meteors[..|s.meteors|] == s.meteors
  {
    s.(pause := false,
       framesCounter := 0,
       players := [PlayerStart(shipHeight), PlayerStart(shipHeight)],
       boss := seq(|s.boss|, _ => BossStart(shipHeight)),
       meteors := s.meteors + Spawned(ds))
  }

  // ----------------------------------------------------------- UpdateGame

  /** P flips the pause flag and touches nothing else. */
  function TogglePause(s: GameState, input: Input): (r: GameState)
    ensures r.pause == (s.pause != input.pausePressed)
    ensures r.(pause := s.pause) == s
  {
    if input.pausePressed then s.(pause := !s.pause) else s
  }

  /** Boss logic: every 300th frame a new heading, then speed, movement and walls. */
  function TurnBosses(s: GameState, rolls: seq<nat>, trig: Trig, shipHeight: real): (r: GameState)
    requires |rolls| >= |s.boss| && 0.0 < shipHeight
    ensures r.(boss := s.boss) == s && |r.boss| == |s.boss|
    ensures forall i :: 0 <= i < |r.boss| ==>
      r.boss[i].hp == s.boss[i].hp && r.boss[i].throttle == s.boss[i].throttle && InBox(r.boss[i].position, shipHeight)
    ensures s.framesCounter % BossTurnPeriod == 0 ==> forall i :: 0 <= i < |r.boss| ==> -179 <= r.boss[i].rotation <= 180
    ensures s.framesCounter % BossTurnPeriod != 0 ==> forall i :: 0 <= i < |r.boss| ==> r.boss[i].rotation == s.boss[i].rotation
  {
    var turn := s.framesCounter % BossTurnPeriod == 0;
    s.(boss := seq(|s.boss|, i requires 0 <= i < |s.boss| => BossStep(s.boss[i], turn, rolls[i], trig, shipHeight)))
  }

  /** Player rotation, speed and controller. */
  function SteerPlayers(s: GameState, input: Input, trig: Trig): (r: GameState)
    requires Shaped(s)
    ensures Shaped(r) && r.(players := s.players) == s
    ensures forall i :: 0 <= i < 2 ==>
      r.players[i].position == s.players[i].position && r.players[i].hp == s.players[i].hp
    ensures forall i :: 0 <= i < 2 && IsHeading(s.players[i].rotation) ==> IsHeading(r.players[i].rotation)
    ensures forall i :: 0 <= i < 2 && 0 <= s.players[i].throttle <= ThrottleCeiling ==>
      0 <= r.players[i].throttle <= ThrottleCeiling
  {
    s.(players := [Steer(s.players[0], input.arrows, trig), Steer(s.players[1], input.wasd, trig)])
  }

  /** ENTER fires from player 0, SPACE from player 1, before the players move. */
  function Shots(s: GameState, input: Input, rolls: TickRolls): (r: seq<Bullet>)
    requires Shaped(s)
    ensures |r| == (if input.enterPressed then 1 else 0) + (if input.spacePressed then 1 else 0)
    ensures forall k :: 0 <= k < |r| ==> BulletOk(r[k])
    ensures input.enterPressed ==> r[0].position == s.players[0].position
    ensures input.spacePressed ==>
      r[|r| - 1].position == s.players[1].position && r[|r| - 1].vx >= 0 && r[|r| - 1].vy >= 0
  {
    (if input.enterPressed then [Shot(s.players[0].position, rolls.shot0, -MeteorsSpeed)] else []) +
    (if input.spacePressed then [Shot(s.players[1].position, rolls.shot1, 0)] else [])
  }

  /** The new bullets are appended; the ones already flying are kept. */
  function FireBullets(s: GameState, input: Input, rolls: TickRolls): (r: GameState)
    requires Shaped(s)
    ensures r.(bullets := s.bullets) == s
    ensures |s.bullets| <= |r.bullets| <= |s.bullets| + 2 && r.bullets[..|s.bullets|] == s.bullets
    ensures forall k :: |s.bullets| <= k < |r.bullets| ==> BulletOk(r.bullets[k])
  {
    s.(bullets := s.bullets + Shots(s, input, rolls))
  }

  /** Movement and the wall rule: only the positions change, and they end in the box. */
  function MovePlayers(s: GameState, shipHeight: real): (r: GameState)
    requires Shaped(s) && 0.0 < shipHeight
    ensures Shaped(r) && r.(players := s.players) == s
    ensures forall i :: 0 <= i < 2 ==>
      InBox(r.players[i].position, shipHeight) && r.players[i].(position := s.players[i].position) == s.players[i]
    ensures forall i :: 0 <= i < 2 && s.players[i].throttle == 0 && InBox(s.players[i].position, shipHeight) ==>
      r.players[i] == s.players[i]
  {
    s.(players := [Wall(Advance(s.players[0]), shipHeight), Wall(Advance(s.players[1]), shipHeight)])
  }

  /** Player `i` against the meteors: every active meteor its collider
      touches costs 10 hp and is removed; a hit that leaves hp at or below 0
      ends the game. */
  function Collide(s: GameState, i: int, trig: Trig, shipHeight: real): (r: GameState)
    requires 0 <= i < |s.players|
    ensures |r.players| == |s.players|
    ensures r.boss == s.boss && r.bullets == s.bullets
    ensures r.framesCounter == s.framesCounter && r.pause == s.pause
  {
    var c := ColliderOf(s.players[i], trig, shipHeight);
    var mask := HitMask(c, s.meteors);
    var hp := s.players[i].hp - MeteorDamage * Count(mask);
    s.(players := s.players[i := s.players[i].(collider := c, hp := hp)],
       meteors := Keep(s.meteors, mask),
       gameOver := s.gameOver || (Count(mask) > 0 && hp <= 0))
  }

  /** Players 0 .. n - 1 against the meteors, one after the other. */
  function CollidePlayers(s: GameState, n: int, trig: Trig, shipHeight: real): (r: GameState)
    requires 0 <= n <= |s.players|
    ensures |r.players| == |s.players|
    ensures r.boss == s.boss && r.bullets == s.bullets
    ensures r.framesCounter == s.framesCounter && r.pause == s.pause
    decreases n
  {
    if n == 0 then s else Collide(CollidePlayers(s, n - 1, trig, shipHeight), n - 1, trig, shipHeight)
  }

  /** Meteor logic: active meteors move, and those that left the arena go. */
  function MoveMeteors(s: GameState): (r: GameState)
    ensures r.(meteors := s.meteors) == s
    ensures |r.meteors| == |s.meteors| - Count(DespawnMask(Drifted(s.meteors)))
  {
    var ms := Drifted(s.meteors);
    KeepLength(ms, DespawnMask(ms));
    s.(meteors := Keep(ms, DespawnMask(ms)))
  }

  /** The stages of an unpaused frame before the collision passes: the
      frame counter, the bosses, steering, firing and player movement. */
  function Motion(s: GameState, input: Input, trig: Trig, rolls: TickRolls, shipHeight: real): (r: GameState)
    requires Shaped(s) && 0.0 < shipHeight && |rolls.bossRolls| >= |s.boss|
    ensures Shaped(r) && |r.boss| == |s.boss| && r.pause == s.pause
    ensures r.framesCounter == s.framesCounter + 1
  {
    var counted := s.(framesCounter := s.framesCounter + 1);
    var turned := TurnBosses(counted, rolls.bossRolls, trig, shipHeight);
    var steered := SteerPlayers(turned, input, trig);
    var fired := FireBullets(steered, input, rolls);
    MovePlayers(fired, shipHeight)
  }

  /** An unpaused frame of a running game. The bullet-against-meteor loop of
      the source has an empty body and changes nothing. */
  function Frame(s: GameState, input: Input, trig: Trig, rolls: TickRolls, shipHeight: real): (r: GameState)
    requires Shaped(s) && 0.0 < shipHeight && |rolls.bossRolls| >= |s.boss|
    ensures Shaped(r) && |r.boss| == |s.boss| && r.pause == s.pause
    ensures r.framesCounter == s.framesCounter + 1
  {
    MoveMeteors(CollidePlayers(Motion(s, input, trig, rolls, shipHeight), 2, trig, shipHeight))
  }

  /** UpdateGame. */
  function Update(s: GameState, input: Input, trig: Trig, rolls: TickRolls, shipHeight: real): (r: GameState)
    requires Shaped(s) && 0.0 < shipHeight && |rolls.bossRolls| >= |s.boss|
    requires s.gameOver && input.enterPressed ==> InitRollsOk(rolls.restart)
    ensures Shaped(r) && |r.boss| == |s.boss|
    ensures s.gameOver && !input.enterPressed ==> r == s
    ensures s.gameOver && input.enterPressed ==> !r.gameOver && !r.pause && r.framesCounter == 0
    ensures !s.gameOver ==> r.pause == (s.pause != input.pausePressed)
    ensures !s.gameOver && r.pause ==> r == s.(pause := true)
    ensures !s.gameOver && !r.pause ==> r.framesCounter == s.framesCounter + 1
  {
    if s.gameOver then
      if input.enterPressed then Init(s, rolls.restart, shipHeight).(gameOver := false) else s
    else
      var toggled := TogglePause(s, input);
      if toggled.pause then toggled else Frame(toggled, input, trig, rolls, shipHeight)
  }

  // ------------------------------------------------------------ invariant

  predicate PlayerOk(p: Ship, shipHeight: real)
  {
    0 <= p.throttle <= ThrottleCeiling && IsHeading(p.rotation) && InBox(p.position, shipHeight)
  }

  predicate BossOk(b: Ship, shipHeight: real)
  {
    b.throttle == BossThrottle && -179 <= b.rotation <= 180 && InBox(b.position, shipHeight)
  }

  predicate MeteorOk(m: Meteor)
  {
    m.active && (m.radius == SmallMeteor || m.radius == BigMeteor) &&
    -MeteorsSpeed <= m.vx <= MeteorsSpeed && -MeteorsSpeed <= m.vy <= MeteorsSpeed &&
    (m.vx != 0 || m.vy != 0) && !OffArena(m)
  }

  predicate BulletOk(b: Bullet)
  {
    b.active && b.radius == BulletRadius &&
    -MeteorsSpeed <= b.vx <= MeteorsSpeed && -MeteorsSpeed <= b.vy <= MeteorsSpeed
  }

  /** The game is over exactly when some player is down. */
  predicate OverWhenDown(s: GameState)
    requires Shaped(s)
  {
    s.gameOver <==> (s.players[0].hp <= 0 || s.players[1].hp <= 0)
  }

  /** What holds between frames, from main's first InitGame call on. */
  predicate Consistent(s: GameState, shipHeight: real)
  {
    && Shaped(s) && |s.boss| == 1 && s.framesCounter >= 0
    && PlayerOk(s.players[0], shipHeight) && PlayerOk(s.players[1], shipHeight)
    && (forall b :: b in s.boss ==> BossOk(b, shipHeight))
    && (forall m :: m in s.meteors ==> MeteorOk(m))
    && (forall b :: b in s.bullets ==> BulletOk(b))
    && OverWhenDown(s)
  }
}

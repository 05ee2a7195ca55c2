/** The game's globals as the fields of one object, with InitGame and
    UpdateGame as the methods that update them in place, loop by loop as the
    program does. Each method is proved to leave exactly the state the
    functions of `Rules` describe, and the invariant `Valid` holds from
    construction on. */
module Simulation {
  import opened Arena
  import opened Entities
  import opened Compaction
  import opened Rules
  import Properties

  /** The wall rule of one ship, an axis at a time and far wall first. */
  method WallBehaviour(p: Vec, shipHeight: real) returns (r: Vec)
    requires 0.0 < shipHeight
    ensures InBox(r, shipHeight)
    ensures r == ClampToBox(p, shipHeight)
  {
    var x, y := p.x, p.y;
    if x > ScreenWidth as real { x := ScreenWidth as real; }
    else if x < -shipHeight { x := 0.0; }
    if y > ScreenHeight as real { y := ScreenHeight as real; }
    else if y < -shipHeight { y := 0.0; }
    r := Vec(x, y);
  }

  /** One spawn coordinate in [0, max]: a first draw and, unless
      `correctRange` is already set, re-draws while it lies near the centre.
      The flag is set on return either way. */
  method DrawCoordinate(rolls: seq<nat>, max: nat, correctRange: bool) returns (v: int, inRange: bool)
    requires |rolls| > 0
    requires !correctRange ==> AcceptsCoordinate(rolls, max)
    ensures inRange
    ensures 0 <= v <= max
    ensures !correctRange ==> !NearCentre(v, max)
    ensures v == if correctRange then RandomValue(rolls[0], 0, max) else Reroll(rolls, max)
  {
    var k := 0;
    v := RandomValue(rolls[k], 0, max);
    inRange := correctRange;
    while !inRange
      invariant 0 <= k < |rolls|
      invariant v == RandomValue(rolls[k], 0, max)
      invariant !inRange ==> AcceptsCoordinate(rolls[k..], max) && Reroll(rolls[k..], max) == Reroll(rolls, max)
      invariant inRange ==> v == if correctRange then RandomValue(rolls[0], 0, max) else Reroll(rolls, max)
      invariant correctRange ==> inRange
      decreases |rolls| - k, if inRange then 0 else 1
    {
      if NearCentre(v, max) {
        RerollSkips(rolls[k..], max);
        assert rolls[k..][1..] == rolls[k + 1..];
        k := k + 1;
        v := RandomValue(rolls[k], 0, max);
      } else {
        assert rolls[k..][0] == rolls[k];
        inRange := true;
      }
    }
  }

  /** A meteor velocity: a first pair of draws in [-2, 2], re-drawn while
      both are 0. */
  method DrawSpeed(rolls: seq<(nat, nat)>) returns (vx: int, vy: int, inRange: bool)
    requires AcceptsSpeed(rolls)
    ensures inRange
    ensures vx != 0 || vy != 0
    ensures -MeteorsSpeed <= vx <= MeteorsSpeed && -MeteorsSpeed <= vy <= MeteorsSpeed
    ensures (vx, vy) == RerollSpeed(rolls)
  {
    var k := 0;
    vx := RandomValue(rolls[k].0, -MeteorsSpeed, MeteorsSpeed);
    vy := RandomValue(rolls[k].1, -MeteorsSpeed, MeteorsSpeed);
    inRange := false;
    while !inRange
      invariant 0 <= k < |rolls|
      invariant (vx, vy) == MeteorSpeed(rolls[k])
      invariant !inRange ==> AcceptsSpeed(rolls[k..]) && RerollSpeed(rolls[k..]) == RerollSpeed(rolls)
      invariant inRange ==> (vx, vy) == RerollSpeed(rolls)
      decreases |rolls| - k, if inRange then 0 else 1
    {
      if vx == 0 && vy == 0 {
        RerollSpeedSkips(rolls[k..]);
        assert rolls[k..][1..] == rolls[k + 1..];
        k := k + 1;
        vx := RandomValue(rolls[k].0, -MeteorsSpeed, MeteorsSpeed);
        vy := RandomValue(rolls[k].1, -MeteorsSpeed, MeteorsSpeed);
      } else {
        inRange := true;
      }
    }
  }

  /** The despawn test of one moved meteor, an edge at a time. */
  method MeteorWallBehaviour(m: Meteor) returns (gone: bool)
    ensures gone == OffArena(m)
  {
    gone := false;
    if m.x > ScreenWidth + m.radius { gone := true; }
    else if m.x < 0 - m.radius { gone := true; }
    else if m.y > ScreenHeight + m.radius { gone := true; }
    else if m.y < 0 - m.radius { gone := true; }
  }

  /** The scan of the meteors for one player whose collider is centred at
      `c`: each active meteor it touches costs 10 hp and its position is
      collected, and a hit that leaves hp at or below 0 ends the game. */
  method ScanMeteors(meteors: seq<Meteor>, c: Vec, hp0: int, over0: bool) returns (erasedMeteorId: seq<int>, hp: int, over: bool)
    ensures erasedMeteorId == Marked(HitMask(c, meteors))
    ensures hp == hp0 - MeteorDamage * |erasedMeteorId|
    ensures over <==> over0 || (|erasedMeteorId| > 0 && hp <= 0)
  {
    ghost var mask := HitMask(c, meteors);
    erasedMeteorId, hp, over := [], hp0, over0;
    for a := 0 to |meteors|
      invariant erasedMeteorId == Marked(mask[..a])
      invariant hp == hp0 - MeteorDamage * |erasedMeteorId|
      invariant over <==> over0 || (|erasedMeteorId| > 0 && hp <= 0)
    {
      MarkedNext(mask, a);
      if Hits(c, meteors[a]) {
        hp := hp - MeteorDamage;
        erasedMeteorId := erasedMeteorId + [a];
        if hp <= 0 { over := true; }
      }
    }
    assert mask[..|meteors|] == mask;
  }

  /** What the scan found, applied to the state, is the collision pass. */
  lemma CollideAsScanned(s: GameState, i: int, trig: Trig, shipHeight: real, c: Vec, ids: seq<int>, hp: int, over: bool)
    requires 0 <= i < |s.players|
    requires c == ColliderOf(s.players[i], trig, shipHeight)
    requires ids == Marked(HitMask(c, s.meteors))
    requires hp == s.players[i].hp - MeteorDamage * |ids|
    requires over <==> s.gameOver || (|ids| > 0 && hp <= 0)
    ensures Collide(s, i, trig, shipHeight) ==
      s.(players := s.players[i := s.players[i].(collider := c, hp := hp)],
         meteors := Compact(s.meteors, ids),
         gameOver := over)
  {
    var mask := HitMask(c, s.meteors);
    MarkedCount(mask);
    EraseMarkedKeepsUnmarked(s.meteors, mask);
  }

  class World {
    /** The height of a ship's triangle, fixed by the base size and the
        70-degree angles. */
    const shipHeight: real
    var players: seq<Ship>
    var boss: seq<Ship>
    var meteors: seq<Meteor>
    var bullets: seq<Bullet>
    var framesCounter: int
    var pause: bool
    var gameOver: bool

    function State(): GameState
      reads this
    {
      GameState(players, boss, meteors, bullets, framesCounter, pause, gameOver)
    }

    ghost predicate Valid()
      reads this
    {
      0.0 < shipHeight && Consistent(State(), shipHeight)
    }

    /** The globals as the program starts, followed by the InitGame call
        that main makes before the first frame. */
    constructor (shipHeight: real, rolls: seq<MeteorRolls>)
      requires 0.0 < shipHeight && InitRollsOk(rolls)
      ensures Valid()
      ensures State() == Init(Startup, rolls, shipHeight)
    {
      this.shipHeight := shipHeight;
      players := [Idle, Idle];
      boss := [Idle];
      meteors := [];
      bullets := [];
      framesCounter := 0;
      pause := false;
      gameOver := false;
      new;
      InitGame(rolls);
      Properties.InitConsistent(Startup, rolls, shipHeight);
    }

    /** InitGame: clears the pause and the frame count, resets both players
        and every boss, and appends forty meteors. */
    method InitGame(rolls: seq<MeteorRolls>)
      requires |players| == 2 && InitRollsOk(rolls)
      modifies this
      ensures State() == Init(old(State()), rolls, shipHeight)
    {
      pause := false;
      framesCounter := 0;
      ResetPlayers();
      ResetBosses();
      SpawnMeteors(rolls);
    }

    /** Both players centred, still, heading up, with full hp. */
    method ResetPlayers()
      requires |players| == 2
      modifies this
      ensures State() == old(State()).(players := [PlayerStart(shipHeight), PlayerStart(shipHeight)])
    {
      for i := 0 to 2
        invariant |players| == 2
        invariant forall j :: 0 <= j < i ==> players[j] == PlayerStart(shipHeight)
        invariant State() == old(State()).(players := players)
      {
        var p := Vec((ScreenWidth / 2) as real, (ScreenHeight / 2) as real - shipHeight / 2.0);
        // The collider at rotation 0, where sine is 0 and cosine is 1.
        players := players[i := Ship(p, Vec(0.0, 0.0), 0, 0, Vec(p.x, p.y - shipHeight / 2.5), PlayerMaxHp)];
      }
    }

    /** Every boss at its starting point with acceleration 0.1 and full hp. */
    method ResetBosses()
      modifies this
      ensures |boss| == |old(boss)|
      ensures forall j :: 0 <= j < |boss| ==> boss[j] == BossStart(shipHeight)
      ensures State() == old(State()).(boss := boss)
    {
      for i := 0 to |boss|
        invariant |boss| == |old(boss)|
        invariant forall j :: 0 <= j < i ==> boss[j] == BossStart(shipHeight)
        invariant State() == old(State()).(boss := boss)
      {
        var p := Vec((ScreenWidth / 3) as real, (ScreenHeight / 3) as real - shipHeight / 4.0);
        boss := boss[i := Ship(p, Vec(0.0, 0.0), BossThrottle, 0, Vec(p.x, p.y - shipHeight / 2.5), BossMaxHp)];
      }
    }

    /** The forty meteors of InitGame, appended one by one. `correctRange`
        is still set when the second meteor starts, so only the first one
        re-draws its x coordinate. */
    method SpawnMeteors(rolls: seq<MeteorRolls>)
      requires InitRollsOk(rolls)
      modifies this
      ensures State() == old(State()).(meteors := old(meteors) + Spawned(rolls))
    {
      var correctRange := false;
      ghost var spawned := Spawned(rolls);
      for i := 0 to MaxMeteors
        invariant correctRange == (i > 0)
        invariant meteors == old(meteors) + spawned[..i]
        invariant State() == old(State()).(meteors := meteors)
      {
        var d := rolls[i];
        var posx, posy, velx, vely;
        posx, correctRange := DrawCoordinate(d.xs, ScreenWidth, correctRange);
        correctRange := false;
        posy, correctRange := DrawCoordinate(d.ys, ScreenHeight, correctRange);
        correctRange := false;
        velx, vely, correctRange := DrawSpeed(d.velocities);
        meteors := meteors + [Meteor(posx, posy, velx, vely, if d.large then BigMeteor else SmallMeteor, true)];
        assert spawned[..i + 1] == spawned[..i] + [spawned[i]];
      }
      assert spawned[..MaxMeteors] == spawned;
    }

    /** UpdateGame: a finished game waits for ENTER and restarts; a running
        one toggles the pause on P and, unless paused, plays a frame. */
    method UpdateGame(input: Input, trig: Trig, rolls: TickRolls)
      requires Valid() && |rolls.bossRolls| >= |boss|
      requires gameOver && input.enterPressed ==> InitRollsOk(rolls.restart)
      modifies this
      ensures Valid()
      ensures State() == Update(old(State()), input, trig, rolls, shipHeight)
    {
      Properties.UpdateKeepsConsistent(State(), input, trig, rolls, shipHeight);
      if !gameOver {
        if input.pausePressed { pause := !pause; }
        if !pause {
          PlayFrame(input, trig, rolls);
        }
      } else if input.enterPressed {
        InitGame(rolls.restart);
        gameOver := false;
      }
    }

    /** The unpaused part of UpdateGame, stage by stage. */
    method PlayFrame(input: Input, trig: Trig, rolls: TickRolls)
      requires |players| == 2 && 0.0 < shipHeight && |rolls.bossRolls| >= |boss|
      modifies this
      ensures State() == Frame(old(State()), input, trig, rolls, shipHeight)
    {
      framesCounter := framesCounter + 1;
      UpdateBoss(trig, rolls.bossRolls);
      SteerPlayers(input, trig);
      FireBullets(input, rolls);
      MovePlayers();
      ghost var moved := State();
      assert moved == Motion(old(State()), input, trig, rolls, shipHeight);
      for i := 0 to 2
        invariant State() == CollidePlayers(moved, i, trig, shipHeight)
      {
        CollidePlayer(i, trig);
      }
      // The bullet-against-meteor loop has an empty body: nothing to do.
      UpdateMeteors();
    }

    /** Boss logic: a new heading every 300th frame, then speed, movement
        and the wall rule, each a loop over the bosses. */
    method UpdateBoss(trig: Trig, rolls: seq<nat>)
      requires 0.0 < shipHeight && |rolls| >= |boss|
      modifies this
      ensures State() == TurnBosses(old(State()), rolls, trig, shipHeight)
    {
      var turn := framesCounter % BossTurnPeriod == 0;
      AimBosses(turn, trig, rolls);
      MoveBosses();
      assert forall j :: 0 <= j < |boss| ==> boss[j] == BossStep(old(boss)[j], turn, rolls[j], trig, shipHeight);
    }

    /** The rotation loop, run on a turn, and the speed loop. */
    method AimBosses(turn: bool, trig: Trig, rolls: seq<nat>)
      requires |rolls| >= |boss|
      modifies this
      ensures |boss| == |old(boss)|
      ensures forall j :: 0 <= j < |boss| ==> boss[j] == Aim(old(boss)[j], turn, rolls[j], trig)
      ensures State() == old(State()).(boss := boss)
    {
      var bs := boss;
      ghost var b0 := boss;
      var bossNum := |bs|;
      if turn {
        for i := 0 to bossNum
          invariant |bs| == bossNum
          invariant forall j :: 0 <= j < bossNum ==> bs[j] == if j < i then b0[j].(rotation := BossRotation(rolls[j])) else b0[j]
          modifies {}
        {
          var r: int := rolls[i] % 360;
          bs := bs[i := bs[i].(rotation := r + 1 - 180)];
        }
      }
      ghost var turned := bs;
      for i := 0 to bossNum
        invariant |bs| == bossNum
        invariant forall j :: 0 <= j < bossNum ==>
          bs[j] == if j < i then turned[j].(speed := ShipSpeed(turned[j].rotation, trig, BossSpeed)) else turned[j]
        modifies {}
      {
        bs := bs[i := bs[i].(speed := Vec(trig.sin(bs[i].rotation) * BossSpeed, trig.cos(bs[i].rotation) * BossSpeed))];
      }
      boss := bs;
    }

    /** The movement loop and the wall loop. */
    method MoveBosses()
      requires 0.0 < shipHeight
      modifies this
      ensures |boss| == |old(boss)|
      ensures forall j :: 0 <= j < |boss| ==> boss[j] == Wall(Advance(old(boss)[j]), shipHeight)
      ensures State() == old(State()).(boss := boss)
    {
      var bs := boss;
      ghost var b0 := boss;
      var bossNum := |bs|;
      for i := 0 to bossNum
        invariant |bs| == bossNum
        invariant forall j :: 0 <= j < bossNum ==> bs[j] == if j < i then Advance(b0[j]) else b0[j]
        modifies {}
      {
        var b := bs[i];
        var acc := Acceleration(b);
        bs := bs[i := b.(position := Vec(b.position.x + b.speed.x * acc, b.position.y - b.speed.y * acc))];
      }
      ghost var moved := bs;
      for i := 0 to bossNum
        invariant |bs| == bossNum
        invariant forall j :: 0 <= j < bossNum ==> bs[j] == if j < i then Wall(moved[j], shipHeight) else moved[j]
        modifies {}
      {
        var p := WallBehaviour(bs[i].position, shipHeight);
        bs := bs[i := bs[i].(position := p)];
      }
      boss := bs;
    }

    /** Player rotation from the held keys, speed along the rotation, and the
        controller of the heading just chosen. */
    method SteerPlayers(input: Input, trig: Trig)
      requires |players| == 2
      modifies this
      ensures State() == Rules.SteerPlayers(old(State()), input, trig)
    {
      var ps := [players[0].(rotation := Heading(players[0].rotation, input.arrows)),
                 players[1].(rotation := Heading(players[1].rotation, input.wasd))];
      var currentDirection1, currentDirection2 := ps[0].rotation, ps[1].rotation;
      ghost var turned := ps;
      for i := 0 to 2
        invariant |ps| == 2
        invariant forall j :: 0 <= j < 2 ==>
          ps[j] == if j < i then turned[j].(speed := ShipSpeed(turned[j].rotation, trig, PlayerSpeed)) else turned[j]
        modifies {}
      {
        ps := ps[i := ps[i].(speed := Vec(trig.sin(ps[i].rotation) * PlayerSpeed, trig.cos(ps[i].rotation) * PlayerSpeed))];
      }
      players := [ps[0].(throttle := Throttle(ps[0].throttle, currentDirection1, input.arrows)),
                  ps[1].(throttle := Throttle(ps[1].throttle, currentDirection2, input.wasd))];
    }

    /** ENTER fires from player 0 with speeds in [-2, 2], SPACE from player 1
        with speeds in [0, 2]. */
    method FireBullets(input: Input, rolls: TickRolls)
      requires |players| == 2
      modifies this
      ensures State() == Rules.FireBullets(old(State()), input, rolls)
    {
      if input.enterPressed {
        var velx := RandomValue(rolls.shot0.0, -MeteorsSpeed, MeteorsSpeed);
        var vely := RandomValue(rolls.shot0.1, -MeteorsSpeed, MeteorsSpeed);
        bullets := bullets + [Bullet(players[0].position, velx, vely, BulletRadius, true)];
      }
      if input.spacePressed {
        var velx := RandomValue(rolls.shot1.0, 0, MeteorsSpeed);
        var vely := RandomValue(rolls.shot1.1, 0, MeteorsSpeed);
        bullets := bullets + [Bullet(players[1].position, velx, vely, BulletRadius, true)];
      }
    }

    /** Player movement, then the wall rule, each a loop over both players. */
    method MovePlayers()
      requires |players| == 2 && 0.0 < shipHeight
      modifies this
      ensures State() == Rules.MovePlayers(old(State()), shipHeight)
    {
      var ps := players;
      ghost var p0 := players;
      for i := 0 to 2
        invariant |ps| == 2
        invariant forall j :: 0 <= j < 2 ==> ps[j] == if j < i then Advance(p0[j]) else p0[j]
        modifies {}
      {
        var p := ps[i];
        var acc := Acceleration(p);
        ps := ps[i := p.(position := Vec(p.position.x + p.speed.x * acc, p.position.y - p.speed.y * acc))];
      }
      ghost var p1 := ps;
      for i := 0 to 2
        invariant |ps| == 2
        invariant forall j :: 0 <= j < 2 ==> ps[j] == if j < i then Wall(p1[j], shipHeight) else p1[j]
        modifies {}
      {
        var q := WallBehaviour(ps[i].position, shipHeight);
        ps := ps[i := ps[i].(position := q)];
      }
      assert ps == [Wall(Advance(p0[0]), shipHeight), Wall(Advance(p0[1]), shipHeight)];
      players := ps;
    }

    /** Player `i` against the meteors: the collider is recomputed, the scan
        charges the player for every meteor it touches, and the collected
        meteors are erased. */
    method CollidePlayer(i: int, trig: Trig)
      requires 0 <= i < |players|
      modifies this
      ensures State() == Collide(old(State()), i, trig, shipHeight)
    {
      ghost var s0 := State();
      var c := ColliderOf(players[i], trig, shipHeight);
      var erasedMeteorId, hp, over := ScanMeteors(meteors, c, players[i].hp, gameOver);
      CollideAsScanned(s0, i, trig, shipHeight, c, erasedMeteorId, hp, over);
      players := players[i := players[i].(collider := c, hp := hp)];
      gameOver := over;
      EraseMeteors(erasedMeteorId);
    }

    /** Erases the meteors at the listed positions, from the last position
        to the first. */
    method EraseMeteors(ids: seq<int>)
      requires StrictlyIncreasing(ids)
      requires forall k :: 0 <= k < |ids| ==> 0 <= ids[k] < |meteors|
      modifies this
      ensures State() == old(State()).(meteors := Compact(old(meteors), ids))
    {
      CompactNone(meteors, []);
      assert ids[|ids|..] == [];
      var j := |ids|;
      while j > 0
        invariant 0 <= j <= |ids|
        invariant meteors == Compact(old(meteors), ids[j..])
        invariant State() == old(State()).(meteors := meteors)
      {
        j := j - 1;
        CompactStep(old(meteors), ids[j + 1..], ids[j]);
        assert [ids[j]] + ids[j + 1..] == ids[j..];
        meteors := meteors[..ids[j]] + meteors[ids[j] + 1..];
      }
    }

    /** Meteor logic: every active meteor moves by its speed, and those that
        left the arena are collected and then erased. */
    method UpdateMeteors()
      modifies this
      ensures State() == MoveMeteors(old(State()))
    {
      var erasedMeteorId := DriftMeteors();
      EraseMeteors(erasedMeteorId);
      EraseMarkedKeepsUnmarked(Drifted(old(meteors)), DespawnMask(Drifted(old(meteors))));
    }

    /** The movement and despawn scan: active meteors move in place, and the
        positions of those now outside the arena are collected in order. */
    method DriftMeteors() returns (erasedMeteorId: seq<int>)
      modifies this
      ensures State() == old(State()).(meteors := Drifted(old(meteors)))
      ensures erasedMeteorId == Marked(DespawnMask(Drifted(old(meteors))))
    {
      var ms := meteors;
      ghost var m0 := meteors;
      ghost var mask := DespawnMask(Drifted(m0));
      erasedMeteorId := [];
      for i := 0 to |ms|
        invariant |ms| == |m0|
        invariant forall k :: 0 <= k < |m0| ==> ms[k] == if k < i then Drift(m0[k]) else m0[k]
        invariant erasedMeteorId == Marked(mask[..i])
        modifies {}
      {
        MarkedNext(mask, i);
        var m := ms[i];
        if m.active {
          m := m.(x := m.x + m.vx, y := m.y + m.vy);
          ms := ms[i := m];
          var gone := MeteorWallBehaviour(m);
          if gone { erasedMeteorId := erasedMeteorId + [i]; }
        }
      }
      assert ms == Drifted(m0);
      assert mask[..|m0|] == mask;
      meteors := ms;
    }
  }
}

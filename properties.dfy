/** What one call of InitGame or UpdateGame guarantees, proved of the
    functions in `Rules`. */
module Properties {
  import opened Arena
  import opened Entities
  import opened Compaction
  import opened Rules

  // ------------------------------------------------------- state machine

  /** A frame in which P leaves the game paused changes nothing but the flag;
      the frame counter is frozen and nothing moves. */
  lemma PausedFrameFreezes(s: GameState, input: Input, trig: Trig, rolls: TickRolls, shipHeight: real)
    requires Shaped(s) && 0.0 < shipHeight && |rolls.bossRolls| >= |s.boss|
    requires !s.gameOver && s.pause != input.pausePressed
    ensures Update(s, input, trig, rolls, shipHeight) == s.(pause := true)
  {
  }

  /** An unpaused frame of a running game advances the frame counter by one. */
  lemma RunningFrameCounts(s: GameState, input: Input, trig: Trig, rolls: TickRolls, shipHeight: real)
    requires Shaped(s) && 0.0 < shipHeight && |rolls.bossRolls| >= |s.boss|
    requires !s.gameOver && s.pause == input.pausePressed
    ensures var r := Update(s, input, trig, rolls, shipHeight);
      !r.pause && r.framesCounter == s.framesCounter + 1
  {
  }

  /** Two frames with P pressed restore the pause flag, provided the game
      does not end in between (from a running game the first frame only
      pauses; from a paused one the first frame runs). */
  lemma PauseTwiceRestores(s: GameState, input: Input, trig: Trig, rolls: TickRolls, shipHeight: real)
    requires Shaped(s) && 0.0 < shipHeight && |rolls.bossRolls| >= |s.boss|
    requires !s.gameOver && input.pausePressed
    requires !Update(s, input, trig, rolls, shipHeight).gameOver
    ensures var once := Update(s, input, trig, rolls, shipHeight);
      Shaped(once) && |once.boss| == |s.boss| &&
      Update(once, input, trig, rolls, shipHeight).pause == s.pause
    ensures !s.pause ==> Update(s, input, trig, rolls, shipHeight) == s.(pause := true)
  {
  }

  /** While the game is over only ENTER does anything. */
  lemma OverWaitsForEnter(s: GameState, input: Input, trig: Trig, rolls: TickRolls, shipHeight: real)
    requires Shaped(s) && 0.0 < shipHeight && |rolls.bossRolls| >= |s.boss|
    requires s.gameOver && !input.enterPressed
    ensures Update(s, input, trig, rolls, shipHeight) == s
  {
  }

  /** ENTER after the game is over runs InitGame and clears gameOver. */
  lemma RestartResets(s: GameState, input: Input, trig: Trig, rolls: TickRolls, shipHeight: real)
    requires Shaped(s) && 0.0 < shipHeight && |rolls.bossRolls| >= |s.boss|
    requires s.gameOver && input.enterPressed && InitRollsOk(rolls.restart)
    ensures var r := Update(s, input, trig, rolls, shipHeight);
      r == Init(s, rolls.restart, shipHeight).(gameOver := false) &&
      !r.gameOver && !r.pause && r.framesCounter == 0
  {
  }

  /** What InitGame resets, and that it only appends meteors. */
  lemma InitResets(s: GameState, ds: seq<MeteorRolls>, shipHeight: real)
    requires InitRollsOk(ds)
    ensures var r := Init(s, ds, shipHeight);
      && !r.pause && r.framesCounter == 0 && r.gameOver == s.gameOver
      && |r.players| == 2 && |r.boss| == |s.boss|
      && (forall p :: p in r.players ==> p.hp == PlayerMaxHp && p.throttle == 0 && p.rotation == 0 && p.speed == Vec(0.0, 0.0))
      && (forall b :: b in r.boss ==> b.hp == BossMaxHp && b.throttle == BossThrottle && b.rotation == 0)
      && |r.meteors| == |s.meteors| + MaxMeteors && r.meteors[..|s.meteors|] == s.meteors
      && r.bullets == s.bullets
  {
    var r := Init(s, ds, shipHeight);
    assert r.meteors[..|s.meteors|] == s.meteors;
  }

  /** The forty meteors InitGame appends: active, of one of the two sizes,
      y away from the centre band, a velocity in [-2, 2]^2 other than (0, 0);
      only the first has its x kept out of the centre band. */
  lemma InitSpawns(s: GameState, ds: seq<MeteorRolls>, shipHeight: real)
    requires InitRollsOk(ds)
    ensures var r := Init(s, ds, shipHeight);
      && (forall i :: |s.meteors| <= i < |r.meteors| ==>
            var m := r.meteors[i];
            && m.active && (m.radius == SmallMeteor || m.radius == BigMeteor)
            && 0 <= m.x <= ScreenWidth
            && (0 <= m.y <= 75 || 375 <= m.y <= 450)
            && -MeteorsSpeed <= m.vx <= MeteorsSpeed && -MeteorsSpeed <= m.vy <= MeteorsSpeed
            && (m.vx != 0 || m.vy != 0))
      && (r.meteors[|s.meteors|].x <= 250 || 550 <= r.meteors[|s.meteors|].x)
  {
  }

  // ----------------------------------------------------------- collisions

  /** A player's scan flags only active meteors, one flag per active meteor
      its collider touches. */
  lemma HitMaskCounts(collider: Vec, ms: seq<Meteor>)
    ensures forall k :: 0 <= k < |ms| && HitMask(collider, ms)[k] ==> ms[k].active
    ensures Count(HitMask(collider, ms)) == |set k | 0 <= k < |ms| && Hits(collider, ms[k])|
  {
    var mask := HitMask(collider, ms);
    CountIsCardinality(mask);
    assert (set k | 0 <= k < |mask| && mask[k]) == (set k | 0 <= k < |ms| && Hits(collider, ms[k]));
  }

  /** The collider InitGame stores, computed at heading 0, is the one the
      collision pass recomputes for a ship that has not moved or turned. */
  lemma ColliderAtStart(trig: Trig, shipHeight: real)
    requires trig.sin(0) == 0.0 && trig.cos(0) == 1.0
    ensures ColliderOf(PlayerStart(shipHeight), trig, shipHeight) == PlayerStart(shipHeight).collider
    ensures ColliderOf(BossStart(shipHeight), trig, shipHeight) == BossStart(shipHeight).collider
  {
    var d := shipHeight / 2.5;
    assert trig.sin(0) * d == 0.0 && trig.cos(0) * d == d;
  }

  /** Where InitGame puts the ships, with the screen's integer halves and
      thirds written out: each player at (400, 225 - h/2) with its collider
      h/2.5 above, 50 hp, still and heading up; the boss at (266, 150 - h/4)
      with 1000 hp and throttle 0.1 (five steps of 0.02).  Before InitGame
      the globals hold two players, one boss, no meteors and no bullets,
      and the game is neither paused nor over. */
  lemma StartPositions(shipHeight: real)
    ensures var p := PlayerStart(shipHeight);
      && p.position == Vec(400.0, 225.0 - shipHeight / 2.0)
      && p.collider == Vec(400.0, 225.0 - shipHeight / 2.0 - shipHeight / 2.5)
      && p.speed == Vec(0.0, 0.0) && p.throttle == 0 && p.rotation == 0 && p.hp == 50
    ensures var b := BossStart(shipHeight);
      && b.position == Vec(266.0, 150.0 - shipHeight / 4.0)
      && b.collider == Vec(266.0, 150.0 - shipHeight / 4.0 - shipHeight / 2.5)
      && b.speed == Vec(0.0, 0.0) && b.throttle == 5 && b.rotation == 0 && b.hp == 1000
    ensures |Startup.players| == 2 && |Startup.boss| == 1
    ensures Startup.meteors == [] && Startup.bullets == []
    ensures Startup.framesCounter == 0 && !Startup.pause && !Startup.gameOver
  {
  }

  /** One player's collision pass: hp drops by exactly 10 per active meteor
      touching its collider (no early exit and no floor at 0), those meteors
      are exactly the ones erased, the others remain in order, no other
      player changes, and the game ends when a hit leaves hp at or below 0. */
  lemma CollideDamage(s: GameState, i: int, trig: Trig, shipHeight: real)
    requires 0 <= i < |s.players|
    ensures var c := ColliderOf(s.players[i], trig, shipHeight);
      var r := Collide(s, i, trig, shipHeight);
      var hit := set k | 0 <= k < |s.meteors| && Hits(c, s.meteors[k]);
      && r.players[i].hp == s.players[i].hp - MeteorDamage * |hit|
      && r.players[i].collider == c
      && r.meteors == Compact(s.meteors, Marked(HitMask(c, s.meteors)))
      && |r.meteors| == |s.meteors| - |hit|
      && (forall m :: m in r.meteors ==> !Hits(c, m))
      && (forall k :: 0 <= k < |s.meteors| && !Hits(c, s.meteors[k]) ==> s.meteors[k] in r.meteors)
      && (forall j :: 0 <= j < |s.players| && j != i ==> r.players[j] == s.players[j])
      && (r.gameOver <==> s.gameOver || (|hit| > 0 && r.players[i].hp <= 0))
  {
    var c := ColliderOf(s.players[i], trig, shipHeight);
    var mask := HitMask(c, s.meteors);
    HitMaskCounts(c, s.meteors);
    EraseMarkedKeepsUnmarked(s.meteors, mask);
    KeepLength(s.meteors, mask);
    KeepMembers(s.meteors, mask);
  }

  /** A player whose collider touches no active meteor loses nothing and
      removes nothing. */
  lemma CollideMiss(s: GameState, i: int, trig: Trig, shipHeight: real)
    requires 0 <= i < |s.players|
    requires forall k :: 0 <= k < |s.meteors| ==> !Hits(ColliderOf(s.players[i], trig, shipHeight), s.meteors[k])
    ensures var r := Collide(s, i, trig, shipHeight);
      r.meteors == s.meteors && r.players[i].hp == s.players[i].hp && r.gameOver == s.gameOver
  {
    var mask := HitMask(ColliderOf(s.players[i], trig, shipHeight), s.meteors);
    KeepAll(s.meteors, mask);
    KeepLength(s.meteors, mask);
  }

  /** Player 0's hits are erased before player 1 scans: a meteor touching
      both players damages player 0 only, and player 1's pass leaves player 0
      alone. */
  lemma CrossPlayerOrder(s: GameState, trig: Trig, shipHeight: real)
    requires Shaped(s)
    ensures var first := Collide(s, 0, trig, shipHeight);
      var second := Collide(first, 1, trig, shipHeight);
      && (forall k :: 0 <= k < |s.meteors| && Hits(first.players[0].collider, s.meteors[k]) ==> s.meteors[k] !in first.meteors)
      && (forall m :: m in first.meteors && Hits(second.players[1].collider, m) ==> !Hits(first.players[0].collider, m))
      && second.players[0] == first.players[0]
  {
    var c := ColliderOf(s.players[0], trig, shipHeight);
    KeepMembers(s.meteors, HitMask(c, s.meteors));
  }

  /** The game ends exactly when a player is down, across a collision pass. */
  lemma CollideKeepsOverWhenDown(s: GameState, i: int, trig: Trig, shipHeight: real)
    requires Shaped(s) && 0 <= i < 2 && OverWhenDown(s)
    ensures OverWhenDown(Collide(s, i, trig, shipHeight))
  {
  }

  // -------------------------------------------------------------- meteors

  /** The meteor pass: every surviving active meteor lies within the arena
      box, inactive meteors are neither moved nor removed, an active meteor
      that stays inside survives moved by its speed, nothing else appears, and
      this is what erasing the collected positions leaves. */
  lemma MeteorPass(s: GameState)
    ensures var ms := Drifted(s.meteors);
      var r := MoveMeteors(s);
      && r.meteors == Compact(ms, Marked(DespawnMask(ms)))
      && (forall m :: m in r.meteors ==> (m.active ==> !OffArena(m)))
      && (forall k :: 0 <= k < |s.meteors| && !s.meteors[k].active ==> s.meteors[k] in r.meteors)
      && (forall k :: 0 <= k < |s.meteors| && s.meteors[k].active && !OffArena(Drift(s.meteors[k])) ==>
            Drift(s.meteors[k]) in r.meteors)
      && (forall m :: m in r.meteors ==> exists k :: 0 <= k < |s.meteors| && m == Drift(s.meteors[k]))
  {
    var ms := Drifted(s.meteors);
    var mask := DespawnMask(ms);
    assert |ms| == |s.meteors| && forall k :: 0 <= k < |ms| ==> ms[k] == Drift(s.meteors[k]);
    assert |mask| == |ms| && forall k :: 0 <= k < |ms| ==> mask[k] == (ms[k].active && OffArena(ms[k]));
    EraseMarkedKeepsUnmarked(ms, mask);
    KeepMembers(ms, mask);
  }

  /** Every meteor of the array drifts in place: an active one is displaced
      by exactly its speed, an inactive one is untouched, and activity, size
      and speed are kept. */
  lemma DriftedMoves(ms: seq<Meteor>)
    ensures var r := Drifted(ms);
      && |r| == |ms|
      && (forall k :: 0 <= k < |ms| ==>
            r[k].active == ms[k].active && r[k].radius == ms[k].radius && r[k].vx == ms[k].vx && r[k].vy == ms[k].vy)
      && (forall k :: 0 <= k < |ms| && ms[k].active ==> r[k].x == ms[k].x + ms[k].vx && r[k].y == ms[k].y + ms[k].vy)
      && (forall k :: 0 <= k < |ms| && !ms[k].active ==> r[k] == ms[k])
  {
  }

  /** The despawn test flags only active meteors, leaves every active meteor
      inside [-r, 800 + r] x [-r, 450 + r] unflagged, and flags as many as
      there are active meteors outside that box. */
  lemma DespawnMaskCounts(ms: seq<Meteor>)
    ensures var mask := DespawnMask(ms);
      && (forall k :: 0 <= k < |ms| && mask[k] ==> ms[k].active)
      && (forall k :: 0 <= k < |ms| && ms[k].active && !mask[k] ==>
            -ms[k].radius <= ms[k].x <= ScreenWidth + ms[k].radius && -ms[k].radius <= ms[k].y <= ScreenHeight + ms[k].radius)
      && Count(mask) == |set k | 0 <= k < |ms| && ms[k].active && OffArena(ms[k])|
  {
    var mask := DespawnMask(ms);
    CountIsCardinality(mask);
    assert (set k | 0 <= k < |mask| && mask[k]) == (set k | 0 <= k < |ms| && ms[k].active && OffArena(ms[k]));
  }

  /** When no moved meteor is outside the arena, the pass only moves them. */
  lemma MeteorPassAllStay(s: GameState)
    requires forall k :: 0 <= k < |s.meteors| && s.meteors[k].active ==> !OffArena(Drift(s.meteors[k]))
    ensures MoveMeteors(s).meteors == Drifted(s.meteors)
  {
    KeepAll(Drifted(s.meteors), DespawnMask(Drifted(s.meteors)));
  }

  // ------------------------------------------------------------ invariant

  /** InitGame followed by clearing gameOver (main's start-up and the
      restart) establishes the invariant. */
  lemma InitConsistent(s: GameState, ds: seq<MeteorRolls>, shipHeight: real)
    requires 0.0 < shipHeight && InitRollsOk(ds) && |s.boss| == 1
    requires forall m :: m in s.meteors ==> MeteorOk(m)
    requires forall b :: b in s.bullets ==> BulletOk(b)
    ensures Consistent(Init(s, ds, shipHeight).(gameOver := false), shipHeight)
  {
    var r := Init(s, ds, shipHeight).(gameOver := false);
    forall m | m in r.meteors ensures MeteorOk(m) {
      if m !in s.meteors {
        var i :| 0 <= i < |Spawned(ds)| && Spawned(ds)[i] == m;
        assert m == Spawn(ds[i], i == 0);
      }
    }
    assert r.boss == [BossStart(shipHeight)];
  }

  /** The boss stage keeps the invariant. */
  lemma TurnBossesConsistent(s: GameState, rolls: seq<nat>, trig: Trig, shipHeight: real)
    requires 0.0 < shipHeight && Consistent(s, shipHeight) && |rolls| >= |s.boss|
    ensures Consistent(TurnBosses(s, rolls, trig, shipHeight), shipHeight)
  {
    var turned := TurnBosses(s, rolls, trig, shipHeight);
    assert turned.boss == [BossStep(s.boss[0], s.framesCounter % BossTurnPeriod == 0, rolls[0], trig, shipHeight)];
    assert s.boss[0] in s.boss;
    assert BossOk(turned.boss[0], shipHeight);
  }

  /** Steering, firing and player movement keep the invariant. */
  lemma PlayersConsistent(s: GameState, input: Input, rolls: TickRolls, trig: Trig, shipHeight: real)
    requires 0.0 < shipHeight && Consistent(s, shipHeight)
    ensures Consistent(MovePlayers(FireBullets(SteerPlayers(s, input, trig), input, rolls), shipHeight), shipHeight)
  {
    var steered := SteerPlayers(s, input, trig);
    assert Consistent(steered, shipHeight);
    var fired := FireBullets(steered, input, rolls);
    assert Consistent(fired, shipHeight);
  }

  /** The stages before the collision passes keep the invariant. */
  lemma MotionConsistent(s: GameState, input: Input, trig: Trig, rolls: TickRolls, shipHeight: real)
    requires 0.0 < shipHeight && Consistent(s, shipHeight) && |rolls.bossRolls| >= |s.boss|
    ensures Consistent(Motion(s, input, trig, rolls, shipHeight), shipHeight)
  {
    var counted := s.(framesCounter := s.framesCounter + 1);
    TurnBossesConsistent(counted, rolls.bossRolls, trig, shipHeight);
    PlayersConsistent(TurnBosses(counted, rolls.bossRolls, trig, shipHeight), input, rolls, trig, shipHeight);
  }

  /** A collision pass keeps the invariant. */
  lemma CollideConsistent(s: GameState, i: int, trig: Trig, shipHeight: real)
    requires Consistent(s, shipHeight) && 0 <= i < 2
    ensures Consistent(Collide(s, i, trig, shipHeight), shipHeight)
  {
    KeepMembers(s.meteors, HitMask(ColliderOf(s.players[i], trig, shipHeight), s.meteors));
    CollideKeepsOverWhenDown(s, i, trig, shipHeight);
  }

  /** The meteor pass keeps the invariant. */
  lemma MeteorPassConsistent(s: GameState, shipHeight: real)
    requires Consistent(s, shipHeight)
    ensures Consistent(MoveMeteors(s), shipHeight)
  {
    MeteorPass(s);
    var r := MoveMeteors(s);
    forall m | m in r.meteors ensures MeteorOk(m) {
      var k :| 0 <= k < |s.meteors| && m == Drift(s.meteors[k]);
      assert s.meteors[k] in s.meteors;
    }
  }

  /** An unpaused frame keeps the invariant. */
  lemma FrameConsistent(s: GameState, input: Input, trig: Trig, rolls: TickRolls, shipHeight: real)
    requires 0.0 < shipHeight && Consistent(s, shipHeight) && |rolls.bossRolls| >= |s.boss|
    ensures Consistent(Frame(s, input, trig, rolls, shipHeight), shipHeight)
  {
    var moved := Motion(s, input, trig, rolls, shipHeight);
    MotionConsistent(s, input, trig, rolls, shipHeight);
    var first := Collide(moved, 0, trig, shipHeight);
    CollideConsistent(moved, 0, trig, shipHeight);
    var second := Collide(first, 1, trig, shipHeight);
    CollideConsistent(first, 1, trig, shipHeight);
    assert CollidePlayers(moved, 2, trig, shipHeight) == second;
    MeteorPassConsistent(second, shipHeight);
  }

  /** Every UpdateGame call keeps the invariant: ships stay within the wall
      rule's box, throttles within [0, 1.02], meteors inside the arena and
      well formed, bullets well formed, and gameOver holds exactly when a
      player's hp is at or below 0. */
  lemma UpdateKeepsConsistent(s: GameState, input: Input, trig: Trig, rolls: TickRolls, shipHeight: real)
    requires 0.0 < shipHeight && Consistent(s, shipHeight) && |rolls.bossRolls| >= |s.boss|
    requires s.gameOver && input.enterPressed ==> InitRollsOk(rolls.restart)
    ensures Consistent(Update(s, input, trig, rolls, shipHeight), shipHeight)
  {
    if s.gameOver {
      if input.enterPressed {
        InitConsistent(s, rolls.restart, shipHeight);
      }
    } else {
      var toggled := TogglePause(s, input);
      if !toggled.pause {
        FrameConsistent(toggled, input, trig, rolls, shipHeight);
      }
    }
  }
}

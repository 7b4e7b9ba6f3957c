/** The game state as the source keeps it: module-level variables that the event
    handlers and the frame loop update in place. Every method is proved to leave the
    state that the corresponding function of `Rules` computes. */
module Simulation {
  import opened Entities
  import opened Targeting
  import opened Progression
  import opened Rules

  /** The spawn clock, the difficulty and the game clock (script.js:33-40), and the
      spawn callbacks scheduled but not yet run. */
  datatype Pace = Pace(lastZombieSpawn: int, zombieSpawnRate: int, zombieSpeed: real,
                       zombieHealth: int, zombiesPerWave: int, wave: int, gameTime: int,
                       lastWaveIncrease: int, pendingSpawns: nat)

  /** The input state and the two run flags (script.js:42-47). */
  datatype Session = Session(keys: set<string>, mouseClicked: bool, lastShot: int,
                             gameOver: bool, gamePaused: bool)

  class SimulationState {
    var player: Player
    var zombies: seq<nat>
    var spawned: seq<Zombie>
    var xpOrbs: seq<Orb>
    var bullets: seq<Projectile>
    var fireballs: seq<Projectile>
    var lightningStrikes: seq<Strike>
    var pace: Pace
    var session: Session

    /** The whole state as a value. */
    ghost function Snapshot(): World
      reads this
    {
      World(player, zombies, spawned, xpOrbs, bullets, fireballs, lightningStrikes,
            pace.lastZombieSpawn, pace.zombieSpawnRate, pace.zombieSpeed, pace.zombieHealth,
            pace.zombiesPerWave, pace.wave, pace.gameTime, pace.lastWaveIncrease,
            session.keys, session.mouseClicked, session.lastShot,
            session.gameOver, session.gamePaused, pace.pendingSpawns)
    }

    ghost predicate Valid()
      reads this
    {
      Invariant(Snapshot())
    }

    /** The module's initial values, with the player centred by `init`. */
    constructor (width: real, height: real)
      ensures Snapshot() == Initial(width, height) && Valid()
    {
      player := FreshPlayer(width, height);
      zombies, spawned, xpOrbs := [], [], [];
      bullets, fireballs, lightningStrikes := [], [], [];
      pace := Pace(0, 800, 1.2, 40, 15, 1, 0, 0, 0);
      session := Session({}, false, 0, false, false);
    }

    // ------------------------------------------------------------ input

    method HandleKeyDown(key: string)
      requires Valid()
      modifies this
      ensures Snapshot() == KeyDown(old(Snapshot()), key) && Valid()
    {
      if !session.gamePaused {
        session := session.(keys := session.keys + {key});
      }
    }

    method HandleKeyUp(key: string)
      requires Valid()
      modifies this
      ensures Snapshot() == KeyUp(old(Snapshot()), key) && Valid()
    {
      session := session.(keys := session.keys - {key});
    }

    /** A press at wall-clock time `now` (the `Date.now()` that `shoot` reads). */
    method HandleMouseDown(button: int, now: int, sqrt: real -> real)
      requires Valid()
      modifies this
      ensures Snapshot() == MouseDown(old(Snapshot()), button, now, sqrt) && Valid()
    {
      if button == 0 && !session.gamePaused {
        session := session.(mouseClicked := true);
        Shoot(now, sqrt);
      }
    }

    method HandleMouseUp(button: int)
      requires Valid()
      modifies this
      ensures Snapshot() == MouseUp(old(Snapshot()), button) && Valid()
    {
      if button == 0 {
        session := session.(mouseClicked := false);
      }
    }

    /** A click on a power-up card carrying the given `data-power` name. */
    method SelectPowerup(power: string)
      requires Valid()
      modifies this
      ensures Snapshot() == Select(old(Snapshot()), power) && Valid()
    {
      var powers := player.powers;
      if power == "lightning" {
        powers := powers.(lightning := true);
      } else if power == "fire" {
        powers := powers.(fire := true);
      } else if power == "multishot" {
        powers := powers.(multishot := true);
      }
      player := player.(powers := powers);
      session := session.(gamePaused := false);
    }

    /** Run after the game-over alert, on a canvas of the given size. */
    method ResetGame(width: real, height: real)
      requires Valid()
      modifies this
      ensures Snapshot() == Reset(old(Snapshot()), width, height) && Valid()
    {
      ResetEntities(width, height);
      ResetDifficulty();
      session := session.(gameOver := false, gamePaused := false);
    }

    /** The first half of `resetGame`: a fresh player and empty entity arrays. */
    method ResetEntities(width: real, height: real)
      modifies this
      ensures Snapshot() == old(Snapshot()).(player := FreshPlayer(width, height), zombies := [], spawned := [],
        xpOrbs := [], bullets := [], fireballs := [], lightningStrikes := [])
    {
      player := FreshPlayer(width, height);
      zombies := [];
      spawned := [];
      xpOrbs := [];
      bullets := [];
      fireballs := [];
      lightningStrikes := [];
    }

    /** The second half of `resetGame`: the wave clock and the difficulty start over. */
    method ResetDifficulty()
      modifies this
      ensures Snapshot() == old(Snapshot()).(wave := 1, gameTime := 0, lastWaveIncrease := 0,
        zombieSpeed := 1.2, zombieHealth := 40, zombiesPerWave := 15, zombieSpawnRate := 800)
    {
      pace := pace.(wave := 1, gameTime := 0, lastWaveIncrease := 0, zombieSpeed := 1.2,
                    zombieHealth := 40, zombiesPerWave := 15, zombieSpawnRate := 800);
    }

    // ------------------------------------------------------------ progression

    method ShowPowerupCards()
      modifies this
      ensures Snapshot() == old(Snapshot()).(gamePaused := true)
    {
      session := session.(gamePaused := true);
    }

    method CheckLevelUp()
      modifies this
      ensures Snapshot() == LevelCheck(old(Snapshot()))
    {
      if player.xp >= player.nextLevelXp {
        player := player.(level := player.level + 1);
        player := player.(xp := player.xp - player.nextLevelXp);
        player := player.(nextLevelXp := NextThreshold(player.nextLevelXp));
        if player.level % 5 == 0 {
          ShowPowerupCards();
        }
      }
    }

    /** The reward for a kill at (x, y): an orb, a kill, experience, a level check. */
    method AwardKill(x: real, y: real)
      modifies this
      ensures Snapshot() == CreditKill(old(Snapshot()), x, y)
    {
      xpOrbs := xpOrbs + [Orb(x, y, KillXp)];
      player := player.(kills := player.kills + 1);
      player := player.(xp := player.xp + KillXp);
      CheckLevelUp();
    }

    method LightningStrike(x: real, y: real)
      modifies this
      ensures Snapshot() == old(Snapshot()).(lightningStrikes := old(lightningStrikes) + [NewStrike(x, y)])
    {
      lightningStrikes := lightningStrikes + [Strike(x, y, StrikeDamage, StrikeLifetime)];
    }

    // ------------------------------------------------------------ spawning

    /** Schedules one spawn callback per zombie of the burst. */
    method SpawnZombieWave()
      modifies this
      ensures Snapshot() == old(Snapshot()).(pendingSpawns := old(pace.pendingSpawns) + Scheduled(BurstSize(old(pace.wave))))
    {
      var count := BurstSize(pace.wave);
      var i := 0;
      while i < count
        invariant 0 <= i <= Scheduled(count)
        invariant Snapshot() == old(Snapshot()).(pendingSpawns := old(pace.pendingSpawns) + i)
      {
        pace := pace.(pendingSpawns := pace.pendingSpawns + 1);
        i := i + 1;
      }
    }

    /** One scheduled spawn callback running at a random point (x, y) with the random
        draws `r1` and `r2`. */
    method SpawnZombie(x: real, y: real, r1: real, r2: real)
      requires Valid() && 0 < pace.pendingSpawns && 0.0 <= r1 < 1.0 && 0.0 <= r2 < 1.0
      modifies this
      ensures Snapshot() == SpawnOne(old(Snapshot()), x, y, r1, r2) && Valid()
    {
      var zombie := NewZombie(x, y, pace.zombieSpeed, pace.zombieHealth, r1, r2);
      zombies := zombies + [|spawned|];
      spawned := spawned + [zombie];
      pace := pace.(pendingSpawns := pace.pendingSpawns - 1);
    }

    // ------------------------------------------------------------ shooting

    /** `shoot()` at wall-clock time `now`. */
    method Shoot(now: int, sqrt: real -> real)
      requires Valid()
      modifies this
      ensures Snapshot() == Shot(old(Snapshot()), now, sqrt) && Valid()
    {
      if now - session.lastShot < ShootDelay {
        return;
      }
      session := session.(lastShot := now);
      if |zombies| == 0 {
        return;
      }
      FireAtNearest(sqrt);
    }

    /** The three branches of `shoot` once it has a zombie to aim at. */
    method FireAtNearest(sqrt: real -> real)
      requires WellFormed(Snapshot()) && |zombies| > 0
      modifies this
      ensures Snapshot() == Fire(old(Snapshot()), sqrt)
    {
      var k := FindNearest(zombies, spawned, player.x, player.y);
      var closestZombie := zombies[k];
      if player.powers.multishot {
        var targets := Closest(Candidates(zombies, spawned, player.x, player.y), MultishotCount);
        FireVolley(targets, sqrt);
      } else if player.powers.fire {
        fireballs := fireballs + [Aim(closestZombie, spawned[closestZombie], player, 5.0, 25, 1500, false, sqrt)];
      } else {
        var lightning := player.powers.lightning;
        bullets := bullets + [Aim(closestZombie, spawned[closestZombie], player,
                                  if lightning then 8.0 else 7.0, if lightning then 30 else 20, 1200,
                                  lightning, sqrt)];
      }
    }

    /** The multishot loop: one bullet toward each target in turn. */
    method FireVolley(targets: seq<Target>, sqrt: real -> real)
      requires forall j :: 0 <= j < |targets| ==> targets[j].id < |spawned|
      modifies this
      ensures Snapshot() == old(Snapshot()).(bullets := old(bullets) + Volley(targets, old(spawned), old(player), sqrt))
    {
      var j := 0;
      while j < |targets|
        invariant 0 <= j <= |targets|
        invariant Snapshot() == old(Snapshot()).(bullets := old(bullets) + Volley(targets[..j], old(spawned), old(player), sqrt))
      {
        var target := spawned[targets[j].id];
        var dx := target.x - player.x;
        var dy := target.y - player.y;
        var dist := sqrt(SqDist(target.x, target.y, player.x, player.y));
        bullets := bullets + [Projectile(player.x, player.y, Quot(dx, dist), Quot(dy, dist), 6.0, 12, 1200,
                                         Some(targets[j].id), false)];
        assert Volley(targets[..j + 1], spawned, player, sqrt)
            == Volley(targets[..j], spawned, player, sqrt) + [Aim(targets[j].id, target, player, 6.0, 12, 1200, false, sqrt)];
        j := j + 1;
      }
      assert targets[..|targets|] == targets;
    }

    // ------------------------------------------------------------ zombies

    /** Zombie `k` of the live array chases the player. */
    method ChaseZombie(k: nat, sqrt: real -> real)
      requires WellFormed(Snapshot()) && k < |zombies|
      modifies this
      ensures Snapshot() == ChaseStep(old(Snapshot()), k, sqrt)
    {
      var id := zombies[k];
      var zombie := spawned[id];
      var dx := player.x - zombie.x;
      var dy := player.y - zombie.y;
      var distance := sqrt(SqDist(player.x, player.y, zombie.x, zombie.y));
      zombie := Pursue(zombie, dx, dy, distance);
      if distance < PlayerSize / 2.0 + ZombieSize / 2.0 {
        player := player.(health := player.health - ContactDamage);
        zombie := Recoil(zombie, dx, dy, distance);
        if player.health <= 0.0 {
          session := session.(gameOver := true);
        }
      }
      spawned := spawned[id := zombie];
    }

    method UpdateZombies(sqrt: real -> real)
      requires WellFormed(Snapshot())
      modifies this
      ensures Snapshot() == ChaseFrom(old(Snapshot()), 0, sqrt)
    {
      ghost var w0 := Snapshot();
      var k := 0;
      while k < |zombies|
        invariant WellFormed(Snapshot()) && ChaseFrom(Snapshot(), k, sqrt) == ChaseFrom(w0, 0, sqrt)
        decreases |zombies| - k
      {
        ChaseZombie(k, sqrt);
        k := k + 1;
      }
    }

    // ------------------------------------------------------------ projectiles

    method StepBullet(i: nat, sqrt: real -> real)
      requires WellFormed(Snapshot()) && i < |bullets|
      modifies this
      ensures Snapshot() == BulletStep(old(Snapshot()), i, sqrt)
    {
      var bullet := bullets[i];
      if bullet.target.Some? && bullet.target.value in zombies {
        bullet := TurnToward(bullet, spawned[bullet.target.value], sqrt);
      } else if |zombies| > 0 {
        var k := FindNearest(zombies, spawned, bullet.x, bullet.y);
        bullet := bullet.(target := Some(zombies[k]));
      }
      bullet := Advance(bullet);
      if bullet.target.Some? && Touches(bullet, spawned[bullet.target.value], BulletSize, sqrt) {
        HitWithBullet(i, bullet);
      } else {
        bullets := bullets[i := bullet];
      }
    }

    /** Bullet `i`, moved to `bullet`, damages its target, fires a strike if it is a
        lightning bullet, credits a kill, and is spent. */
    method HitWithBullet(i: nat, bullet: Projectile)
      requires WellFormed(Snapshot()) && i < |bullets| && bullet.target.Some? && bullet.target.value < |spawned|
      modifies this
      ensures Snapshot() == BulletHit(old(Snapshot()), i, bullet)
    {
      var id := bullet.target.value;
      var target := spawned[id];
      spawned := spawned[id := target.(health := target.health - bullet.damage as real)];
      bullets := bullets[i := bullet.(lifetime := 0)];
      if bullet.isLightning {
        LightningStrike(target.x, target.y);
      }
      if spawned[id].health <= 0.0 {
        AwardKill(target.x, target.y);
      }
    }

    method StepFireball(i: nat, sqrt: real -> real)
      requires WellFormed(Snapshot()) && i < |fireballs|
      modifies this
      ensures Snapshot() == FireballStep(old(Snapshot()), i, sqrt)
    {
      var fireball := fireballs[i];
      if fireball.target.Some? && fireball.target.value in zombies {
        fireball := TurnToward(fireball, spawned[fireball.target.value], sqrt);
      } else if |zombies| > 0 {
        var k := FindNearest(zombies, spawned, fireball.x, fireball.y);
        fireball := fireball.(target := Some(zombies[k]));
      }
      fireball := Advance(fireball);
      if fireball.target.Some? && Touches(fireball, spawned[fireball.target.value], FireballSize, sqrt) {
        HitWithFireball(i, fireball);
      } else {
        fireballs := fireballs[i := fireball];
      }
    }

    /** Fireball `i`, moved to `fireball`, damages and ignites its target, credits a
        kill, and is spent. */
    method HitWithFireball(i: nat, fireball: Projectile)
      requires WellFormed(Snapshot()) && i < |fireballs| && fireball.target.Some? && fireball.target.value < |spawned|
      modifies this
      ensures Snapshot() == FireballHit(old(Snapshot()), i, fireball)
    {
      var id := fireball.target.value;
      var target := spawned[id];
      spawned := spawned[id := target.(health := target.health - fireball.damage as real,
                                       burning := true, burnTime := BurnDuration)];
      fireballs := fireballs[i := fireball.(lifetime := 0)];
      if spawned[id].health <= 0.0 {
        AwardKill(target.x, target.y);
      }
    }

    /** Zombie `k` of the live array takes its burn damage. */
    method Burn(k: nat)
      requires WellFormed(Snapshot()) && k < |zombies|
      modifies this
      ensures Snapshot() == BurnStep(old(Snapshot()), k)
    {
      var id := zombies[k];
      var zombie := spawned[id];
      if zombie.burning {
        zombie := zombie.(burnTime := zombie.burnTime - TickMs);
        zombie := zombie.(health := zombie.health - BurnDamage);
        if zombie.burnTime <= 0 {
          zombie := zombie.(burning := false);
        }
        spawned := spawned[id := zombie];
        if zombie.health <= 0.0 {
          AwardKill(zombie.x, zombie.y);
        }
      }
    }

    /** Strike `i` ages and, once due, damages the closest zombies in its radius. */
    method StepStrike(i: nat, sqrt: real -> real)
      requires WellFormed(Snapshot()) && i < |lightningStrikes|
      modifies this
      ensures Snapshot() == StrikeStep(old(Snapshot()), i, sqrt)
    {
      var lightning := lightningStrikes[i];
      lightning := lightning.(lifetime := lightning.lifetime - TickMs);
      lightningStrikes := lightningStrikes[i := lightning];
      if lightning.lifetime <= 0 {
        var inRange := ScanRadius(lightning.x, lightning.y, sqrt);
        var targets := Closest(inRange, StrikeCap);
        Discharge(lightning, targets);
      }
    }

    /** The zombies strictly within the lightning radius of (x, y), with their
        distances, collected in live-array order. */
    method ScanRadius(x: real, y: real, sqrt: real -> real) returns (targets: seq<Target>)
      requires IdsKnown(zombies, spawned)
      ensures targets == InRange(zombies, spawned, x, y, sqrt)
    {
      targets := [];
      var k := 0;
      while k < |zombies|
        invariant 0 <= k <= |zombies|
        invariant targets == InRange(zombies[..k], spawned, x, y, sqrt)
      {
        var zombie := spawned[zombies[k]];
        var distance := sqrt(SqDist(zombie.x, zombie.y, x, y));
        assert zombies[..k + 1][..k] == zombies[..k];
        if distance < LightningRadius {
          targets := targets + [Target(zombies[k], distance)];
        }
        k := k + 1;
      }
      assert zombies[..|zombies|] == zombies;
    }

    /** The damage loop of a discharging strike over its chosen targets. */
    method Discharge(lightning: Strike, targets: seq<Target>)
      requires WellFormed(Snapshot()) && forall j :: 0 <= j < |targets| ==> targets[j].id < |spawned|
      modifies this
      ensures Snapshot() == ApplyStrike(old(Snapshot()), lightning, targets, |targets|)
    {
      ghost var w0 := Snapshot();
      var j := 0;
      while j < |targets|
        invariant 0 <= j <= |targets|
        invariant Snapshot() == ApplyStrike(w0, lightning, targets, j)
      {
        var target := targets[j];
        var zombie := spawned[target.id];
        var damage := Falloff(lightning.damage, target.distance);
        spawned := spawned[target.id := zombie.(health := zombie.health - damage)];
        if spawned[target.id].health <= 0.0 {
          AwardKill(zombie.x, zombie.y);
        }
        j := j + 1;
      }
    }

    method UpdateProjectiles(sqrt: real -> real)
      requires WellFormed(Snapshot())
      modifies this
      ensures Snapshot() == Projectiles(old(Snapshot()), sqrt)
    {
      UpdateBullets(sqrt);
      UpdateFireballs(sqrt);
      UpdateBurning();
      UpdateLightning(sqrt);
    }

    /** The bullet loop of `updateProjectiles` and its filter. */
    method UpdateBullets(sqrt: real -> real)
      requires WellFormed(Snapshot())
      modifies this
      ensures Snapshot() == BulletPhase(old(Snapshot()), sqrt)
    {
      ghost var w0 := Snapshot();
      var i := 0;
      while i < |bullets|
        invariant WellFormed(Snapshot()) && BulletsFrom(Snapshot(), i, sqrt) == BulletsFrom(w0, 0, sqrt)
        decreases |bullets| - i
      {
        StepBullet(i, sqrt);
        i := i + 1;
      }
      bullets := Surviving(bullets);
    }

    /** The fireball loop of `updateProjectiles` and its filter. */
    method UpdateFireballs(sqrt: real -> real)
      requires WellFormed(Snapshot())
      modifies this
      ensures Snapshot() == FireballPhase(old(Snapshot()), sqrt)
    {
      ghost var w0 := Snapshot();
      var i := 0;
      while i < |fireballs|
        invariant WellFormed(Snapshot()) && FireballsFrom(Snapshot(), i, sqrt) == FireballsFrom(w0, 0, sqrt)
        decreases |fireballs| - i
      {
        StepFireball(i, sqrt);
        i := i + 1;
      }
      fireballs := Surviving(fireballs);
    }

    /** The burn loop of `updateProjectiles`, over the live array. */
    method UpdateBurning()
      requires WellFormed(Snapshot())
      modifies this
      ensures Snapshot() == BurnFrom(old(Snapshot()), 0)
    {
      ghost var w0 := Snapshot();
      var k := 0;
      while k < |zombies|
        invariant WellFormed(Snapshot()) && BurnFrom(Snapshot(), k) == BurnFrom(w0, 0)
        decreases |zombies| - k
      {
        Burn(k);
        k := k + 1;
      }
    }

    /** The lightning loop of `updateProjectiles` and its filter. */
    method UpdateLightning(sqrt: real -> real)
      requires WellFormed(Snapshot())
      modifies this
      ensures Snapshot() == StrikePhase(old(Snapshot()), sqrt)
    {
      ghost var w0 := Snapshot();
      var i := 0;
      while i < |lightningStrikes|
        invariant WellFormed(Snapshot()) && StrikesFrom(Snapshot(), i, sqrt) == StrikesFrom(w0, 0, sqrt)
        decreases |lightningStrikes| - i
      {
        StepStrike(i, sqrt);
        i := i + 1;
      }
      lightningStrikes := SurvivingStrikes(lightningStrikes);
    }

    // ------------------------------------------------------------ experience orbs

    /** The orb loop of `updateXpOrbs`, which moves on after a pick-up. */
    method UpdateXpOrbs(sqrt: real -> real)
      modifies this
      ensures Snapshot() == CollectFrom(old(Snapshot()), 0, sqrt)
    {
      ghost var w0 := Snapshot();
      var index := 0;
      while index < |xpOrbs|
        invariant CollectFrom(Snapshot(), index, sqrt) == CollectFrom(w0, 0, sqrt)
        decreases |xpOrbs| - index
      {
        UpdateXpOrb(index, sqrt);
        index := index + 1;
      }
    }

    /** The orb at `index` drifts toward the player or is picked up. */
    method UpdateXpOrb(index: nat, sqrt: real -> real)
      requires index < |xpOrbs|
      modifies this
      ensures Snapshot() == OrbStep(old(Snapshot()), index, sqrt)
    {
      var orb := xpOrbs[index];
      var dx := player.x - orb.x;
      var dy := player.y - orb.y;
      var distance := sqrt(SqDist(player.x, player.y, orb.x, orb.y));
      if distance < OrbAttractRadius {
        orb := Attract(orb, dx, dy, distance);
      }
      if distance < PlayerSize / 2.0 + XpOrbSize / 2.0 {
        player := player.(xp := player.xp + orb.value);
        xpOrbs := xpOrbs[..index] + xpOrbs[index + 1..];
        CheckLevelUp();
      } else {
        xpOrbs := xpOrbs[index := orb];
      }
    }

    // ------------------------------------------------------------ the frame

    /** `update(timestamp)`: one simulation tick. */
    method Update(timestamp: int, sqrt: real -> real)
      requires WellFormed(Snapshot())
      modifies this
      ensures Snapshot() == Tick(old(Snapshot()), timestamp, sqrt)
    {
      MoveFromKeys(sqrt);
      CheckSpawn(timestamp);
      UpdateZombies(sqrt);
      zombies := LiveIds(zombies, spawned);
      UpdateProjectiles(sqrt);
      UpdateXpOrbs(sqrt);
      AdvanceTime();
    }

    /** The player moves along the normalised direction of the pressed keys. */
    method MoveFromKeys(sqrt: real -> real)
      modifies this
      ensures Snapshot() == MovePlayer(old(Snapshot()), sqrt)
    {
      var moveX := Axis(session.keys, "d", "arrowright", "a", "arrowleft") as real;
      var moveY := Axis(session.keys, "s", "arrowdown", "w", "arrowup") as real;
      var moveLength := sqrt(moveX * moveX + moveY * moveY);
      player := Walk(player, Normalize(moveX, moveLength), Normalize(moveY, moveLength));
    }

    /** A burst is scheduled once the spawn interval has passed and the cap allows it. */
    method CheckSpawn(timestamp: int)
      modifies this
      ensures Snapshot() == SpawnGate(old(Snapshot()), timestamp)
    {
      if timestamp - pace.lastZombieSpawn > pace.zombieSpawnRate && |zombies| < pace.zombiesPerWave * 3 {
        SpawnZombieWave();
        pace := pace.(lastZombieSpawn := timestamp);
      }
    }

    /** Game time advances unless paused, and the difficulty escalates every two minutes. */
    method AdvanceTime()
      modifies this
      ensures Snapshot() == AdvanceClock(old(Snapshot()))
    {
      if !session.gamePaused {
        var gameTime := pace.gameTime + TickMs;
        if gameTime - pace.lastWaveIncrease > WaveInterval {
          var wave := pace.wave + 1;
          pace := pace.(gameTime := gameTime, wave := wave, lastWaveIncrease := gameTime,
                        zombiesPerWave := pace.zombiesPerWave + CapGrowth(wave),
                        zombieSpeed := pace.zombieSpeed + 0.15,
                        zombieHealth := pace.zombieHealth + 8,
                        zombieSpawnRate := NextSpawnRate(pace.zombieSpawnRate));
        } else {
          pace := pace.(gameTime := gameTime);
        }
      }
    }

    /** One animation frame at `timestamp`. */
    method GameLoop(timestamp: int, sqrt: real -> real)
      requires Valid()
      modifies this
      ensures Snapshot() == Frame(old(Snapshot()), timestamp, sqrt) && Valid()
    {
      if session.gameOver {
        return;
      }
      if !session.gamePaused {
        Update(timestamp, sqrt);
      }
    }
  }
}

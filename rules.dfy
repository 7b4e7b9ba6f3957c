/** The simulation as values: `World` holds the module-level state of script.js and
    each function here is one step of the game loop, in the order and with the
    branches of the source (with exact reals, and 0 where the source divides by a zero
    distance). The methods of `SimulationState` are proved to change their state as these
    functions say; the properties of the game are lemmas about them. */
module Rules {
  import opened Entities
  import opened Targeting
  import opened Progression

  /** All of the module-level state the simulation reads or writes. Zombies are
      records in `spawned`, indexed by id; `zombies` is the live array of ids. A
      projectile's target is an id, so a zombie removed from `zombies` can still be
      the (stale) target of a projectile, as an object reference can in the source.
      `pendingSpawns` counts the staggered spawn callbacks not yet run. */
  datatype World = World(
    player: Player,
    zombies: seq<nat>,
    spawned: seq<Zombie>,
    xpOrbs: seq<Orb>,
    bullets: seq<Projectile>,
    fireballs: seq<Projectile>,
    lightningStrikes: seq<Strike>,
    lastZombieSpawn: int,
    zombieSpawnRate: int,
    zombieSpeed: real,
    zombieHealth: int,
    zombiesPerWave: int,
    wave: int,
    gameTime: int,
    lastWaveIncrease: int,
    keys: set<string>,
    mouseClicked: bool,
    lastShot: int,
    gameOver: bool,
    gamePaused: bool,
    pendingSpawns: nat)

  predicate TargetKnown(p: Projectile, n: nat)
  {
    p.target.Some? ==> p.target.value < n
  }

  ghost predicate TargetsKnown(ps: seq<Projectile>, n: nat)
  {
    forall i :: 0 <= i < |ps| ==> TargetKnown(ps[i], n)
  }

  /** Every id the state mentions names a zombie record. */
  ghost predicate WellFormed(w: World)
  {
    && IdsKnown(w.zombies, w.spawned)
    && TargetsKnown(w.bullets, |w.spawned|)
    && TargetsKnown(w.fireballs, |w.spawned|)
  }

  /** Every orb is worth what a kill drops. */
  ghost predicate OrbsOk(orbs: seq<Orb>)
  {
    forall i :: 0 <= i < |orbs| ==> orbs[i].value == KillXp
  }

  /** What every reachable state satisfies. */
  ghost predicate Invariant(w: World)
  {
    && WellFormed(w)
    && ProgressOk(w.player)
    && OrbsOk(w.xpOrbs)
    && 1 <= w.wave
    && 100 <= w.zombieSpawnRate
  }

  /** The clock, the difficulty, the timers and the input are as they were. */
  ghost predicate SameClock(w: World, r: World)
  {
    && r.lastZombieSpawn == w.lastZombieSpawn && r.zombieSpawnRate == w.zombieSpawnRate
    && r.zombieSpeed == w.zombieSpeed && r.zombieHealth == w.zombieHealth
    && r.zombiesPerWave == w.zombiesPerWave && r.wave == w.wave
    && r.gameTime == w.gameTime && r.lastWaveIncrease == w.lastWaveIncrease
    && r.keys == w.keys && r.mouseClicked == w.mouseClicked && r.lastShot == w.lastShot
    && r.gameOver == w.gameOver && r.pendingSpawns == w.pendingSpawns
  }

  /** Only the progression part of the state (player, orbs, pause flag) differs. */
  ghost predicate OnlyProgress(w: World, r: World)
  {
    r == w.(player := r.player, xpOrbs := r.xpOrbs, gamePaused := r.gamePaused)
  }

  // ---------------------------------------------------------------- start and reset

  function FreshPlayer(width: real, height: real): Player
  {
    Player(width / 2.0, height / 2.0, 3.5, 100.0, 100.0, 1, 0, 100, 0, Powers(false, false, false))
  }

  /** The state after the module is loaded and `init` has centred the player on a
      canvas of the given size (script.js:11-47, 57-58). */
  function Initial(width: real, height: real): World
  {
    World(FreshPlayer(width, height), [], [], [], [], [], [], 0, 800, 1.2, 40, 15, 1, 0, 0,
          {}, false, 0, false, false, 0)
  }

  /** `resetGame` (script.js:758-789): the spawn and shot timers, the key and mouse
      state and the spawn callbacks already scheduled are not touched. */
  function Reset(w: World, width: real, height: real): (r: World)
    ensures Invariant(r)
  {
    w.(player := FreshPlayer(width, height),
       zombies := [], spawned := [], xpOrbs := [], bullets := [], fireballs := [], lightningStrikes := [],
       wave := 1, gameTime := 0, lastWaveIncrease := 0,
       zombieSpeed := 1.2, zombieHealth := 40, zombiesPerWave := 15, zombieSpawnRate := 800,
       gameOver := false, gamePaused := false)
  }

  // ---------------------------------------------------------------- progression

  /** `checkLevelUp` with `showPowerupCards` (script.js:516-530). */
  function LevelCheck(w: World): World
  {
    w.(player := LevelUp(w.player), gamePaused := if PausesOnLevelUp(w.player) then true else w.gamePaused)
  }

  /** The reward block run for every kill: `spawnXpOrb(x, y, 15)`, `kills++`,
      `xp += 15`, `checkLevelUp()` (script.js:272-277 and three copies). */
  function CreditKill(w: World, x: real, y: real): (r: World)
    ensures OnlyProgress(w, r)
    ensures Invariant(w) ==> Invariant(r)
  {
    var p := w.player.(kills := w.player.kills + 1, xp := w.player.xp + KillXp);
    var r := LevelCheck(w.(xpOrbs := w.xpOrbs + [Orb(x, y, KillXp)], player := p));
    LevelUpKeepsProgressOk(p);
    assert OrbsOk(w.xpOrbs) ==> OrbsOk(r.xpOrbs);
    r
  }

  /** `selectPowerup` (script.js:535-551): it is not guarded by the pause flag. */
  function Select(w: World, power: string): World
  {
    w.(player := w.player.(powers := SelectPower(w.player.powers, power)), gamePaused := false)
  }

  // ---------------------------------------------------------------- input

  /** `handleKeyDown` (script.js:82-84): ignored while paused. Key names arrive lower-cased. */
  function KeyDown(w: World, key: string): World
  {
    if !w.gamePaused then w.(keys := w.keys + {key}) else w
  }

  /** `handleKeyUp` (script.js:86-88). */
  function KeyUp(w: World, key: string): World
  {
    w.(keys := w.keys - {key})
  }

  /** `handleMouseUp` (script.js:104-106). */
  function MouseUp(w: World, button: int): World
  {
    if button == 0 then w.(mouseClicked := false) else w
  }

  /** -1, 0 or 1 along one axis from the pressed keys (script.js:125-126). */
  function Axis(keys: set<string>, plus1: string, plus2: string, minus1: string, minus2: string): int
  {
    (if plus1 in keys || plus2 in keys then 1 else 0) - (if minus1 in keys || minus2 in keys then 1 else 0)
  }

  /** One component of the movement direction scaled to unit length. */
  function Normalize(m: real, moveLength: real): real
  {
    if moveLength > 0.0 then m / moveLength else 0.0
  }

  /** The player moved by `speed` along the unit direction. */
  function Walk(p: Player, normalizedX: real, normalizedY: real): Player
  {
    p.(x := p.x + normalizedX * p.speed, y := p.y + normalizedY * p.speed)
  }

  /** Player movement with a normalised direction (script.js:125-133). */
  function MovePlayer(w: World, sqrt: real -> real): (r: World)
    ensures r == w.(player := r.player) && r.player == w.player.(x := r.player.x, y := r.player.y)
    ensures Invariant(w) ==> Invariant(r)
  {
    var moveX := Axis(w.keys, "d", "arrowright", "a", "arrowleft") as real;
    var moveY := Axis(w.keys, "s", "arrowdown", "w", "arrowup") as real;
    var moveLength := sqrt(moveX * moveX + moveY * moveY);
    w.(player := Walk(w.player, Normalize(moveX, moveLength), Normalize(moveY, moveLength)))
  }

  // ---------------------------------------------------------------- spawning

  /** How many callbacks a `for` loop up to `count` schedules. */
  function Scheduled(count: int): nat
  {
    if count > 0 then count else 0
  }

  /** The spawn gate of `update` (script.js:140-143): `spawnZombieWave` schedules one
      callback per zombie of the burst. It compares the raw frame timestamp. */
  function SpawnGate(w: World, timestamp: int): (r: World)
    ensures Invariant(w) ==> Invariant(r)
  {
    if timestamp - w.lastZombieSpawn > w.zombieSpawnRate && |w.zombies| < w.zombiesPerWave * 3 then
      w.(pendingSpawns := w.pendingSpawns + Scheduled(BurstSize(w.wave)), lastZombieSpawn := timestamp)
    else w
  }

  /** The zombie the spawn callback pushes (script.js:209-218); `r1` and `r2` are the
      two `Math.random()` draws for speed and health. */
  function NewZombie(x: real, y: real, speed: real, health: int, r1: real, r2: real): (z: Zombie)
    requires 0.0 <= r1 < 1.0 && 0.0 <= r2 < 1.0
    ensures z.x == x && z.y == y && !z.burning && z.burnTime == 0 && z.maxHealth == health as real
    ensures 0.0 <= speed ==> 0.9 * speed <= z.speed <= 1.2 * speed
    ensures 0 <= health ==> 0.8 * health as real <= z.health <= 1.3 * health as real
  {
    ScaleBounds(speed, 0.9, 0.3, r1);
    ScaleBounds(health as real, 0.8, 0.5, r2);
    Zombie(x, y, speed * (0.9 + r1 * 0.3), health as real * (0.8 + r2 * 0.5), health as real, false, 0)
  }

  /** `a * (lo + r * span)` for a random `r` in [0, 1) lies between `lo * a` and `(lo + span) * a`. */
  lemma ScaleBounds(a: real, lo: real, span: real, r: real)
    requires 0.0 <= r < 1.0 && 0.0 <= span
    ensures 0.0 <= a ==> lo * a <= a * (lo + r * span) <= (lo + span) * a
  {
    if 0.0 <= a {
      assert a * (lo + r * span) == lo * a + (a * r) * span;
      assert 0.0 <= a * r <= a;
      assert 0.0 <= (a * r) * span <= a * span;
    }
  }

  /** One staggered spawn callback running: it uses the difficulty values current when
      it runs, and runs whether or not the game is paused. */
  function SpawnOne(w: World, x: real, y: real, r1: real, r2: real): (r: World)
    requires 0.0 <= r1 < 1.0 && 0.0 <= r2 < 1.0 && 0 < w.pendingSpawns
  {
    w.(spawned := w.spawned + [NewZombie(x, y, w.zombieSpeed, w.zombieHealth, r1, r2)],
       zombies := w.zombies + [|w.spawned|],
       pendingSpawns := w.pendingSpawns - 1)
  }

  // ---------------------------------------------------------------- zombies chase the player

  /** A zombie at `distance` from the player, offset (dx, dy), steps toward it. */
  function Pursue(z: Zombie, dx: real, dy: real, distance: real): Zombie
  {
    if distance > 0.0 then z.(x := z.x + (dx / distance) * z.speed, y := z.y + (dy / distance) * z.speed) else z
  }

  /** A zombie touching the player is pushed back away from it. */
  function Recoil(z: Zombie, dx: real, dy: real, distance: real): Zombie
  {
    z.(x := z.x - Quot(dx, distance) * KnockBack, y := z.y - Quot(dy, distance) * KnockBack)
  }

  /** Whether zombie `k` of the live array touches the player when its turn comes. */
  predicate Contact(w: World, k: nat, sqrt: real -> real)
    requires WellFormed(w) && k < |w.zombies|
  {
    var zombie := w.spawned[w.zombies[k]];
    sqrt(SqDist(w.player.x, w.player.y, zombie.x, zombie.y)) < PlayerSize / 2.0 + ZombieSize / 2.0
  }

  /** One zombie of the chase loop (script.js:146-171): move toward the player, and on
      contact hurt the player and get knocked back. A contact costs 0.8 health, and
      the game is over once a contact leaves the health at 0 or below. */
  function ChaseStep(w: World, k: nat, sqrt: real -> real): (r: World)
    requires WellFormed(w) && k < |w.zombies|
    ensures r == w.(spawned := r.spawned, player := r.player, gameOver := r.gameOver)
    ensures |r.spawned| == |w.spawned| && r.player == w.player.(health := r.player.health)
    ensures r.player.health == w.player.health - (if Contact(w, k, sqrt) then ContactDamage else 0.0)
    ensures r.gameOver == (w.gameOver || (Contact(w, k, sqrt) && r.player.health <= 0.0))
    ensures WellFormed(r)
  {
    var id := w.zombies[k];
    var zombie := w.spawned[id];
    var dx := w.player.x - zombie.x;
    var dy := w.player.y - zombie.y;
    var distance := sqrt(SqDist(w.player.x, w.player.y, zombie.x, zombie.y));
    var moved := Pursue(zombie, dx, dy, distance);
    if distance < PlayerSize / 2.0 + ZombieSize / 2.0 then
      var health := w.player.health - ContactDamage;
      w.(spawned := w.spawned[id := Recoil(moved, dx, dy, distance)], player := w.player.(health := health),
         gameOver := if health <= 0.0 then true else w.gameOver)
    else
      w.(spawned := w.spawned[id := moved])
  }

  /** How many zombies touch the player in the chase loop from index `k` on. */
  ghost function ContactsFrom(w: World, k: nat, sqrt: real -> real): nat
    requires WellFormed(w)
    decreases |w.zombies| - k
  {
    if k >= |w.zombies| then 0
    else (if Contact(w, k, sqrt) then 1 else 0) + ContactsFrom(ChaseStep(w, k, sqrt), k + 1, sqrt)
  }

  /** The chase loop over the live array from index `k` on: the player loses 0.8
      health per contact, and the game is over afterwards exactly when it was before
      or some contact happened and the health ended at 0 or below. */
  function ChaseFrom(w: World, k: nat, sqrt: real -> real): (r: World)
    requires WellFormed(w)
    ensures r == w.(spawned := r.spawned, player := r.player, gameOver := r.gameOver)
    ensures |r.spawned| == |w.spawned| && r.player == w.player.(health := r.player.health)
    ensures r.player.health == w.player.health - ContactsFrom(w, k, sqrt) as real * ContactDamage
    ensures r.gameOver == (w.gameOver || (ContactsFrom(w, k, sqrt) > 0 && r.player.health <= 0.0))
    ensures WellFormed(r)
    ensures Invariant(w) ==> Invariant(r)
    decreases |w.zombies| - k
  {
    if k >= |w.zombies| then w else ChaseFrom(ChaseStep(w, k, sqrt), k + 1, sqrt)
  }

  /** `zombies.filter(z => z.health > 0)`, in the order of the live array. */
  function LiveIds(ids: seq<nat>, spawned: seq<Zombie>): (r: seq<nat>)
    requires IdsKnown(ids, spawned)
    ensures IdsKnown(r, spawned) && |r| <= |ids|
    ensures forall i :: 0 <= i < |r| ==> r[i] in ids && spawned[r[i]].health > 0.0
    ensures forall i :: 0 <= i < |ids| && spawned[ids[i]].health > 0.0 ==> ids[i] in r
  {
    Filter(ids, (id: nat) => id < |spawned| && spawned[id].health > 0.0)
  }

  /** The purge of dead zombies from the live array (script.js:174). */
  function Purge(w: World): (r: World)
    requires WellFormed(w)
    ensures WellFormed(r) && r == w.(zombies := r.zombies)
    ensures Invariant(w) ==> Invariant(r)
  {
    w.(zombies := LiveIds(w.zombies, w.spawned))
  }

  // ---------------------------------------------------------------- projectiles

  /** A projectile turned to point straight at zombie `t` (unless it is already on it). */
  function TurnToward(b: Projectile, t: Zombie, sqrt: real -> real): (r: Projectile)
    ensures r == b.(dx := r.dx, dy := r.dy)
  {
    var dx := t.x - b.x;
    var dy := t.y - b.y;
    var dist := sqrt(SqDist(t.x, t.y, b.x, b.y));
    if dist > 0.0 then b.(dx := dx / dist, dy := dy / dist) else b
  }

  /** The homing rule (script.js:226-253): keep a target that is still in the live
      array and turn toward it; otherwise, if there are zombies, take the nearest one
      without turning this tick; with no zombies keep the (possibly stale) target. */
  function Steer(b: Projectile, live: seq<nat>, spawned: seq<Zombie>, sqrt: real -> real): (r: Projectile)
    requires IdsKnown(live, spawned) && TargetKnown(b, |spawned|)
    ensures TargetKnown(r, |spawned|)
    ensures r == b.(dx := r.dx, dy := r.dy, target := r.target)
    ensures b.target.Some? && b.target.value in live ==> r.target == b.target
    ensures !(b.target.Some? && b.target.value in live) && |live| > 0 ==>
      r.target.Some? && r.target.value in live && r.dx == b.dx && r.dy == b.dy
      && forall j :: 0 <= j < |live| ==>
           SqDist(spawned[r.target.value].x, spawned[r.target.value].y, b.x, b.y)
           <= SqDist(spawned[live[j]].x, spawned[live[j]].y, b.x, b.y)
    ensures !(b.target.Some? && b.target.value in live) && |live| == 0 ==> r == b
  {
    if b.target.Some? && b.target.value in live then TurnToward(b, spawned[b.target.value], sqrt)
    else if |live| > 0 then
      b.(target := Some(Nearest(live, spawned, b.x, b.y)))
    else b
  }

  /** Move along the direction and age by one tick (script.js:255-257, 315-317). */
  function Advance(b: Projectile): Projectile
  {
    b.(x := b.x + b.dx * b.speed, y := b.y + b.dy * b.speed, lifetime := b.lifetime - TickMs)
  }

  /** Whether a projectile of the given size overlaps a zombie. */
  predicate Touches(b: Projectile, z: Zombie, size: real, sqrt: real -> real)
  {
    sqrt(SqDist(z.x, z.y, b.x, b.y)) < ZombieSize / 2.0 + size / 2.0
  }

  function NewStrike(x: real, y: real): Strike
  {
    Strike(x, y, StrikeDamage, StrikeLifetime)
  }

  /** After its pass a projectile has 16 ms less lifetime, or 0 if it hit. */
  predicate AgedOrSpent(before: Projectile, after: Projectile)
  {
    after.lifetime == before.lifetime - TickMs || after.lifetime == 0
  }

  /** One bullet of `updateProjectiles` (script.js:225-281). The hit is checked against
      the target, alive, dead or stale; the bullet is spent by setting its lifetime
      to 0. */
  function BulletStep(w: World, i: nat, sqrt: real -> real): (r: World)
    requires WellFormed(w) && i < |w.bullets|
    ensures WellFormed(r)
    ensures r.zombies == w.zombies && |r.spawned| == |w.spawned| && |r.bullets| == |w.bullets|
    ensures r.fireballs == w.fireballs && |w.lightningStrikes| <= |r.lightningStrikes|
    ensures SameClock(w, r)
    ensures Invariant(w) ==> Invariant(r)
    ensures r.bullets == w.bullets[i := r.bullets[i]] && AgedOrSpent(w.bullets[i], r.bullets[i])
  {
    var b := Advance(Steer(w.bullets[i], w.zombies, w.spawned, sqrt));
    if b.target.Some? && Touches(b, w.spawned[b.target.value], BulletSize, sqrt) then BulletHit(w, i, b)
    else w.(bullets := w.bullets[i := b])
  }

  /** Bullet `i`, moved to `b`, hits its target (script.js:266-280). */
  function BulletHit(w: World, i: nat, b: Projectile): (r: World)
    requires WellFormed(w) && i < |w.bullets| && b.target.Some? && b.target.value < |w.spawned|
    ensures WellFormed(r)
    ensures r.zombies == w.zombies && |r.spawned| == |w.spawned| && r.bullets == w.bullets[i := b.(lifetime := 0)]
    ensures r.fireballs == w.fireballs && |w.lightningStrikes| <= |r.lightningStrikes|
    ensures SameClock(w, r)
    ensures Invariant(w) ==> Invariant(r)
  {
    var id := b.target.value;
    var t := w.spawned[id];
    var hit := t.(health := t.health - b.damage as real);
    var w1 := w.(spawned := w.spawned[id := hit], bullets := w.bullets[i := b.(lifetime := 0)]);
    var w2 := if b.isLightning then w1.(lightningStrikes := w1.lightningStrikes + [NewStrike(t.x, t.y)]) else w1;
    if hit.health <= 0.0 then CreditKill(w2, t.x, t.y) else w2
  }

  /** The bullet loop from index `i` on. */
  function BulletsFrom(w: World, i: nat, sqrt: real -> real): (r: World)
    requires WellFormed(w)
    ensures WellFormed(r)
    ensures r.zombies == w.zombies && |r.spawned| == |w.spawned| && |r.bullets| == |w.bullets|
    ensures r.fireballs == w.fireballs && |w.lightningStrikes| <= |r.lightningStrikes|
    ensures SameClock(w, r)
    ensures Invariant(w) ==> Invariant(r)
    ensures forall j :: 0 <= j < |w.bullets| ==>
      if j < i then r.bullets[j] == w.bullets[j] else AgedOrSpent(w.bullets[j], r.bullets[j])
    decreases |w.bullets| - i
  {
    if i >= |w.bullets| then w else BulletsFrom(BulletStep(w, i, sqrt), i + 1, sqrt)
  }

  /** One fireball (script.js:287-339): a hit also sets the burn, refreshing its timer. */
  function FireballStep(w: World, i: nat, sqrt: real -> real): (r: World)
    requires WellFormed(w) && i < |w.fireballs|
    ensures WellFormed(r)
    ensures r.zombies == w.zombies && |r.spawned| == |w.spawned| && |r.fireballs| == |w.fireballs|
    ensures r.bullets == w.bullets && r.lightningStrikes == w.lightningStrikes
    ensures SameClock(w, r)
    ensures Invariant(w) ==> Invariant(r)
    ensures r.fireballs == w.fireballs[i := r.fireballs[i]] && AgedOrSpent(w.fireballs[i], r.fireballs[i])
  {
    var f := Advance(Steer(w.fireballs[i], w.zombies, w.spawned, sqrt));
    if f.target.Some? && Touches(f, w.spawned[f.target.value], FireballSize, sqrt) then FireballHit(w, i, f)
    else w.(fireballs := w.fireballs[i := f])
  }

  /** Fireball `i`, moved to `f`, hits its target (script.js:324-338). */
  function FireballHit(w: World, i: nat, f: Projectile): (r: World)
    requires WellFormed(w) && i < |w.fireballs| && f.target.Some? && f.target.value < |w.spawned|
    ensures WellFormed(r)
    ensures r.zombies == w.zombies && |r.spawned| == |w.spawned| && r.fireballs == w.fireballs[i := f.(lifetime := 0)]
    ensures r.bullets == w.bullets && r.lightningStrikes == w.lightningStrikes
    ensures SameClock(w, r)
    ensures Invariant(w) ==> Invariant(r)
  {
    var id := f.target.value;
    var t := w.spawned[id];
    var hit := t.(health := t.health - f.damage as real, burning := true, burnTime := BurnDuration);
    var w1 := w.(spawned := w.spawned[id := hit], fireballs := w.fireballs[i := f.(lifetime := 0)]);
    if hit.health <= 0.0 then CreditKill(w1, t.x, t.y) else w1
  }

  /** The fireball loop from index `i` on. */
  function FireballsFrom(w: World, i: nat, sqrt: real -> real): (r: World)
    requires WellFormed(w)
    ensures WellFormed(r)
    ensures r.zombies == w.zombies && |r.spawned| == |w.spawned| && |r.fireballs| == |w.fireballs|
    ensures r.bullets == w.bullets && r.lightningStrikes == w.lightningStrikes
    ensures SameClock(w, r)
    ensures Invariant(w) ==> Invariant(r)
    ensures forall j :: 0 <= j < |w.fireballs| ==>
      if j < i then r.fireballs[j] == w.fireballs[j] else AgedOrSpent(w.fireballs[j], r.fireballs[j])
    decreases |w.fireballs| - i
  {
    if i >= |w.fireballs| then w else FireballsFrom(FireballStep(w, i, sqrt), i + 1, sqrt)
  }

  /** `filter(p => p.lifetime > 0)` on bullets or fireballs, in their order. */
  function Surviving(ps: seq<Projectile>): (r: seq<Projectile>)
    ensures |r| <= |ps|
    ensures forall i :: 0 <= i < |r| ==> r[i].lifetime > 0 && r[i] in ps
    ensures forall i :: 0 <= i < |ps| && ps[i].lifetime > 0 ==> ps[i] in r
  {
    Filter(ps, (p: Projectile) => p.lifetime > 0)
  }

  /** One zombie of the burn loop (script.js:344-359), run over the live array, so a
      zombie killed earlier in the tick still burns and can be credited again. */
  function BurnStep(w: World, k: nat): (r: World)
    requires WellFormed(w) && k < |w.zombies|
    ensures WellFormed(r) && r == w.(spawned := r.spawned, player := r.player, xpOrbs := r.xpOrbs, gamePaused := r.gamePaused)
    ensures |r.spawned| == |w.spawned|
    ensures Invariant(w) ==> Invariant(r)
  {
    var id := w.zombies[k];
    var zombie := w.spawned[id];
    if zombie.burning then
      var ticked := zombie.(burnTime := zombie.burnTime - TickMs, health := zombie.health - BurnDamage);
      var burnt := if ticked.burnTime <= 0 then ticked.(burning := false) else ticked;
      var w1 := w.(spawned := w.spawned[id := burnt]);
      if burnt.health <= 0.0 then CreditKill(w1, burnt.x, burnt.y) else w1
    else w
  }

  /** The burn loop over the live array from index `k` on. */
  function BurnFrom(w: World, k: nat): (r: World)
    requires WellFormed(w)
    ensures WellFormed(r) && r == w.(spawned := r.spawned, player := r.player, xpOrbs := r.xpOrbs, gamePaused := r.gamePaused)
    ensures |r.spawned| == |w.spawned|
    ensures Invariant(w) ==> Invariant(r)
    decreases |w.zombies| - k
  {
    if k >= |w.zombies| then w else BurnFrom(BurnStep(w, k), k + 1)
  }

  /** The zombies strictly within the lightning radius of (x, y), in live-array order,
      with their distances (script.js:368-380). */
  function InRange(ids: seq<nat>, spawned: seq<Zombie>, x: real, y: real, sqrt: real -> real): (ts: seq<Target>)
    requires IdsKnown(ids, spawned)
    ensures |ts| <= |ids|
    ensures forall j :: 0 <= j < |ts| ==> ts[j].id < |spawned|
    decreases |ids|
  {
    if |ids| == 0 then []
    else
      var zombie := spawned[ids[|ids| - 1]];
      var distance := sqrt(SqDist(zombie.x, zombie.y, x, y));
      var front := InRange(ids[..|ids| - 1], spawned, x, y, sqrt);
      if distance < LightningRadius then front + [Target(ids[|ids| - 1], distance)] else front
  }

  /** The zombies a strike hits: the closest `StrikeCap` of those in range. */
  function StrikeTargets(w: World, s: Strike, sqrt: real -> real): (ts: seq<Target>)
    requires WellFormed(w)
    ensures forall j :: 0 <= j < |ts| ==> ts[j].id < |w.spawned|
  {
    Closest(InRange(w.zombies, w.spawned, s.x, s.y, sqrt), StrikeCap)
  }

  /** The damage of a strike at a given distance: linear falloff to 0 at the radius. */
  function Falloff(damage: int, distance: real): real
  {
    damage as real * (1.0 - distance / LightningRadius)
  }

  /** The first `n` targets of a discharging strike take their damage (script.js:386-396). */
  function ApplyStrike(w: World, s: Strike, ts: seq<Target>, n: nat): (r: World)
    requires WellFormed(w) && n <= |ts|
    requires forall j :: 0 <= j < |ts| ==> ts[j].id < |w.spawned|
    ensures WellFormed(r) && r == w.(spawned := r.spawned, player := r.player, xpOrbs := r.xpOrbs, gamePaused := r.gamePaused)
    ensures |r.spawned| == |w.spawned|
    ensures Invariant(w) ==> Invariant(r)
    decreases n
  {
    if n == 0 then w
    else
      var w1 := ApplyStrike(w, s, ts, n - 1);
      var t := ts[n - 1];
      var zombie := w1.spawned[t.id];
      var struck := zombie.(health := zombie.health - Falloff(s.damage, t.distance));
      var w2 := w1.(spawned := w1.spawned[t.id := struck]);
      if struck.health <= 0.0 then CreditKill(w2, struck.x, struck.y) else w2
  }

  /** One strike of the lightning loop (script.js:363-397): age it and, once its
      lifetime is no longer positive, discharge it. */
  function StrikeStep(w: World, i: nat, sqrt: real -> real): (r: World)
    requires WellFormed(w) && i < |w.lightningStrikes|
    ensures WellFormed(r) && |r.lightningStrikes| == |w.lightningStrikes|
    ensures r.zombies == w.zombies && |r.spawned| == |w.spawned|
    ensures r.bullets == w.bullets && r.fireballs == w.fireballs
    ensures SameClock(w, r)
    ensures Invariant(w) ==> Invariant(r)
  {
    var s := w.lightningStrikes[i];
    var aged := s.(lifetime := s.lifetime - TickMs);
    var w1 := w.(lightningStrikes := w.lightningStrikes[i := aged]);
    if aged.lifetime <= 0 then Resolve(w1, aged, sqrt) else w1
  }

  /** A due strike damages the closest zombies in its radius (script.js:366-397). */
  function Resolve(w: World, s: Strike, sqrt: real -> real): (r: World)
    requires WellFormed(w)
    ensures WellFormed(r) && r == w.(spawned := r.spawned, player := r.player, xpOrbs := r.xpOrbs, gamePaused := r.gamePaused)
    ensures |r.spawned| == |w.spawned|
    ensures Invariant(w) ==> Invariant(r)
  {
    var ts := StrikeTargets(w, s, sqrt);
    ApplyStrike(w, s, ts, |ts|)
  }

  /** The lightning loop from index `i` on. */
  function StrikesFrom(w: World, i: nat, sqrt: real -> real): (r: World)
    requires WellFormed(w)
    ensures WellFormed(r) && |r.lightningStrikes| == |w.lightningStrikes|
    ensures r.zombies == w.zombies && |r.spawned| == |w.spawned|
    ensures r.bullets == w.bullets && r.fireballs == w.fireballs
    ensures SameClock(w, r)
    ensures Invariant(w) ==> Invariant(r)
    decreases |w.lightningStrikes| - i
  {
    if i >= |w.lightningStrikes| then w else StrikesFrom(StrikeStep(w, i, sqrt), i + 1, sqrt)
  }

  /** `lightningStrikes.filter(l => l.lifetime > 0)`, in their order. */
  function SurvivingStrikes(ss: seq<Strike>): (r: seq<Strike>)
    ensures |r| <= |ss|
    ensures forall i :: 0 <= i < |r| ==> r[i].lifetime > 0 && r[i] in ss
    ensures forall i :: 0 <= i < |ss| && ss[i].lifetime > 0 ==> ss[i] in r
  {
    Filter(ss, (l: Strike) => l.lifetime > 0)
  }

  /** The bullet pass with its filter (script.js:225-284). */
  function BulletPhase(w: World, sqrt: real -> real): (r: World)
    requires WellFormed(w)
    ensures WellFormed(r) && r.zombies == w.zombies && r.fireballs == w.fireballs && SameClock(w, r)
    ensures Invariant(w) ==> Invariant(r)
  {
    var w1 := BulletsFrom(w, 0, sqrt);
    w1.(bullets := Surviving(w1.bullets))
  }

  /** The fireball pass with its filter (script.js:287-341). */
  function FireballPhase(w: World, sqrt: real -> real): (r: World)
    requires WellFormed(w)
    ensures WellFormed(r) && r.zombies == w.zombies && SameClock(w, r)
    ensures Invariant(w) ==> Invariant(r)
  {
    var w1 := FireballsFrom(w, 0, sqrt);
    w1.(fireballs := Surviving(w1.fireballs))
  }

  /** The lightning pass with its filter (script.js:363-400). */
  function StrikePhase(w: World, sqrt: real -> real): (r: World)
    requires WellFormed(w)
    ensures WellFormed(r) && r.zombies == w.zombies && SameClock(w, r)
    ensures Invariant(w) ==> Invariant(r)
  {
    var w1 := StrikesFrom(w, 0, sqrt);
    w1.(lightningStrikes := SurvivingStrikes(w1.lightningStrikes))
  }

  /** `updateProjectiles` (script.js:223-401). */
  function Projectiles(w: World, sqrt: real -> real): (r: World)
    requires WellFormed(w)
    ensures WellFormed(r) && r.zombies == w.zombies && SameClock(w, r)
    ensures Invariant(w) ==> Invariant(r)
  {
    var w2 := FireballPhase(BulletPhase(w, sqrt), sqrt);
    StrikePhase(BurnFrom(w2, 0), sqrt)
  }

  // ---------------------------------------------------------------- experience orbs

  /** An orb within the attraction radius, at `distance` and offset (dx, dy) from the
      player, drifts toward it, faster the closer it is. */
  function Attract(orb: Orb, dx: real, dy: real, distance: real): Orb
  {
    var speed := 3.0 + (1.0 - distance / OrbAttractRadius) * 5.0;
    orb.(x := orb.x + Quot(dx, distance) * speed, y := orb.y + Quot(dy, distance) * speed)
  }

  /** One orb of `updateXpOrbs` (script.js:404-419): it drifts toward the player and,
      if close enough, is picked up, spliced out and its value added. */
  function OrbStep(w: World, k: nat, sqrt: real -> real): (r: World)
    requires k < |w.xpOrbs|
    ensures OnlyProgress(w, r) && |r.xpOrbs| <= |w.xpOrbs|
    ensures Invariant(w) ==> Invariant(r)
  {
    var orb := w.xpOrbs[k];
    var dx := w.player.x - orb.x;
    var dy := w.player.y - orb.y;
    var distance := sqrt(SqDist(w.player.x, w.player.y, orb.x, orb.y));
    var moved := if distance < OrbAttractRadius then Attract(orb, dx, dy, distance) else orb;
    if distance < PlayerSize / 2.0 + XpOrbSize / 2.0 then
      var w1 := w.(player := w.player.(xp := w.player.xp + moved.value),
                   xpOrbs := w.xpOrbs[..k] + w.xpOrbs[k + 1..]);
      LevelUpKeepsProgressOk(w1.player);
      assert w1.xpOrbs == w.xpOrbs[..k] + w.xpOrbs[k + 1..];
      assert OrbsOk(w.xpOrbs) ==> OrbsOk(w1.xpOrbs);
      LevelCheck(w1)
    else
      w.(xpOrbs := w.xpOrbs[k := moved])
  }

  /** `updateXpOrbs` (script.js:403-421) from the orb at index `k` on. A picked-up orb
      is spliced out while the loop goes on at `k + 1`, so the orb that moved into its
      place is skipped this tick. */
  function CollectFrom(w: World, k: nat, sqrt: real -> real): (r: World)
    ensures OnlyProgress(w, r) && |r.xpOrbs| <= |w.xpOrbs|
    ensures Invariant(w) ==> Invariant(r)
    decreases |w.xpOrbs| - k
  {
    if k >= |w.xpOrbs| then w else CollectFrom(OrbStep(w, k, sqrt), k + 1, sqrt)
  }

  // ---------------------------------------------------------------- time and difficulty

  /** The end of `update` (script.js:183-195): only when not paused (the pause may
      have been switched on earlier in the same tick) does game time advance, and every
      two minutes of it the difficulty escalates. */
  function AdvanceClock(w: World): (r: World)
    ensures Invariant(w) ==> Invariant(r)
  {
    if w.gamePaused then w
    else
      var gameTime := w.gameTime + TickMs;
      if gameTime - w.lastWaveIncrease > WaveInterval then
        var wave := w.wave + 1;
        w.(gameTime := gameTime, wave := wave, lastWaveIncrease := gameTime,
           zombiesPerWave := w.zombiesPerWave + CapGrowth(wave),
           zombieSpeed := w.zombieSpeed + 0.15,
           zombieHealth := w.zombieHealth + 8,
           zombieSpawnRate := NextSpawnRate(w.zombieSpawnRate))
      else w.(gameTime := gameTime)
  }

  /** `update(timestamp)` (script.js:123-198). */
  function Tick(w: World, timestamp: int, sqrt: real -> real): (r: World)
    requires WellFormed(w)
    ensures Invariant(w) ==> Invariant(r)
  {
    var w1 := MovePlayer(w, sqrt);
    var w2 := SpawnGate(w1, timestamp);
    var w3 := ChaseFrom(w2, 0, sqrt);
    var w4 := Purge(w3);
    var w5 := Projectiles(w4, sqrt);
    var w6 := CollectFrom(w5, 0, sqrt);
    AdvanceClock(w6)
  }

  /** One call of `gameLoop(timestamp)` (script.js:109-121): nothing happens after game
      over, and nothing but drawing while paused. */
  function Frame(w: World, timestamp: int, sqrt: real -> real): (r: World)
    requires WellFormed(w)
    ensures Invariant(w) ==> Invariant(r)
  {
    if w.gameOver then w
    else if !w.gamePaused then Tick(w, timestamp, sqrt)
    else w
  }

  // ---------------------------------------------------------------- the frame loop

  /** The state together with whether a next call of `gameLoop` has been requested
      with `requestAnimationFrame`. */
  datatype Loop = Loop(world: World, scheduled: bool)

  /** One animation frame (script.js:109-121). Nothing runs unless a call was
      requested. After game over `gameLoop` returns at once, before requesting the next
      frame; otherwise it runs the frame and requests the next one. */
  function RunFrame(l: Loop, timestamp: int, sqrt: real -> real): (r: Loop)
    requires WellFormed(l.world)
    ensures !l.scheduled ==> r == l
    ensures l.scheduled ==> r.world == Frame(l.world, timestamp, sqrt)
    ensures l.scheduled ==> (r.scheduled <==> !l.world.gameOver)
  {
    if !l.scheduled then l
    else if l.world.gameOver then Loop(l.world, false)
    else Loop(Frame(l.world, timestamp, sqrt), true)
  }

  /** The callback the fatal contact schedules (script.js:166-169), as written: after
      the alert it resets the game, and nothing requests a frame again. */
  function GameOverCallbackAsWritten(l: Loop, width: real, height: real): (r: Loop)
    ensures r.world == Reset(l.world, width, height) && r.scheduled == l.scheduled
  {
    Loop(Reset(l.world, width, height), l.scheduled)
  }

  /** The same callback as evidently intended: the reset game is running again, so the
      frame loop is requested once more if it had stopped. */
  function GameOverCallback(l: Loop, width: real, height: real): (r: Loop)
    ensures r.world == Reset(l.world, width, height) && r.scheduled
  {
    Loop(Reset(l.world, width, height), true)
  }

  // ---------------------------------------------------------------- shooting

  /** A projectile fired from the player at zombie `id` (script.js:456-469 and the two
      other pushes); the direction is the unit vector toward the zombie. */
  function Aim(id: nat, z: Zombie, p: Player, speed: real, damage: int, lifetime: int, isLightning: bool,
               sqrt: real -> real): (b: Projectile)
    ensures b.x == p.x && b.y == p.y && b.target == Some(id)
    ensures b.speed == speed && b.damage == damage && b.lifetime == lifetime && b.isLightning == isLightning
  {
    var dx := z.x - p.x;
    var dy := z.y - p.y;
    var dist := sqrt(SqDist(z.x, z.y, p.x, p.y));
    Projectile(p.x, p.y, Quot(dx, dist), Quot(dy, dist), speed, damage, lifetime, Some(id), isLightning)
  }

  /** Every live zombie with its squared distance from (x, y), in array order. */
  function Candidates(ids: seq<nat>, spawned: seq<Zombie>, x: real, y: real): (ts: seq<Target>)
    requires IdsKnown(ids, spawned)
    ensures |ts| == |ids|
    ensures forall j :: 0 <= j < |ts| ==>
      ts[j].id == ids[j] && ts[j].distance == SqDist(spawned[ids[j]].x, spawned[ids[j]].y, x, y)
  {
    seq(|ids|, j requires 0 <= j < |ids| => Target(ids[j], SqDist(spawned[ids[j]].x, spawned[ids[j]].y, x, y)))
  }

  /** The multishot targets (script.js:447-453): the (up to) three live zombies
      closest to the player, closest first, each with its squared distance; every live
      zombie left out is at least as far away as each of them. */
  function MultishotTargets(w: World): (ts: seq<Target>)
    requires WellFormed(w)
    ensures |ts| == Min(MultishotCount, |w.zombies|)
    ensures SortedByDistance(ts)
    ensures forall j :: 0 <= j < |ts| ==>
      && ts[j].id in w.zombies && ts[j].id < |w.spawned|
      && ts[j].distance == SqDist(w.spawned[ts[j].id].x, w.spawned[ts[j].id].y, w.player.x, w.player.y)
    ensures forall k, j :: 0 <= k < |w.zombies| && 0 <= j < |ts| && w.zombies[k] !in TargetIds(ts) ==>
      ts[j].distance <= SqDist(w.spawned[w.zombies[k]].x, w.spawned[w.zombies[k]].y, w.player.x, w.player.y)
  {
    var cands := Candidates(w.zombies, w.spawned, w.player.x, w.player.y);
    var ts := Closest(cands, MultishotCount);
    LeftOutCandidates(cands, ts);
    ts
  }

  /** The ids a list of targets names. */
  function TargetIds(ts: seq<Target>): set<nat>
  {
    set j | 0 <= j < |ts| :: ts[j].id
  }

  /** A candidate whose id is not among the chosen targets was left out. */
  lemma LeftOutCandidates(cands: seq<Target>, ts: seq<Target>)
    ensures forall k :: 0 <= k < |cands| && cands[k].id !in TargetIds(ts) ==>
      cands[k] in multiset(cands) - multiset(ts)
  {
  }

  /** One multishot bullet per target (script.js:455-470). */
  function Volley(ts: seq<Target>, spawned: seq<Zombie>, p: Player, sqrt: real -> real): (bs: seq<Projectile>)
    requires forall j :: 0 <= j < |ts| ==> ts[j].id < |spawned|
    ensures |bs| == |ts|
    ensures forall j :: 0 <= j < |ts| ==>
      bs[j] == Aim(ts[j].id, spawned[ts[j].id], p, 6.0, 12, 1200, false, sqrt)
  {
    seq(|ts|, j requires 0 <= j < |ts| => Aim(ts[j].id, spawned[ts[j].id], p, 6.0, 12, 1200, false, sqrt))
  }

  /** `shoot()` at time `now` (script.js:423-505): nothing within the shot delay, only
      the timer with no zombie to aim at, otherwise a volley or a single shot. */
  function Shot(w: World, now: int, sqrt: real -> real): (r: World)
    requires WellFormed(w)
    ensures Invariant(w) ==> Invariant(r)
  {
    if now - w.lastShot < ShootDelay then w
    else if |w.zombies| == 0 then w.(lastShot := now)
    else Fire(w.(lastShot := now), sqrt)
  }

  /** The projectiles a shot adds (script.js:431-504): three multishot bullets, else a
      fireball, else one bullet, each homing on the nearest zombie except the volley. */
  function Fire(w: World, sqrt: real -> real): (r: World)
    requires WellFormed(w) && |w.zombies| > 0
    ensures Invariant(w) ==> Invariant(r)
  {
    var p := w.player;
    var nearest := Nearest(w.zombies, w.spawned, p.x, p.y);
    if p.powers.multishot then
      w.(bullets := w.bullets + Volley(MultishotTargets(w), w.spawned, p, sqrt))
    else if p.powers.fire then
      w.(fireballs := w.fireballs + [Aim(nearest, w.spawned[nearest], p, 5.0, 25, 1500, false, sqrt)])
    else
      var lightning := p.powers.lightning;
      w.(bullets := w.bullets + [Aim(nearest, w.spawned[nearest], p,
           if lightning then 8.0 else 7.0, if lightning then 30 else 20, 1200, lightning, sqrt)])
  }

  /** `handleMouseDown` (script.js:97-102): a left click shoots, unless paused. */
  function MouseDown(w: World, button: int, now: int, sqrt: real -> real): World
    requires WellFormed(w)
  {
    if button == 0 && !w.gamePaused then Shot(w.(mouseClicked := true), now, sqrt) else w
  }
}

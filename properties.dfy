/** Properties of the game rules: what a shot adds, how projectiles, burns and
    lightning strikes age and resolve, how the clock and the difficulty advance, and
    what the gating by pause and game over leaves untouched. */
module Properties {
  import opened Entities
  import opened Targeting
  import opened Progression
  import opened Rules

  // ---------------------------------------------------------------- kills

  /** A kill adds one orb worth 15 at the corpse, counts the kill, and pays 15
      experience, of which a threshold's worth is spent if a level is gained. */
  lemma CreditKillSpec(w: World, x: real, y: real)
    ensures var r := CreditKill(w, x, y);
      && r.xpOrbs == w.xpOrbs + [Orb(x, y, KillXp)]
      && r.player.kills == w.player.kills + 1
      && (r.player.level == w.player.level || r.player.level == w.player.level + 1)
      && (r.player.level == w.player.level + 1 <==> w.player.xp + KillXp >= w.player.nextLevelXp)
      && r.player.xp == w.player.xp + KillXp - (if r.player.level == w.player.level then 0 else w.player.nextLevelXp)
      && r.player.powers == w.player.powers && r.player.health == w.player.health
  {
    LevelUpSpec(w.player.(kills := w.player.kills + 1, xp := w.player.xp + KillXp));
  }

  // ---------------------------------------------------------------- lightning

  /** A zombie counts as in range of a strike at (x, y) when its distance, as
      `Math.sqrt` gives it, is below the lightning radius. */
  ghost predicate WithinStrike(t: Target, spawned: seq<Zombie>, x: real, y: real, sqrt: real -> real)
  {
    && t.id < |spawned|
    && t.distance == sqrt(SqDist(spawned[t.id].x, spawned[t.id].y, x, y))
    && t.distance < LightningRadius
  }

  /** The range filter keeps exactly the live zombies within the radius, each with its
      own distance. */
  lemma {:induction false} InRangeSpec(ids: seq<nat>, spawned: seq<Zombie>, x: real, y: real, sqrt: real -> real)
    requires IdsKnown(ids, spawned)
    ensures forall t :: t in InRange(ids, spawned, x, y, sqrt) <==> t.id in ids && WithinStrike(t, spawned, x, y, sqrt)
    decreases |ids|
  {
    if |ids| > 0 {
      var front := ids[..|ids| - 1];
      var last := ids[|ids| - 1];
      assert ids == front + [last];
      InRangeSpec(front, spawned, x, y, sqrt);
    }
  }

  /** Within the radius the damage falls off linearly from the full 40 at the centre
      and stays positive. */
  lemma FalloffBounds(distance: real)
    requires 0.0 <= distance < LightningRadius
    ensures 0.0 < Falloff(StrikeDamage, distance) <= StrikeDamage as real
    ensures distance == 0.0 ==> Falloff(StrikeDamage, distance) == StrikeDamage as real
  {
    assert 0.0 <= distance / LightningRadius < 1.0;
  }

  /** A strike hits at most five zombies, all live and strictly within the radius,
      closest first, none farther than a zombie in range it leaves out, and each for a
      damage in (0, 40]. */
  lemma StrikeTargetsSpec(w: World, s: Strike, sqrt: real -> real)
    requires WellFormed(w) && SqrtLike(sqrt)
    ensures var inRange := InRange(w.zombies, w.spawned, s.x, s.y, sqrt);
      var ts := StrikeTargets(w, s, sqrt);
      && |ts| == Min(StrikeCap, |inRange|)
      && SortedByDistance(ts)
      && (forall j :: 0 <= j < |ts| ==>
            && ts[j].id in w.zombies && WithinStrike(ts[j], w.spawned, s.x, s.y, sqrt)
            && 0.0 < Falloff(StrikeDamage, ts[j].distance) <= StrikeDamage as real)
      && (forall t, j :: t in multiset(inRange) - multiset(ts) && 0 <= j < |ts| ==> ts[j].distance <= t.distance)
  {
    var inRange := InRange(w.zombies, w.spawned, s.x, s.y, sqrt);
    var ts := StrikeTargets(w, s, sqrt);
    InRangeSpec(w.zombies, w.spawned, s.x, s.y, sqrt);
    forall j | 0 <= j < |ts|
      ensures ts[j].id in w.zombies && WithinStrike(ts[j], w.spawned, s.x, s.y, sqrt)
      ensures 0.0 < Falloff(StrikeDamage, ts[j].distance) <= StrikeDamage as real
    {
      assert ts[j] in inRange;
      FalloffBounds(ts[j].distance);
    }
  }

  /** The total strike damage the first `n` targets deal to zombie `id`. */
  ghost function StrikeLoss(ts: seq<Target>, n: nat, id: nat, damage: int): real
    requires n <= |ts|
  {
    if n == 0 then 0.0
    else StrikeLoss(ts, n - 1, id, damage) + (if ts[n - 1].id == id then Falloff(damage, ts[n - 1].distance) else 0.0)
  }

  /** Discharging changes a zombie's health by the damage of the targets naming it and
      nothing else about it. */
  lemma {:induction false} ApplyStrikeEffect(w: World, s: Strike, ts: seq<Target>, n: nat, id: nat)
    requires WellFormed(w) && n <= |ts| && id < |w.spawned|
    requires forall j :: 0 <= j < |ts| ==> ts[j].id < |w.spawned|
    ensures ApplyStrike(w, s, ts, n).spawned[id]
         == w.spawned[id].(health := w.spawned[id].health - StrikeLoss(ts, n, id, s.damage))
    decreases n
  {
    if n > 0 {
      var w1 := ApplyStrike(w, s, ts, n - 1);
      var t := ts[n - 1];
      var struck := w1.spawned[t.id].(health := w1.spawned[t.id].health - Falloff(s.damage, t.distance));
      assert ApplyStrike(w, s, ts, n).spawned == w1.spawned[t.id := struck];
      ApplyStrikeEffect(w, s, ts, n - 1, id);
    }
  }

  /** Every strike aged by one tick. */
  function AgedStrikes(ss: seq<Strike>): (r: seq<Strike>)
    ensures |r| == |ss|
    ensures forall j :: 0 <= j < |ss| ==> r[j] == ss[j].(lifetime := ss[j].lifetime - TickMs)
  {
    seq(|ss|, j requires 0 <= j < |ss| => ss[j].(lifetime := ss[j].lifetime - TickMs))
  }

  /** One pass of the lightning loop ages strike `i` by 16 ms and leaves the other
      strikes alone. */
  lemma StrikeStepAges(w: World, i: nat, sqrt: real -> real)
    requires WellFormed(w) && i < |w.lightningStrikes|
    ensures var s := w.lightningStrikes[i];
      StrikeStep(w, i, sqrt).lightningStrikes == w.lightningStrikes[i := s.(lifetime := s.lifetime - TickMs)]
  {
  }

  /** One pass of the lightning loop on strike `i`: a strike still above 0 after
      losing 16 ms changes nothing but its lifetime; one that reaches 0 or below
      discharges there and then, with its own point and damage, on its nearest targets. */
  lemma StrikeStepSpec(w: World, i: nat, sqrt: real -> real)
    requires WellFormed(w) && i < |w.lightningStrikes|
    ensures var s := w.lightningStrikes[i];
      var aged := s.(lifetime := s.lifetime - TickMs);
      var w1 := w.(lightningStrikes := w.lightningStrikes[i := aged]);
      var r := StrikeStep(w, i, sqrt);
      && (aged.lifetime > 0 ==> r == w1)
      && (aged.lifetime <= 0 ==> r == Resolve(w1, aged, sqrt))
  {
    var s := w.lightningStrikes[i];
    var aged := s.(lifetime := s.lifetime - TickMs);
    var w1 := w.(lightningStrikes := w.lightningStrikes[i := aged]);
    assert StrikeStep(w, i, sqrt) == if aged.lifetime <= 0 then Resolve(w1, aged, sqrt) else w1;
  }

  /** A discharge takes from each zombie the falloff damage of the targets naming it,
      and changes nothing else about the zombies. */
  lemma ResolveSpec(w: World, s: Strike, id: nat, sqrt: real -> real)
    requires WellFormed(w) && id < |w.spawned|
    ensures var ts := StrikeTargets(w, s, sqrt);
      Resolve(w, s, sqrt).spawned[id] == w.spawned[id].(health := w.spawned[id].health - StrikeLoss(ts, |ts|, id, s.damage))
  {
    var ts := StrikeTargets(w, s, sqrt);
    ApplyStrikeEffect(w, s, ts, |ts|, id);
  }

  /** The strike loop ages strike `j` by one tick if it comes at or after index `i`,
      and leaves it otherwise. */
  lemma {:induction false} StrikesFromAges(w: World, i: nat, j: nat, sqrt: real -> real)
    requires WellFormed(w) && i <= |w.lightningStrikes| && j < |w.lightningStrikes|
    ensures |StrikesFrom(w, i, sqrt).lightningStrikes| == |w.lightningStrikes|
    ensures StrikesFrom(w, i, sqrt).lightningStrikes[j]
         == if j < i then w.lightningStrikes[j]
            else w.lightningStrikes[j].(lifetime := w.lightningStrikes[j].lifetime - TickMs)
    decreases |w.lightningStrikes| - i
  {
    if i < |w.lightningStrikes| {
      var w1 := StrikeStep(w, i, sqrt);
      assert StrikesFrom(w, i, sqrt) == StrikesFrom(w1, i + 1, sqrt);
      StrikeStepAges(w, i, sqrt);
      StrikesFromAges(w1, i + 1, j, sqrt);
    }
  }

  /** What one lightning pass does to the list of strikes: age each, keep those above 0. */
  function LightningPass(ss: seq<Strike>): seq<Strike>
  {
    SurvivingStrikes(AgedStrikes(ss))
  }

  /** The lightning pass of `updateProjectiles`: every strike loses 16 ms of lifetime,
      and exactly those still above 0 remain, in their order; so a strike is removed on
      the same pass on which it discharges. */
  lemma StrikePhaseSpec(w: World, sqrt: real -> real)
    requires WellFormed(w)
    ensures StrikePhase(w, sqrt).lightningStrikes == LightningPass(w.lightningStrikes)
    ensures forall j :: 0 <= j < |StrikePhase(w, sqrt).lightningStrikes| ==>
      0 < StrikePhase(w, sqrt).lightningStrikes[j].lifetime
  {
    var aged := StrikesFrom(w, 0, sqrt).lightningStrikes;
    forall j | 0 <= j < |w.lightningStrikes|
      ensures aged[j] == AgedStrikes(w.lightningStrikes)[j]
    {
      StrikesFromAges(w, 0, j, sqrt);
    }
    assert aged == AgedStrikes(w.lightningStrikes);
  }

  /** `n` lightning passes. */
  function Passes(ss: seq<Strike>, n: nat): seq<Strike>
  {
    if n == 0 then ss else LightningPass(Passes(ss, n - 1))
  }

  /** One pass on a single strike keeps it, aged, exactly when it stays above 0. */
  lemma LonePass(s: Strike)
    ensures LightningPass([s]) == if s.lifetime - TickMs > 0 then [s.(lifetime := s.lifetime - TickMs)] else []
  {
    var aged := s.(lifetime := s.lifetime - TickMs);
    assert AgedStrikes([s]) == [aged];
  }

  /** The `n`-th pass on a strike created at (x, y) that has had `m = n - 1` passes
      keeps it, with 600 - 16n ms left, exactly when `n` is at most 37. */
  lemma NthPass(x: real, y: real, m: nat, n: nat)
    requires n == m + 1
    ensures LightningPass([NewStrike(x, y).(lifetime := StrikeLifetime - m * TickMs)])
         == if n <= 37 then [NewStrike(x, y).(lifetime := StrikeLifetime - n * TickMs)] else []
  {
    var last := NewStrike(x, y).(lifetime := StrikeLifetime - m * TickMs);
    LonePass(last);
    assert last.lifetime - TickMs == StrikeLifetime - n * TickMs;
    assert 0 < StrikeLifetime - n * TickMs <==> n <= 37;
  }

  /** From `m` passes to `n = m + 1`: while the strike is alive one more pass ages it
      by 16 ms or, on the 38th, removes it; nothing comes back once it is gone. */
  lemma LifespanStep(x: real, y: real, m: nat, n: nat)
    requires n == m + 1
    requires m <= 37 ==> Passes([NewStrike(x, y)], m) == [NewStrike(x, y).(lifetime := StrikeLifetime - m * TickMs)]
    requires 37 < m ==> Passes([NewStrike(x, y)], m) == []
    ensures n <= 37 ==> Passes([NewStrike(x, y)], n) == [NewStrike(x, y).(lifetime := StrikeLifetime - n * TickMs)]
    ensures 37 < n ==> Passes([NewStrike(x, y)], n) == []
  {
    var s := NewStrike(x, y);
    assert Passes([s], n) == LightningPass(Passes([s], m));
    if m <= 37 {
      NthPass(x, y, m, n);
    } else {
      assert AgedStrikes([]) == [];
    }
  }

  /** A strike just created at (x, y) is still there, with 600 - 16n ms left, after
      each of the first 37 passes, and is gone from the 38th pass on. */
  lemma {:induction false} StrikeLifespan(x: real, y: real, n: nat)
    ensures n <= 37 ==> Passes([NewStrike(x, y)], n) == [NewStrike(x, y).(lifetime := StrikeLifetime - n * TickMs)]
    ensures 37 < n ==> Passes([NewStrike(x, y)], n) == []
  {
    if n == 0 {
      assert Passes([NewStrike(x, y)], n) == [NewStrike(x, y)];
      assert NewStrike(x, y).(lifetime := StrikeLifetime - n * TickMs) == NewStrike(x, y) by {
        assert n * TickMs == 0;
      }
    } else {
      var m: nat := n - 1;
      StrikeLifespan(x, y, m);
      LifespanStep(x, y, m, n);
    }
  }

  /** A pass keeps strike `i`, aged, exactly when it stays above 0. */
  lemma PassKeeps(ss: seq<Strike>, i: nat)
    requires i < |ss|
    ensures var aged := ss[i].(lifetime := ss[i].lifetime - TickMs);
      aged in LightningPass(ss) <==> aged.lifetime > 0
  {
    var aged := AgedStrikes(ss);
    assert aged[i] == ss[i].(lifetime := ss[i].lifetime - TickMs);
    if aged[i].lifetime > 0 {
      assert multiset(SurvivingStrikes(aged))[aged[i]] == multiset(aged)[aged[i]];
    }
  }

  /** A strike created with lifetime 600 that is still there after `n` passes
      discharges on its next pass exactly when that is the 38th; before that the pass
      only ages it. */
  lemma StrikeTicks(w: World, i: nat, n: nat, sqrt: real -> real)
    requires WellFormed(w) && i < |w.lightningStrikes|
    requires 0 < w.lightningStrikes[i].lifetime == StrikeLifetime - n * TickMs
    ensures var s := w.lightningStrikes[i];
      var aged := s.(lifetime := s.lifetime - TickMs);
      var w1 := w.(lightningStrikes := w.lightningStrikes[i := aged]);
      var r := StrikeStep(w, i, sqrt);
      && n <= 37
      && (n + 1 < 38 ==> r == w1 && aged in LightningPass(w.lightningStrikes))
      && (n + 1 == 38 ==> r == Resolve(w1, aged, sqrt) && aged !in LightningPass(w.lightningStrikes))
  {
    StrikeStepSpec(w, i, sqrt);
    PassKeeps(w.lightningStrikes, i);
  }

  /** `lightningStrike` adds one strike of damage 40 and lifetime 600 at the point. */
  lemma NewStrikeSpec(x: real, y: real)
    ensures NewStrike(x, y) == Strike(x, y, 40, 600)
  {
  }

  // ---------------------------------------------------------------- burning

  /** A fireball hit takes its damage off the target and sets the burn to a full
      1500 ms whatever was left of it: the burn is refreshed, not stacked. The fireball
      is spent. */
  lemma FireballHitSpec(w: World, i: nat, f: Projectile)
    requires WellFormed(w) && i < |w.fireballs| && f.target.Some? && f.target.value < |w.spawned|
    ensures var r := FireballHit(w, i, f); var t := w.spawned[f.target.value];
      && r.spawned == w.spawned[f.target.value := t.(health := t.health - f.damage as real, burning := true, burnTime := BurnDuration)]
      && r.fireballs == w.fireballs[i := f.(lifetime := 0)]
      && r.player.kills == w.player.kills + (if t.health - f.damage as real <= 0.0 then 1 else 0)
  {
  }

  /** One burn tick: a burning zombie loses 16 ms of burn and 0.8 health and stops
      burning once the timer is 0 or below; whenever its health is then 0 or less a
      kill is credited, also for a zombie that was already dead. A zombie that is not
      burning is left alone. */
  lemma BurnStepSpec(w: World, k: nat)
    requires WellFormed(w) && k < |w.zombies|
    ensures var r := BurnStep(w, k); var id := w.zombies[k]; var z := w.spawned[id];
      && (!z.burning ==> r == w)
      && (z.burning ==>
            && r.spawned == w.spawned[id := z.(health := z.health - BurnDamage, burnTime := z.burnTime - TickMs,
                                               burning := z.burnTime - TickMs > 0)]
            && r.player.kills == w.player.kills + (if z.health - BurnDamage <= 0.0 then 1 else 0))
  {
  }

  /** A zombie killed earlier in the tick is still in the live array while the burn
      loop runs, so its burn credits the same kill once more. */
  lemma BurnCreditsCorpse(w: World, k: nat)
    requires WellFormed(w) && k < |w.zombies|
    requires w.spawned[w.zombies[k]].burning && w.spawned[w.zombies[k]].health <= 0.0
    ensures BurnStep(w, k).player.kills == w.player.kills + 1
  {
    BurnStepSpec(w, k);
  }

  // ---------------------------------------------------------------- bullets

  /** One bullet: it is steered, moved and aged by 16 ms; if it then touches its
      target, that zombie loses the bullet's damage, a lightning bullet leaves a strike
      at the zombie, a kill is credited when the health is 0 or less, and the bullet is
      spent. */
  lemma BulletStepSpec(w: World, i: nat, sqrt: real -> real)
    requires WellFormed(w) && i < |w.bullets|
    ensures var b := Advance(Steer(w.bullets[i], w.zombies, w.spawned, sqrt)); var r := BulletStep(w, i, sqrt);
      && b.lifetime == w.bullets[i].lifetime - TickMs
      && (b.target.Some? && Touches(b, w.spawned[b.target.value], BulletSize, sqrt) ==>
            var t := w.spawned[b.target.value];
            && r.spawned == w.spawned[b.target.value := t.(health := t.health - b.damage as real)]
            && r.bullets == w.bullets[i := b.(lifetime := 0)]
            && r.lightningStrikes == w.lightningStrikes + (if b.isLightning then [NewStrike(t.x, t.y)] else [])
            && r.player.kills == w.player.kills + (if t.health - b.damage as real <= 0.0 then 1 else 0))
      && (!(b.target.Some? && Touches(b, w.spawned[b.target.value], BulletSize, sqrt)) ==>
            r == w.(bullets := w.bullets[i := b]))
  {
  }

  /** With no zombie left the bullet keeps its stale target and direction, and the
      collision test still runs against that removed zombie. */
  lemma StaleTargetHit(w: World, i: nat, sqrt: real -> real)
    requires WellFormed(w) && i < |w.bullets| && |w.zombies| == 0
    requires w.bullets[i].target.Some?
    requires Touches(Advance(w.bullets[i]), w.spawned[w.bullets[i].target.value], BulletSize, sqrt)
    ensures var id := w.bullets[i].target.value;
      BulletStep(w, i, sqrt).spawned[id].health == w.spawned[id].health - w.bullets[i].damage as real
  {
    BulletStepSpec(w, i, sqrt);
  }

  /** The bullet pass of `updateProjectiles`: after the loop, bullet `j` has 16 ms less
      lifetime or, spent by a hit, 0; the filter then keeps exactly those above 0, in
      their order, so a bullet that had 16 ms or less is gone. */
  lemma BulletPhaseSpec(w: World, sqrt: real -> real)
    requires WellFormed(w)
    ensures var aged := BulletsFrom(w, 0, sqrt).bullets; var r := BulletPhase(w, sqrt).bullets;
      && |aged| == |w.bullets|
      && (forall j :: 0 <= j < |aged| ==> aged[j].lifetime == w.bullets[j].lifetime - TickMs || aged[j].lifetime == 0)
      && r == Filter(aged, (p: Projectile) => p.lifetime > 0)
      && (forall j :: 0 <= j < |r| ==> r[j].lifetime > 0)
      && (forall j :: 0 <= j < |aged| && w.bullets[j].lifetime <= TickMs ==> aged[j] !in r)
  {
    var aged := BulletsFrom(w, 0, sqrt).bullets;
    var r := Surviving(aged);
    assert BulletPhase(w, sqrt).bullets == r;
    forall j | 0 <= j < |aged|
      ensures aged[j].lifetime == w.bullets[j].lifetime - TickMs || aged[j].lifetime == 0
    {
      assert AgedOrSpent(w.bullets[j], aged[j]);
    }
    forall j | 0 <= j < |aged| && w.bullets[j].lifetime <= TickMs
      ensures aged[j] !in r
    {
      assert AgedOrSpent(w.bullets[j], aged[j]);
      assert aged[j].lifetime <= 0;
    }
  }

  // ---------------------------------------------------------------- fireballs

  /** One fireball: it is steered, moved and aged by 16 ms; if it then touches its
      target at fireball size, that zombie loses the fireball's damage and burns for a
      full 1500 ms, a kill is credited when the health is 0 or less, and the fireball is
      spent; otherwise only the fireball changes. */
  lemma FireballStepSpec(w: World, i: nat, sqrt: real -> real)
    requires WellFormed(w) && i < |w.fireballs|
    ensures var f := Advance(Steer(w.fireballs[i], w.zombies, w.spawned, sqrt)); var r := FireballStep(w, i, sqrt);
      && f.lifetime == w.fireballs[i].lifetime - TickMs
      && (f.target.Some? && Touches(f, w.spawned[f.target.value], FireballSize, sqrt) ==>
            var t := w.spawned[f.target.value];
            && r.spawned == w.spawned[f.target.value := t.(health := t.health - f.damage as real, burning := true, burnTime := BurnDuration)]
            && r.fireballs == w.fireballs[i := f.(lifetime := 0)]
            && r.player.kills == w.player.kills + (if t.health - f.damage as real <= 0.0 then 1 else 0))
      && (!(f.target.Some? && Touches(f, w.spawned[f.target.value], FireballSize, sqrt)) ==>
            r == w.(fireballs := w.fireballs[i := f]))
  {
  }

  /** The fireball pass of `updateProjectiles`: after the loop, fireball `j` has 16 ms
      less lifetime or, spent by a hit, 0; the filter then keeps exactly those above 0,
      in their order, so a fireball that had 16 ms or less is gone. */
  lemma FireballPhaseSpec(w: World, sqrt: real -> real)
    requires WellFormed(w)
    ensures var aged := FireballsFrom(w, 0, sqrt).fireballs; var r := FireballPhase(w, sqrt).fireballs;
      && |aged| == |w.fireballs|
      && (forall j :: 0 <= j < |aged| ==> aged[j].lifetime == w.fireballs[j].lifetime - TickMs || aged[j].lifetime == 0)
      && r == Filter(aged, (p: Projectile) => p.lifetime > 0)
      && (forall j :: 0 <= j < |r| ==> r[j].lifetime > 0)
      && (forall j :: 0 <= j < |aged| && w.fireballs[j].lifetime <= TickMs ==> aged[j] !in r)
  {
    var aged := FireballsFrom(w, 0, sqrt).fireballs;
    var r := Surviving(aged);
    assert FireballPhase(w, sqrt).fireballs == r;
    forall j | 0 <= j < |aged|
      ensures aged[j].lifetime == w.fireballs[j].lifetime - TickMs || aged[j].lifetime == 0
    {
      assert AgedOrSpent(w.fireballs[j], aged[j]);
    }
    forall j | 0 <= j < |aged| && w.fireballs[j].lifetime <= TickMs
      ensures aged[j] !in r
    {
      assert AgedOrSpent(w.fireballs[j], aged[j]);
      assert aged[j].lifetime <= 0;
    }
  }

  // ---------------------------------------------------------------- shooting

  /** Within 250 ms of the last shot nothing happens; otherwise the shot timer is set,
      also when there is nothing to aim at, and with no zombie nothing else changes. */
  lemma ShotSpec(w: World, now: int, sqrt: real -> real)
    requires WellFormed(w)
    ensures now - w.lastShot < ShootDelay ==> Shot(w, now, sqrt) == w
    ensures now - w.lastShot >= ShootDelay ==> Shot(w, now, sqrt).lastShot == now
    ensures now - w.lastShot >= ShootDelay && |w.zombies| == 0 ==> Shot(w, now, sqrt) == w.(lastShot := now)
    ensures now - w.lastShot >= ShootDelay && |w.zombies| > 0 ==> Shot(w, now, sqrt) == Fire(w.(lastShot := now), sqrt)
  {
  }

  /** Multishot comes first: one bullet of damage 12 and lifetime 1200 for each of the
      (up to) three zombies closest to the player, appended closest first; no live
      zombie left out is closer than any of them. */
  lemma FireMultishot(w: World, sqrt: real -> real)
    requires WellFormed(w) && |w.zombies| > 0 && w.player.powers.multishot
    ensures var r := Fire(w, sqrt); var ts := MultishotTargets(w);
      && r == w.(bullets := r.bullets)
      && |r.bullets| == |w.bullets| + Min(MultishotCount, |w.zombies|)
      && r.bullets[..|w.bullets|] == w.bullets
      && (forall j :: 0 <= j < |ts| ==>
           var b := r.bullets[|w.bullets| + j];
           && b.target == Some(ts[j].id) && ts[j].id in w.zombies
           && b.damage == 12 && b.lifetime == 1200 && b.speed == 6.0 && !b.isLightning
           && b.x == w.player.x && b.y == w.player.y)
      && SortedByDistance(ts)
      && (forall k, j :: 0 <= k < |w.zombies| && 0 <= j < |ts| && w.zombies[k] !in TargetIds(ts) ==>
           SqDist(w.spawned[ts[j].id].x, w.spawned[ts[j].id].y, w.player.x, w.player.y)
           <= SqDist(w.spawned[w.zombies[k]].x, w.spawned[w.zombies[k]].y, w.player.x, w.player.y))
  {
    var r := Fire(w, sqrt);
    var ts := MultishotTargets(w);
    assert r.bullets == w.bullets + Volley(ts, w.spawned, w.player, sqrt);
  }

  /** Without multishot, fire adds one fireball of damage 25 and lifetime 1500 homing
      on the nearest zombie. */
  lemma FireFireball(w: World, sqrt: real -> real)
    requires WellFormed(w) && |w.zombies| > 0 && !w.player.powers.multishot && w.player.powers.fire
    ensures var r := Fire(w, sqrt); var f := r.fireballs[|r.fireballs| - 1];
      && r == w.(fireballs := r.fireballs)
      && r.fireballs[..|r.fireballs| - 1] == w.fireballs && |r.fireballs| == |w.fireballs| + 1
      && f.target == Some(Nearest(w.zombies, w.spawned, w.player.x, w.player.y))
      && f.damage == 25 && f.lifetime == 1500 && f.speed == 5.0 && !f.isLightning
      && f.x == w.player.x && f.y == w.player.y
  {
    var r := Fire(w, sqrt);
    assert r.fireballs[..|r.fireballs| - 1] == w.fireballs;
  }

  /** Otherwise one bullet homing on the nearest zombie: a lightning bullet (speed 8,
      damage 30) with the lightning power, else a plain one (speed 7, damage 20). */
  lemma FirePlain(w: World, sqrt: real -> real)
    requires WellFormed(w) && |w.zombies| > 0 && !w.player.powers.multishot && !w.player.powers.fire
    ensures var r := Fire(w, sqrt); var b := r.bullets[|r.bullets| - 1]; var l := w.player.powers.lightning;
      && r == w.(bullets := r.bullets)
      && r.bullets[..|r.bullets| - 1] == w.bullets && |r.bullets| == |w.bullets| + 1
      && b.target == Some(Nearest(w.zombies, w.spawned, w.player.x, w.player.y))
      && b.isLightning == l && b.damage == (if l then 30 else 20) && b.speed == (if l then 8.0 else 7.0)
      && b.lifetime == 1200 && b.x == w.player.x && b.y == w.player.y
  {
    var r := Fire(w, sqrt);
    assert r.bullets[..|r.bullets| - 1] == w.bullets;
  }

  // ---------------------------------------------------------------- clock and difficulty

  /** While paused the clock stands still. Otherwise game time gains 16 ms, and once
      more than two minutes have passed since the last increase the wave goes up by
      one, the cap by 5 + floor(wave / 2) of the new wave, speed by 0.15, health by 8,
      and the spawn interval shrinks by 50 but not below 100. */
  lemma AdvanceClockSpec(w: World)
    ensures var r := AdvanceClock(w);
      && (w.gamePaused ==> r == w)
      && (!w.gamePaused ==> r.gameTime == w.gameTime + TickMs)
      && (!w.gamePaused && w.gameTime + TickMs - w.lastWaveIncrease > WaveInterval ==>
            && r == w.(gameTime := r.gameTime, wave := r.wave, lastWaveIncrease := r.lastWaveIncrease,
                       zombiesPerWave := r.zombiesPerWave, zombieSpeed := r.zombieSpeed,
                       zombieHealth := r.zombieHealth, zombieSpawnRate := r.zombieSpawnRate)
            && r.wave == w.wave + 1 && r.lastWaveIncrease == r.gameTime
            && r.zombiesPerWave == w.zombiesPerWave + 5 + (w.wave + 1) / 2
            && r.zombieSpeed == w.zombieSpeed + 0.15 && r.zombieHealth == w.zombieHealth + 8
            && 100 <= r.zombieSpawnRate && w.zombieSpawnRate - 50 <= r.zombieSpawnRate
            && (r.zombieSpawnRate == w.zombieSpawnRate - 50 || r.zombieSpawnRate == 100)
            && (100 <= w.zombieSpawnRate ==> r.zombieSpawnRate <= w.zombieSpawnRate))
      && (!w.gamePaused && w.gameTime + TickMs - w.lastWaveIncrease <= WaveInterval ==>
            r == w.(gameTime := w.gameTime + TickMs))
  {
    CapGrowthExact(w.wave + 1);
  }

  /** As written, the game never runs again after its first game over: the next
      frame finds `gameOver` set and stops the loop, the reset 100 ms later clears
      `gameOver` without requesting a frame, and from then on every frame leaves the
      state as the reset left it, although it is neither over nor paused. */
  lemma FrozenAfterGameOver(w: World, width: real, height: real, t1: int, t2: int, sqrt: real -> real)
    requires WellFormed(w) && w.gameOver
    ensures var stopped := RunFrame(Loop(w, true), t1, sqrt);
      var reset := GameOverCallbackAsWritten(stopped, width, height);
      && !stopped.scheduled && stopped.world == w
      && reset.world == Reset(w, width, height) && !reset.world.gameOver && !reset.world.gamePaused
      && !reset.scheduled && RunFrame(reset, t2, sqrt) == reset
  {
  }

  /** With the callback as intended, the frame after the reset runs a full `update` of
      the reset state and requests the next frame: the game goes on. */
  lemma RestartAfterGameOver(w: World, width: real, height: real, t1: int, t2: int, sqrt: real -> real)
    requires WellFormed(w) && w.gameOver
    ensures var stopped := RunFrame(Loop(w, true), t1, sqrt);
      var reset := GameOverCallback(stopped, width, height);
      var next := RunFrame(reset, t2, sqrt);
      && reset.world == Reset(w, width, height) && reset.scheduled
      && next == Loop(Tick(Reset(w, width, height), t2, sqrt), true)
  {
  }

  /** Nothing changes in a frame after game over or while paused; in particular the
      spawn timer keeps its old value while the frame timestamps run on. */
  lemma FrameGated(w: World, timestamp: int, sqrt: real -> real)
    requires WellFormed(w) && (w.gameOver || w.gamePaused)
    ensures Frame(w, timestamp, sqrt) == w
  {
  }

  /** Over a whole tick game time gains 16 ms unless the tick itself paused the game
      (a level-up to a multiple of 5), the wave rises by at most one, and the spawn
      timer moves only to the frame's timestamp. */
  lemma TickClock(w: World, timestamp: int, sqrt: real -> real)
    requires WellFormed(w)
    ensures var r := Tick(w, timestamp, sqrt);
      && ((!r.gamePaused && r.gameTime == w.gameTime + TickMs) || (r.gamePaused && r.gameTime == w.gameTime))
      && (r.wave == w.wave || r.wave == w.wave + 1)
      && (r.lastZombieSpawn == w.lastZombieSpawn || r.lastZombieSpawn == timestamp)
  {
    var w4 := Purge(ChaseFrom(SpawnGate(MovePlayer(w, sqrt), timestamp), 0, sqrt));
    var w6 := CollectFrom(Projectiles(w4, sqrt), 0, sqrt);
    assert Tick(w, timestamp, sqrt) == AdvanceClock(w6);
    ClockBeforeProjectiles(w, timestamp, sqrt);
    ClockThroughProjectiles(w4, sqrt);
    ClockStep(w6);
  }

  /** Moving, spawning, chasing and purging leave the clock and the wave alone. */
  lemma ClockBeforeProjectiles(w: World, timestamp: int, sqrt: real -> real)
    requires WellFormed(w)
    ensures var u := Purge(ChaseFrom(SpawnGate(MovePlayer(w, sqrt), timestamp), 0, sqrt));
      && u.gameTime == w.gameTime && u.wave == w.wave && u.gamePaused == w.gamePaused
      && (u.lastZombieSpawn == w.lastZombieSpawn || u.lastZombieSpawn == timestamp)
  {
  }

  /** The projectile and orb passes leave the clock, the wave and the spawn timer alone. */
  lemma ClockThroughProjectiles(v: World, sqrt: real -> real)
    requires WellFormed(v)
    ensures var u := CollectFrom(Projectiles(v, sqrt), 0, sqrt);
      u.gameTime == v.gameTime && u.wave == v.wave && u.lastZombieSpawn == v.lastZombieSpawn
  {
  }

  /** The clock end of a tick, stated for the state it starts from. */
  lemma ClockStep(v: World)
    ensures var r := AdvanceClock(v);
      && ((!r.gamePaused && r.gameTime == v.gameTime + TickMs) || (r.gamePaused && r.gameTime == v.gameTime))
      && (r.wave == v.wave || r.wave == v.wave + 1)
      && r.lastZombieSpawn == v.lastZombieSpawn
  {
  }

  /** The spawn gate fires exactly when more than the spawn interval has passed since
      the last spawn and fewer than three waves' worth of zombies are alive; it then
      schedules a burst of 3 + floor(1.5 wave) and restarts the timer. */
  lemma SpawnGateSpec(w: World, timestamp: int)
    requires 1 <= w.wave
    ensures var r := SpawnGate(w, timestamp);
      && (timestamp - w.lastZombieSpawn > w.zombieSpawnRate && |w.zombies| < w.zombiesPerWave * 3 ==>
            r == w.(pendingSpawns := w.pendingSpawns + 3 + w.wave * 3 / 2, lastZombieSpawn := timestamp))
      && (!(timestamp - w.lastZombieSpawn > w.zombieSpawnRate && |w.zombies| < w.zombiesPerWave * 3) ==> r == w)
  {
    BurstSizeExact(w.wave);
  }

  /** A spawn callback appends a zombie under a fresh id, makes it live, and keeps
      the invariant. */
  lemma SpawnOneSpec(w: World, x: real, y: real, r1: real, r2: real)
    requires 0.0 <= r1 < 1.0 && 0.0 <= r2 < 1.0 && 0 < w.pendingSpawns
    ensures var r := SpawnOne(w, x, y, r1, r2);
      && r.zombies == w.zombies + [|w.spawned|] && r.spawned[..|w.spawned|] == w.spawned
      && (IdsKnown(w.zombies, w.spawned) ==> |w.spawned| !in w.zombies)
      && r.pendingSpawns == w.pendingSpawns - 1
      && (Invariant(w) ==> Invariant(r))
  {
    var r := SpawnOne(w, x, y, r1, r2);
    assert r.spawned[..|w.spawned|] == w.spawned;
    if Invariant(w) {
      assert forall i :: 0 <= i < |r.zombies| ==> r.zombies[i] < |r.spawned|;
    }
  }

  /** The game starts in a state satisfying the invariant, with no entities, the
      starting difficulty and a fresh player in the middle of the canvas; a reset
      returns to exactly that state except for the spawn and shot timers, the input
      and the spawn callbacks already scheduled, which it keeps. */
  lemma InitialAndReset(w: World, width: real, height: real)
    ensures var i := Initial(width, height);
      && Invariant(i)
      && i.zombies == [] && i.spawned == [] && i.bullets == [] && i.fireballs == [] && i.lightningStrikes == []
      && i.xpOrbs == [] && i.wave == 1 && i.gameTime == 0 && i.lastWaveIncrease == 0
      && i.zombieSpawnRate == 800 && i.zombieSpeed == 1.2 && i.zombieHealth == 40 && i.zombiesPerWave == 15
      && !i.gameOver && !i.gamePaused && i.pendingSpawns == 0
      && i.player.x == width / 2.0 && i.player.y == height / 2.0 && i.player.speed == 3.5
      && i.player.health == 100.0 && i.player.maxHealth == 100.0 && i.player.kills == 0
      && i.player.level == 1 && i.player.xp == 0 && i.player.nextLevelXp == 100
      && i.player.powers == Powers(false, false, false)
    ensures Reset(w, width, height)
         == Initial(width, height).(lastZombieSpawn := w.lastZombieSpawn, lastShot := w.lastShot, keys := w.keys,
                                    mouseClicked := w.mouseClicked, pendingSpawns := w.pendingSpawns)
  {
  }

  // ---------------------------------------------------------------- movement and input

  /** With no movement key held the player stays where it is. */
  lemma NoKeysNoMove(w: World, sqrt: real -> real)
    requires forall k :: k in w.keys ==> k !in {"w", "a", "s", "d", "arrowup", "arrowleft", "arrowdown", "arrowright"}
    ensures MovePlayer(w, sqrt).player == w.player
  {
  }

  /** With an exact square root, any held direction, diagonal included, moves the
      player by exactly its speed. */
  lemma MoveStepLength(w: World, sqrt: real -> real)
    requires sqrt(1.0) == 1.0 && 0.0 < sqrt(2.0) && sqrt(2.0) * sqrt(2.0) == 2.0
    requires Axis(w.keys, "d", "arrowright", "a", "arrowleft") != 0 || Axis(w.keys, "s", "arrowdown", "w", "arrowup") != 0
    ensures var p := MovePlayer(w, sqrt).player;
      (p.x - w.player.x) * (p.x - w.player.x) + (p.y - w.player.y) * (p.y - w.player.y) == w.player.speed * w.player.speed
  {
    var mx := Axis(w.keys, "d", "arrowright", "a", "arrowleft") as real;
    var my := Axis(w.keys, "s", "arrowdown", "w", "arrowup") as real;
    var len := sqrt(mx * mx + my * my);
    assert len * len == mx * mx + my * my && 0.0 < len;
    var nx, ny := Normalize(mx, len), Normalize(my, len);
    assert nx * nx + ny * ny == 1.0 by {
      assert nx * nx + ny * ny == (mx * mx + my * my) / (len * len);
    }
    var sp := w.player.speed;
    assert (nx * sp) * (nx * sp) + (ny * sp) * (ny * sp) == (nx * nx + ny * ny) * (sp * sp);
  }

  /** Key presses and left clicks are ignored while paused; releases are not. */
  lemma InputWhilePaused(w: World, key: string, button: int, now: int, sqrt: real -> real)
    requires WellFormed(w) && w.gamePaused
    ensures KeyDown(w, key) == w && MouseDown(w, button, now, sqrt) == w
    ensures key !in KeyUp(w, key).keys && MouseUp(w, 0).mouseClicked == false
  {
  }

  /** Choosing a power-up resumes the game and turns on exactly the named power. */
  lemma SelectSpec(w: World, power: string)
    ensures var r := Select(w, power);
      && !r.gamePaused && r == w.(player := r.player, gamePaused := false)
      && r.player == w.player.(powers := SelectPower(w.player.powers, power))
      && Select(r, power) == r
  {
    SelectPowerIdempotent(w.player.powers, power);
  }

  // ---------------------------------------------------------------- experience orbs

  /** An orb close enough to the player is spliced out and its value added, with a
      level check; otherwise it only drifts and stays at its index. */
  lemma OrbStepSpec(w: World, k: nat, sqrt: real -> real)
    requires k < |w.xpOrbs|
    ensures var r := OrbStep(w, k, sqrt); var o := w.xpOrbs[k];
      var picked := sqrt(SqDist(w.player.x, w.player.y, o.x, o.y)) < PlayerSize / 2.0 + XpOrbSize / 2.0;
      && (picked ==> r.xpOrbs == w.xpOrbs[..k] + w.xpOrbs[k + 1..]
                     && r.player == LevelUp(w.player.(xp := w.player.xp + o.value)))
      && (!picked ==> |r.xpOrbs| == |w.xpOrbs| && r.player == w.player
                      && r.xpOrbs[..k] == w.xpOrbs[..k] && r.xpOrbs[k + 1..] == w.xpOrbs[k + 1..]
                      && r.xpOrbs[k].value == o.value)
  {
  }

  /** Two orbs on top of the player: the first is picked up, the second slides into
      its index, and the loop, moving on to the next index, skips it this tick. */
  lemma OrbSkipped(w: World, sqrt: real -> real)
    requires sqrt(0.0) == 0.0 && ProgressOk(w.player) && w.player.nextLevelXp > w.player.xp + KillXp
    requires w.xpOrbs == [Orb(w.player.x, w.player.y, KillXp), Orb(w.player.x, w.player.y, KillXp)]
    ensures CollectFrom(w, 0, sqrt).xpOrbs == [Orb(w.player.x, w.player.y, KillXp)]
    ensures CollectFrom(w, 0, sqrt).player.xp == w.player.xp + KillXp
  {
    assert SqDist(w.player.x, w.player.y, w.player.x, w.player.y) == 0.0;
    assert w.xpOrbs[..0] + w.xpOrbs[1..] == [Orb(w.player.x, w.player.y, KillXp)];
    var w1 := OrbStep(w, 0, sqrt);
    assert w1.xpOrbs == [Orb(w.player.x, w.player.y, KillXp)];
    assert CollectFrom(w, 0, sqrt) == CollectFrom(w1, 1, sqrt) == w1;
  }
}

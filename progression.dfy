/** Experience and levels, power-up choice, and the arithmetic of difficulty
    escalation and of a spawn burst. */
module Progression {
  import opened Entities

  /** `Math.floor(n * 1.25)`, the next experience threshold. */
  function NextThreshold(n: int): int
  {
    (n as real * 1.25).Floor
  }

  /** The rounding is exact integer arithmetic. */
  lemma NextThresholdExact(n: int)
    ensures NextThreshold(n) == n * 5 / 4
  {
    var q := n * 5 / 4;
    assert q * 4 <= n * 5 < q * 4 + 4;
    assert q as real <= n as real * 1.25 < q as real + 1.0;
  }

  /** The threshold never shrinks and stays at least 100 once it is. */
  lemma NextThresholdGrows(n: int)
    requires 100 <= n
    ensures n < NextThreshold(n)
  {
    NextThresholdExact(n);
  }

  /** Whether `checkLevelUp` finds enough experience for a level. */
  predicate CanLevelUp(p: Player)
  {
    p.xp >= p.nextLevelXp
  }

  /** The player after `checkLevelUp` (script.js:516-521): at most one level, with the
      surplus experience carried over. */
  function LevelUp(p: Player): Player
  {
    if CanLevelUp(p) then
      p.(level := p.level + 1, xp := p.xp - p.nextLevelXp, nextLevelXp := NextThreshold(p.nextLevelXp))
    else p
  }

  /** Whether `checkLevelUp` opens the power-up screen: the new level is a multiple of 5
      (script.js:523-525). */
  predicate PausesOnLevelUp(p: Player)
  {
    CanLevelUp(p) && (p.level + 1) % 5 == 0
  }

  lemma LevelUpSpec(p: Player)
    ensures CanLevelUp(p) ==>
      && LevelUp(p).level == p.level + 1
      && LevelUp(p).xp == p.xp - p.nextLevelXp
      && 0 <= LevelUp(p).xp
      && LevelUp(p).nextLevelXp == p.nextLevelXp * 5 / 4
      && LevelUp(p) == p.(level := p.level + 1, xp := p.xp - p.nextLevelXp, nextLevelXp := p.nextLevelXp * 5 / 4)
    ensures !CanLevelUp(p) ==> LevelUp(p) == p
    ensures PausesOnLevelUp(p) <==> LevelUp(p).level != p.level && LevelUp(p).level % 5 == 0
  {
    NextThresholdExact(p.nextLevelXp);
  }

  /** One call gains one level even when the surplus would pay for another. */
  lemma OneLevelPerCall()
    ensures var p := Player(0.0, 0.0, 3.5, 100.0, 100.0, 1, 300, 100, 0, Powers(false, false, false));
      LevelUp(p).level == 2 && CanLevelUp(LevelUp(p))
  {
    NextThresholdExact(100);
  }

  /** The progression fields stay in the range a fresh game starts in. */
  ghost predicate ProgressOk(p: Player)
  {
    1 <= p.level && 0 <= p.xp && 100 <= p.nextLevelXp
  }

  lemma LevelUpKeepsProgressOk(p: Player)
    ensures ProgressOk(p) ==> ProgressOk(LevelUp(p))
  {
    if ProgressOk(p) && CanLevelUp(p) {
      NextThresholdGrows(p.nextLevelXp);
    }
  }

  /** The flags after a power-up card is clicked (script.js:538-548). */
  function SelectPower(pw: Powers, name: string): (r: Powers)
    ensures r.lightning == (pw.lightning || name == "lightning")
    ensures r.fire == (pw.fire || name == "fire")
    ensures r.multishot == (pw.multishot || name == "multishot")
  {
    if name == "lightning" then pw.(lightning := true)
    else if name == "fire" then pw.(fire := true)
    else if name == "multishot" then pw.(multishot := true)
    else pw
  }

  /** Choosing the same card twice is choosing it once; an unknown name changes nothing. */
  lemma SelectPowerIdempotent(pw: Powers, name: string)
    ensures SelectPower(SelectPower(pw, name), name) == SelectPower(pw, name)
    ensures name != "lightning" && name != "fire" && name != "multishot" ==> SelectPower(pw, name) == pw
  {
  }

  /** `3 + Math.floor(wave * 1.5)`, the zombies of one spawn burst (script.js:201). */
  function BurstSize(wave: int): int
  {
    3 + (wave as real * 1.5).Floor
  }

  lemma BurstSizeExact(wave: int)
    ensures BurstSize(wave) == 3 + wave * 3 / 2
    ensures 1 <= wave ==> 4 <= BurstSize(wave) && BurstSize(wave) < BurstSize(wave + 1)
  {
    var q := wave * 3 / 2;
    assert q * 2 <= wave * 3 < q * 2 + 2;
    assert q as real <= wave as real * 1.5 < q as real + 1.0;
    var q' := (wave + 1) * 3 / 2;
    assert q' * 2 <= (wave + 1) * 3 < q' * 2 + 2;
    assert (wave + 1) as real * 1.5 == wave as real * 1.5 + 1.5;
    assert q' as real <= (wave + 1) as real * 1.5 < q' as real + 1.0;
  }

  /** `Math.max(100, rate - 50)`, the spawn interval after a wave increase. */
  function NextSpawnRate(rate: int): (r: int)
    ensures 100 <= r && rate - 50 <= r
    ensures r == rate - 50 || r == 100
    ensures 100 <= rate ==> r <= rate
  {
    if 100 >= rate - 50 then 100 else rate - 50
  }

  /** `5 + Math.floor(wave / 2)`, the growth of the per-wave cap for the new wave. */
  function CapGrowth(wave: int): int
  {
    5 + (wave as real / 2.0).Floor
  }

  lemma CapGrowthExact(wave: int)
    ensures CapGrowth(wave) == 5 + wave / 2
    ensures 0 <= wave ==> 5 <= CapGrowth(wave)
  {
    var q := wave / 2;
    assert q * 2 <= wave < q * 2 + 2;
    assert q as real <= wave as real / 2.0 < q as real + 1.0;
  }
}

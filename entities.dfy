/** The entities of the survival shooter: the player, the zombies, the projectiles,
    the delayed lightning strikes and the experience orbs, plus the game's constants
    and the little geometry the simulation needs. Coordinates, health and speeds are
    exact reals; counters and timers are integers. */
module Entities {

  // Sizes in pixels (script.js:2-7).
  const PlayerSize: real := 40.0
  const ZombieSize: real := 35.0
  const XpOrbSize: real := 10.0
  const BulletSize: real := 8.0
  const FireballSize: real := 20.0
  const LightningRadius: real := 150.0

  /** Milliseconds one update takes off every lifetime and timer. */
  const TickMs: int := 16
  /** Minimum milliseconds between two shots (`shootDelay`). */
  const ShootDelay: int := 250
  /** Experience of one kill, and the value of the orb it drops. */
  const KillXp: int := 15
  const BurnDuration: int := 1500
  const BurnDamage: real := 0.8
  const ContactDamage: real := 0.8
  const KnockBack: real := 5.0
  const StrikeDamage: int := 40
  const StrikeLifetime: int := 600
  /** At most this many zombies are hit by one lightning strike. */
  const StrikeCap: nat := 5
  /** Bullets fired at once with the multishot power. */
  const MultishotCount: nat := 3
  /** Milliseconds of game time between two wave increases. */
  const WaveInterval: int := 120000
  const OrbAttractRadius: real := 150.0

  datatype Option<T> = None | Some(value: T)

  datatype Powers = Powers(multishot: bool, fire: bool, lightning: bool)

  /** The player record (`direction`, the facing angle, only feeds drawing). */
  datatype Player = Player(
    x: real, y: real, speed: real,
    health: real, maxHealth: real,
    level: int, xp: int, nextLevelXp: int, kills: int,
    powers: Powers)

  /** A zombie record (`direction` only feeds drawing). */
  datatype Zombie = Zombie(
    x: real, y: real, speed: real,
    health: real, maxHealth: real,
    burning: bool, burnTime: int)

  /** A bullet or a fireball: `target` is the id of the zombie it homes on;
      `isLightning` is false for fireballs and multishot bullets, which have no such field. */
  datatype Projectile = Projectile(
    x: real, y: real, dx: real, dy: real, speed: real,
    damage: int, lifetime: int,
    target: Option<nat>, isLightning: bool)

  datatype Strike = Strike(x: real, y: real, damage: int, lifetime: int)

  datatype Orb = Orb(x: real, y: real, value: int)

  function Min(a: int, b: int): int { if a <= b then a else b }

  /** `xs.filter(keep)`: every occurrence of an element that passes `keep`, and
      nothing else; one element is kept exactly when it passes. */
  function Filter<T>(xs: seq<T>, keep: T -> bool): (r: seq<T>)
    ensures |r| <= |xs|
    ensures |xs| == 1 ==> r == if keep(xs[0]) then xs else []
    ensures forall i :: 0 <= i < |r| ==> r[i] in xs && keep(r[i])
    ensures forall i :: 0 <= i < |xs| ==> multiset(r)[xs[i]] == if keep(xs[i]) then multiset(xs)[xs[i]] else 0
    decreases |xs|
  {
    if |xs| == 0 then []
    else
      assert xs == [xs[0]] + xs[1..];
      (if keep(xs[0]) then [xs[0]] else []) + Filter(xs[1..], keep)
  }

  /** Filtering distributes over concatenation: with the one-element case of
      `Filter`, the kept elements stay in their original order. */
  lemma {:induction false} FilterSplit<T>(xs: seq<T>, k: nat, keep: T -> bool)
    requires k <= |xs|
    ensures Filter(xs, keep) == Filter(xs[..k], keep) + Filter(xs[k..], keep)
    decreases k
  {
    if k == 0 {
      assert xs[..0] == [] && xs[0..] == xs;
    } else {
      var head := if keep(xs[0]) then [xs[0]] else [];
      var front, rest := xs[1..][..k - 1], xs[1..][k - 1..];
      assert xs[..k][0] == xs[0] && xs[..k][1..] == front;
      assert rest == xs[k..];
      FilterSplit(xs[1..], k - 1, keep);
      calc {
        Filter(xs, keep);
        head + Filter(xs[1..], keep);
        head + (Filter(front, keep) + Filter(rest, keep));
        (head + Filter(front, keep)) + Filter(rest, keep);
        Filter(xs[..k], keep) + Filter(xs[k..], keep);
      }
    }
  }

  /** Squared Euclidean distance, the quantity the source compares without a square root. */
  function SqDist(x1: real, y1: real, x2: real, y2: real): (d: real)
    ensures 0.0 <= d
  {
    (x1 - x2) * (x1 - x2) + (y1 - y2) * (y1 - y2)
  }

  /** JavaScript's `a / b` where `b` is a distance that may be zero; the source then
      produces NaN, which this model replaces by 0. */
  function Quot(a: real, b: real): real
  {
    if b == 0.0 then 0.0 else a / b
  }

  /** What the model requires of the `Math.sqrt` it is given: it is non-negative on
      non-negative arguments. */
  ghost predicate SqrtLike(sqrt: real -> real)
  {
    forall r :: 0.0 <= r ==> 0.0 <= sqrt(r)
  }
}

# Zombie survival shooter: the simulation core in Dafny

This project models the simulation of `script.js`, a browser game. The player walks
with the keyboard and shoots the nearest zombie with the mouse. Kills drop experience
orbs. Every fifth level pauses the game for a power-up choice: multishot, fire or
lightning. The difficulty escalates every two minutes of game time. Drawing and the
DOM are not modelled.

The model has two layers:

- `Rules` describes the state and every step of the game loop as values. `World`
  holds all the module-level variables of the script. Each function is one step as
  the script performs it: moving, the spawn gate, the zombie chase, the purge, the
  bullet, fireball, burn and lightning passes, orb pickup and the clock. Each step
  keeps `Invariant`: every id names a zombie record, the progression fields stay in
  range, every orb is worth 15, the wave is at least 1 and the spawn interval at least
  100.
- `Simulation.SimulationState` is a class whose fields are those variables. Its
  methods update the fields in place with the script's own loops. Each method is
  proved to leave exactly the state the matching `Rules` function computes. The
  scalars are grouped in two records, `Pace` (spawn clock, difficulty, game clock) and
  `Session` (keys, mouse button, shot timer, run flags). This is a representation
  choice only. `Snapshot()` flattens them back into a `World`.

The other modules:

- `Entities`: the records, the constants, and `Filter`, the order-keeping `filter` of
  the script.
- `Targeting`: the first-wins nearest-zombie scan, and the stable sort and slice that
  picks the closest few zombies.
- `Progression`: level-ups, power-up flags and the difficulty arithmetic.
- `TimeFormat`: `formatTime`.
- `Properties`: lemmas relating several steps.

Object identity becomes ids. `spawned` holds every zombie record ever created, indexed
by id. `zombies` is the live array of ids. A projectile's `target` is an optional id.
So a zombie filtered out of the live array can still be a projectile's (stale) target,
as an object reference can in the script.

Inputs the model cannot compute are parameters:

- `Math.sqrt` is a function `sqrt: real -> real`. Some lemmas require it to be
  non-negative (`SqrtLike`), or exact on the few values they need.
- `Date.now()` and the frame timestamp are integer parameters.
- The random spawn position and the two random factors are parameters.
- The canvas size is a parameter of the constructor and of the reset.

Some of the script's behaviour is easy to miss. The model follows it:

- Pausing does not freeze the spawn timer. The gate compares the raw frame timestamp
  with `lastZombieSpawn` (script.js:114, 140).
- A reset does not clear `lastZombieSpawn`, `lastShot`, the held keys or the spawn
  callbacks already scheduled (script.js:758-789).
- Player health is not clamped at 0 (script.js:160).
- A kill can be credited more than once. This happens when a second hit or a burn
  tick lands on a zombie that is already dead but not yet purged (script.js:174, 353).

## Model

| member | source | states |
|---|---|---|
| Targeting.FirstMin | script.js:434-443 | the index of a minimal key, with every earlier key strictly larger: the first minimum, as a strict `<` scan keeps it |
| Targeting.Nearest | script.js:431-443 | a live zombie whose squared distance is no larger than that of any live zombie |
| Targeting.FindNearest | script.js:428-443 | the scan loop returns the index of the first zombie of minimal squared distance, the one `Nearest` names |
| Targeting.Insert | script.js:449-453 | inserting into a sorted sequence keeps it sorted and adds exactly one element (multiset) |
| Targeting.SortByDistance | script.js:449-453 | the result is sorted by distance and is a permutation of the input |
| Targeting.Closest | script.js:449-453 | `sort(...).slice(0, k)` returns min(k, n) candidates, sorted, drawn from the input, and none farther than a candidate left out |
| Targeting.SplitSorted | script.js:453 | cutting a sorted sequence leaves no element in the tail closer than one in the head |
| Progression.NextThresholdExact | script.js:520 | `Math.floor(n * 1.25)` equals the integer `n * 5 / 4` |
| Progression.NextThresholdGrows | script.js:520 | a threshold of at least 100 strictly grows |
| Progression.LevelUpSpec | script.js:516-525 | with enough experience the level rises by one, the threshold is paid out of the experience (leaving it non-negative) and becomes floor(1.25 n); otherwise nothing changes; the power-up screen opens iff a level was gained and the new level is a multiple of 5 |
| Progression.OneLevelPerCall | script.js:517-521 | one call gains one level even when the surplus would pay for another |
| Progression.LevelUpKeepsProgressOk | script.js:516-521 | level at least 1, experience at least 0 and threshold at least 100 survive a level check |
| Progression.SelectPower | script.js:538-548 | the named flag is set and the other two are unchanged |
| Progression.SelectPowerIdempotent | script.js:538-548 | choosing the same power twice is choosing it once; an unknown name changes no flag |
| Progression.BurstSizeExact | script.js:201 | the burst is 3 + wave * 3 / 2, at least 4 and growing with the wave |
| Progression.NextSpawnRate | script.js:193 | the spawn interval after an increase is max(100, rate - 50): at least 100 and at least rate - 50, and equal to one of them; never above an old interval of at least 100 |
| Progression.CapGrowthExact | script.js:190 | the cap grows by 5 + wave / 2 of the new wave, at least 5 |
| TimeFormat.NatToString | script.js:755 | a non-empty string of decimal digits, one digit exactly below 10, and no leading zero from 10 on |
| TimeFormat.ParseNatToString | script.js:755 | reading the digits back gives the number |
| TimeFormat.PadStart | script.js:755 | `padStart`: the string at the end, pad characters before it, length at least the target |
| TimeFormat.JsRem | script.js:754 | JavaScript's `%` lies strictly between -b and b, agrees with the Euclidean remainder on non-negative dividends, and on negative ones is at most 0, the negated remainder of the magnitude |
| TimeFormat.PadTwoDigits | script.js:755 | seconds below 60 become exactly their tens digit and their units digit |
| TimeFormat.ClockTextSpec | script.js:755 | the text is the minutes, a colon and the two digits of the seconds |
| TimeFormat.FormatTimeSpec | script.js:752-756 | for ms >= 0: floor(ms / 60000), a colon, and two digits whose value is the seconds within the minute, in 0..59 |
| TimeFormat.FormatTimeNegative | script.js:752-756 | a negative time is not guarded: -1 ms renders as "-1:-1" |
| Entities.Filter | script.js:174 | `filter`: every element of the result passes and comes from the input; every occurrence of a passing element is kept and none of a failing one; a single element is kept iff it passes |
| Entities.FilterSplit | script.js:174 | filtering distributes over concatenation, so the kept elements stay in their original order |
| Rules.Reset | script.js:758-789 | the state after `resetGame` satisfies the invariant |
| Rules.CreditKill | script.js:272-277 | a kill changes only the player, the orbs and the pause flag, and keeps the invariant |
| Rules.MovePlayer | script.js:125-133 | moving changes only the player's position and keeps the invariant |
| Rules.SpawnGate | script.js:140-143 | the spawn gate keeps the invariant |
| Rules.NewZombie | script.js:209-218 | a new zombie is at the given point, not burning, with speed in [0.9, 1.2] and health in [0.8, 1.3] times the current base values |
| Rules.ChaseStep | script.js:146-171 | one zombie's chase costs the player exactly 0.8 health on contact (distance below 37.5) and nothing otherwise; the game is over afterwards iff it was before or the contact left the health at 0 or below; only zombie records, the health and the game-over flag change |
| Rules.ChaseFrom | script.js:146-171 | the chase loop costs the player 0.8 health per contact (`ContactsFrom`); the game is over afterwards iff it was before or some contact happened and the health ended at 0 or below; only zombie records, the health and the game-over flag change, and the invariant is kept |
| Rules.LiveIds | script.js:174 | the filter keeps exactly the live-array ids whose health is above 0; it is an `Entities.Filter`, so they keep the order of the live array (`Entities.FilterSplit`) |
| Rules.Purge | script.js:174 | the purge changes only the live array and keeps the invariant |
| Rules.TurnToward | script.js:229-235 | turning changes only the direction |
| Rules.Steer | script.js:226-253 | a target still in the live array is kept; otherwise, with zombies left, the nearest live zombie is taken and the direction is not changed this tick; with none left the projectile is unchanged and keeps its stale target |
| Rules.BulletStep | script.js:225-281 | one bullet keeps the invariant, the live array, the fireballs and the clock, and never removes a strike; bullet i ends with 16 ms less lifetime or, spent, with 0, and no other bullet changes |
| Rules.BulletHit | script.js:264-280 | a bullet hit keeps the invariant, the live array, the fireballs and the clock, and spends the bullet (lifetime 0) without touching the other bullets |
| Rules.BulletsFrom | script.js:225-282 | the bullet loop from index i keeps the invariant, the live array, the fireballs and the clock; bullet j is left alone if j < i and otherwise ends with its lifetime less 16 ms or with 0 |
| Rules.FireballStep | script.js:287-339 | one fireball keeps the invariant, the live array, the bullets, the strikes and the clock; fireball i ends with 16 ms less lifetime or, spent, with 0, and no other fireball changes |
| Rules.FireballHit | script.js:320-338 | a fireball hit keeps the invariant, the live array, the bullets, the strikes and the clock, and spends the fireball (lifetime 0) without touching the other fireballs |
| Rules.FireballsFrom | script.js:287-339 | the fireball loop from index i keeps the invariant; fireball j is left alone if j < i and otherwise ends with its lifetime less 16 ms or with 0 |
| Rules.Surviving | script.js:284 | the filter keeps exactly the projectiles with positive lifetime, in their order (an `Entities.Filter`) |
| Rules.BurnStep | script.js:345-359 | one burn tick changes only zombie records and the progression state and keeps the invariant |
| Rules.BurnFrom | script.js:344-360 | the burn loop changes only zombie records and the progression state |
| Rules.InRange | script.js:368-380 | the candidates in range are at most the live zombies, each naming a zombie record |
| Rules.StrikeTargets | script.js:382-384 | the strike's targets name zombie records |
| Rules.ApplyStrike | script.js:386-396 | discharging changes only zombie records and the progression state and keeps the invariant |
| Rules.StrikeStep | script.js:363-397 | one strike keeps the number of strikes, the live array, the projectiles and the clock |
| Rules.Resolve | script.js:366-397 | a due strike changes only zombie records and the progression state and keeps the invariant |
| Rules.StrikesFrom | script.js:363-397 | the lightning loop keeps the invariant |
| Rules.SurvivingStrikes | script.js:400 | the filter keeps exactly the strikes with positive lifetime, in their order (an `Entities.Filter`) |
| Rules.BulletPhase | script.js:225-284 | the bullet pass keeps the invariant, the live array, the fireballs and the clock |
| Rules.FireballPhase | script.js:287-341 | the fireball pass keeps the invariant, the live array and the clock |
| Rules.StrikePhase | script.js:363-400 | the lightning pass keeps the invariant, the live array and the clock |
| Rules.Projectiles | script.js:223-401 | `updateProjectiles` keeps the invariant, the live array and the clock |
| Rules.OrbStep | script.js:404-419 | one orb changes only the progression state, never adds an orb, and keeps the invariant |
| Rules.CollectFrom | script.js:403-421 | the orb loop changes only the progression state and keeps the invariant |
| Rules.AdvanceClock | script.js:183-195 | the clock step keeps the invariant (wave at least 1, interval at least 100) |
| Rules.Tick | script.js:123-198 | a whole `update` keeps the invariant |
| Rules.Frame | script.js:109-121 | a whole frame keeps the invariant |
| Rules.RunFrame | script.js:109-121 | a frame runs only if one was requested; it then runs `Frame` and requests the next frame exactly when the game is not over |
| Rules.GameOverCallbackAsWritten | script.js:166-169 | the game-over callback as written: it resets the game and leaves the frame loop as it was |
| Rules.GameOverCallback | script.js:166-169 | the game-over callback as intended: it resets the game and the frame loop is requested again |
| Rules.Aim | script.js:456-503 | a shot starts at the player, targets the given zombie and carries the given speed, damage, lifetime and kind |
| Rules.MultishotTargets | script.js:447-453 | min(3, live zombies) targets, closest first, each a live zombie with its squared distance from the player; no live zombie left out is closer than any of them |
| Rules.Shot | script.js:423-505 | a shot keeps the invariant |
| Rules.Fire | script.js:445-504 | firing keeps the invariant |
| Properties.CreditKillSpec | script.js:272-277 | a kill adds one orb worth 15 at the corpse and one kill; the level rises by at most one, exactly when the 15 experience reach the threshold, which is then paid out of the experience |
| Properties.InRangeSpec | script.js:368-380 | a candidate is collected iff it is a live zombie with its own distance, strictly below 150 |
| Properties.FalloffBounds | script.js:387 | for distances in [0, 150) the damage 40 * (1 - d / 150) is in (0, 40], and exactly 40 at distance 0 |
| Properties.StrikeTargetsSpec | script.js:368-387 | a strike hits min(5, in range) live zombies strictly within the radius, closest first, none farther than one in range it leaves out, each for a damage in (0, 40] |
| Properties.ApplyStrikeEffect | script.js:386-396 | discharging lowers each zombie's health by the summed falloff damage of the targets naming it and changes nothing else about it |
| Properties.StrikeStepAges | script.js:364-366 | a pass ages strike i by 16 ms and leaves the other strikes alone |
| Properties.StrikeStepSpec | script.js:363-397 | a strike still above 0 after losing 16 ms changes nothing but its lifetime; one that reaches 0 or below discharges on that same pass (`Resolve`), at its own point and with its own damage |
| Properties.ResolveSpec | script.js:366-397 | a discharge lowers each zombie's health by the summed falloff damage of the strike's targets naming it (the nearest in range, see `StrikeTargetsSpec`) and changes nothing else about it |
| Properties.StrikesFromAges | script.js:363-397 | the lightning loop run from index i keeps the number of strikes, ages strike j by 16 ms if j >= i and leaves it otherwise |
| Properties.StrikePhaseSpec | script.js:363-400 | after the lightning pass exactly the strikes whose aged lifetime is above 0 remain, in their order (`LightningPass`), each with lifetime above 0 |
| Properties.LonePass | script.js:364-400 | one pass keeps a single strike, aged by 16 ms, exactly when it stays above 0 |
| Properties.PassKeeps | script.js:364-400 | a pass keeps strike i, aged by 16 ms, exactly when its aged lifetime is above 0 |
| Properties.NthPass | script.js:364-400 | the n-th pass on a new strike (600 - 16(n - 1) ms left) keeps it with 600 - 16n ms exactly when n <= 37 |
| Properties.LifespanStep | script.js:363-400 | from m to m + 1 passes a new strike still alive is aged by 16 ms or, on the 38th pass, removed, and a removed strike stays gone |
| Properties.StrikeLifespan | script.js:363-400 | a strike just created (lifetime 600) is still the only strike, with 600 - 16n ms left, after each of the first 37 passes, and is gone from the 38th pass on |
| Properties.StrikeTicks | script.js:363-400 | a strike created with 600 and still there after n passes has n <= 37; its next pass only ages it and keeps it when that pass is not the 38th, and on the 38th it discharges and is not kept: it discharges exactly once |
| Properties.FireballHitSpec | script.js:324-338 | a fireball hit takes its damage off the target, sets burning and resets the burn timer to 1500 whatever remained (refresh, not stack), spends the fireball, and credits a kill iff the health falls to 0 or below |
| Properties.BurnStepSpec | script.js:344-359 | a burning zombie loses 16 ms of burn and 0.8 health and stops burning once the timer is at 0 or below; a kill is credited iff its health is then 0 or less; a zombie that is not burning is left alone |
| Properties.BurnCreditsCorpse | script.js:344-359 | a burning zombie that is already dead but not yet purged is credited again |
| Properties.BulletStepSpec | script.js:225-281 | a bullet is steered, moved and aged by 16 ms; a touching bullet takes its damage off its target, leaves a strike if it is a lightning bullet, credits a kill iff the health falls to 0 or below, and is spent; otherwise only the bullet changes |
| Properties.StaleTargetHit | script.js:226-267 | with no live zombie, a bullet keeps its stale target and still damages that removed zombie on contact |
| Properties.BulletPhaseSpec | script.js:225-284 | after the bullet loop every bullet has its lifetime less 16 ms or 0; the filter then keeps exactly those above 0, in their order, so a bullet that had 16 ms or less is gone |
| Properties.FireballStepSpec | script.js:287-339 | a fireball is steered, moved and aged by 16 ms; one touching its target at fireball size takes its damage off it, sets it burning for a full 1500 ms, credits a kill iff the health falls to 0 or below, and is spent; otherwise only the fireball changes |
| Properties.FireballPhaseSpec | script.js:287-341 | after the fireball loop every fireball has its lifetime less 16 ms or 0; the filter then keeps exactly those above 0, in their order, so a fireball that had 16 ms or less is gone |
| Properties.ShotSpec | script.js:424-428 | within 250 ms of the last shot nothing changes; otherwise the timer is set, also with no zombie, and then nothing else changes |
| Properties.FireMultishot | script.js:445-470 | multishot takes precedence and appends min(3, live) bullets (speed 6, damage 12, lifetime 1200) at live zombies, closest first; no live zombie left out is closer than any of them |
| Properties.FireFireball | script.js:471-489 | otherwise fire appends one fireball (speed 5, damage 25, lifetime 1500) homing on the nearest zombie |
| Properties.FirePlain | script.js:490-504 | otherwise one bullet homing on the nearest zombie, lightning (speed 8, damage 30) iff the power is held, else plain (speed 7, damage 20), lifetime 1200 |
| Properties.AdvanceClockSpec | script.js:183-195 | paused: nothing changes; otherwise game time gains 16, and after more than 120000 ms the wave rises by one, the time is recorded, the cap grows by 5 + floor(wave / 2) of the new wave, speed by 0.15, health by 8, and the interval becomes max(100, rate - 50); otherwise only game time changes |
| Properties.TickClock | script.js:123-198 | over one `update` game time gains 16 unless the tick paused the game, the wave rises by at most one, and the spawn timer moves only to the timestamp |
| Properties.ClockStep | script.js:183-195 | the clock step changes game time by 16 or (when paused) not at all, the wave by at most one, and never the spawn timer |
| Properties.ClockBeforeProjectiles | script.js:125-174 | moving, the spawn gate, the chase and the purge leave game time, wave and pause flag alone |
| Properties.ClockThroughProjectiles | script.js:223-421 | the projectile and orb passes leave game time, wave and spawn timer alone |
| Properties.FrameGated | script.js:109-116 | after game over or while paused a frame changes nothing, so the spawn timer also stands while timestamps run on |
| Properties.FrozenAfterGameOver | script.js:109-121 | as written, after game over the next frame stops the loop; the reset clears game over without requesting a frame, and every later frame changes nothing though the game is neither over nor paused |
| Properties.RestartAfterGameOver | script.js:109-121 | with the callback as intended, the frame after the reset runs `update` on the reset state and requests the next frame |
| Properties.SpawnGateSpec | script.js:140-143 | a burst of 3 + floor(1.5 wave) callbacks is scheduled and the timer restarted exactly when the interval has passed and fewer than three waves' worth are alive; otherwise nothing changes |
| Properties.SpawnOneSpec | script.js:203-219 | a spawn callback appends a zombie under a fresh id and makes it live, uses up one callback, and keeps the invariant |
| Properties.InitialAndReset | script.js:758-789 | the initial state satisfies the invariant and holds no entities, the starting difficulty, game time 0 and a fresh player in the middle of the canvas; a reset yields exactly that state except that it keeps the spawn and shot timers, the keys, the mouse button and the spawn callbacks already scheduled |
| Properties.NoKeysNoMove | script.js:125-133 | with no movement key held the player does not move |
| Properties.MoveStepLength | script.js:125-133 | with an exact square root, any held direction, diagonals included, moves the player by exactly its speed |
| Properties.InputWhilePaused | script.js:82-106 | key presses and left clicks are ignored while paused; a key release and a mouse-up still register |
| Properties.SelectSpec | script.js:535-551 | choosing a power-up resumes the game, sets exactly the named power, and is idempotent |
| Properties.OrbStepSpec | script.js:404-419 | an orb within 25 of the player is spliced out and its value added with a level check; otherwise only that orb drifts, keeping its value and index |
| Properties.OrbSkipped | script.js:404-420 | of two orbs on the player only the first is collected this tick: the second slides into its index and the loop moves past it |
| Simulation.SimulationState.constructor | script.js:11-47 | the initial state is `Rules.Initial` and satisfies the invariant |
| Simulation.SimulationState.HandleKeyDown | script.js:82-84 | the state becomes `Rules.KeyDown` of the old state |
| Simulation.SimulationState.HandleKeyUp | script.js:86-88 | the state becomes `Rules.KeyUp` of the old state |
| Simulation.SimulationState.HandleMouseDown | script.js:97-102 | the state becomes `Rules.MouseDown` of the old state, and the invariant is kept |
| Simulation.SimulationState.HandleMouseUp | script.js:104-106 | the state becomes `Rules.MouseUp` of the old state |
| Simulation.SimulationState.SelectPowerup | script.js:535-551 | the state becomes `Rules.Select` of the old state, and the invariant is kept |
| Simulation.SimulationState.ResetGame | script.js:758-789 | the state becomes `Rules.Reset` of the old state, which satisfies the invariant |
| Simulation.SimulationState.ResetEntities | script.js:759-779 | a fresh player and empty entity arrays, everything else as it was |
| Simulation.SimulationState.ResetDifficulty | script.js:780-786 | wave, clocks and difficulty back to their starting values, everything else as it was |
| Simulation.SimulationState.ShowPowerupCards | script.js:529-530 | only the pause flag is set |
| Simulation.SimulationState.CheckLevelUp | script.js:516-527 | the state becomes `Rules.LevelCheck` of the old state |
| Simulation.SimulationState.AwardKill | script.js:272-277 | the state becomes `Rules.CreditKill` of the old state |
| Simulation.SimulationState.LightningStrike | script.js:507-514 | exactly one strike of damage 40 and lifetime 600 is appended |
| Properties.NewStrikeSpec | script.js:507-514 | a new strike sits at the given point with damage 40 and lifetime 600 |
| Simulation.SimulationState.SpawnZombieWave | script.js:200-221 | exactly the burst size of callbacks is added to the pending ones, nothing else changes |
| Simulation.SimulationState.SpawnZombie | script.js:203-219 | the state becomes `Rules.SpawnOne` of the old state, and the invariant is kept |
| Simulation.SimulationState.Shoot | script.js:423-505 | the state becomes `Rules.Shot` of the old state, and the invariant is kept |
| Simulation.SimulationState.FireAtNearest | script.js:431-504 | the state becomes `Rules.Fire` of the old state |
| Simulation.SimulationState.FireVolley | script.js:455-470 | exactly the volley's bullets are appended, in target order |
| Simulation.SimulationState.ChaseZombie | script.js:146-171 | the state becomes `Rules.ChaseStep` of the old state |
| Simulation.SimulationState.UpdateZombies | script.js:146-171 | the state becomes `Rules.ChaseFrom` of the old state |
| Simulation.SimulationState.StepBullet | script.js:225-281 | the state becomes `Rules.BulletStep` of the old state |
| Simulation.SimulationState.HitWithBullet | script.js:264-280 | the state becomes `Rules.BulletHit` of the old state |
| Simulation.SimulationState.StepFireball | script.js:287-339 | the state becomes `Rules.FireballStep` of the old state |
| Simulation.SimulationState.HitWithFireball | script.js:320-338 | the state becomes `Rules.FireballHit` of the old state |
| Simulation.SimulationState.Burn | script.js:345-359 | the state becomes `Rules.BurnStep` of the old state |
| Simulation.SimulationState.StepStrike | script.js:363-397 | the state becomes `Rules.StrikeStep` of the old state |
| Simulation.SimulationState.ScanRadius | script.js:368-380 | the collected candidates are `Rules.InRange` of the live array (see `Properties.InRangeSpec`) |
| Simulation.SimulationState.Discharge | script.js:386-396 | the state becomes `Rules.ApplyStrike` over all chosen targets |
| Simulation.SimulationState.UpdateProjectiles | script.js:223-401 | the state becomes `Rules.Projectiles` of the old state |
| Simulation.SimulationState.UpdateBullets | script.js:225-284 | the state becomes `Rules.BulletPhase` of the old state |
| Simulation.SimulationState.UpdateFireballs | script.js:287-341 | the state becomes `Rules.FireballPhase` of the old state |
| Simulation.SimulationState.UpdateBurning | script.js:344-360 | the state becomes `Rules.BurnFrom` of the old state |
| Simulation.SimulationState.UpdateLightning | script.js:363-400 | the state becomes `Rules.StrikePhase` of the old state |
| Simulation.SimulationState.UpdateXpOrbs | script.js:403-421 | the state becomes `Rules.CollectFrom` of the old state |
| Simulation.SimulationState.UpdateXpOrb | script.js:404-419 | the state becomes `Rules.OrbStep` of the old state |
| Simulation.SimulationState.Update | script.js:123-198 | the state becomes `Rules.Tick` of the old state |
| Simulation.SimulationState.MoveFromKeys | script.js:125-133 | the state becomes `Rules.MovePlayer` of the old state |
| Simulation.SimulationState.CheckSpawn | script.js:140-143 | the state becomes `Rules.SpawnGate` of the old state |
| Simulation.SimulationState.AdvanceTime | script.js:183-195 | the state becomes `Rules.AdvanceClock` of the old state |
| Simulation.SimulationState.GameLoop | script.js:109-121 | the state becomes `Rules.Frame` of the old state, and the invariant is kept |

## Left out

- Drawing, the camera offset, `updateUI`, `resizeCanvas`, the listener wiring of `init` and the DOM parts of `showPowerupCards`, `selectPowerup` and `resetGame` (script.js:50-79, 135-137, 197, 531-532, 550, 554-750, 791): output only.
- `handleMouseMove` (script.js:90-95): the mouse position and the facing angle feed only drawing.
- The `atan2` facing of the player and of the zombies (script.js:94, 155): drawing only.
- The `setTimeout` staggering of spawns (script.js:203, 219): scheduling. Each burst adds to `pendingSpawns`, and `SpawnZombie` is one callback running, at any later time the environment chooses; the 300 ms spacing is not modelled.
- `requestAnimationFrame` (script.js:120) is modelled only by whether a next frame is requested (`Rules.Loop`, `Rules.RunFrame`). `Simulation.SimulationState.GameLoop` runs one frame and does not track this.
- The game-over `alert` (script.js:167): I/O. The 100 ms delay of its callback is not modelled; the model takes frames to arrive more often than that, so the loop has stopped before the reset runs. `ResetGame` is the reset the callback runs. Every zombie whose contact leaves the health at 0 or below in the same chase loop schedules its own alert and reset (script.js:164-169), so several may be queued; the model does not capture that multiplicity.
- `Math.random` (script.js:204-213): the spawn point and the two stat factors are parameters, with the factors in [0, 1).
- `Math.sqrt` is a parameter, not computed. Floating-point rounding is not modelled: coordinates, speeds and health are exact reals.
- Division by a zero distance yields NaN in the script (script.js:161-162, 411-412, 463-464, 480-481, 496-497). `Quot` makes it 0 instead.
- Key names arrive already lower-cased: `toLowerCase` is not modelled (script.js:83, 87).
- `spawnXpOrb` is called at script.js:273, 330, 354 and 391 but is not defined in script.js; whatever defines it is not part of this model. The model takes it to append an orb of the given value at the given point. If nothing defines it, the first kill throws a `ReferenceError` out of `update`, the frame in progress ends before requesting the next one, and the game stops; the model does not capture that.
- `Rules.InRange`, `Rules.StrikeTargets`, `Rules.MultishotTargets`: `Array.prototype.sort` is modelled as a stable insertion sort. Since ES2019 the sort must be stable, so equal distances keep their array order, as in the model; the contracts state sortedness and the nearest-first choice, not that tie order.
- `Rules.NewZombie`: its speed and health bounds hold only for non-negative base values, which the invariant does not track.
- The methods `ResetEntities`, `ResetDifficulty`, `FireAtNearest`, `FireVolley`, `ChaseZombie`, `StepBullet`, `HitWithBullet`, `StepFireball`, `HitWithFireball`, `Burn`, `StepStrike`, `ScanRadius`, `Discharge`, `UpdateBullets`, `UpdateFireballs`, `UpdateBurning`, `UpdateLightning`, `UpdateXpOrb`, `MoveFromKeys`, `CheckSpawn` and `AdvanceTime` split one function of the script into its parts; they are not functions of the script themselves.

## Findings

| source | as written | input that shows it | evidently intended | confidence | as-written member | corrected member |
|---|---|---|---|---|---|---|
| script.js:109-121 | on the frame after game over `gameLoop` returns before `requestAnimationFrame`, and the game-over callback (script.js:166-169) runs `resetGame`, which never calls `gameLoop` again | any frame sequence in which a contact takes the health to 0: after the alert, every later frame leaves the reset state unchanged | after the reset the game runs again | not executed; high, given frames more often than every 100 ms | Properties.FrozenAfterGameOver | Properties.RestartAfterGameOver |

# petZforcefail rules in Dafny

A model of the rules of a small top-down zombie survival game written with the Phaser engine. It covers:

- the player's health counter and how the four direction keys become a velocity (`Player`);
- a zombie's per-frame behaviour. It chases the player when closer than 200 units and otherwise wanders in a direction it redraws every two to four seconds. A 1000 ms cooldown gates its attacks (`Zombie`).
- the game scene. It creates the world, then updates the player and every zombie each frame. Handlers respond when the player overlaps a zombie (10 damage, cooldown stamp, death at health 0) or an item (the item is destroyed, 20 health back). (`GameScene`)
- the 30 × 25 tile map and the rule that places a wall body on every wall cell and an item on every item cell, at the cell's centre (`TileMap`).

Files and modules:

| file | module | models |
|---|---|---|
| `vectors.dfy` | `Vectors` | the engine's two-component vector |
| `player.dfy` | `PlayerEntity` | `src/entities/Player.ts` |
| `zombie.dfy` | `ZombieEntity` | `src/entities/Zombie.ts` |
| `tile_map.dfy` | `TileMap` | `src/world/TileMap.ts` |
| `game_scene.dfy` | `Game` | `src/scenes/GameScene.ts` |

Each class keeps the fields the source updates in place, and its methods change those fields.

- `Player` holds `health`, `maxHealth`, `velocity` and `position`.
- `Zombie` holds `lastAttackTime`, `wanderTimer`, `wanderDirection`, `velocity` and `position`.
- `GameScene` holds the player, the zombie sequence, the wall bodies, the item set and the paused flag.

The methods that carry a rule of the game are proved against a pure function beside them:

- `Player.Update`, `TakeDamage` and `Heal` against `MoveVelocity`, `Damaged` and `Healed`;
- `Zombie.ChasePlayer`, `Wander` and `Update` against `Chased`, `Wandered` and `Updated` on a `ZombieState` record;
- `GameScene.Update` against `MoveVelocity` for the player and `Updated` for every zombie;
- `GameScene.HandleZombieAttack` and `HandleItemPickup` against `AttackStep` and `PickupStep` on a `World` record;
- `TileMap.CreateMap` against `MapBodies`.

`Zombie.Attack`, `GameScene.SpawnZombies`, `GameScene.HandlePlayerDeath` and the three constructors only set fields, and their contracts state the new field values directly. `Game.CreateScenery` returns what `CreateMap` builds, and its contract states where those walls and items are.

`GameScene.Model()` maps the scene's objects to that record. `Run` folds the handlers over a sequence of overlap reports, which is where the end-to-end lemmas live.

Inputs that the source gets from the engine, the clock or a random generator are parameters:

- `now` for the wall-clock time;
- `delta` for the frame time;
- `aim` for the unit heading towards the player;
- a `WanderDraw` for the wander threshold, the new direction and the stop roll;
- the zombies' initial `directions`.

Nothing in `handleZombieAttack` stops `handlePlayerDeath` from running again. It calls the handler on every successful attack that leaves health at or below 0 (`src/scenes/GameScene.ts:128-131`), and it does not check whether the player has already died. The model follows the code. `Game.DeathHandlerUnguarded` proves that a further successful attack at health 0 runs the death handler again.

## Model

| member | source | states |
|---|---|---|
| `Vectors.DistanceSq` | src/entities/Zombie.ts:33-38 | the squared distance is never negative and is 0 between equal points |
| `PlayerEntity.Damaged` | src/entities/Player.ts:47-49 | health after `takeDamage` is `max(0, health - amount)`: never negative, and either 0 or exactly the difference |
| `PlayerEntity.Healed` | src/entities/Player.ts:51-53 | health after `heal` is `min(maxHealth, health + amount)`: never above `maxHealth`, and either `maxHealth` or exactly the sum |
| `PlayerEntity.DamageKeepsBounds` | src/entities/Player.ts:47-49 | for a non-negative amount, damage keeps health in `[0, maxHealth]` and never raises it |
| `PlayerEntity.HealKeepsBounds` | src/entities/Player.ts:51-53 | for a non-negative amount, healing keeps health in `[0, maxHealth]` and never lowers it |
| `PlayerEntity.IdempotentAtBounds` | src/entities/Player.ts:47-53 | healing at `maxHealth` and damage at 0 leave health unchanged |
| `PlayerEntity.AxisVelocity` | src/entities/Player.ts:26-38 | one axis is -150 when the first flag is set, +150 when only the second is set, else 0 (the first flag wins) |
| `PlayerEntity.MoveVelocity` | src/entities/Player.ts:22-45 | left beats right and up beats down (sign of each component iff its flags); a two-axis move has both components ±106.05, any other move has components in {-150, 0, 150} |
| `PlayerEntity.MoveSpeed` | src/entities/Player.ts:40-44 | the diagonal scaling keeps the speed at most 150 and within 0.1% of it; no flag means velocity zero |
| `PlayerEntity.Player.constructor` | src/entities/Player.ts:3-20 | a new player has health 9919 and maximum 99999, so `0 <= health <= maxHealth` holds from the start; it is at rest at the given position |
| `PlayerEntity.Player.Update` | src/entities/Player.ts:22-45 | the velocity left by the reset, the per-axis writes and the diagonal rescale is `MoveVelocity` of the flags; health, maximum and position do not change |
| `PlayerEntity.Player.TakeDamage` | src/entities/Player.ts:47-49 | health becomes `Damaged(old health, amount)` and the health invariant is kept for non-negative amounts |
| `PlayerEntity.Player.Heal` | src/entities/Player.ts:51-53 | health becomes `Healed(old health, maxHealth, amount)` and the health invariant is kept for non-negative amounts |
| `PlayerEntity.Player.IsDead` | src/entities/Player.ts:55-57 | under the health invariant, the player is dead exactly when health is 0 |
| `ZombieEntity.Chased` | src/entities/Zombie.ts:49-64 | chasing changes only the velocity: the timestamp, wander timer and wander direction are untouched, and with a unit heading the speed is exactly 40 |
| `ZombieEntity.Wandered` | src/entities/Zombie.ts:66-89 | the timestamp is untouched. When old timer + delta exceeds the drawn threshold, the timer resets to 0 and the direction becomes (0, 0) on a roll under 0.3 and the drawn direction otherwise. When it does not exceed the threshold, the timer is old + delta and the direction is kept. The velocity is the direction times 12. |
| `ZombieEntity.WanderResetWindow` | src/entities/Zombie.ts:70-72 | for any threshold drawn in [2000, 4000], a bout always ends once the timer passes 4000 and never ends while it is at most 2000 |
| `ZombieEntity.WanderStop` | src/entities/Zombie.ts:78-88 | when a bout ends on a roll under 0.3, the direction and the velocity are zero |
| `ZombieEntity.Updated` | src/entities/Zombie.ts:32-47 | a zombie's update never changes its attack timestamp |
| `ZombieEntity.InDetectionRange` | src/entities/Zombie.ts:33-40 | defined as: the squared distance between zombie and player is below 200², standing for the source's `distanceToPlayer < 200`; `RangeBySquares` and `ChaseThreshold` carry its meaning |
| `ZombieEntity.ChaseThreshold` | src/entities/Zombie.ts:40-46 | in terms of the distance d, the zombie chases exactly when d < 200 and wanders when d >= 200 (at exactly 200 it wanders) |
| `ZombieEntity.RangeBySquares` | src/entities/Zombie.ts:33-40 | for a distance d >= 0, d < 200 exactly when d² < 40000, so the squared comparison decides the same way as the source's |
| `ZombieEntity.CooldownOver` | src/entities/Zombie.ts:91-94 | defined as: `now - lastAttackTime >= 1000`; `CooldownAfterAttack` and `FreshZombieMayAttack` carry its consequences |
| `ZombieEntity.CooldownAfterAttack` | src/entities/Zombie.ts:91-98 | after an attack at t, attacking is refused for t <= now < t + 1000 and allowed from t + 1000 on |
| `ZombieEntity.FreshZombieMayAttack` | src/entities/Zombie.ts:91-94 | a zombie whose timestamp is still the initial 0 may attack at any time from 1000 on |
| `ZombieEntity.Zombie.constructor` | src/entities/Zombie.ts:4-30 | a new zombie is at rest at the given position, has never attacked, has wander timer 0 and the drawn initial direction |
| `ZombieEntity.Zombie.Update` | src/entities/Zombie.ts:32-47 | the new state is `Updated` of the old state: chase when the squared distance is under 40000, wander otherwise |
| `ZombieEntity.Zombie.ChasePlayer` | src/entities/Zombie.ts:49-64 | the new state is `Chased` of the old one |
| `ZombieEntity.Zombie.Wander` | src/entities/Zombie.ts:66-89 | the step-by-step timer, direction and velocity writes produce `Wandered` of the old state |
| `ZombieEntity.Zombie.CanAttack` | src/entities/Zombie.ts:91-94 | defined as: `CooldownOver` of the zombie's timestamp at `now`, that is `now - lastAttackTime >= 1000`; `Zombie.Attack`, `CooldownAfterAttack` and `FreshZombieMayAttack` carry its consequences |
| `ZombieEntity.Zombie.Attack` | src/entities/Zombie.ts:96-98 | the timestamp becomes `now`, and afterwards `CanAttack(later)` holds exactly when `later >= now + 1000` |
| `TileMap.MapShape` | src/world/TileMap.ts:16-42 | the layout has 25 rows of 30 cells each |
| `TileMap.CellAt` | src/world/TileMap.ts:9-42 | every cell is one of the four kinds 0..3, and every border cell (row 0, row 24, column 0, column 29) is a wall |
| `TileMap.Centre` | src/world/TileMap.ts:48-49 | defined as: cell (x, y) has its body at `(x * 32 + 16, y * 32 + 16)`; `CentreInCell`, `CentreInjective` and `CentreInsideWorld` carry its consequences |
| `TileMap.CentreInCell` | src/world/TileMap.ts:48-49 | the body position of cell (x, y) lies in that cell (coordinate / 32 gives back x and y) at offset 16 on both axes |
| `TileMap.CentreInjective` | src/world/TileMap.ts:48-49 | two different cells never share a centre |
| `TileMap.CentreInsideWorld` | src/world/TileMap.ts:48-49 | the centre of every map cell lies strictly inside the 960 × 800 world |
| `TileMap.RowBodiesExactly` | src/world/TileMap.ts:46-69 | a point is among a row's bodies of a kind exactly when it is the centre of a cell of that kind in the row |
| `TileMap.MapBodiesExactly` | src/world/TileMap.ts:45-71 | a point is among the map's bodies of a kind exactly when it is the centre of a cell of that kind |
| `TileMap.RowBodiesCount` | src/world/TileMap.ts:46-69 | a row prefix yields exactly as many bodies of a kind as it has cells of that kind (counted as a multiset of the row) |
| `TileMap.MapBodiesCount` | src/world/TileMap.ts:45-71 | on any grid, the map yields exactly as many bodies of a kind as it has cells of that kind, so items created = ITEM cells |
| `TileMap.CreateMap` | src/world/TileMap.ts:44-72 | the nested row-by-row, left-to-right loop appends a wall for each WALL cell and an item for each ITEM cell, giving exactly `MapBodies` of each kind in visiting order |
| `TileMap.BodiesExactlyForKind` | src/world/TileMap.ts:51-69 | on this layout, a body of a kind stands at a cell's centre exactly when the cell is of that kind, so grass and floor cells get neither |
| `TileMap.ItemBodies` | src/world/TileMap.ts:22-35 | the layout yields exactly five items, at cells (6, 5), (20, 6), (15, 15), (18, 15) and (5, 18), in that order |
| `Game.AttackStep` | src/scenes/GameScene.ts:110-133 | when the zombie's cooldown is over: health becomes `max(0, health - 10)`, that zombie's timestamp becomes `now`, and the announcements are exactly the new health, then the death event when health is at most 0; otherwise nothing changes and nothing is announced; the death handler runs exactly when the attack succeeded and health is at most 0; items and the maximum are untouched; the health invariant is kept |
| `Game.PickupStep` | src/scenes/GameScene.ts:135-148 | the item leaves the item set (one fewer item), health becomes `min(maxHealth, health + 20)` and is announced; timestamps, maximum and pause flag are untouched; health never drops |
| `Game.RunKeepsInvariants` | src/scenes/GameScene.ts:110-148 | over any sequence of overlaps, health stays in `[0, maxHealth]`, the maximum and the zombie count do not change, and items are only removed |
| `Game.RunAppend` | src/scenes/GameScene.ts:60-75 | handling two sequences of overlaps one after the other is handling their concatenation |
| `Game.CooldownSpacing` | src/scenes/GameScene.ts:114-118 | two overlaps with one zombie less than 1000 ms apart deal damage once; 1000 ms or more apart, twice |
| `Game.PickupOnce` | src/scenes/GameScene.ts:139-143 | the same item overlapped twice heals once and is gone afterwards |
| `Game.DeathHandlerUnguarded` | src/scenes/GameScene.ts:128-131 | at health 0, a further successful attack keeps health at 0 and runs the death handler again |
| `Game.SpacedAttacksAllLand` | src/scenes/GameScene.ts:114-120 | n overlaps a cooldown apart all land, whatever the health: for n > 0, health ends at `max(0, health - 10n)`, so it drops by exactly 10n when health >= 10n; items and maximum are untouched, and the timestamp is that of the last one |
| `Game.InitialWorld` | src/scenes/GameScene.ts:24-38 | the initial world satisfies the health invariant and has one timestamp per spawned zombie |
| `Game.CreateScenery` | src/scenes/GameScene.ts:28-31 | the scene's walls stand exactly at the centres of the WALL cells, and its items are the initial item set |
| `Game.InitialItemsFromMap` | src/scenes/GameScene.ts:29-31 | the initial items are exactly the centres of the map's ITEM cells |
| `Game.TenAttacksThenPickupFrom` | src/scenes/GameScene.ts:110-148 | from health 9919 with a zombie that has never attacked, ten attacks a second apart and then one pickup leave health at 9839 |
| `Game.TenAttacksThenPickup` | src/scenes/GameScene.ts:110-148 | the same scenario from the scene's initial world and the item at cell (6, 5) ends at 9839 |
| `Game.SpawnPosition` | src/scenes/GameScene.ts:95-104 | every zombie spawn position lies within the world bounds |
| `Game.WorldLayout` | src/scenes/GameScene.ts:26-34 | the world is 960 × 800 and the player's start (160, 160) lies inside it |
| `Game.GameScene.constructor` | src/scenes/GameScene.ts:24-38 | the new scene's model is the initial world. The walls stand at exactly the WALL cells. The player is at rest at (160, 160). There are exactly 5 distinct zombies, at the spawn positions with their drawn directions. |
| `Game.GameScene.SpawnZombies` | src/scenes/GameScene.ts:93-108 | five distinct fresh zombies, one per spawn cell in the listed order, at `(gx*32, gy*32)`, never having attacked |
| `Game.GameScene.Update` | src/scenes/GameScene.ts:78-91 | the player's velocity follows the keys. Every zombie's new state is `Updated` of its old state, all with the same delta and the same player position. No zombie's position changes. Health, timestamps, items and the pause flag do not change. |
| `Game.GameScene.HandleZombieAttack` | src/scenes/GameScene.ts:110-133 | the scene's new model and the announcements are those of `AttackStep`; only that zombie's timestamp may change |
| `Game.GameScene.HandleItemPickup` | src/scenes/GameScene.ts:135-148 | the scene's new model and the announcements are those of `PickupStep` |
| `Game.GameScene.HandlePlayerDeath` | src/scenes/GameScene.ts:150-153 | the physics is paused afterwards |

## Left out

- The Arcade physics engine is not part of this model: body integration, world-bound clamping, colliders against walls and between zombies, and overlap detection (`src/scenes/GameScene.ts:55-75`). Positions are never moved. Overlaps are inputs: the zombie index and time, or the item, the player touches.
- `Game.Run`: an overlap report for a zombie index that does not exist, or for an item already destroyed, calls no handler. The engine only reports overlaps with bodies that exist.
- `Game.Run` does not stop on the pause flag. The engine's `physics.pause()` stops overlap dispatch, but that is engine behaviour.
- `ZombieEntity.Chased`: the heading comes from `Math.cos`/`Math.sin` of the angle to the player, which is not modelled. It is an input `aim`, and the speed is stated only for a unit `aim`.
- Random draws (`Phaser.Math.Between`, `FloatBetween`, `Math.random`) and `Vector2.normalize` are inputs. The constructor's integer draw may normalise to (0, 0), so no unit length is assumed for the initial direction.
- `Date.now()` is the parameter `now`. The frame `delta` is an integer number of milliseconds.
- `Game.AttackStep`: the source reads `Date.now()` twice, once in `canAttack` (`src/entities/Zombie.ts:91`) and once in `attack` (`src/entities/Zombie.ts:96`). The model takes both reads as the one instant `now`, so the stored timestamp is the time of the cooldown check. `Game.CooldownSpacing` relies on this when it says that overlaps 1000 ms apart land twice. If the clock moved between the two reads, an overlap exactly 1000 ms after the first check would be refused.
- Numbers are exact: health and times are integers and velocities are reals. The floating-point rounding of products such as `150 * 0.707` is not modelled.
- `Game.GameScene.constructor` states the scene's walls cell by cell: a wall at a cell's centre exactly when the cell is WALL. `TileMap.CreateMap` states the exact sequence in visiting order.
- Presentation is not modelled: images for grass and floor cells, tints, the red flash and its delayed clear, the camera follow, zoom and flash, and the death text.
- Keyboard binding is not modelled. The four direction flags are inputs to `Update`.
- The restart on R is not modelled. It restarts the scene and announces health 100, while a new player starts at 9919.
- The boot scene, the UI scene and the game configuration are not part of this model.
- Spawn positions are cell corners, and two of them, (20, 15) and (8, 18), are WALL cells. Nothing claims that zombies start on open ground.

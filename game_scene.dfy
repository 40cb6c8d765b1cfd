/**
 * The game scene's rules: the per-frame update order, the handlers the physics engine calls
 * when the player overlaps a zombie or an item, the death trigger, and the initial world.
 */
module Game {
  import opened Vectors
  import opened TileMap
  import opened PlayerEntity
  import opened ZombieEntity

  /** Health a successful zombie attack takes. */
  const ZOMBIE_DAMAGE: int := 10
  /** Health an item gives back. */
  const ITEM_HEAL: int := 20
  /** Grid cells at whose top-left corner the five zombies are placed. */
  const ZOMBIE_SPAWNS: seq<(int, int)> := [(15, 8), (20, 15), (8, 18), (25, 5), (12, 22)]
  /** The player starts at the top-left corner of this cell (on both axes). */
  const PLAYER_START_CELL: int := 5

  /** What a handler announces: the health after a change, and that the death handler ran. */
  datatype Signal = HealthChanged(health: int) | PlayerDeath

  /**
   * The scene state that the handlers read and write: the player's health and its bound,
   * each zombie's last attack time (in zombie order), the items still in the world, and
   * whether the death handler has paused the physics.
   */
  datatype World = World(health: int, maxHealth: int, lastAttacks: seq<int>, items: set<Point>, paused: bool)

  predicate HealthInRange(w: World) {
    0 <= w.health <= w.maxHealth
  }

  /** A handler's effect: the new world and what it announced, in order. */
  datatype Outcome = Outcome(world: World, signals: seq<Signal>)

  /**
   * handleZombieAttack for zombie `zombie` at time `now`. When that zombie's cooldown is
   * over, the player loses ZOMBIE_DAMAGE health (not below 0), the zombie's timestamp becomes
   * now, the new health is announced, and the death handler runs if health is at most 0.
   * Otherwise nothing happens at all.
   */
  function AttackStep(w: World, zombie: nat, now: int): (o: Outcome)
    requires zombie < |w.lastAttacks|
    ensures CooldownOver(w.lastAttacks[zombie], now) ==>
      && o.world.health == Damaged(w.health, ZOMBIE_DAMAGE)
      && o.world.lastAttacks == w.lastAttacks[zombie := now]
      && o.signals == [HealthChanged(o.world.health)] + (if o.world.health <= 0 then [PlayerDeath] else [])
    ensures !CooldownOver(w.lastAttacks[zombie], now) ==> o == Outcome(w, [])
    ensures PlayerDeath in o.signals <==> CooldownOver(w.lastAttacks[zombie], now) && o.world.health <= 0
    ensures o.world.paused <==> w.paused || PlayerDeath in o.signals
    ensures o.world.items == w.items && o.world.maxHealth == w.maxHealth
    ensures HealthInRange(w) ==> HealthInRange(o.world)
  {
    if CooldownOver(w.lastAttacks[zombie], now) then
      var health := Damaged(w.health, ZOMBIE_DAMAGE);
      var attacked := w.(health := health, lastAttacks := w.lastAttacks[zombie := now]);
      if health <= 0 then
        Outcome(attacked.(paused := true), [HealthChanged(health), PlayerDeath])
      else
        Outcome(attacked, [HealthChanged(health)])
    else
      Outcome(w, [])
  }

  /**
   * handleItemPickup for an item still in the world: the item is removed, the player heals
   * ITEM_HEAL (not above maxHealth), and the new health is announced.
   */
  function PickupStep(w: World, item: Point): (o: Outcome)
    requires item in w.items
    ensures o.world.items == w.items - {item} && |o.world.items| == |w.items| - 1
    ensures o.world.health == Healed(w.health, w.maxHealth, ITEM_HEAL)
    ensures o.signals == [HealthChanged(o.world.health)]
    ensures o.world.lastAttacks == w.lastAttacks && o.world.maxHealth == w.maxHealth && o.world.paused == w.paused
    ensures HealthInRange(w) ==> HealthInRange(o.world) && o.world.health >= w.health
  {
    var healed := w.(items := w.items - {item}, health := Healed(w.health, w.maxHealth, ITEM_HEAL));
    Outcome(healed, [HealthChanged(healed.health)])
  }

  /** An overlap the physics engine reports: with zombie number i at time now, or with an item. */
  datatype Contact = ZombieContact(zombie: nat, now: int) | ItemContact(item: Point)

  /**
   * The handler the engine calls for one contact. The engine only reports overlaps with
   * bodies that exist, so a contact with no such zombie, or with an item already destroyed,
   * calls nothing.
   */
  function Respond(w: World, c: Contact): World {
    match c
    case ZombieContact(i, now) => if i < |w.lastAttacks| then AttackStep(w, i, now).world else w
    case ItemContact(p) => if p in w.items then PickupStep(w, p).world else w
  }

  /** The world after the handlers for a sequence of contacts have run in order. */
  function Run(w: World, contacts: seq<Contact>): World
    decreases |contacts|
  {
    if contacts == [] then w else Run(Respond(w, contacts[0]), contacts[1..])
  }

  /**
   * Over any sequence of contacts, health stays within [0, maxHealth], maxHealth and the
   * number of zombies do not change, and items are only ever removed.
   */
  lemma {:induction false} RunKeepsInvariants(w: World, contacts: seq<Contact>)
    requires HealthInRange(w)
    ensures HealthInRange(Run(w, contacts))
    ensures Run(w, contacts).maxHealth == w.maxHealth
    ensures |Run(w, contacts).lastAttacks| == |w.lastAttacks|
    ensures Run(w, contacts).items <= w.items
    decreases |contacts|
  {
    if contacts != [] {
      RunKeepsInvariants(Respond(w, contacts[0]), contacts[1..]);
    }
  }

  /** Running two sequences of contacts one after the other is running their concatenation. */
  lemma {:induction false} RunAppend(w: World, first: seq<Contact>, second: seq<Contact>)
    ensures Run(w, first + second) == Run(Run(w, first), second)
    decreases |first|
  {
    if first == [] {
      assert first + second == second;
    } else {
      var next := Respond(w, first[0]);
      assert (first + second)[0] == first[0];
      assert (first + second)[1..] == first[1..] + second;
      assert Run(w, first + second) == Run(next, first[1..] + second);
      RunAppend(next, first[1..], second);
      assert Run(w, first) == Run(next, first[1..]);
    }
  }

  /**
   * Two overlaps with the same zombie at times t and t' (t <= t'), the first of them after its
   * cooldown: less than 1000 ms apart they deal damage once; 1000 ms or more apart, twice.
   */
  lemma CooldownSpacing(w: World, i: nat, t: int, t': int)
    requires i < |w.lastAttacks| && CooldownOver(w.lastAttacks[i], t) && t <= t'
    ensures t' < t + ATTACK_COOLDOWN ==>
      Run(w, [ZombieContact(i, t), ZombieContact(i, t')]).health == Damaged(w.health, ZOMBIE_DAMAGE)
    ensures t' >= t + ATTACK_COOLDOWN ==>
      Run(w, [ZombieContact(i, t), ZombieContact(i, t')]).health ==
      Damaged(Damaged(w.health, ZOMBIE_DAMAGE), ZOMBIE_DAMAGE)
  {
    var once := Respond(w, ZombieContact(i, t));
    assert once.lastAttacks[i] == t;
    assert Run(w, [ZombieContact(i, t), ZombieContact(i, t')]) == Run(once, [ZombieContact(i, t')]);
    assert Run(once, [ZombieContact(i, t')]) == Respond(once, ZombieContact(i, t'));
  }

  /** The same item overlapped twice heals once: the first pickup destroys it. */
  lemma PickupOnce(w: World, item: Point)
    requires item in w.items
    ensures Run(w, [ItemContact(item), ItemContact(item)]).health == Healed(w.health, w.maxHealth, ITEM_HEAL)
    ensures item !in Run(w, [ItemContact(item), ItemContact(item)]).items
  {
    var once := Respond(w, ItemContact(item));
    assert item !in once.items;
    assert Run(w, [ItemContact(item), ItemContact(item)]) == Run(once, [ItemContact(item)]);
    assert Run(once, [ItemContact(item)]) == Respond(once, ItemContact(item));
  }

  /**
   * Once health is 0, another successful attack keeps it at 0 and runs the death handler
   * again: the handler itself has no guard against a second death.
   */
  lemma DeathHandlerUnguarded(w: World, i: nat, now: int)
    requires i < |w.lastAttacks| && w.health == 0 && CooldownOver(w.lastAttacks[i], now)
    ensures AttackStep(w, i, now).world.health == 0
    ensures AttackStep(w, i, now).signals == [HealthChanged(0), PlayerDeath]
  {
  }

  /** n overlaps with zombie i, starting at time start and ATTACK_COOLDOWN apart. */
  function SpacedAttacks(i: nat, start: int, n: nat): (cs: seq<Contact>)
    ensures |cs| == n
    ensures forall k :: 0 <= k < n ==> cs[k] == ZombieContact(i, start + k * ATTACK_COOLDOWN)
    decreases n
  {
    if n == 0 then [] else [ZombieContact(i, start)] + SpacedAttacks(i, start + ATTACK_COOLDOWN, n - 1)
  }

  /**
   * Attacks spaced by the cooldown all succeed, even when health runs out partway: n > 0 of
   * them leave health h - 10n floored at 0 (exactly h - 10n when h >= 10n), and the zombie's
   * timestamp is that of the last one.
   */
  lemma {:induction false} SpacedAttacksAllLand(w: World, i: nat, start: int, n: nat)
    requires i < |w.lastAttacks| && CooldownOver(w.lastAttacks[i], start)
    ensures n > 0 ==> Run(w, SpacedAttacks(i, start, n)).health == Damaged(w.health, n * ZOMBIE_DAMAGE)
    ensures w.health >= n * ZOMBIE_DAMAGE ==> Run(w, SpacedAttacks(i, start, n)).health == w.health - n * ZOMBIE_DAMAGE
    ensures Run(w, SpacedAttacks(i, start, n)).items == w.items
    ensures Run(w, SpacedAttacks(i, start, n)).maxHealth == w.maxHealth
    ensures |Run(w, SpacedAttacks(i, start, n)).lastAttacks| == |w.lastAttacks|
    ensures n > 0 ==> Run(w, SpacedAttacks(i, start, n)).lastAttacks[i] == start + (n - 1) * ATTACK_COOLDOWN
    decreases n
  {
    if n > 0 {
      var next := Respond(w, ZombieContact(i, start));
      assert next.health == Damaged(w.health, ZOMBIE_DAMAGE);
      assert next.lastAttacks[i] == start;
      SpacedAttacksAllLand(next, i, start + ATTACK_COOLDOWN, n - 1);
      assert (n - 1) * ZOMBIE_DAMAGE + ZOMBIE_DAMAGE == n * ZOMBIE_DAMAGE;
    }
  }

  /**
   * The state the scene starts in: initial health, five zombies that have never attacked, and
   * the map's five items (InitialItemsFromMap ties them to the ITEM cells).
   */
  function InitialWorld(): (w: World)
    ensures HealthInRange(w)
    ensures |w.lastAttacks| == |ZOMBIE_SPAWNS|
  {
    World(START_HEALTH, MAX_HEALTH, seq(|ZOMBIE_SPAWNS|, _ => 0),
          {Centre(6, 5), Centre(20, 6), Centre(15, 15), Centre(18, 15), Centre(5, 18)}, false)
  }

  /** The walls and the item set the scene builds from the tile map. */
  method CreateScenery() returns (walls: seq<Point>, items: set<Point>)
    ensures forall x, y :: InMap(x, y) ==> (Centre(x, y) in walls <==> CellAt(x, y) == WALL)
    ensures items == InitialWorld().items
  {
    MapShape();
    var itemBodies;
    walls, itemBodies := CreateMap(MAP_DATA);
    forall x, y | InMap(x, y)
      ensures Centre(x, y) in walls <==> CellAt(x, y) == WALL
    {
      BodiesExactlyForKind(WALL, x, y);
    }
    ItemBodies();
    ItemSetOfList(itemBodies);
    items := set p | p in itemBodies;
  }

  /** The set of the five item bodies, in the order createMap makes them, is the initial item set. */
  lemma ItemSetOfList(bodies: seq<Point>)
    requires bodies == [Centre(6, 5), Centre(20, 6), Centre(15, 15), Centre(18, 15), Centre(5, 18)]
    ensures (set p | p in bodies) == InitialWorld().items
  {
  }

  /** The initial items are exactly the centres of the map's ITEM cells. */
  lemma InitialItemsFromMap()
    ensures InitialWorld().items == set p | p in MapBodies(MAP_DATA, ITEM, MAP_HEIGHT)
  {
    ItemBodies();
  }

  /**
   * From a world with health 9919 in which zombie 0 has never attacked and `item` is present,
   * ten attacks by that zombie a second apart (from t = 1000) and then the pickup of `item`
   * leave the player at 9839.
   */
  lemma TenAttacksThenPickupFrom(w: World, item: Point)
    requires w.health == START_HEALTH && w.maxHealth == MAX_HEALTH
    requires |w.lastAttacks| >= 1 && w.lastAttacks[0] == 0 && item in w.items
    ensures Run(w, SpacedAttacks(0, ATTACK_COOLDOWN, 10) + [ItemContact(item)]).health == 9839
  {
    var attacks := SpacedAttacks(0, ATTACK_COOLDOWN, 10);
    SpacedAttacksAllLand(w, 0, ATTACK_COOLDOWN, 10);
    var hit := Run(w, attacks);
    assert hit.health == 9819 && item in hit.items;
    RunAppend(w, attacks, [ItemContact(item)]);
    assert Run(hit, [ItemContact(item)]) == Respond(hit, ItemContact(item));
  }

  /**
   * The scenario from the scene's initial state: 9919, ten attacks, one pickup of the item
   * at cell (6, 5): 9839.
   */
  lemma TenAttacksThenPickup()
    ensures Run(InitialWorld(), SpacedAttacks(0, ATTACK_COOLDOWN, 10) + [ItemContact(Centre(6, 5))]).health == 9839
  {
    ItemBodies();
    assert Centre(6, 5) in InitialWorld().items;
    TenAttacksThenPickupFrom(InitialWorld(), Centre(6, 5));
  }

  /** World position of zombie spawn number i: the top-left corner of its cell. */
  function SpawnPosition(i: nat): (p: Vec2)
    requires i < |ZOMBIE_SPAWNS|
    ensures 0.0 <= p.x <= (WORLD_WIDTH as real) && 0.0 <= p.y <= (WORLD_HEIGHT as real)
  {
    Vec2((ZOMBIE_SPAWNS[i].0 * TILE_SIZE) as real, (ZOMBIE_SPAWNS[i].1 * TILE_SIZE) as real)
  }

  /** The world rectangle is 960 by 800, and the player starts at (160, 160) inside it. */
  lemma WorldLayout()
    ensures WORLD_WIDTH == 960 && WORLD_HEIGHT == 800
    ensures PLAYER_START_CELL * TILE_SIZE == 160
    ensures 0 <= PLAYER_START_CELL * TILE_SIZE <= WORLD_HEIGHT <= WORLD_WIDTH
  {
  }

  /** Last attack times of the zombies, in order. */
  ghost function LastAttackTimes(zs: seq<Zombie>): seq<int>
    reads set z | z in zs
  {
    seq(|zs|, i requires 0 <= i < |zs| reads zs => zs[i].lastAttackTime)
  }

  class GameScene {
    var player: Player
    var zombies: seq<Zombie>
    /** Static wall bodies, at the centres of the wall cells. */
    var walls: seq<Point>
    /** Items still in the world, by position. */
    var items: set<Point>
    var physicsPaused: bool

    ghost predicate Valid()
      reads this, player
    {
      && player.Valid()
      && forall a, b :: 0 <= a < b < |zombies| ==> zombies[a] != zombies[b]
    }

    ghost function Model(): World
      reads this, player, set z | z in zombies
    {
      World(player.health, player.maxHealth, LastAttackTimes(zombies), items, physicsPaused)
    }

    /**
     * create: the walls and items of the tile map, the player at (160, 160), and the five
     * zombies at their spawn positions; `directions` are the zombies' initial random directions.
     */
    constructor (directions: seq<Vec2>)
      requires |directions| == |ZOMBIE_SPAWNS|
      ensures Valid()
      ensures Model() == InitialWorld()
      ensures forall x, y :: InMap(x, y) ==> (Centre(x, y) in walls <==> CellAt(x, y) == WALL)
      ensures player.position == Vec2(160.0, 160.0) && player.velocity == ZERO
      ensures |zombies| == |ZOMBIE_SPAWNS|
      ensures forall i :: 0 <= i < |zombies| ==>
        zombies[i].position == SpawnPosition(i) && zombies[i].wanderDirection == directions[i] &&
        zombies[i].wanderTimer == 0 && zombies[i].velocity == ZERO
    {
      var wallBodies, itemSet := CreateScenery();
      walls, items := wallBodies, itemSet;
      player := new Player((PLAYER_START_CELL * TILE_SIZE) as real, (PLAYER_START_CELL * TILE_SIZE) as real);
      physicsPaused := false;
      zombies := [];
      new;
      SpawnZombies(directions);
      assert LastAttackTimes(zombies) == InitialWorld().lastAttacks;
    }

    /** spawnZombies: one new zombie per spawn cell, in order. */
    method SpawnZombies(directions: seq<Vec2>)
      requires |directions| == |ZOMBIE_SPAWNS| && zombies == []
      modifies this`zombies
      ensures |zombies| == |ZOMBIE_SPAWNS|
      ensures forall a, b :: 0 <= a < b < |zombies| ==> zombies[a] != zombies[b]
      ensures forall i :: 0 <= i < |zombies| ==> fresh(zombies[i])
      ensures forall i :: 0 <= i < |zombies| ==>
        zombies[i].position == SpawnPosition(i) && zombies[i].wanderDirection == directions[i] &&
        zombies[i].lastAttackTime == 0 && zombies[i].wanderTimer == 0 && zombies[i].velocity == ZERO
    {
      for i := 0 to |ZOMBIE_SPAWNS|
        invariant |zombies| == i
        invariant forall a, b :: 0 <= a < b < i ==> zombies[a] != zombies[b]
        invariant forall k :: 0 <= k < i ==> fresh(zombies[k])
        invariant forall k :: 0 <= k < i ==>
          zombies[k].position == SpawnPosition(k) && zombies[k].wanderDirection == directions[k] &&
          zombies[k].lastAttackTime == 0 && zombies[k].wanderTimer == 0 && zombies[k].velocity == ZERO
      {
        var cell := ZOMBIE_SPAWNS[i];
        var zombie := new Zombie((cell.0 * TILE_SIZE) as real, (cell.1 * TILE_SIZE) as real, directions[i]);
        zombies := zombies + [zombie];
      }
    }

    /**
     * update: the player first, from the direction flags; then every zombie, in order, with
     * the same delta. `aims` and `draws` are each zombie's heading to the player and random
     * draws. Health, timestamps and items do not change.
     */
    method Update(delta: int, left: bool, right: bool, up: bool, down: bool, aims: seq<Vec2>, draws: seq<WanderDraw>)
      requires Valid() && |aims| == |zombies| && |draws| == |zombies|
      modifies player`velocity, set z | z in zombies
      ensures Valid() && Model() == old(Model())
      ensures player.velocity == MoveVelocity(left, right, up, down)
      ensures forall i :: 0 <= i < |zombies| ==> zombies[i].position == old(zombies[i].position)
      ensures forall i :: 0 <= i < |zombies| ==>
        zombies[i].State() == Updated(old(zombies[i].State()), zombies[i].position, player.position, delta, aims[i], draws[i])
    {
      player.Update(left, right, up, down);

      for i := 0 to |zombies|
        invariant Valid() && player.velocity == MoveVelocity(left, right, up, down)
        invariant player.health == old(player.health) && player.position == old(player.position)
        invariant forall j :: 0 <= j < |zombies| ==> zombies[j].position == old(zombies[j].position)
        invariant forall j :: 0 <= j < i ==>
          zombies[j].State() == Updated(old(zombies[j].State()), zombies[j].position, player.position, delta, aims[j], draws[j])
        invariant forall j :: i <= j < |zombies| ==> zombies[j].State() == old(zombies[j].State())
      {
        zombies[i].Update(player, delta, aims[i], draws[i]);
      }
      assert LastAttackTimes(zombies) == old(LastAttackTimes(zombies));
    }

    method HandleZombieAttack(i: nat, now: int) returns (signals: seq<Signal>)
      requires Valid() && i < |zombies|
      modifies player`health, zombies[i], this`physicsPaused
      ensures Valid()
      ensures zombies[i].position == old(zombies[i].position)
      ensures zombies[i].State() == old(zombies[i].State()).(lastAttackTime := zombies[i].lastAttackTime)
      ensures Model() == AttackStep(old(Model()), i, now).world
      ensures signals == AttackStep(old(Model()), i, now).signals
    {
      var zombie := zombies[i];
      if zombie.CanAttack(now) {
        player.TakeDamage(ZOMBIE_DAMAGE);
        zombie.Attack(now);
        assert LastAttackTimes(zombies) == old(LastAttackTimes(zombies))[i := now];
        signals := [HealthChanged(player.health)];
        if player.health <= 0 {
          HandlePlayerDeath();
          signals := signals + [PlayerDeath];
        }
      } else {
        signals := [];
      }
    }

    method HandleItemPickup(item: Point) returns (signals: seq<Signal>)
      requires Valid() && item in items
      modifies this`items, player`health
      ensures Valid()
      ensures Model() == PickupStep(old(Model()), item).world
      ensures signals == PickupStep(old(Model()), item).signals
    {
      items := items - {item};
      player.Heal(ITEM_HEAL);
      signals := [HealthChanged(player.health)];
    }

    /** handlePlayerDeath: pauses the physics; the rest is presentation. */
    method HandlePlayerDeath()
      modifies this`physicsPaused
      ensures physicsPaused
    {
      physicsPaused := true;
    }
  }
}

/**
 * The player: a health counter kept within [0, maxHealth] by takeDamage and heal, and a
 * velocity chosen each frame from four direction flags.
 */
module PlayerEntity {
  import opened Vectors

  /** Axis speed, in world units per second. */
  const SPEED: real := 150.0
  /** Factor applied to both components of a diagonal move (about 1 / sqrt 2). */
  const DIAGONAL_FACTOR: real := 0.707
  /** Each component of a diagonal move, SPEED * DIAGONAL_FACTOR. */
  const DIAGONAL_SPEED: real := 106.05
  const START_HEALTH: int := 9919
  const MAX_HEALTH: int := 99999

  /** Health after takeDamage(amount): the difference, but never below zero. */
  function Damaged(health: int, amount: int): (r: int)
    ensures r >= 0 && r >= health - amount
    ensures r == 0 || r == health - amount
  {
    if health - amount > 0 then health - amount else 0
  }

  /** Health after heal(amount): the sum, but never above maxHealth. */
  function Healed(health: int, maxHealth: int, amount: int): (r: int)
    ensures r <= maxHealth && r <= health + amount
    ensures r == maxHealth || r == health + amount
  {
    if health + amount < maxHealth then health + amount else maxHealth
  }

  /** Damage with a non-negative amount keeps health within [0, maxHealth] and never raises it. */
  lemma DamageKeepsBounds(health: int, maxHealth: int, amount: int)
    requires 0 <= health <= maxHealth && amount >= 0
    ensures 0 <= Damaged(health, amount) <= health
  {
  }

  /** Healing with a non-negative amount keeps health within [0, maxHealth] and never lowers it. */
  lemma HealKeepsBounds(health: int, maxHealth: int, amount: int)
    requires 0 <= health <= maxHealth && amount >= 0
    ensures health <= Healed(health, maxHealth, amount) <= maxHealth
  {
  }

  /** At the bounds the operations are no-ops: healing at maxHealth, damage at 0. */
  lemma IdempotentAtBounds(maxHealth: int, amount: int)
    requires amount >= 0
    ensures Healed(maxHealth, maxHealth, amount) == maxHealth
    ensures Damaged(0, amount) == 0
  {
  }

  /** One axis of update: the first flag wins over the second; neither means standing still. */
  function AxisVelocity(first: bool, second: bool): (v: real)
    ensures v == -SPEED || v == 0.0 || v == SPEED
    ensures v < 0.0 <==> first
    ensures v > 0.0 <==> !first && second
  {
    if first then -SPEED else if second then SPEED else 0.0
  }

  /**
   * The velocity update(left, right, up, down) leaves on the sprite. Left beats right and up
   * beats down; a move along both axes is scaled so that it is not faster than SPEED.
   */
  function MoveVelocity(left: bool, right: bool, up: bool, down: bool): (v: Vec2)
    ensures v.x < 0.0 <==> left
    ensures v.x > 0.0 <==> !left && right
    ensures v.y < 0.0 <==> up
    ensures v.y > 0.0 <==> !up && down
    ensures (left || right) && (up || down) ==>
      (v.x == -DIAGONAL_SPEED || v.x == DIAGONAL_SPEED) && (v.y == -DIAGONAL_SPEED || v.y == DIAGONAL_SPEED)
    ensures !((left || right) && (up || down)) ==>
      (v.x == -SPEED || v.x == 0.0 || v.x == SPEED) && (v.y == -SPEED || v.y == 0.0 || v.y == SPEED)
  {
    var axes := Vec2(AxisVelocity(left, right), AxisVelocity(up, down));
    if axes.x != 0.0 && axes.y != 0.0 then axes.Scale(DIAGONAL_FACTOR) else axes
  }

  /**
   * Moving diagonally is never faster than moving along an axis, and its speed is within
   * 0.1% of SPEED (its square is 22493.205 against 22500).
   */
  lemma MoveSpeed(left: bool, right: bool, up: bool, down: bool)
    ensures MoveVelocity(left, right, up, down).LengthSq() <= SPEED * SPEED
    ensures (left || right || up || down) ==>
      MoveVelocity(left, right, up, down).LengthSq() >= 0.999 * SPEED * SPEED
    ensures !(left || right || up || down) ==> MoveVelocity(left, right, up, down) == ZERO
  {
  }

  class Player {
    var health: int
    var maxHealth: int
    /** Velocity of the sprite's body, as last set by Update. */
    var velocity: Vec2
    /** Position of the sprite; only the physics engine moves it, which is not modelled. */
    var position: Vec2

    ghost predicate Valid()
      reads this
    {
      0 <= health <= maxHealth
    }

    /** A player at (x, y), at rest, with the configured starting and maximum health. */
    constructor (x: real, y: real)
      ensures Valid()
      ensures health == START_HEALTH && maxHealth == MAX_HEALTH
      ensures position == Vec2(x, y) && velocity == ZERO
    {
      health := START_HEALTH;
      maxHealth := MAX_HEALTH;
      position := Vec2(x, y);
      velocity := ZERO;
    }

    /** Resets the velocity, sets each axis from its flags, then scales a diagonal move. */
    method Update(left: bool, right: bool, up: bool, down: bool)
      modifies this`velocity
      ensures velocity == MoveVelocity(left, right, up, down)
      ensures health == old(health) && maxHealth == old(maxHealth) && position == old(position)
    {
      velocity := ZERO;

      if left {
        velocity := velocity.(x := -SPEED);
      } else if right {
        velocity := velocity.(x := SPEED);
      }

      if up {
        velocity := velocity.(y := -SPEED);
      } else if down {
        velocity := velocity.(y := SPEED);
      }

      if velocity.x != 0.0 && velocity.y != 0.0 {
        velocity := velocity.Scale(DIAGONAL_FACTOR);
      }
    }

    method TakeDamage(amount: int)
      modifies this`health
      ensures health == Damaged(old(health), amount)
      ensures old(Valid()) && amount >= 0 ==> Valid()
    {
      health := if health - amount > 0 then health - amount else 0;
    }

    method Heal(amount: int)
      modifies this`health
      ensures health == Healed(old(health), maxHealth, amount)
      ensures old(Valid()) && amount >= 0 ==> Valid()
    {
      health := if health + amount < maxHealth then health + amount else maxHealth;
    }

    /** Dead means health at or below zero; under the invariant, exactly zero. */
    function IsDead(): (dead: bool)
      reads this
      ensures Valid() ==> (dead <==> health == 0)
    {
      health <= 0
    }
  }
}

/**
 * A zombie's behaviour each frame: chase the player when closer than the detection range,
 * otherwise wander in a direction redrawn every two to four seconds; and the cooldown that
 * spaces its attacks at least a second apart.
 */
module ZombieEntity {
  import opened Vectors
  import PlayerEntity

  /** Chase speed, in world units per second. */
  const SPEED: real := 40.0
  const DETECTION_RANGE: real := 200.0
  /** Least time between two attacks by one zombie, in milliseconds. */
  const ATTACK_COOLDOWN: int := 1000
  /** Wandering speed, SPEED * 0.3. */
  const WANDER_SPEED: real := 12.0
  /** Chance that a new wander bout is spent standing still. */
  const STOP_CHANCE: real := 0.3
  /** Bounds of the integer threshold, drawn on every wander call, that ends a bout. */
  const MIN_WANDER_TIME: int := 2000
  const MAX_WANDER_TIME: int := 4000

  /**
   * The random values one call of wander may use: the bout threshold (an integer draw in
   * [2000, 4000]), the normalised new direction, and the roll that decides a stop.
   */
  datatype WanderDraw = WanderDraw(threshold: int, direction: Vec2, roll: real)

  predicate ValidDraw(draw: WanderDraw) {
    MIN_WANDER_TIME <= draw.threshold <= MAX_WANDER_TIME && 0.0 <= draw.roll < 1.0
  }

  /** The fields of a zombie that its rules read and write. */
  datatype ZombieState = ZombieState(lastAttackTime: int, wanderTimer: int, wanderDirection: Vec2, velocity: Vec2)

  /** True when the player is strictly within the detection range (compared on squares). */
  predicate InDetectionRange(zombie: Vec2, player: Vec2) {
    DistanceSq(zombie, player) < DETECTION_RANGE * DETECTION_RANGE
  }

  /**
   * chasePlayer: the velocity becomes the unit heading towards the player, `aim` (the cosine
   * and sine of the angle to the player), times SPEED; nothing else changes.
   */
  function Chased(s: ZombieState, aim: Vec2): (r: ZombieState)
    ensures r.lastAttackTime == s.lastAttackTime
    ensures r.wanderTimer == s.wanderTimer && r.wanderDirection == s.wanderDirection
    ensures aim.LengthSq() == 1.0 ==> r.velocity.LengthSq() == SPEED * SPEED
  {
    assert aim.Scale(SPEED).LengthSq() == SPEED * SPEED * aim.LengthSq();
    s.(velocity := aim.Scale(SPEED))
  }

  /**
   * wander: the timer accumulates delta; once it exceeds the drawn threshold it restarts at 0
   * and a new direction is taken, or none at all when the roll falls under STOP_CHANCE. The
   * velocity is the current direction at WANDER_SPEED.
   */
  function Wandered(s: ZombieState, delta: int, draw: WanderDraw): (r: ZombieState)
    ensures r.lastAttackTime == s.lastAttackTime
    ensures r.velocity == r.wanderDirection.Scale(WANDER_SPEED)
    ensures r.wanderTimer == 0 || r.wanderTimer == s.wanderTimer + delta
    ensures r.wanderTimer != s.wanderTimer + delta ==> s.wanderTimer + delta > draw.threshold
    ensures r.wanderDirection != s.wanderDirection ==>
      r.wanderTimer == 0 && (r.wanderDirection == ZERO || r.wanderDirection == draw.direction)
    ensures s.wanderTimer + delta > draw.threshold ==>
      r.wanderTimer == 0 && r.wanderDirection == (if draw.roll < STOP_CHANCE then ZERO else draw.direction)
    ensures s.wanderTimer + delta <= draw.threshold ==>
      r.wanderTimer == s.wanderTimer + delta && r.wanderDirection == s.wanderDirection
  {
    var timer := s.wanderTimer + delta;
    if timer > draw.threshold then
      var direction := if draw.roll < STOP_CHANCE then ZERO else draw.direction;
      ZombieState(s.lastAttackTime, 0, direction, direction.Scale(WANDER_SPEED))
    else
      ZombieState(s.lastAttackTime, timer, s.wanderDirection, s.wanderDirection.Scale(WANDER_SPEED))
  }

  /**
   * Whatever threshold is drawn, a bout always ends once the accumulated time passes 4000 ms
   * and never ends while it is at most 2000 ms.
   */
  lemma WanderResetWindow(s: ZombieState, delta: int, draw: WanderDraw)
    requires ValidDraw(draw)
    ensures s.wanderTimer + delta > MAX_WANDER_TIME ==> Wandered(s, delta, draw).wanderTimer == 0
    ensures s.wanderTimer + delta <= MIN_WANDER_TIME ==>
      Wandered(s, delta, draw).wanderTimer == s.wanderTimer + delta &&
      Wandered(s, delta, draw).wanderDirection == s.wanderDirection
  {
  }

  /** When a bout ends on a stopping roll, the zombie stands still. */
  lemma WanderStop(s: ZombieState, delta: int, draw: WanderDraw)
    requires s.wanderTimer + delta > draw.threshold && draw.roll < STOP_CHANCE
    ensures Wandered(s, delta, draw).wanderDirection == ZERO
    ensures Wandered(s, delta, draw).velocity == ZERO
  {
  }

  /** update: chase when in range, wander otherwise. It never touches the attack timestamp. */
  function Updated(s: ZombieState, position: Vec2, player: Vec2, delta: int, aim: Vec2, draw: WanderDraw): (r: ZombieState)
    ensures r.lastAttackTime == s.lastAttackTime
  {
    if InDetectionRange(position, player) then Chased(s, aim) else Wandered(s, delta, draw)
  }

  /**
   * In terms of the distance d between zombie and player: the zombie chases exactly when
   * d < 200 and wanders when d >= 200, so at exactly 200 it wanders.
   */
  lemma ChaseThreshold(s: ZombieState, position: Vec2, player: Vec2, delta: int, aim: Vec2, draw: WanderDraw, d: real)
    requires d >= 0.0 && d * d == DistanceSq(position, player)
    ensures d < DETECTION_RANGE ==> Updated(s, position, player, delta, aim, draw) == Chased(s, aim)
    ensures d >= DETECTION_RANGE ==> Updated(s, position, player, delta, aim, draw) == Wandered(s, delta, draw)
  {
    RangeBySquares(d);
  }

  /** For a distance d >= 0, d < 200 exactly when d * d < 200 * 200. */
  lemma RangeBySquares(d: real)
    requires d >= 0.0
    ensures d < DETECTION_RANGE <==> d * d < DETECTION_RANGE * DETECTION_RANGE
  {
    if d < DETECTION_RANGE {
      MulMonotone(d, d, DETECTION_RANGE);
      MulStrict(DETECTION_RANGE, d, DETECTION_RANGE);
    } else {
      MulMonotone(d, DETECTION_RANGE, d);
      MulMonotone(DETECTION_RANGE, DETECTION_RANGE, d);
    }
  }

  /** Multiplying by a non-negative factor keeps an order. */
  lemma MulMonotone(a: real, b: real, c: real)
    requires 0.0 <= a && b <= c
    ensures a * b <= a * c
  {
    assert a * c - a * b == a * (c - b);
  }

  /** Multiplying by a positive factor keeps a strict order. */
  lemma MulStrict(a: real, b: real, c: real)
    requires 0.0 < a && b < c
    ensures a * b < a * c
  {
    assert a * c - a * b == a * (c - b);
  }

  /** canAttack: at least ATTACK_COOLDOWN milliseconds have passed since the last attack. */
  predicate CooldownOver(lastAttackTime: int, now: int) {
    now - lastAttackTime >= ATTACK_COOLDOWN
  }

  /**
   * After an attack at time t, attacking is refused for the next 1000 ms and allowed from
   * t + 1000 on.
   */
  lemma CooldownAfterAttack(t: int, now: int)
    ensures t <= now < t + ATTACK_COOLDOWN ==> !CooldownOver(t, now)
    ensures now >= t + ATTACK_COOLDOWN ==> CooldownOver(t, now)
  {
  }

  /** A zombie that has never attacked (timestamp 0) may attack at any time from 1000 on. */
  lemma FreshZombieMayAttack(now: int)
    requires now >= ATTACK_COOLDOWN
    ensures CooldownOver(0, now)
  {
  }

  class Zombie {
    /** Position of the sprite; only the physics engine moves it, which is not modelled. */
    var position: Vec2
    var lastAttackTime: int
    var wanderTimer: int
    var wanderDirection: Vec2
    /** Velocity of the sprite's body, as last set by the zombie itself. */
    var velocity: Vec2

    function State(): ZombieState
      reads this
    {
      ZombieState(lastAttackTime, wanderTimer, wanderDirection, velocity)
    }

    /**
     * A zombie at (x, y), at rest, that has never attacked. `direction` is the normalised
     * random integer vector the constructor draws; it may be (0, 0).
     */
    constructor (x: real, y: real, direction: Vec2)
      ensures position == Vec2(x, y) && velocity == ZERO
      ensures lastAttackTime == 0 && wanderTimer == 0 && wanderDirection == direction
    {
      position := Vec2(x, y);
      velocity := ZERO;
      lastAttackTime := 0;
      wanderTimer := 0;
      wanderDirection := direction;
    }

    method Update(player: PlayerEntity.Player, delta: int, aim: Vec2, draw: WanderDraw)
      modifies this`velocity, this`wanderTimer, this`wanderDirection
      ensures State() == Updated(old(State()), position, player.position, delta, aim, draw)
    {
      if DistanceSq(position, player.position) < DETECTION_RANGE * DETECTION_RANGE {
        ChasePlayer(aim);
      } else {
        Wander(delta, draw);
      }
    }

    method ChasePlayer(aim: Vec2)
      modifies this`velocity
      ensures State() == Chased(old(State()), aim)
    {
      velocity := aim.Scale(SPEED);
    }

    method Wander(delta: int, draw: WanderDraw)
      modifies this`wanderTimer, this`wanderDirection, this`velocity
      ensures State() == Wandered(old(State()), delta, draw)
    {
      var timer := wanderTimer + delta;
      var direction := wanderDirection;

      if timer > draw.threshold {
        timer := 0;
        direction := draw.direction;
        if draw.roll < STOP_CHANCE {
          direction := ZERO;
        }
      }

      wanderTimer, wanderDirection, velocity := timer, direction, direction.Scale(WANDER_SPEED);
    }

    predicate CanAttack(now: int)
      reads this
    {
      CooldownOver(lastAttackTime, now)
    }

    method Attack(now: int)
      modifies this`lastAttackTime
      ensures lastAttackTime == now
      ensures forall later :: CanAttack(later) <==> later >= now + ATTACK_COOLDOWN
    {
      lastAttackTime := now;
    }
  }
}

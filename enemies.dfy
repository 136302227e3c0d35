/** An enemy's life cycle, aggression and path following (Assets/Scripts/Enemies/EnemyAI.cs
    and the stateful part of Assets/Scripts/Enemies/WalkingEnemyAI.cs). The rigid body's
    position and velocity, the distance to the player, ground contact, the path planner and the
    frame times are parameters; forces and moves are recorded in the results. */
module Enemies {
  import opened Geometry
  import WalkingEnemyAI
  import Players

  /** Where a path update aims: the player (offset to the feet) or the spawn point. */
  datatype Goal = ChasePlayer | ReturnToStart

  /** What one physics step does to the enemy's body. */
  datatype Move = Hold | SnapTo(target: Vector2) | StepToward(target: Vector2, distance: real)

  /** Seconds between two path updates. */
  const PathInterval: real := 0.333
  /** Hitpoints at or below this value kill the enemy. */
  const DeathEpsilon: real := 0.01
  /** Gravity applied to a corpse every frame. */
  const CorpseGravity: real := 4.0
  /** The waypoint a freshly planned path is followed from. */
  const FirstWaypoint: nat := 2

  /** Mathf.RoundToInt: the nearest integer, halves going to the even neighbour. The two
      conditions below leave only one candidate. */
  function RoundToInt(x: real): (r: int)
    ensures x - 0.5 <= r as real <= x + 0.5
    ensures r as real - x == 0.5 || x - r as real == 0.5 ==> r % 2 == 0
  {
    var f := x.Floor;
    var frac := x - f as real;
    if frac < 0.5 then f
    else if frac > 0.5 then f + 1
    else if f % 2 == 0 then f
    else f + 1
  }

  /** Aggression after one UpdateAggro: a calm enemy turns on a live player closer than
      aggroDistance, an aggressive one calms down beyond three times that distance or when the
      player is dead. */
  function NextAggression(aggressive: bool, distance: real, aggroDistance: real, playerIsDead: bool): (r: bool)
    ensures playerIsDead ==> !r
    ensures !playerIsDead && 0.0 <= distance < aggroDistance ==> r
    ensures 0.0 <= distance && distance > 3.0 * aggroDistance ==> !r
    ensures !playerIsDead && aggroDistance <= distance <= 3.0 * aggroDistance ==> r == aggressive
  {
    if !aggressive then distance < aggroDistance && !playerIsDead
    else !(distance > aggroDistance * 3.0 || playerIsDead)
  }

  /** Aggression after a run of updates, one distance per frame, the player staying alive. */
  function AggressionAfter(aggressive: bool, distances: seq<real>, aggroDistance: real): bool
    decreases |distances|
  {
    if |distances| == 0 then aggressive
    else AggressionAfter(NextAggression(aggressive, distances[0], aggroDistance, false), distances[1..], aggroDistance)
  }

  /** Hysteresis: an aggressive enemy keeps chasing while the player stays within three times the
      aggro distance, however far inside that band it wanders. */
  lemma {:induction false} StaysAggressiveWithinBand(distances: seq<real>, aggroDistance: real)
    requires forall i :: 0 <= i < |distances| ==> 0.0 <= distances[i] <= 3.0 * aggroDistance
    ensures AggressionAfter(true, distances, aggroDistance)
    decreases |distances|
  {
    if |distances| > 0 {
      assert NextAggression(true, distances[0], aggroDistance, false);
      StaysAggressiveWithinBand(distances[1..], aggroDistance);
    }
  }

  /** ... and a calm enemy stays calm while the player keeps at least the aggro distance away. */
  lemma {:induction false} StaysCalmOutsideRange(distances: seq<real>, aggroDistance: real)
    requires forall i :: 0 <= i < |distances| ==> aggroDistance <= distances[i]
    ensures !AggressionAfter(false, distances, aggroDistance)
    decreases |distances|
  {
    if |distances| > 0 {
      assert !NextAggression(false, distances[0], aggroDistance, false);
      StaysCalmOutsideRange(distances[1..], aggroDistance);
    }
  }

  /** A walker's current path and the index of the waypoint it heads for. */
  datatype PathState = PathState(path: seq<Vector2>, index: nat)

  /** The path and waypoint index left by one path update that planned newPath. None stands for
      the null plan the source checks for; the walking planner never returns it, and reports a
      failed search as an empty path instead. */
  function PathAfterPlan(s: PathState, newPath: Option<seq<Vector2>>, grounded: bool): (r: PathState)
    ensures r != s ==> newPath.Some? && grounded && r == PathState(newPath.value, FirstWaypoint)
    ensures newPath.Some? && grounded && !WalkingEnemyAI.ListsWithin(newPath.value, s.path, WalkingEnemyAI.DefaultTolerance)
            ==> r == PathState(newPath.value, FirstWaypoint)
    ensures newPath.Some? && WalkingEnemyAI.ListsWithin(newPath.value, s.path, WalkingEnemyAI.DefaultTolerance) ==> r == s
  {
    if newPath.Some? && !WalkingEnemyAI.ListsWithin(newPath.value, s.path, WalkingEnemyAI.DefaultTolerance) && grounded
    then PathState(newPath.value, FirstWaypoint)
    else s
  }

  /** A failed search (an empty plan) stops a grounded walker that was following a path: it
      adopts the empty path, whose end it has already passed. */
  lemma FailedSearchStopsWalker(s: PathState)
    requires |s.path| > 0
    ensures PathAfterPlan(s, Some([]), true) == PathState([], FirstWaypoint)
    ensures PathAfterPlan(s, Some([]), true).index >= |PathAfterPlan(s, Some([]), true).path|
  {
  }

  /** Re-planning the same path is a no-op: the replaced path is within tolerance of itself. */
  lemma PlanIsIdempotent(s: PathState, newPath: Option<seq<Vector2>>, grounded: bool)
    ensures PathAfterPlan(PathAfterPlan(s, newPath, grounded), newPath, grounded) == PathAfterPlan(s, newPath, grounded)
  {
  }

  /** Whether the path timer, already lowered by the frame time, lets a path update through:
      it must have run out, and a walker must stand on the ground. */
  function PathUpdateDue(timer: real, walks: bool, grounded: bool): (due: bool)
    ensures due ==> timer <= 0.0
    ensures walks && !grounded ==> !due
    ensures timer <= 0.0 && (!walks || grounded) ==> due
  {
    timer <= 0.0 && (!walks || grounded)
  }

  class Enemy {
    /** True for a walking enemy (WalkingEnemyAI), false for the base behaviour. */
    const walks: bool
    /** Practice targets neither stagger nor tumble when they die. */
    const isTarget: bool
    const aggroDistance: real
    const attackDamage: real
    const speed: real
    /** The hitpoints read at Start; Reset restores them. */
    const startHitpoints: real

    var hitpoints: real
    var isAlive: bool
    var isAggressive: bool
    var hasArrowStuck: bool
    var enableMovement: bool
    var isFacingRight: bool
    var pathIndex: nat
    var pathTimer: real
    var currentPath: seq<Vector2>
    var timeSinceLastHit: real
    /** The rigid body's freezeRotation flag and gravity scale. */
    var freezeRotation: bool
    var gravityScale: real
    /** How many times OnDeath has been raised. */
    var deathEvents: nat

    /** A corpse has no hitpoints left. */
    ghost predicate Valid()
      reads this
    {
      !isAlive ==> hitpoints <= 0.0
    }

    /** The state after the field initialisers and Start. */
    constructor (walks: bool, isTarget: bool, hitpoints: real, aggroDistance: real, attackDamage: real,
                 speed: real, freezeRotation: bool, gravityScale: real)
      ensures Valid()
      ensures this.walks == walks && this.isTarget == isTarget && this.aggroDistance == aggroDistance
      ensures this.attackDamage == attackDamage && this.speed == speed
      ensures this.hitpoints == hitpoints && startHitpoints == hitpoints
      ensures isAlive && !isAggressive && !hasArrowStuck && enableMovement && isFacingRight
      ensures pathIndex == 0 && pathTimer == 0.0 && currentPath == [] && timeSinceLastHit == 0.0
      ensures this.freezeRotation == freezeRotation && this.gravityScale == gravityScale
      ensures deathEvents == 0
    {
      this.walks := walks;
      this.isTarget := isTarget;
      this.aggroDistance := aggroDistance;
      this.attackDamage := attackDamage;
      this.speed := speed;
      this.hitpoints := hitpoints;
      startHitpoints := hitpoints;
      isAlive := true;
      isAggressive := false;
      hasArrowStuck := false;
      enableMovement := true;
      isFacingRight := true;
      pathIndex := 0;
      pathTimer := 0.0;
      currentPath := [];
      timeSinceLastHit := 0.0;
      this.freezeRotation := freezeRotation;
      this.gravityScale := gravityScale;
      deathEvents := 0;
    }

    /** Brings the enemy back to life at its spawn point, calm and with a fresh path. */
    method Reset()
      modifies this`isAggressive, this`isAlive, this`hitpoints, this`hasArrowStuck, this`enableMovement,
               this`pathIndex, this`currentPath, this`freezeRotation
      ensures Valid()
      ensures isAlive && !isAggressive && hitpoints == startHitpoints && !hasArrowStuck && enableMovement
      ensures pathIndex == 0 && currentPath == [] && freezeRotation
      ensures isFacingRight == old(isFacingRight) && pathTimer == old(pathTimer)
      ensures timeSinceLastHit == old(timeSinceLastHit) && gravityScale == old(gravityScale)
      ensures deathEvents == old(deathEvents)
    {
      isAggressive := false;
      isAlive := true;
      hitpoints := startHitpoints;
      hasArrowStuck := false;
      enableMovement := true;
      pathIndex := 0;
      currentPath := [];
      freezeRotation := true;
    }

    /** One frame. A corpse only gets heavier; a staggered enemy does nothing; otherwise the path
        timer runs (re-planning through planner when due) and aggression is re-evaluated. The
        planner is asked with the aggression held before this frame's re-evaluation. */
    method Update(dt: real, velocityX: real, distanceToPlayer: real, playerIsDead: bool, grounded: bool,
                  planner: Goal -> Option<seq<Vector2>>) returns (planned: bool)
      requires Valid()
      modifies this`timeSinceLastHit, this`isFacingRight, this`gravityScale, this`pathTimer,
               this`currentPath, this`pathIndex, this`isAggressive
      ensures Valid()
      ensures timeSinceLastHit == old(timeSinceLastHit) + dt
      ensures isFacingRight == (if !walks && old(isAlive) && (if old(isFacingRight) then velocityX < 0.0 else velocityX > 0.0)
                                then !old(isFacingRight) else old(isFacingRight))
      ensures gravityScale == if old(isAlive) then old(gravityScale) else CorpseGravity
      ensures !(old(isAlive) && old(enableMovement)) ==>
        !planned && pathTimer == old(pathTimer) && currentPath == old(currentPath)
        && pathIndex == old(pathIndex) && isAggressive == old(isAggressive)
      ensures old(isAlive) && old(enableMovement) ==>
        && planned == PathUpdateDue(old(pathTimer) - dt, walks, grounded)
        && pathTimer == (if planned then PathInterval else old(pathTimer) - dt)
        && PathState(currentPath, pathIndex) ==
           (if planned && walks
            then PathAfterPlan(PathState(old(currentPath), old(pathIndex)),
                               planner(if old(isAggressive) then ChasePlayer else ReturnToStart), grounded)
            else PathState(old(currentPath), old(pathIndex)))
        && isAggressive == NextAggression(old(isAggressive), distanceToPlayer, aggroDistance, playerIsDead)
      ensures hitpoints == old(hitpoints) && isAlive == old(isAlive) && enableMovement == old(enableMovement)
      ensures hasArrowStuck == old(hasArrowStuck) && freezeRotation == old(freezeRotation)
      ensures deathEvents == old(deathEvents)
    {
      timeSinceLastHit := timeSinceLastHit + dt;
      TryRotateSprite(velocityX);
      planned := false;
      if !isAlive {
        gravityScale := CorpseGravity;
        return;
      }
      if !enableMovement {
        return;
      }
      planned := UpdatePath(dt, grounded, planner);
      UpdateAggro(distanceToPlayer, playerIsDead);
    }

    /** Counts the path timer down and re-plans when it runs out; a walker waits for the ground
        before re-planning, leaving the timer run out. The base behaviour's own re-planning is not
        part of this model, so only a walker's path changes. */
    method UpdatePath(dt: real, grounded: bool, planner: Goal -> Option<seq<Vector2>>) returns (due: bool)
      modifies this`pathTimer, this`currentPath, this`pathIndex
      ensures due == PathUpdateDue(old(pathTimer) - dt, walks, grounded)
      ensures pathTimer == if due then PathInterval else old(pathTimer) - dt
      ensures PathState(currentPath, pathIndex) ==
              if due && walks
              then PathAfterPlan(PathState(old(currentPath), old(pathIndex)),
                                 planner(if isAggressive then ChasePlayer else ReturnToStart), grounded)
              else PathState(old(currentPath), old(pathIndex))
    {
      pathTimer := pathTimer - dt;
      due := false;
      if pathTimer > 0.0 {
        return;
      }
      if walks && !grounded {
        return;
      }
      pathTimer := PathInterval;
      due := true;
      if walks {
        var goal := if isAggressive then ChasePlayer else ReturnToStart;
        PerformPathUpdate(planner(goal), grounded);
      }
    }

    /** A walker adopts a newly planned path, from its third waypoint, when the planner found one,
        it differs from the current path beyond the default tolerance and the walker is grounded. */
    method PerformPathUpdate(newPath: Option<seq<Vector2>>, grounded: bool)
      modifies this`currentPath, this`pathIndex
      ensures PathState(currentPath, pathIndex) == PathAfterPlan(PathState(old(currentPath), old(pathIndex)), newPath, grounded)
    {
      if newPath.Some? {
        var same := WalkingEnemyAI.AreListsAlmostEqual(newPath.value, currentPath, WalkingEnemyAI.DefaultTolerance);
        if !same && grounded {
          currentPath := newPath.value;
          pathIndex := FirstWaypoint;
        }
      }
    }

    method UpdateAggro(distanceToPlayer: real, playerIsDead: bool)
      modifies this`isAggressive
      ensures isAggressive == NextAggression(old(isAggressive), distanceToPlayer, aggroDistance, playerIsDead)
    {
      if !isAggressive {
        if distanceToPlayer < aggroDistance && !playerIsDead {
          isAggressive := true;
        }
      } else {
        if distanceToPlayer > aggroDistance * 3.0 || playerIsDead {
          isAggressive := false;
        }
      }
    }

    /** The base behaviour turns a live enemy to face the way its body moves; a walker turns only
        while following its path, so for it this does nothing. */
    method TryRotateSprite(velocityX: real)
      modifies this`isFacingRight
      ensures isFacingRight == (if !walks && isAlive && (if old(isFacingRight) then velocityX < 0.0 else velocityX > 0.0)
                                then !old(isFacingRight) else old(isFacingRight))
    {
      if walks {
        return;
      }
      if !isAlive {
        return;
      }
      if (isFacingRight && velocityX < 0.0) || (!isFacingRight && velocityX > 0.0) {
        isFacingRight := !isFacingRight;
      }
    }

    /** An arrow hits the enemy. One already stuck in this enemy is ignored; otherwise it sticks,
        and it hurts unless one of the collision's contacts is on a shield. Returns whether the
        enemy took the hit. */
    method OnArrowHit(alreadyStuckHere: bool, contactOnShield: seq<bool>, damage: real) returns (hurt: bool)
      requires Valid()
      modifies this`hasArrowStuck, this`hitpoints, this`isAlive, this`deathEvents, this`freezeRotation,
               this`isAggressive, this`enableMovement
      ensures hurt <==> !alreadyStuckHere && forall i :: 0 <= i < |contactOnShield| ==> !contactOnShield[i]
      ensures hasArrowStuck == (old(hasArrowStuck) || !alreadyStuckHere)
      ensures !hurt ==> hitpoints == old(hitpoints) && isAlive == old(isAlive) && isAggressive == old(isAggressive)
                        && enableMovement == old(enableMovement) && deathEvents == old(deathEvents)
                        && freezeRotation == old(freezeRotation)
      ensures hurt ==> hitpoints == if HitKills(old(hitpoints), damage) && old(isAlive) then 0.0
                                   else old(hitpoints) - RoundToInt(damage) as real
      ensures hurt ==> isAlive == (old(isAlive) && !HitKills(old(hitpoints), damage))
      ensures hurt && HitKills(old(hitpoints), damage) ==>
        && isAggressive == old(isAggressive) && enableMovement == old(enableMovement)
        && deathEvents == old(deathEvents) + (if old(isAlive) then 1 else 0)
        && freezeRotation == (if old(isAlive) then isTarget else old(freezeRotation))
      ensures hurt && !HitKills(old(hitpoints), damage) ==>
        && isAggressive && enableMovement == (old(enableMovement) && isTarget)
        && deathEvents == old(deathEvents) && freezeRotation == old(freezeRotation)
      ensures 0.0 <= damage ==> Valid()
    {
      hurt := false;
      if alreadyStuckHere {
        return;
      }
      hasArrowStuck := true;
      var i := 0;
      while i < |contactOnShield|
        invariant 0 <= i <= |contactOnShield|
        invariant forall k :: 0 <= k < i ==> !contactOnShield[k]
      {
        if contactOnShield[i] {
          return;
        }
        i := i + 1;
      }
      TakeDamage(damage);
      hurt := true;
    }

    /** Whether a hit of damage leaves at most DeathEpsilon hitpoints. */
    static function HitKills(hitpoints: real, damage: real): (kills: bool)
      ensures hitpoints - damage + 0.5 <= DeathEpsilon ==> kills
      ensures kills ==> hitpoints - damage - 0.5 <= DeathEpsilon
    {
      hitpoints - RoundToInt(damage) as real <= DeathEpsilon
    }

    /** Hitpoints drop by the damage rounded to a whole number. A hit that leaves at most
        DeathEpsilon kills; any other hit makes the enemy aggressive and staggers it. A corpse hit
        by a non-negative damage stays a corpse and raises no second OnDeath. */
    method TakeDamage(damage: real)
      requires Valid()
      modifies this`hitpoints, this`isAlive, this`deathEvents, this`freezeRotation, this`isAggressive,
               this`enableMovement
      ensures HitKills(old(hitpoints), damage) ==>
        && isAlive == false && isAggressive == old(isAggressive) && enableMovement == old(enableMovement)
        && hitpoints == (if old(isAlive) then 0.0 else old(hitpoints) - RoundToInt(damage) as real)
        && deathEvents == old(deathEvents) + (if old(isAlive) then 1 else 0)
        && freezeRotation == (if old(isAlive) then isTarget else old(freezeRotation))
      ensures !HitKills(old(hitpoints), damage) ==>
        && hitpoints == old(hitpoints) - RoundToInt(damage) as real
        && isAggressive && isAlive == old(isAlive) && deathEvents == old(deathEvents)
        && enableMovement == (old(enableMovement) && isTarget)
        && freezeRotation == old(freezeRotation)
      ensures !old(isAlive) && 0.0 <= damage ==> !isAlive && deathEvents == old(deathEvents)
                                                  && isAggressive == old(isAggressive)
      ensures 0.0 <= damage ==> Valid()
      ensures hasArrowStuck == old(hasArrowStuck) && isFacingRight == old(isFacingRight)
      ensures currentPath == old(currentPath) && pathIndex == old(pathIndex) && pathTimer == old(pathTimer)
    {
      hitpoints := hitpoints - RoundToInt(damage) as real;
      if hitpoints <= DeathEpsilon {
        Die();
      } else {
        isAggressive := true;
        Stagger();
      }
    }

    /** Death happens once: the hitpoints go to 0, OnDeath is raised and the body may tumble
        unless it is a target. Dying again changes nothing. */
    method Die()
      modifies this`hitpoints, this`isAlive, this`deathEvents, this`freezeRotation
      ensures old(isAlive) ==> hitpoints == 0.0 && !isAlive && deathEvents == old(deathEvents) + 1
                               && freezeRotation == isTarget
      ensures !old(isAlive) ==> unchanged(this)
    {
      if !isAlive {
        return;
      }
      hitpoints := 0.0;
      deathEvents := deathEvents + 1;
      isAlive := false;
      freezeRotation := isTarget;
    }

    /** A hit enemy stops moving for a while; targets never do. */
    method Stagger()
      modifies this`enableMovement
      ensures enableMovement == (old(enableMovement) && isTarget)
    {
      if isTarget {
        return;
      }
      enableMovement := false;
    }

    /** A live enemy touching the player deals its attack damage and calms down once the player
        is dead. */
    method OnPlayerContact(player: Players.Player)
      modifies this`isAggressive, player`health, player`isDead, player`freezeRotation,
               player`enableMovement, player`isInvulnerable
      ensures !old(isAlive) ==> unchanged(this) && unchanged(player)
      ensures old(isAlive) && old(player.isInvulnerable) ==> unchanged(player)
      ensures old(isAlive) && !old(player.isInvulnerable) ==>
        && player.health == old(player.health) - attackDamage
        && player.isDead == (old(player.isDead) || player.health <= 0.0)
        && player.isInvulnerable && !player.enableMovement
        && player.freezeRotation == (old(player.freezeRotation) && player.health > 0.0)
      ensures isAggressive == (old(isAggressive) && !(old(isAlive) && player.isDead))
      ensures hitpoints == old(hitpoints) && isAlive == old(isAlive) && enableMovement == old(enableMovement)
      ensures currentPath == old(currentPath) && pathIndex == old(pathIndex) && deathEvents == old(deathEvents)
    {
      if isAlive {
        player.TakeDamage(attackDamage);
        if player.isDead {
          isAggressive := false;
        }
      }
    }

    /** One physics step of a walker. While alive, steerable and short of the path's end it faces
        the next waypoint, then snaps onto it when this step's travel (speed times fixedDt) covers
        the distance, advancing to the following waypoint, or else steps that far toward it. */
    method FixedUpdate(position: Vector2, fixedDt: real) returns (move: Move)
      requires walks
      modifies this`isFacingRight, this`pathIndex
      ensures !(isAlive && enableMovement && old(pathIndex) < |currentPath|) ==>
        move == Hold && isFacingRight == old(isFacingRight) && pathIndex == old(pathIndex)
      ensures isAlive && enableMovement && old(pathIndex) < |currentPath| ==>
        var target := currentPath[old(pathIndex)];
        && (target.x < position.x ==> !isFacingRight)
        && (target.x > position.x ==> isFacingRight)
        && (target.x == position.x ==> isFacingRight == old(isFacingRight))
        && (DistanceAtMost(position, target, speed * fixedDt) ==> move == SnapTo(target) && pathIndex == old(pathIndex) + 1)
        && (!DistanceAtMost(position, target, speed * fixedDt) ==>
              move == StepToward(target, speed * fixedDt) && pathIndex == old(pathIndex))
    {
      move := Hold;
      if !isAlive {
        return;
      }
      if !enableMovement {
        return;
      }
      if pathIndex < |currentPath| {
        var target := currentPath[pathIndex];
        var directionX := target.x - position.x;
        if directionX < 0.0 && isFacingRight {
          isFacingRight := false;
        } else if directionX > 0.0 && !isFacingRight {
          isFacingRight := true;
        }
        var distanceThisFrame := speed * fixedDt;
        if DistanceAtMost(position, target, distanceThisFrame) {
          move := SnapTo(target);
          pathIndex := pathIndex + 1;
        } else {
          move := StepToward(target, distanceThisFrame);
        }
      }
    }
  }
}

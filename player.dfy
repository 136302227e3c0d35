/** The player character's timers, flags and input handlers (Assets/Scripts/Player/Player.cs).
    Physics queries (IsGrounded, the platform raycasts), the frame time and the input values are
    parameters; forces, velocities and calls into the bow are recorded in the results. */
module Players {
  import opened Geometry

  /** The phase of an input action callback. */
  datatype InputPhase = Started | Performed | Canceled

  /** What an input handler asks of the bow. */
  datatype BowRequest = NoBowRequest | StartCharging | ReleaseCharge | RetrieveArrow

  /** The dash impulse's strength; the dash goes against the facing flag (the sprite is drawn
      facing the other way). */
  const DashImpulse: real := 40.0

  class Player {
    /** Tunables set in the editor before Start. */
    const dashCooldown: real
    const groundedForgiveness: real
    const horizontalSpeed: real
    const jumpingPower: real
    /** The health read at Start; Restart restores it. */
    const maxHealth: real

    var health: real
    var horizontalMovement: real
    var timeSinceLastDash: real
    var canDash: bool
    var timeSinceLastGrounded: real
    var isFacingRight: bool
    var isDropping: bool
    var enableMovement: bool
    var isInvulnerable: bool
    var isDead: bool
    var elapsedTime: real
    var playerFirstInput: bool
    /** The rigid body's freezeRotation flag, which death releases and Restart sets again. */
    var freezeRotation: bool

    /** The state after the field initialisers and Start. The two timers start at the literal
        values 2 and 0.075, whatever the tunables are; freezeRotation is the rigid body's own
        setting, which Start leaves alone. */
    constructor (health: real, dashCooldown: real, groundedForgiveness: real, horizontalSpeed: real,
                 jumpingPower: real, freezeRotation: bool)
      ensures this.jumpingPower == jumpingPower
      ensures this.health == health && maxHealth == health
      ensures this.dashCooldown == dashCooldown && this.groundedForgiveness == groundedForgiveness
      ensures this.horizontalSpeed == horizontalSpeed
      ensures timeSinceLastDash == 2.0 && timeSinceLastGrounded == 0.075
      ensures canDash && isFacingRight && enableMovement && this.freezeRotation == freezeRotation
      ensures !isDead && !isInvulnerable && !isDropping && !playerFirstInput
      ensures horizontalMovement == 0.0 && elapsedTime == 0.0
    {
      this.health := health;
      maxHealth := health;
      this.dashCooldown := dashCooldown;
      this.groundedForgiveness := groundedForgiveness;
      this.horizontalSpeed := horizontalSpeed;
      this.jumpingPower := jumpingPower;
      horizontalMovement := 0.0;
      timeSinceLastDash := 2.0;
      canDash := true;
      timeSinceLastGrounded := 0.075;
      isFacingRight := true;
      isDropping := false;
      enableMovement := true;
      isInvulnerable := false;
      isDead := false;
      elapsedTime := 0.0;
      playerFirstInput := false;
      this.freezeRotation := freezeRotation;
    }

    /** One frame: the run clock, the sprite direction, dash recharge and the coyote-time timer.
        turned reports a sprite flip, which also turns the bow and re-aims it. */
    method Update(dt: real, grounded: bool) returns (turned: bool)
      modifies this`elapsedTime, this`isFacingRight, this`canDash, this`timeSinceLastDash,
               this`timeSinceLastGrounded
      ensures elapsedTime == old(elapsedTime) + (if playerFirstInput then dt else 0.0)
      ensures turned <==> !isDead && (if old(isFacingRight) then horizontalMovement > 0.0 else horizontalMovement < 0.0)
      ensures isFacingRight == (if turned then !old(isFacingRight) else old(isFacingRight))
      ensures canDash == (old(canDash) || grounded)
      ensures timeSinceLastDash == if old(timeSinceLastDash) < dashCooldown then old(timeSinceLastDash) + dt
                                   else old(timeSinceLastDash)
      ensures timeSinceLastGrounded == if grounded then 0.0
                                       else if old(timeSinceLastGrounded) < groundedForgiveness
                                       then old(timeSinceLastGrounded) + dt
                                       else old(timeSinceLastGrounded)
      ensures health == old(health) && isDead == old(isDead) && enableMovement == old(enableMovement)
      ensures isInvulnerable == old(isInvulnerable) && isDropping == old(isDropping)
      ensures horizontalMovement == old(horizontalMovement) && playerFirstInput == old(playerFirstInput)
      ensures freezeRotation == old(freezeRotation)
    {
      if playerFirstInput {
        elapsedTime := elapsedTime + dt;
      }
      turned := TryRotateSprite();
      if !canDash && grounded {
        canDash := true;
      }
      if timeSinceLastDash < dashCooldown {
        timeSinceLastDash := timeSinceLastDash + dt;
      }
      if grounded {
        timeSinceLastGrounded := 0.0;
      } else if timeSinceLastGrounded < groundedForgiveness {
        timeSinceLastGrounded := timeSinceLastGrounded + dt;
      }
    }

    /** Flips the sprite when the horizontal input points the way it faces (the sprite is drawn
        facing the other way). Nothing happens while dead. */
    method TryRotateSprite() returns (turned: bool)
      modifies this`isFacingRight
      ensures turned <==> !isDead && (if old(isFacingRight) then horizontalMovement > 0.0 else horizontalMovement < 0.0)
      ensures isFacingRight == (if turned then !old(isFacingRight) else old(isFacingRight))
    {
      turned := false;
      if isDead {
        return;
      }
      if (isFacingRight && horizontalMovement > 0.0) || (!isFacingRight && horizontalMovement < 0.0) {
        isFacingRight := !isFacingRight;
        turned := true;
      }
    }

    /** The physics step: the horizontal velocity it sets, if any. */
    method FixedUpdate() returns (velocityX: Option<real>)
      ensures isDead || !enableMovement ==> velocityX == None
      ensures !isDead && enableMovement ==> velocityX == Some(horizontalMovement * horizontalSpeed)
    {
      if isDead {
        return None;
      }
      velocityX := None;
      if enableMovement {
        velocityX := Some(horizontalMovement * horizontalSpeed);
      }
    }

    /** The horizontal input axis; a non-zero value counts as the first input of the run. */
    method HorizontalMovement(value: real)
      modifies this`horizontalMovement, this`playerFirstInput
      ensures old(isDead) ==> unchanged(this)
      ensures !old(isDead) ==> horizontalMovement == value
                               && playerFirstInput == (old(playerFirstInput) || value != 0.0)
      ensures health == old(health) && isDead == old(isDead) && canDash == old(canDash)
      ensures enableMovement == old(enableMovement) && timeSinceLastDash == old(timeSinceLastDash)
      ensures timeSinceLastGrounded == old(timeSinceLastGrounded)
    {
      if isDead {
        return;
      }
      horizontalMovement := value;
      if horizontalMovement != 0.0 {
        playerFirstInput := true;
      }
    }

    /** Aiming at the mouse: aimed tells whether the bow is re-aimed. */
    method LookCallback() returns (aimed: bool)
      ensures aimed == !isDead
    {
      if isDead {
        return false;
      }
      aimed := true;
    }

    method ChargeBow(phase: InputPhase) returns (request: BowRequest)
      modifies this`playerFirstInput
      ensures old(isDead) ==> unchanged(this) && request == NoBowRequest
      ensures !old(isDead) ==> request == (match phase
                                            case Performed => StartCharging
                                            case Canceled => ReleaseCharge
                                            case Started => NoBowRequest)
      ensures !old(isDead) ==> playerFirstInput == (old(playerFirstInput) || phase == Performed)
    {
      request := NoBowRequest;
      if isDead {
        return;
      }
      if phase == Performed {
        if !playerFirstInput {
          playerFirstInput := true;
        }
        request := StartCharging;
      } else if phase == Canceled {
        request := ReleaseCharge;
      }
    }

    method RetrieveArrowInput(phase: InputPhase) returns (request: BowRequest)
      ensures request == if !isDead && phase == Performed then RetrieveArrow else NoBowRequest
    {
      request := NoBowRequest;
      if isDead {
        return;
      }
      if phase == Performed {
        request := RetrieveArrow;
      }
    }

    /** Dropping through a one-way platform: both downward rays from the feet must hit the same
        platform (platformUnderBothFeet). The platform collider is then disabled for 0.3 s. */
    method DropThroughPlatform(phase: InputPhase, grounded: bool, platformUnderBothFeet: bool)
      returns (dropped: bool)
      modifies this`isDropping
      ensures old(isDead) ==> unchanged(this) && !dropped
      ensures dropped <==> !old(isDead) && phase == Performed && !old(isDropping) && grounded && platformUnderBothFeet
      ensures isDropping == (old(isDropping) || dropped)
    {
      dropped := false;
      if isDead {
        return;
      }
      if phase == Performed && !isDropping && grounded {
        if platformUnderBothFeet {
          isDropping := true;
          dropped := true;
        }
      }
    }

    /** A dash fires when the cooldown has elapsed and the dash has been recharged by touching
        the ground. It suspends steering and makes the player invulnerable for its i-frames. */
    method Dash(phase: InputPhase) returns (dashed: bool, impulseX: real)
      modifies this`playerFirstInput, this`canDash, this`enableMovement, this`timeSinceLastDash,
               this`isInvulnerable
      ensures impulseX == if !dashed then 0.0 else if old(isFacingRight) then -DashImpulse else DashImpulse
      ensures old(isDead) ==> unchanged(this) && !dashed
      ensures dashed <==> !old(isDead) && phase == Performed
                          && old(timeSinceLastDash) >= dashCooldown && old(canDash)
      ensures dashed ==> !canDash && !enableMovement && timeSinceLastDash == 0.0 && isInvulnerable
      ensures !dashed ==> canDash == old(canDash) && enableMovement == old(enableMovement)
                          && timeSinceLastDash == old(timeSinceLastDash) && isInvulnerable == old(isInvulnerable)
      ensures !old(isDead) && phase == Performed ==> playerFirstInput
      ensures !old(isDead) && phase != Performed ==> unchanged(this)
      ensures health == old(health) && isDead == old(isDead) && timeSinceLastGrounded == old(timeSinceLastGrounded)
    {
      dashed, impulseX := false, 0.0;
      if isDead {
        return;
      }
      if phase != Performed {
        return;
      }
      if !playerFirstInput {
        playerFirstInput := true;
      }
      if timeSinceLastDash >= dashCooldown && canDash {
        canDash := false;
        enableMovement := false;
        timeSinceLastDash := 0.0;
        impulseX := if isFacingRight then -DashImpulse else DashImpulse;
        isInvulnerable := true;
        dashed := true;
      }
    }

    /** A jump fires within the coyote time after leaving the ground, and uses it up: a second
        jump before the ground is touched again finds the timer at groundedForgiveness. */
    method Jump(phase: InputPhase) returns (velocityY: Option<real>)
      modifies this`playerFirstInput, this`timeSinceLastGrounded
      ensures old(isDead) ==> unchanged(this) && velocityY == None
      ensures velocityY.Some? ==> velocityY.value == jumpingPower
      ensures velocityY.Some? <==> !old(isDead) && phase == Performed && old(timeSinceLastGrounded) < groundedForgiveness
      ensures timeSinceLastGrounded == if velocityY.Some? then groundedForgiveness else old(timeSinceLastGrounded)
      ensures !old(isDead) && phase == Performed ==> playerFirstInput
      ensures !old(isDead) && phase != Performed ==> unchanged(this)
      ensures health == old(health) && isDead == old(isDead) && canDash == old(canDash)
      ensures enableMovement == old(enableMovement) && timeSinceLastDash == old(timeSinceLastDash)
    {
      velocityY := None;
      if isDead {
        return;
      }
      if phase != Performed {
        return;
      }
      if !playerFirstInput {
        playerFirstInput := true;
      }
      if timeSinceLastGrounded < groundedForgiveness {
        timeSinceLastGrounded := groundedForgiveness;
        velocityY := Some(jumpingPower);
      }
    }

    /** Damage is ignored while invulnerable. Otherwise health drops by the damage, the player
        dies when it reaches 0, is knocked back with steering suspended, and becomes
        invulnerable for the damage i-frames. There is no guard against a dead player. */
    method TakeDamage(damage: real)
      modifies this`health, this`isDead, this`freezeRotation, this`enableMovement, this`isInvulnerable
      ensures old(isInvulnerable) ==> unchanged(this)
      ensures !old(isInvulnerable) ==>
        && health == old(health) - damage
        && isDead == (old(isDead) || health <= 0.0)
        && (health <= 0.0 ==> !freezeRotation)
        && (health > 0.0 ==> freezeRotation == old(freezeRotation))
        && !enableMovement && isInvulnerable
      ensures canDash == old(canDash) && timeSinceLastDash == old(timeSinceLastDash)
      ensures timeSinceLastGrounded == old(timeSinceLastGrounded)
      ensures horizontalMovement == old(horizontalMovement)
    {
      if isInvulnerable {
        return;
      }
      health := health - damage;
      if health <= 0.0 {
        Die();
      }
      enableMovement := false;
      isInvulnerable := true;
    }

    /** The part of the death sequence that runs at once: the body may tumble, steering stops and
        the player is dead. */
    method Die()
      modifies this`freezeRotation, this`enableMovement, this`isDead
      ensures !freezeRotation && !enableMovement && isDead
    {
      freezeRotation := false;
      enableMovement := false;
      isDead := true;
    }

    /** Interacting with the current interactable, if there is one. */
    method Interact(phase: InputPhase, hasInteractable: bool) returns (triggered: bool)
      ensures triggered <==> !isDead && phase == Performed && hasInteractable
    {
      triggered := false;
      if isDead {
        return;
      }
      if phase == Performed && hasInteractable {
        triggered := true;
      }
    }

    /** Back to full health, alive and steerable, with no horizontal input. */
    method Restart()
      modifies this`health, this`freezeRotation, this`enableMovement, this`horizontalMovement, this`isDead
      ensures health == maxHealth && !isDead && enableMovement && freezeRotation
      ensures horizontalMovement == 0.0
      ensures canDash == old(canDash) && timeSinceLastDash == old(timeSinceLastDash)
      ensures timeSinceLastGrounded == old(timeSinceLastGrounded) && isInvulnerable == old(isInvulnerable)
    {
      health := maxHealth;
      freezeRotation := true;
      enableMovement := true;
      horizontalMovement := 0.0;
      isDead := false;
    }
  }
}

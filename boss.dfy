/** The Boss component: its fields, the FixedUpdate that advances its state
    machine, and the attack routines, each run as a sequence of phases. */
module BossBehaviour {
  import opened Vectors
  import opened Decision
  import opened Routines
  import opened StateMachine

  class Boss {
    // Inspector settings the boss never changes.
    const maxHealth: real
    const teleportDistance: real
    const minActionCooldown: real
    const maxActionCooldown: real
    const closeRangeThreshold: real

    var health: real
    var moveSpeed: real
    var state: State
    var timer: real             // actionCooldownTimer
    var position: Vec3          // transform.position
    var forward: Vec3           // the vector last assigned to transform.forward
    var coroutine: Coroutine    // the attack coroutine MakeDecision left running
    ghost var resets: nat       // how many times ResetActionCooldown has run

    /** An attack coroutine only runs while the boss is acting, and the timer
        is never negative when both cooldown bounds are non-negative. */
    ghost predicate Valid()
      reads this
    {
      && (coroutine != Idle ==> state == DoAction)
      && (0.0 <= minActionCooldown && 0.0 <= maxActionCooldown ==> timer >= 0.0)
    }

    /** The state ResetActionCooldown leaves behind: cooling down with a
        timer Random.Range may have drawn. */
    predicate FreshCooldown()
      reads this
    {
      state == Cooldown && InRange(timer, minActionCooldown, maxActionCooldown)
    }

    function Snapshot(): Machine
      reads this
    {
      Machine(state, timer)
    }

    /** What MakeDecision chooses with the player at `player`. */
    function Choice(player: Vec3): Action
      reads this
    {
      Decide(health, maxHealth, IsFar(position, player, closeRangeThreshold))
    }

    /** The inspector values followed by Start: full health, the cooldown
        state and a first cooldown of 5 seconds. */
    constructor (maxHealth: real, moveSpeed: real, teleportDistance: real,
                 minActionCooldown: real, maxActionCooldown: real, closeRangeThreshold: real,
                 position: Vec3, forward: Vec3)
      ensures Valid()
      ensures this.maxHealth == maxHealth && health == maxHealth
      ensures this.moveSpeed == moveSpeed && this.teleportDistance == teleportDistance
      ensures this.minActionCooldown == minActionCooldown && this.maxActionCooldown == maxActionCooldown
      ensures this.closeRangeThreshold == closeRangeThreshold
      ensures this.position == position && this.forward == forward
      ensures state == Cooldown && timer == 5.0 && coroutine == Idle && resets == 0
    {
      this.maxHealth := maxHealth;
      this.moveSpeed := moveSpeed;
      this.teleportDistance := teleportDistance;
      this.minActionCooldown := minActionCooldown;
      this.maxActionCooldown := maxActionCooldown;
      this.closeRangeThreshold := closeRangeThreshold;
      this.position := position;
      this.forward := forward;
      state := Cooldown;
      coroutine := Idle;
      resets := 0;
      health := maxHealth;
      timer := 5.0;
    }

    /** FixedUpdate.  The planar distance test is made inside Choice; the
        navigation agent's destination and speed are not modelled. */
    method Tick(dt: real, player: Vec3)
      requires Valid()
      modifies this
      ensures Valid()
      ensures Snapshot() == StateMachine.Tick(old(Snapshot()), dt, old(Choice(player)), timer)
      ensures old(state) == MakeDesicion && old(Choice(player)) == CloseRange ==>
        InRange(timer, minActionCooldown, maxActionCooldown) && resets == old(resets) + 1
      ensures old(state) == MakeDesicion ==> coroutine == Started(old(Choice(player)))
      ensures old(state) != MakeDesicion || old(Choice(player)) != CloseRange ==> resets == old(resets)
      ensures old(state) != MakeDesicion ==> coroutine == old(coroutine)
      ensures health == old(health) && moveSpeed == old(moveSpeed)
      ensures position == old(position) && forward == old(forward)
    {
      match state {
        case Cooldown =>
          timer := timer - dt;
          if timer < 0.0 {
            timer := 0.0;
          }
          if timer <= 0.0 {
            state := MakeDesicion;
          }
        case MakeDesicion =>
          MakeDecision(player);
          state := DoAction;
        case DoAction =>
      }
    }

    /** MakeDecision: starts the chosen coroutine, or runs the close-range
        attack on the spot. */
    method MakeDecision(player: Vec3)
      modifies this`coroutine, this`timer, this`state, this`resets
      ensures old(Choice(player)) == CloseRange ==>
        FreshCooldown() &&
        resets == old(resets) + 1 && coroutine == old(coroutine)
      ensures old(Choice(player)) != CloseRange ==>
        state == old(state) && timer == old(timer) && resets == old(resets)
      ensures old(Choice(player)).Teleport? || old(Choice(player)).Charge? ==>
        coroutine == Started(old(Choice(player)))
      ensures old(Choice(player)) == NoAction ==> coroutine == old(coroutine)
    {
      match Choice(player) {
        case Teleport(attackType) =>
          coroutine := PrepareTeleport(attackType);
        case CloseRange =>
          CloseRangeAttack();
        case Charge(times) =>
          coroutine := Coroutine.ChargeAttack(times);
        case NoAction =>
      }
    }

    /** ResetActionCooldown: a fresh timer drawn by Random.Range between the two
        cooldown bounds, and back to the cooldown state. */
    method ResetActionCooldown()
      modifies this`timer, this`state, this`resets
      ensures FreshCooldown()
      ensures resets == old(resets) + 1
    {
      assert InRange(minActionCooldown, minActionCooldown, maxActionCooldown);
      var randomCooldown :| InRange(randomCooldown, minActionCooldown, maxActionCooldown);
      timer := randomCooldown;
      state := Cooldown;
      resets := resets + 1;
    }

    /** CloseRangeAttack: the hit effect is not modelled; it always ends in the
        cooldown. */
    method CloseRangeAttack()
      modifies this`timer, this`state, this`resets
      ensures FreshCooldown()
      ensures resets == old(resets) + 1
    {
      ResetActionCooldown();
    }

    /** The first phase of StopMoving: remember the speed and stand still. */
    method StopMovingStart() returns (savedSpeed: real)
      modifies this`moveSpeed
      ensures savedSpeed == old(moveSpeed) && moveSpeed == 0.0
    {
      savedSpeed := moveSpeed;
      moveSpeed := 0.0;
    }

    /** The last phase of StopMoving, once its wait is over: put the speed back. */
    method StopMovingEnd(savedSpeed: real)
      modifies this`moveSpeed
      ensures moveSpeed == savedSpeed
    {
      moveSpeed := savedSpeed;
    }

    /** ChargeAttack(times): `times` rounds of facing the player, standing still
        for the preparation time and dashing, then one reset of the cooldown.
        The k-th dash (from 0) ends at `landing(k)`, the point the engine's
        MoveTowards frames stop at within 0.1 of the charge target. */
    method ChargeAttack(times: int, player: Vec3, landing: nat -> Vec3) returns (phases: seq<Phase>)
      modifies this`position, this`forward, this`moveSpeed, this`timer, this`state, this`resets
      ensures phases == ChargePhases(times)
      ensures FreshCooldown()
      ensures resets == old(resets) + 1
      ensures moveSpeed == old(moveSpeed)
      ensures times > 0 ==> position == landing(times - 1) && forward.y == 0.0
      ensures times <= 0 ==> position == old(position) && forward == old(forward)
    {
      var remaining := times;
      var dashes: nat := 0;
      phases := [];
      while remaining > 0
        invariant dashes == Max0(times) - Max0(remaining)
        invariant phases + ChargePhases(remaining) == ChargePhases(times)
        invariant moveSpeed == old(moveSpeed)
        invariant state == old(state) && timer == old(timer) && resets == old(resets)
        invariant dashes > 0 ==> position == landing(dashes - 1) && forward.y == 0.0
        invariant dashes == 0 ==> position == old(position) && forward == old(forward)
        decreases remaining
      {
        forward := FaceHorizontally(position, player);
        var savedSpeed := StopMovingStart();
        // chargePrepareTime, then one more second, pass here
        StopMovingEnd(savedSpeed);
        position := landing(dashes);
        phases := phases + [Face, SpeedZeroed, SpeedRestored, Dash];
        dashes := dashes + 1;
        remaining := remaining - 1;
      }
      ResetActionCooldown();
      phases := phases + [ResetCooldown];
    }

    /** The first two phases of TeleportAttack: land in front of the player
        and turn to face them with the height held. */
    method TeleportNextTo(player: Vec3, playerForward: Vec3)
      modifies this`position, this`forward
      ensures position == TeleportPoint(player, playerForward, teleportDistance)
      ensures forward == FaceHorizontally(position, player) && forward.y == 0.0
    {
      position := TeleportPoint(player, playerForward, teleportDistance);
      forward := FaceHorizontally(position, player);
    }

    /** TeleportAttack(attackType): teleport next to the player, then run the
        close-range attack (type 1) or a triple charge (type 2); any other type
        leaves the boss where it is, still acting. */
    method TeleportAttack(attackType: int, player: Vec3, playerForward: Vec3, landing: nat -> Vec3)
      returns (phases: seq<Phase>)
      modifies this`position, this`forward, this`moveSpeed, this`timer, this`state, this`resets
      ensures phases == TeleportPhases(attackType)
      ensures attackType == 1 || attackType == 2 ==>
        FreshCooldown() &&
        resets == old(resets) + 1
      ensures attackType != 1 && attackType != 2 ==>
        state == old(state) && timer == old(timer) && resets == old(resets)
      ensures moveSpeed == old(moveSpeed)
      ensures attackType != 2 ==>
        position == TeleportPoint(player, playerForward, teleportDistance) &&
        forward == FaceHorizontally(position, player)
      ensures attackType == 2 ==> position == landing(2)
      ensures forward.y == 0.0
    {
      TeleportNextTo(player, playerForward);
      if attackType == 1 {
        // a one-second pause before the strike
        CloseRangeAttack();
        phases := [Relocate, Face, ResetCooldown];
        assert phases == TeleportPhases(1);
      } else if attackType == 2 {
        var charge := ChargeAttack(3, player, landing);
        phases := [Relocate, Face] + charge;
        assert phases == TeleportPhases(2);
      } else {
        phases := [Relocate, Face];
        assert phases == TeleportPhases(attackType);
      }
    }

    /** Runs the coroutine MakeDecision left running from its first wait to its
        end (PrepareTeleport's delay ends in TeleportAttack), with the player
        at `player` facing `playerForward` meanwhile. */
    method ResumeCoroutine(player: Vec3, playerForward: Vec3, landing: nat -> Vec3)
      returns (phases: seq<Phase>)
      requires Valid()
      modifies this
      ensures Valid() && coroutine == Idle
      ensures phases == CoroutinePhases(old(coroutine))
      ensures EndsInCooldown(old(coroutine)) ==> FreshCooldown() && resets == old(resets) + 1
      ensures !EndsInCooldown(old(coroutine)) ==>
        state == old(state) && timer == old(timer) && resets == old(resets)
      ensures health == old(health) && moveSpeed == old(moveSpeed)
      ensures old(coroutine).PrepareTeleport? && old(coroutine).attackType != 2 ==>
        position == TeleportPoint(player, playerForward, teleportDistance) &&
        forward == FaceHorizontally(position, player)
      ensures old(coroutine) == PrepareTeleport(2) ==> position == landing(2)
      ensures old(coroutine).ChargeAttack? && old(coroutine).times > 0 ==>
        position == landing(old(coroutine).times - 1)
      ensures old(coroutine).PrepareTeleport? || (old(coroutine).ChargeAttack? && old(coroutine).times > 0) ==>
        forward.y == 0.0
      ensures old(coroutine) == Idle || (old(coroutine).ChargeAttack? && old(coroutine).times <= 0) ==>
        position == old(position) && forward == old(forward)
    {
      var running := coroutine;
      coroutine := Idle;
      match running {
        case Idle =>
          phases := [];
        case PrepareTeleport(attackType) =>
          phases := TeleportAttack(attackType, player, playerForward, landing);
        case ChargeAttack(times) =>
          phases := ChargeAttack(times, player, landing);
      }
    }
  }
}

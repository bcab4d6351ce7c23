/** The boss's attack coroutines as sequences of phases.  The timed waits
    between phases are dropped; what remains is the order in which the
    routines relocate, turn, stop, dash and hand control back to the cooldown. */
module Routines {
  import opened Decision

  /** One observable step of an attack routine. */
  datatype Phase =
    | Relocate        // teleport next to the player
    | Face            // turn to the player, height held
    | SpeedZeroed     // StopMoving saves the speed and sets it to 0
    | SpeedRestored   // StopMoving's wait ends and the saved speed is put back
    | Dash            // one charge towards the player
    | ResetCooldown   // ResetActionCooldown: back to the cooldown state

  /** A coroutine MakeDecision may leave running. */
  datatype Coroutine = Idle | PrepareTeleport(attackType: int) | ChargeAttack(times: int)

  function Max0(n: int): nat
  {
    if n > 0 then n else 0
  }

  /** ChargeAttack(times): while times > 0, face, stop for the preparation
      time, dash, decrement; then reset the cooldown. */
  function ChargePhases(times: int): seq<Phase>
    decreases Max0(times)
  {
    if times > 0 then [Face, SpeedZeroed, SpeedRestored, Dash] + ChargePhases(times - 1)
    else [ResetCooldown]
  }

  /** ChargeAttack(n) dashes exactly max(n, 0) times, every stop is undone,
      it never teleports, and it resets the cooldown exactly once. */
  lemma {:induction false} ChargePhasesCount(times: int)
    ensures multiset(ChargePhases(times))[Dash] == Max0(times)
    ensures multiset(ChargePhases(times))[SpeedZeroed] == Max0(times)
    ensures multiset(ChargePhases(times))[SpeedRestored] == Max0(times)
    ensures multiset(ChargePhases(times))[ResetCooldown] == 1
    ensures multiset(ChargePhases(times))[Relocate] == 0
    decreases Max0(times)
  {
    if times > 0 {
      ChargePhasesCount(times - 1);
      var round := [Face, SpeedZeroed, SpeedRestored, Dash];
      var m := multiset(round);
      assert m[Dash] == 1 && m[SpeedZeroed] == 1 && m[SpeedRestored] == 1;
      assert m[ResetCooldown] == 0 && m[Relocate] == 0;
      assert multiset(ChargePhases(times)) == m + multiset(ChargePhases(times - 1));
    }
  }

  /** The reset is ChargeAttack's last phase: it comes after every dash. */
  lemma {:induction false} ChargeEndsWithReset(times: int)
    ensures ChargePhases(times)[|ChargePhases(times)| - 1] == ResetCooldown
    decreases Max0(times)
  {
    if times > 0 {
      ChargeEndsWithReset(times - 1);
    }
  }

  /** TeleportAttack(attackType), after PrepareTeleport's delay: relocate, face
      the player, then chain into the close-range attack (type 1, which resets
      the cooldown) or a triple charge (type 2); any other type ends there. */
  function TeleportPhases(attackType: int): (r: seq<Phase>)
    ensures |r| >= 2 && r[0] == Relocate && r[1] == Face
  {
    [Relocate, Face] +
      if attackType == 1 then [ResetCooldown]
      else if attackType == 2 then ChargePhases(3)
      else []
  }

  /** A teleport hands control back to the cooldown, once, exactly for attack
      types 1 and 2; for any other type nothing ever resets it. */
  lemma TeleportResetsIffKnownType(attackType: int)
    ensures ResetCooldown in TeleportPhases(attackType) <==> attackType == 1 || attackType == 2
    ensures multiset(TeleportPhases(attackType))[ResetCooldown] ==
      if attackType == 1 || attackType == 2 then 1 else 0
  {
    ChargePhasesCount(3);
  }

  /** The phases a started coroutine runs until it finishes. */
  function CoroutinePhases(c: Coroutine): seq<Phase>
  {
    match c
    case Idle => []
    case PrepareTeleport(attackType) => TeleportPhases(attackType)
    case ChargeAttack(times) => ChargePhases(times)
  }

  /** Whether a coroutine ends by resetting the cooldown: every charge does,
      a teleport only for attack types 1 and 2. */
  predicate EndsInCooldown(c: Coroutine)
  {
    c.ChargeAttack? || (c.PrepareTeleport? && (c.attackType == 1 || c.attackType == 2))
  }

  /** A coroutine resets the cooldown exactly once if it ends in the
      cooldown, and never otherwise. */
  lemma CoroutineResetsOnce(c: Coroutine)
    ensures ResetCooldown in CoroutinePhases(c) <==> EndsInCooldown(c)
    ensures multiset(CoroutinePhases(c))[ResetCooldown] == if EndsInCooldown(c) then 1 else 0
  {
    match c
    case Idle =>
    case PrepareTeleport(attackType) => TeleportResetsIffKnownType(attackType);
    case ChargeAttack(times) => ChargePhasesCount(times);
  }

  /** The coroutine MakeDecision leaves running for a decision: the
      close-range attack runs synchronously and starts none. */
  function Started(a: Action): (c: Coroutine)
    ensures a.Teleport? <==> c.PrepareTeleport?
    ensures a.Charge? <==> c.ChargeAttack?
    ensures c.PrepareTeleport? ==> c.attackType == a.attackType
    ensures c.ChargeAttack? ==> c.times == a.times
  {
    match a
    case Teleport(attackType) => PrepareTeleport(attackType)
    case Charge(times) => ChargeAttack(times)
    case CloseRange => Idle
    case NoAction => Idle
  }

  /** Everything a decision causes, the synchronous close-range attack
      included. */
  function DecisionPhases(a: Action): seq<Phase>
  {
    if a == CloseRange then [ResetCooldown] else CoroutinePhases(Started(a))
  }

  /** With a positive maximum health, what a decision sets off ever resets the
      cooldown exactly when the health is at least a third of the maximum, and
      then exactly once; below a third no routine is started at all. */
  lemma DecisionResetsIffThirdHealth(health: real, maxHealth: real, far: bool)
    requires maxHealth > 0.0
    ensures ResetCooldown in DecisionPhases(Decide(health, maxHealth, far)) <==> 3.0 * health >= maxHealth
    ensures multiset(DecisionPhases(Decide(health, maxHealth, far)))[ResetCooldown] <= 1
    ensures 3.0 * health < maxHealth ==> Started(Decide(health, maxHealth, far)) == Idle
  {
    var a := Decide(health, maxHealth, far);
    if a.Charge? {
      ChargePhasesCount(a.times);
    } else if a.Teleport? {
      TeleportResetsIffKnownType(a.attackType);
    }
  }
}

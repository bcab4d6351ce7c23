/** The choice MakeDecision makes from the boss's health fraction and whether
    the player is beyond the close-range threshold. */
module Decision {

  /** What MakeDecision starts: a teleport carrying the attack type it chains
      into, the close-range attack, a charge repeated `times` times, or nothing. */
  datatype Action = Teleport(attackType: int) | CloseRange | Charge(times: int) | NoAction

  /** The comparison `health / maxHealth >= k`, with the single-precision
      division by zero read as IEEE arithmetic does: a positive health over zero
      is +infinity, a negative one -infinity and zero over zero NaN, for which
      every comparison is false. */
  predicate FractionAtLeast(health: real, maxHealth: real, k: real)
  {
    if maxHealth == 0.0 then health > 0.0 else health / maxHealth >= k
  }

  /** The comparison `health / maxHealth < k`, read the same way. */
  predicate FractionBelow(health: real, maxHealth: real, k: real)
  {
    if maxHealth == 0.0 then health < 0.0 else health / maxHealth < k
  }

  /** The two-phase decision tree: at two thirds of the maximum health or more
      the boss teleports in (type 1) or strikes at close range; from one third
      to two thirds it teleports in (type 2) or charges three times; below one
      third nothing is started.  `far` is `playerDistance > closeRangeThreshold`. */
  function Decide(health: real, maxHealth: real, far: bool): (a: Action)
    ensures maxHealth > 0.0 && 3.0 * health >= 2.0 * maxHealth ==>
      a == (if far then Teleport(1) else CloseRange)
    ensures maxHealth > 0.0 && maxHealth <= 3.0 * health < 2.0 * maxHealth ==>
      a == (if far then Teleport(2) else Charge(3))
    ensures maxHealth > 0.0 ==> (a == NoAction <==> 3.0 * health < maxHealth)
    ensures maxHealth == 0.0 ==> (a == NoAction <==> health <= 0.0)
    ensures a.Teleport? ==> a.attackType == 1 || a.attackType == 2
    ensures a.Charge? ==> a.times == 3
  {
    FractionVersus(health, maxHealth, 2.0 / 3.0);
    FractionVersus(health, maxHealth, 1.0 / 3.0);
    if FractionAtLeast(health, maxHealth, 2.0 / 3.0) then
      (if far then Teleport(1) else CloseRange)
    else if FractionBelow(health, maxHealth, 2.0 / 3.0) && FractionAtLeast(health, maxHealth, 1.0 / 3.0) then
      (if far then Teleport(2) else Charge(3))
    else
      NoAction
  }

  /** Comparing the fraction with `k` is comparing the health with `k` times the
      maximum, when the maximum is positive. */
  lemma FractionVersus(health: real, maxHealth: real, k: real)
    ensures maxHealth > 0.0 ==> (health / maxHealth >= k <==> health >= k * maxHealth)
  {
    if maxHealth > 0.0 {
      var f := health / maxHealth;
      assert f * maxHealth == health;
      if f >= k {
        assert f * maxHealth >= k * maxHealth;
      } else {
        assert f * maxHealth < k * maxHealth;
      }
    }
  }
}

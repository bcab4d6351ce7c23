# Boss decision state machine — a Dafny model

This project models the boss AI component of a Unity action game (`Assets/Boss/Boss.cs`).
On every physics tick, `FixedUpdate` works out where the player is in the ground
plane and advances a three-state machine: `cooldown`, `makeDesicion` and `doAction`,
kept in `currentState` together with `actionCooldownTimer`. In `cooldown` the timer
counts down. When it reaches zero, `MakeDecision` picks an attack from the health
fraction and the planar distance to the player. The attack routines are Unity
coroutines: a teleport that chains into a close-range strike or a triple charge,
and the charge itself, which stops the boss for a moment before each dash. The
close-range attack, every charge, and a teleport of type 1 or 2 end by calling
`ResetActionCooldown`. It draws a new timer with `Random.Range` and returns to
`cooldown`. A teleport of any other type ends without that call.

The model has five modules:

- `Vectors` (vectors.dfy): planar offset, squared planar distance, the far/near
  test, the horizontal facing vector and the teleport point. Floats are exact `real`s.
  The square root in `Vector3.Distance` is avoided: the threshold test compares
  squares, and `FarIffBeyondThreshold` proves this agrees with the true distance.
- `Decision` (decision.dfy): `MakeDecision`'s choice as a pure function returning an
  `Action`. A zero maximum health is read the IEEE way: a positive health over zero
  is +infinity, a negative health is -infinity, and zero over zero is NaN.
- `Routines` (routines.dfy): each coroutine as the sequence of phases it goes
  through (relocate, face, speed zeroed, speed restored, dash, reset), with the waits
  removed.
- `StateMachine` (state_machine.dfy): one `FixedUpdate` as a pure step on
  `(state, timer)`, and lemmas about runs of many ticks.
- `BossBehaviour` (boss.dfy): the `Boss` class. Its fields are the ones the source
  updates in place. `Tick` is `FixedUpdate`, and the attack routines are methods that
  run their phases in order and return the phase trace. `Random.Range` is an
  arbitrary value between the two bounds, chosen inside `ResetActionCooldown`.

Three facts about `Boss.cs` shape the model:
- `Boss.cs` has no flag guarding against overlapping attacks. In the model,
  `Valid()` states that a coroutine runs only while the boss is in `doAction`.
- Below one third of maximum health, `MakeDecision` starts nothing. A close-range
  decision taken directly in `FixedUpdate` also loses its return to `cooldown`
  (see Findings).
- Health is never clamped. The only change after `Start` is the debug key in
  `Update` (Assets/Boss/Boss.cs:85), which is not part of this model.

## Model

| member | source | states |
|---|---|---|
| Vectors.PlanarOffset | Assets/Boss/Boss.cs:94-99 | the direction to the player has height 0 and planar components equal to the player's minus the boss's |
| Vectors.PlanarDistanceSq | Assets/Boss/Boss.cs:96-98 | the squared planar distance is never negative |
| Vectors.PlanarIgnoresHeight | Assets/Boss/Boss.cs:96-99 | changing either height changes neither the planar distance nor the planar direction |
| Vectors.FarIffBeyondThreshold | Assets/Boss/Boss.cs:98 | for any non-negative distance whose square is the planar squared distance, the square-based far test holds exactly when distance > closeRangeThreshold |
| Vectors.FaceHorizontally | Assets/Boss/Boss.cs:154-156 | the facing vector assigned while the boss's height is held has y = 0 and is exactly the planar direction to the player |
| Vectors.TeleportLandsAtDistance | Assets/Boss/Boss.cs:150-151 | when the player's forward is a horizontal unit vector, the teleport lands exactly teleportDistance from the player in the plane |
| Decision.Decide | Assets/Boss/Boss.cs:102-120 | with positive max health: health ≥ 2/3 of max gives Teleport(1) when far and CloseRange when near; 1/3 ≤ fraction < 2/3 gives Teleport(2) when far and Charge(3) when near; NoAction exactly when health < 1/3 of max; with max health 0, NoAction exactly when health ≤ 0; teleport types are only 1 or 2 and charges are always 3 |
| Routines.ChargePhasesCount | Assets/Boss/Boss.cs:175-211 | ChargeAttack(n) dashes exactly max(n, 0) times, zeroes and restores the speed max(n, 0) times each, never teleports, and resets the cooldown exactly once |
| Routines.ChargeEndsWithReset | Assets/Boss/Boss.cs:208-211 | the cooldown reset is the charge's last phase |
| Routines.TeleportPhases | Assets/Boss/Boss.cs:147-156 | a teleport first relocates and then faces the player |
| Routines.TeleportResetsIffKnownType | Assets/Boss/Boss.cs:162-169 | a teleport resets the cooldown exactly for attack types 1 and 2, and then exactly once |
| Routines.CoroutineResetsOnce | Assets/Boss/Boss.cs:137-212 | a started coroutine resets the cooldown once if it is a charge or a teleport of type 1 or 2, and never otherwise |
| Routines.Started | Assets/Boss/Boss.cs:108-118 | a teleport decision starts PrepareTeleport with the same type, a charge decision starts ChargeAttack with the same count, and the other decisions start no coroutine |
| Routines.DecisionResetsIffThirdHealth | Assets/Boss/Boss.cs:102-120 | with positive max health, a decision ever resets the cooldown (at most once) exactly when health ≥ 1/3 of max; below that, no coroutine is started |
| StateMachine.CooldownTimer | Assets/Boss/Boss.cs:66-67 | the new timer is max(timer - dt, 0): never negative, and 0 exactly when dt ≥ timer |
| StateMachine.Tick | Assets/Boss/Boss.cs:58-80 | in cooldown the timer counts down, and the state becomes makeDesicion exactly when the timer is 0; makeDesicion always goes to doAction, and only a close-range decision changes the timer; doAction changes nothing |
| StateMachine.StuckInDoAction | Assets/Boss/Boss.cs:77-78 | from doAction, any number of ticks leaves state and timer unchanged |
| StateMachine.NeverBackToCooldown | Assets/Boss/Boss.cs:63-79 | once out of cooldown, ticks alone never return the machine to it |
| StateMachine.CooldownCountsDown | Assets/Boss/Boss.cs:65-72 | while less time has elapsed than the timer held, the boss stays in cooldown, and the timer has dropped by exactly the elapsed time |
| StateMachine.CooldownExpires | Assets/Boss/Boss.cs:65-72 | once the elapsed time reaches the timer, the boss has left cooldown |
| StateMachine.TimerNeverNegative | Assets/Boss/Boss.cs:53-72 | starting from a non-negative timer with non-negative draws, the timer stays non-negative over any run |
| StateMachine.LowHealthStopsForGood | Assets/Boss/Boss.cs:73-120 | below 1/3 health, the decision is NoAction and starts nothing; the tick leaves doAction with the old timer, and no later tick changes it |
| StateMachine.CloseRangeDecisionStalls | Assets/Boss/Boss.cs:73-75 | as written, a close-range decision leaves the machine in doAction with the new timer for every later tick |
| StateMachine.CloseRangeStallsAtFullHealth | Assets/Boss/Boss.cs:105-110 | a boss at its full default health of 5 with the player near decides on the close-range attack and stays in doAction |
| StateMachine.TickFixed | Assets/Boss/Boss.cs:73-76 | corrected step: from makeDesicion, the state returns to cooldown with the drawn timer exactly for a close-range decision; otherwise it goes to doAction |
| StateMachine.FixedCloseRangeCycles | Assets/Boss/Boss.cs:122-127 | with the corrected step, a close-range decision returns to cooldown with the drawn timer, which then counts down by the elapsed time |
| BossBehaviour.Boss.constructor | Assets/Boss/Boss.cs:50-56 | Start: health = max health, state cooldown, timer 5, no coroutine running |
| BossBehaviour.Boss.Tick | Assets/Boss/Boss.cs:58-80 | FixedUpdate: (state, timer) after the tick is StateMachine.Tick of the state before it, using MakeDecision's choice; a decision starts the chosen coroutine; a close-range decision draws a timer in range; health, speed, position and facing are unchanged; Valid is kept |
| BossBehaviour.Boss.MakeDecision | Assets/Boss/Boss.cs:102-120 | starts PrepareTeleport or ChargeAttack for the chosen action; runs the close-range attack on the spot (cooldown with a timer in range); does nothing for NoAction |
| BossBehaviour.Boss.ResetActionCooldown | Assets/Boss/Boss.cs:122-127 | the state becomes cooldown, with a timer between minActionCooldown and maxActionCooldown |
| BossBehaviour.Boss.CloseRangeAttack | Assets/Boss/Boss.cs:214-222 | always ends in cooldown with a timer in range, after exactly one reset |
| BossBehaviour.Boss.StopMovingStart | Assets/Boss/Boss.cs:129-132 | the old speed is saved and the speed is set to 0 |
| BossBehaviour.Boss.StopMovingEnd | Assets/Boss/Boss.cs:133-134 | the saved speed is restored |
| BossBehaviour.Boss.ChargeAttack | Assets/Boss/Boss.cs:175-212 | the phase trace is ChargePhases(times); ends in cooldown with a timer in range after one reset; speed is unchanged overall; after a dash, the facing has y = 0 |
| BossBehaviour.Boss.TeleportNextTo | Assets/Boss/Boss.cs:149-156 | the position becomes player + playerForward * teleportDistance, and the facing is the horizontal direction to the player |
| BossBehaviour.Boss.TeleportAttack | Assets/Boss/Boss.cs:147-172 | the phase trace is TeleportPhases(type); types 1 and 2 end in cooldown after one reset; any other type leaves state, timer and reset count unchanged; the facing always has y = 0 |
| BossBehaviour.Boss.ResumeCoroutine | Assets/Boss/Boss.cs:137-142 | runs the pending coroutine to its end: the trace is its phases; it ends in cooldown exactly when EndsInCooldown holds, and otherwise state and timer are unchanged; no coroutine remains; a teleport of type other than 2 leaves the boss at the teleport point facing the player, type 2 leaves it at the third dash's landing point, a charge of n > 0 at the n-th landing point; after any teleport or real charge the facing has y = 0; Idle and a charge of n ≤ 0 leave position and facing unchanged |

## Left out

- `SetAgentMovement` (Assets/Boss/Boss.cs:88-92): the navigation agent's destination and speed belong to engine pathfinding, which is not part of this model.
- The `Update` debug key that sets health to 50.5 (Assets/Boss/Boss.cs:82-86): input handling.
- `Debug.Log`, `ParticleSystem.Play` and the `OnTriggerEnter` hit log (Assets/Boss/Boss.cs:139, 185, 192, 216-218, 224-230): side effects with no model state.
- Timing: `WaitForSeconds` (teleportDelay, chargePrepareTime, the one-second pauses) and the per-frame interleaving of coroutines with ticks. A started coroutine runs its phases in order inside `ResumeCoroutine`. The ticks between them happen in `doAction`, where `StuckInDoAction` shows they change nothing that is modelled. `StopMoving` becomes two phases, `StopMovingStart` and `StopMovingEnd`. Its wait ends before the charge's own wait does, so the speed is back before each dash.
- Normalisation: `playerDirection` (a normalised vector) and the square root of `Vector3.Distance`. The model keeps the un-normalised planar offset and compares squared distances.
- BossBehaviour.Boss.ChargeAttack: the dash geometry is not modelled. That covers the charge target `player + playerDirection * chargeOffset`, `Vector3.MoveTowards` at chargeSpeed, and the 0.1 arrival test. The end point of the k-th dash is the parameter `landing(k)`, so every dash is taken to arrive within 0.1 of its target. A dash that makes no progress, such as one with `chargeSpeed = 0` (Assets/Boss/Boss.cs:198-200), would loop forever and keep the boss in `doAction` for good; the model does not cover that case.
- BossBehaviour.Boss.Tick: `StartCoroutine` runs a coroutine at once, up to its first `yield`. On a charge decision, the source's tick therefore already sets `transform.forward` (Assets/Boss/Boss.cs:181-182) and zeroes `bossMoveSpeed` (Assets/Boss/Boss.cs:186 → 131-132) before it returns. The model defers these first-round phases to `ResumeCoroutine`, so `Tick` keeps speed and facing unchanged. A `ChargeAttack(n)` with n ≤ 0 would reset the cooldown before its first `yield`, and line 75 would then overwrite that reset, as it does for the close-range attack. This cannot happen, because `Decide` only ever chooses `Charge(3)`.
- BossBehaviour.Boss.ResumeCoroutine: the player's position and forward are taken as fixed while a routine runs.
- BossBehaviour.Boss.TeleportAttack: `forward` holds the vector assigned to `transform.forward`. The engine's normalisation of that vector and its handling of a zero vector are not modelled.
- Floating point: all quantities are exact reals. `2.0f/3.0f` and `1.0f/3.0f` become the exact thirds, so a health fraction within one float rounding step of a third may fall into the other tier in the game.
- `Random.Range`: only its bounds are kept, not its distribution.
- Health changes only through the debug key (Assets/Boss/Boss.cs:85), which is left out above. No damage or death is modelled.

## Findings

| source | as written | input that shows it | evidently intended | confidence | as-written member | corrected member |
|---|---|---|---|---|---|---|
| Assets/Boss/Boss.cs:73-75 | `FixedUpdate` calls `MakeDecision()` and then sets `currentState = State.doAction`. On the close-range branch, `MakeDecision` has already run `CloseRangeAttack` → `ResetActionCooldown` synchronously, which set the state to `cooldown`. That reset is overwritten, and the boss stays in `doAction` for good. | health = max health = 5 (at least 2/3 of max), player within closeRangeThreshold, on the tick in `makeDesicion` | after a close-range attack the boss returns to `cooldown` with the drawn timer, as it does when the same attack follows a type-1 teleport | high (not executed) | StateMachine.CloseRangeDecisionStalls | StateMachine.TickFixed |

/** The per-tick state machine FixedUpdate advances, as a pure step on the
    state and the action cooldown timer, with the properties of runs of
    many ticks. */
module StateMachine {
  import opened Decision
  import opened Routines

  /** The boss's states, spelt as the source spells them. */
  datatype State = Cooldown | MakeDesicion | DoAction

  /** The part of the boss FixedUpdate changes: `currentState` and
      `actionCooldownTimer`. */
  datatype Machine = Machine(state: State, timer: real)

  /** What one tick needs from outside: the elapsed time, what MakeDecision
      would choose on this tick, and the value Random.Range would draw. */
  datatype Input = Input(dt: real, decided: Action, draw: real)

  /** Random.Range(lo, hi) returns a value between its bounds, in whichever
      order they are given. */
  predicate InRange(x: real, lo: real, hi: real)
  {
    if lo <= hi then lo <= x <= hi else hi <= x <= lo
  }

  /** The cooldown count-down: subtract the elapsed time and clamp to
      [0, +infinity). */
  function CooldownTimer(timer: real, dt: real): (t: real)
    ensures t >= 0.0
    ensures t >= timer - dt
    ensures t == 0.0 || t == timer - dt
    ensures t == 0.0 <==> timer <= dt
  {
    var next := timer - dt;
    if next < 0.0 then 0.0 else next
  }

  /** One FixedUpdate, as written: in the cooldown the timer counts down and
      the state moves to deciding when it reaches 0; deciding runs
      MakeDecision and then sets the state to acting, so the synchronous
      close-range attack's reset of the timer survives but its reset of the
      state does not; acting does nothing. */
  function Tick(m: Machine, dt: real, decided: Action, draw: real): (r: Machine)
    ensures m.state == Cooldown ==>
      r.timer == CooldownTimer(m.timer, dt) && r.state != DoAction &&
      (r.state == MakeDesicion <==> r.timer == 0.0)
    ensures m.state == MakeDesicion ==> r.state == DoAction
    ensures m.state == MakeDesicion ==> r.timer == (if decided == CloseRange then draw else m.timer)
    ensures m.state == DoAction ==> r == m
  {
    match m.state
    case Cooldown =>
      var t := CooldownTimer(m.timer, dt);
      Machine(if t <= 0.0 then MakeDesicion else Cooldown, t)
    case MakeDesicion =>
      var afterDecision := if decided == CloseRange then Machine(Cooldown, draw) else m;
      afterDecision.(state := DoAction)
    case DoAction =>
      m
  }

  /** The step as evidently intended: the state becomes acting before the
      decision runs, so a close-range attack's reset returns it to the
      cooldown. */
  function TickFixed(m: Machine, dt: real, decided: Action, draw: real): (r: Machine)
    ensures m.state == MakeDesicion ==> (r.state == Cooldown <==> decided == CloseRange)
    ensures m.state == MakeDesicion ==> r.state != MakeDesicion
    ensures m.state == MakeDesicion && decided == CloseRange ==> r.timer == draw
    ensures m.state == MakeDesicion && decided != CloseRange ==> r == Machine(DoAction, m.timer)
    ensures m.state != MakeDesicion ==> r == Tick(m, dt, decided, draw)
  {
    match m.state
    case MakeDesicion =>
      var acting := m.(state := DoAction);
      if decided == CloseRange then Machine(Cooldown, draw) else acting
    case _ =>
      Tick(m, dt, decided, draw)
  }

  /** A sequence of FixedUpdates, as written. */
  function Run(m: Machine, ins: seq<Input>): Machine
    decreases |ins|
  {
    if ins == [] then m else Run(Tick(m, ins[0].dt, ins[0].decided, ins[0].draw), ins[1..])
  }

  /** The time that passes over a sequence of ticks. */
  function Elapsed(ins: seq<Input>): real
    decreases |ins|
  {
    if ins == [] then 0.0 else ins[0].dt + Elapsed(ins[1..])
  }

  predicate TimeMovesForward(ins: seq<Input>)
  {
    forall i :: 0 <= i < |ins| ==> ins[i].dt >= 0.0
  }

  lemma {:induction false} ElapsedNonNegative(ins: seq<Input>)
    requires TimeMovesForward(ins)
    ensures Elapsed(ins) >= 0.0
    decreases |ins|
  {
    if ins != [] {
      assert TimeMovesForward(ins[1..]) by {
        forall i | 0 <= i < |ins| - 1 ensures ins[1..][i].dt >= 0.0 {
          assert ins[1..][i] == ins[i + 1];
        }
      }
      ElapsedNonNegative(ins[1..]);
    }
  }

  /** Once acting, ticks never change the state or the timer: only a
      routine's ResetActionCooldown can leave that state. */
  lemma {:induction false} StuckInDoAction(m: Machine, ins: seq<Input>)
    requires m.state == DoAction
    ensures Run(m, ins) == m
    decreases |ins|
  {
    if ins != [] {
      StuckInDoAction(Tick(m, ins[0].dt, ins[0].decided, ins[0].draw), ins[1..]);
    }
  }

  /** Ticks alone never bring the machine back to the cooldown once it has
      left it. */
  lemma {:induction false} NeverBackToCooldown(m: Machine, ins: seq<Input>)
    requires m.state != Cooldown
    ensures Run(m, ins).state != Cooldown
    decreases |ins|
  {
    if ins != [] {
      NeverBackToCooldown(Tick(m, ins[0].dt, ins[0].decided, ins[0].draw), ins[1..]);
    }
  }

  /** While less time has passed than the timer held, the boss stays in the
      cooldown and the timer has gone down by exactly the elapsed time. */
  lemma {:induction false} CooldownCountsDown(m: Machine, ins: seq<Input>)
    requires m.state == Cooldown && TimeMovesForward(ins)
    requires Elapsed(ins) < m.timer
    ensures Run(m, ins) == Machine(Cooldown, m.timer - Elapsed(ins))
    decreases |ins|
  {
    if ins != [] {
      var rest := ins[1..];
      assert TimeMovesForward(rest) by {
        forall i | 0 <= i < |rest| ensures rest[i].dt >= 0.0 {
          assert rest[i] == ins[i + 1];
        }
      }
      ElapsedNonNegative(rest);
      var next := Tick(m, ins[0].dt, ins[0].decided, ins[0].draw);
      assert next == Machine(Cooldown, m.timer - ins[0].dt);
      CooldownCountsDown(next, rest);
    }
  }

  /** Once at least the timer's worth of time has passed over one or more
      ticks, the boss has left the cooldown for good. */
  lemma {:induction false} CooldownExpires(m: Machine, ins: seq<Input>)
    requires m.state == Cooldown && TimeMovesForward(ins)
    requires ins != [] && Elapsed(ins) >= m.timer
    ensures Run(m, ins).state != Cooldown
    decreases |ins|
  {
    var rest := ins[1..];
    assert TimeMovesForward(rest) by {
      forall i | 0 <= i < |rest| ensures rest[i].dt >= 0.0 {
        assert rest[i] == ins[i + 1];
      }
    }
    var next := Tick(m, ins[0].dt, ins[0].decided, ins[0].draw);
    if next.state == Cooldown {
      ElapsedNonNegative(rest);
      assert next.timer == m.timer - ins[0].dt && next.timer > 0.0;
      CooldownExpires(next, rest);
    } else {
      NeverBackToCooldown(next, rest);
    }
  }

  /** The timer is never negative, as long as it starts non-negative and
      every value Random.Range may draw is non-negative. */
  lemma {:induction false} TimerNeverNegative(m: Machine, ins: seq<Input>)
    requires m.timer >= 0.0
    requires forall i :: 0 <= i < |ins| ==> ins[i].draw >= 0.0
    ensures Run(m, ins).timer >= 0.0
    decreases |ins|
  {
    if ins != [] {
      var rest := ins[1..];
      assert forall i :: 0 <= i < |rest| ==> rest[i].draw >= 0.0 by {
        forall i | 0 <= i < |rest| ensures rest[i].draw >= 0.0 {
          assert rest[i] == ins[i + 1];
        }
      }
      TimerNeverNegative(Tick(m, ins[0].dt, ins[0].decided, ins[0].draw), rest);
    }
  }

  /** Below a third of the maximum health the decision starts nothing, the
      machine is left acting, and no later tick ever moves it again. */
  lemma {:induction false} LowHealthStopsForGood(m: Machine, dt: real, draw: real,
                                                health: real, maxHealth: real, far: bool, ins: seq<Input>)
    requires m.state == MakeDesicion
    requires maxHealth > 0.0 && 3.0 * health < maxHealth
    ensures Decide(health, maxHealth, far) == NoAction
    ensures DecisionPhases(Decide(health, maxHealth, far)) == []
    ensures Tick(m, dt, Decide(health, maxHealth, far), draw) == Machine(DoAction, m.timer)
    ensures Run(Tick(m, dt, Decide(health, maxHealth, far), draw), ins) == Machine(DoAction, m.timer)
  {
    StuckInDoAction(Tick(m, dt, NoAction, draw), ins);
  }

  /** As written, a close-range decision (full health, player near) loses its
      return to the cooldown: the tick leaves the machine acting with the
      freshly drawn timer, and no later tick moves it again. */
  lemma {:induction false} CloseRangeDecisionStalls(m: Machine, dt: real, draw: real, ins: seq<Input>)
    requires m.state == MakeDesicion
    ensures Tick(m, dt, CloseRange, draw) == Machine(DoAction, draw)
    ensures Run(Tick(m, dt, CloseRange, draw), ins) == Machine(DoAction, draw)
  {
    StuckInDoAction(Tick(m, dt, CloseRange, draw), ins);
  }

  /** The concrete case: a boss at its full default health of 5 with the
      player within range decides on the close-range attack, and the tick
      that decides leaves it acting for good. */
  lemma {:induction false} CloseRangeStallsAtFullHealth(ins: seq<Input>)
    ensures Decide(5.0, 5.0, false) == CloseRange
    ensures Run(Tick(Machine(MakeDesicion, 0.0), 0.02, Decide(5.0, 5.0, false), 7.5), ins).state == DoAction
  {
    CloseRangeDecisionStalls(Machine(MakeDesicion, 0.0), 0.02, 7.5, ins);
  }

  /** With the corrected step, a close-range decision puts the boss back in
      the cooldown with the drawn timer, which then counts down by the time
      that passes. */
  lemma {:induction false} FixedCloseRangeCycles(m: Machine, dt: real, draw: real, ins: seq<Input>)
    requires m.state == MakeDesicion && TimeMovesForward(ins)
    requires Elapsed(ins) < draw
    ensures TickFixed(m, dt, CloseRange, draw) == Machine(Cooldown, draw)
    ensures Run(TickFixed(m, dt, CloseRange, draw), ins) == Machine(Cooldown, draw - Elapsed(ins))
  {
    CooldownCountsDown(Machine(Cooldown, draw), ins);
  }
}

/** The per-tick step rule of the animation: step = sign(remain) * min(|remain|, SPEED). */
module Stepping {
  import opened Notation

  /** The per-tick cap on the rotation, 0.15 rad in units of 1e-4 rad. */
  const SPEED: int := 1500

  function Abs(v: int): nat {
    if v < 0 then -v else v
  }

  function Sign(v: int): int {
    if v > 0 then 1 else if v < 0 then -1 else 0
  }

  function Min(a: int, b: int): int {
    if a <= b then a else b
  }

  /** The angle to add this tick, given the angle still to go. It points the
      way of the remaining angle, never exceeds the cap and never overshoots:
      it is either a full step or exactly what remains. */
  function Step(remain: int): (step: int)
    ensures Sign(step) == Sign(remain)
    ensures Abs(step) <= SPEED && Abs(step) <= Abs(remain)
    ensures Abs(step) == SPEED || step == remain
  {
    Sign(remain) * Min(Abs(remain), SPEED)
  }

  /** The number of ticks the step rule takes to cover `remain`. */
  function Ticks(remain: int): (r: nat)
    ensures r == 0 <==> remain == 0
    ensures Abs(remain) <= SPEED * r < Abs(remain) + SPEED
    decreases Abs(remain)
  {
    if remain == 0 then 0 else 1 + Ticks(remain - Step(remain))
  }

  /** The accumulated angle lies between 0 and the target, inclusive. */
  predicate Between(angle: int, target: int) {
    if target >= 0 then 0 <= angle <= target else target <= angle <= 0
  }

  /** One tick from an angle between 0 and the target: the angle stays between
      0 and the target, its magnitude does not shrink, and the distance still
      to go strictly shrinks unless the target was already reached. */
  lemma StepConverges(angle: int, target: int)
    requires Between(angle, target)
    ensures var next := angle + Step(target - angle);
      Between(next, target) && Abs(next) >= Abs(angle) &&
      (angle != target ==> Abs(target - next) < Abs(target - angle)) &&
      Ticks(target - angle) == (if angle == target then 0 else 1 + Ticks(target - next))
  {
  }

  /** The step rule covers `remain` in ceil(|remain| / SPEED) ticks. */
  lemma {:induction false} TicksIsCeiling(remain: int)
    ensures Ticks(remain) == (Abs(remain) + SPEED - 1) / SPEED
    decreases Abs(remain)
  {
    if remain != 0 {
      TicksIsCeiling(remain - Step(remain));
    }
  }

  /** A quarter turn takes 11 ticks and a half turn 21, either way. */
  lemma TurnDurations(m: PendingMove)
    requires WellFormed(m)
    ensures Ticks(m.target) == if Abs(m.target) == QUARTER then 11 else 21
  {
    TicksIsCeiling(m.target);
  }
}

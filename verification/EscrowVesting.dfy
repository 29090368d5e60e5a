/** Vesting: what a release schedule unlocks, and that the checked computation is it. */
module EscrowVesting {
  import opened Common
  import opened Arith
  import opened EscrowModel

  /** The shapes the vesting computation accepts. */
  predicate WellFormed(s: Schedule) {
    match s.kind
    case Unscheduled => true
    case Cliff => s.start <= s.cliff <= s.end
    case Linear => s.start <= s.cliff <= s.end && s.start < s.end
  }

  /** What has unlocked at `time`: a bullet at the end, or the elapsed fraction of the
      clamped line once the cliff is reached. */
  function Vested(amount: nat, s: Schedule, time: nat): nat
    requires WellFormed(s)
  {
    match s.kind
    case Unscheduled => 0
    case Cliff => if time >= s.end then amount else 0
    case Linear =>
      if time < s.cliff then 0
      else
        PortionNonNegative(amount, Min(time, s.end) - s.start, s.end - s.start);
        Portion(amount, Min(time, s.end) - s.start, s.end - s.start)
  }

  /** The one product the computation forms leaves the `i128` range. */
  predicate VestingOverflows(amount: nat, s: Schedule, time: nat) {
    s.kind == Linear && s.cliff <= time < s.end && amount * (time - s.start) > I128_MAX
  }

  /** On every input: a malformed schedule is refused, an oversized product is an overflow,
      and anything else is exactly the vested amount. */
  lemma CalcVestedExact(amount: nat, s: Schedule, time: nat)
    requires amount <= I128_MAX
    ensures !WellFormed(s) ==> CalcVested(amount, s, time) == Err(InvalidInput)
    ensures WellFormed(s) && VestingOverflows(amount, s, time) ==> CalcVested(amount, s, time) == Err(Overflow)
    ensures WellFormed(s) && !VestingOverflows(amount, s, time) ==>
              CalcVested(amount, s, time) == Ok(Vested(amount, s, time))
  {
    if WellFormed(s) && s.kind == Linear && time >= s.cliff {
      if time >= s.end {
        FloorOfMultiple(amount, s.end - s.start);
      } else {
        VestedBounds(amount, s, time);
        assert amount * (time - s.start) >= 0 by { MulMonotone(amount, 0, time - s.start); }
      }
    }
  }

  lemma VestedBounds(amount: nat, s: Schedule, time: nat)
    requires WellFormed(s)
    ensures 0 <= Vested(amount, s, time) <= amount
    ensures s.kind != Unscheduled && time >= s.end ==> Vested(amount, s, time) == amount
    ensures amount > 0 && time < s.end ==> Vested(amount, s, time) < amount
  {
    if s.kind == Linear && time >= s.cliff {
      var d, x := s.end - s.start, Min(time, s.end) - s.start;
      MulMonotone(amount, x, d);
      FloorBounds(amount * x, d);
      FloorOfMultiple(amount, d);
      FloorMonotone(amount * x, amount * d, d);
      if amount > 0 && x < d {
        MulMonotone(amount, x, d - 1);
      }
    }
  }

  lemma VestedMonotone(amount: nat, s: Schedule, t: nat, u: nat)
    requires WellFormed(s) && t <= u
    ensures Vested(amount, s, t) <= Vested(amount, s, u)
  {
    if s.kind == Linear && t >= s.cliff {
      var x, y := Min(t, s.end) - s.start, Min(u, s.end) - s.start;
      MulMonotone(amount, x, y);
      FloorMonotone(amount * x, amount * y, s.end - s.start);
    }
  }

  /** Whatever is reported claimable is vested, not yet released, and all of that. */
  lemma ClaimableExact(e: Escrow, time: nat)
    requires WellFormed(e.schedule) && 0 <= e.funded <= I128_MAX && 0 <= e.released
    requires CalcClaimable(e, time).Ok? && CalcClaimable(e, time).value > 0
    ensures e.schedule.kind != Unscheduled
    ensures e.released + CalcClaimable(e, time).value == Vested(e.funded, e.schedule, time) <= e.funded
  {
    CalcVestedExact(e.funded, e.schedule, time);
    VestedBounds(e.funded, e.schedule, time);
  }
}

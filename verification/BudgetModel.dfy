/** A recurring budget as a record and its operations (contracts/budget/src/lib.rs).
    Each function gives the record the call would store, or the error it fails with. */
module BudgetModel {
  import opened Common
  import opened Arith

  const SECONDS_PER_DAY: nat := 86_400
  const SECONDS_PER_WEEK: nat := 604_800
  const SECONDS_PER_MONTH: nat := 2_592_000

  datatype Period = OneShot | Daily | Weekly | Monthly | Custom

  datatype Status = Active | Frozen | Paused | Archived

  datatype Budget = Budget(
    owner: Address,
    limit: int,
    spent: int,
    period: Period,
    periodSeconds: nat,
    windowStart: nat,
    rolloverEnabled: bool,
    rolloverCredit: int,
    rolloverCap: int,
    rolloverMaxBps: int,
    rolloverBps: int,
    allowDeficit: bool,
    deficit: int,
    expiresAt: nat,
    status: Status)

  /** A committed call: the stored record and the value returned to the caller. */
  datatype Settled = Settled(budget: Budget, ret: int)

  // ----- window arithmetic -----

  function WindowOf(period: Period, periodSeconds: nat): Option<nat> {
    match period
    case OneShot => None
    case Daily => Some(SECONDS_PER_DAY)
    case Weekly => Some(SECONDS_PER_WEEK)
    case Monthly => Some(SECONDS_PER_MONTH)
    case Custom => if periodSeconds == 0 then None else Some(periodSeconds)
  }

  /** Half-open windows: an instant equal to the window's end already lies in the next one. */
  function WindowExpired(b: Budget, now: nat): Result<bool> {
    match WindowOf(b.period, b.periodSeconds)
    case None => Ok(false)
    case Some(w) => if b.windowStart + w > U64_MAX then Err(Overflow) else Ok(now >= b.windowStart + w)
  }

  /** Whole windows that have lapsed at `now`. */
  function PeriodsDue(b: Budget, now: nat): nat {
    match WindowOf(b.period, b.periodSeconds)
    case None => 0
    case Some(w) => if now >= b.windowStart + w then (now - b.windowStart) / w else 0
  }

  // ----- caps -----

  function PercentageOfLimit(limit: int, bps: int): Result<int> {
    if bps == 0 then Ok(0) else SplitBps(limit, bps)
  }

  /** The smaller of the absolute cap and the percentage ceiling; 0 means uncapped. */
  function EffectiveCap(b: Budget): Result<int> {
    var pct :- PercentageOfLimit(b.limit, b.rolloverMaxBps);
    Ok(if b.rolloverCap == 0 then pct
       else if pct == 0 then b.rolloverCap
       else Min(b.rolloverCap, pct))
  }

  function AccrueIdlePeriods(credit: int, b: Budget, idle: int): Result<int> {
    if b.rolloverCap != 0 then Ok(SaturateI128(credit + SaturateI128(b.limit * idle)))
    else
      var accrued :- CheckedMul(b.limit, idle);
      CheckedAdd(credit, accrued)
  }

  // ----- the transition hook -----

  datatype Rollover = Rollover(carry: int, periods: nat, due: bool)

  function CalculateRollover(b: Budget, now: nat): Result<Rollover> {
    var due :- WindowExpired(b, now);
    if !due then Ok(Rollover(b.rolloverCredit, 0, false))
    else
      var periods := PeriodsDue(b, now);
      var capacity :- CheckedAdd(b.limit, b.rolloverCredit);
      var leftover :- CheckedSub(capacity, b.spent);
      if b.allowDeficit && b.spent > capacity then Ok(Rollover(leftover, periods, true))
      else if b.rolloverEnabled then
        var credit :- CarriedCredit(b, Max(leftover, 0), periods);
        Ok(Rollover(credit, periods, true))
      else Ok(Rollover(0, periods, true))
  }

  /** What `unspent` becomes after `periods` boundaries: its rolled-over share, one base
      limit for every further idle window, clamped to the effective cap. */
  function CarriedCredit(b: Budget, unspent: int, periods: nat): Result<int> {
    var cap :- EffectiveCap(b);
    var first :- BudgetRollover(unspent, b.rolloverBps, cap);
    if periods > 1 then
      var accrued :- AccrueIdlePeriods(first, b, periods - 1);
      Ok(Capped(accrued, cap))
    else Ok(first)
  }

  function BookDeficit(deficit: int, spent: int, capacity: int): Result<int> {
    var overspend :- CheckedSub(spent, capacity);
    CheckedAdd(deficit, overspend)
  }

  predicate Expired(b: Budget, now: nat) { b.expiresAt != 0 && now >= b.expiresAt }

  /** `window_transition`: settle every lapsed window at once and re-anchor to the boundary. */
  function Settle(b: Budget, now: nat): Result<Budget> {
    if Expired(b, now) then Err(BudgetExpired) else
    var outcome :- CalculateRollover(b, now);
    if !outcome.due then Ok(b)
    else
      var window := WindowOf(b.period, b.periodSeconds).value;
      var capacity :- CheckedAdd(b.limit, b.rolloverCredit);
      var overdrawn := b.allowDeficit && b.spent > capacity;
      var deficit :- if overdrawn then BookDeficit(b.deficit, b.spent, capacity) else Ok(b.deficit);
      Ok(b.(rolloverCredit := if overdrawn then 0 else outcome.carry,
            deficit := deficit,
            spent := 0,
            windowStart := SaturateU64(b.windowStart + SaturateU64(outcome.periods * window))))
  }

  function EffectiveRemaining(b: Budget): Result<int> {
    var capacity :- CheckedAdd(b.limit, b.rolloverCredit);
    if b.allowDeficit && b.deficit > 0 then
      var net :- CheckedSub(capacity, b.deficit);
      CheckedSub(net, b.spent)
    else CheckedSub(capacity, b.spent)
  }

  // ----- guards -----

  function RequireOwner(b: Budget, caller: Address): Guard { Require(b.owner == caller, Unauthorized) }

  function RequireActive(b: Budget): Guard {
    match b.status
    case Active => Pass
    case Frozen => Fail(BudgetFrozen)
    case Paused => Fail(BudgetFrozen)
    case Archived => Fail(BudgetArchived)
  }

  function RequireNotArchived(b: Budget): Guard { Require(!b.status.Archived?, BudgetArchived) }

  function RequireStarted(b: Budget, now: nat): Guard { Require(now >= b.windowStart, BudgetNotActive) }

  function RequireNotExpired(b: Budget, now: nat): Guard { Require(!Expired(b, now), BudgetExpired) }

  // ----- operations -----

  /** `allocate_internal`, the single creation path behind every allocate entrypoint. */
  function Allocate(owner: Address, limit: int, period: Period, rolloverEnabled: bool, rolloverBps: int,
                    rolloverCap: int, allowDeficit: bool, startAt: nat, expiresAt: nat, now: nat): Result<Budget> {
    if limit < 0 then Err(InvalidAmount) else
    :- Require(rolloverCap >= 0, InvalidAmount);
    :- Require(rolloverBps >= 0, InvalidAmount);
    :- Require(rolloverBps <= BPS, InvalidInput);
    :- Require(expiresAt == 0 || (expiresAt > now && expiresAt > startAt), InvalidInput);
    :- Require(!allowDeficit || WindowOf(period, 0).Some?, InvalidInput);
    Ok(Budget(owner, limit, 0, period, 0, startAt, rolloverEnabled, 0, rolloverCap, 0, rolloverBps,
              allowDeficit, 0, expiresAt, Active))
  }

  function Consume(b: Budget, caller: Address, now: nat, amount: int): Result<Settled> {
    if amount <= 0 then Err(InvalidAmount) else
    :- RequireOwner(b, caller);
    :- RequireActive(b);
    :- RequireStarted(b, now);
    var s :- Settle(b, now);
    var capacity :- CheckedAdd(s.limit, s.rolloverCredit);
    var ceiling :- if s.allowDeficit && s.deficit > 0 then CheckedSub(capacity, s.deficit) else Ok(capacity);
    var newSpent :- CheckedAdd(s.spent, amount);
    if newSpent > ceiling then
      if s.allowDeficit && s.deficit == 0 then
        var remaining :- CheckedSub(capacity, newSpent);
        Ok(Settled(s.(spent := newSpent), remaining))
      else
        var _ :- CheckedSub(ceiling, s.spent);
        Err(BudgetExceeded)
    else
      var remaining :- CheckedSub(ceiling, newSpent);
      Ok(Settled(s.(spent := newSpent), remaining))
  }

  function Release(b: Budget, caller: Address, now: nat, amount: int): Result<Settled> {
    if amount <= 0 then Err(InvalidAmount) else
    :- RequireOwner(b, caller);
    :- RequireActive(b);
    var s :- Settle(b, now);
    :- Require(amount <= s.spent, InvalidAmount);
    var spent :- CheckedSub(s.spent, amount);
    var remaining :- EffectiveRemaining(s.(spent := spent));
    Ok(Settled(s.(spent := spent), remaining))
  }

  /** The persisting read: settles, stores and reports what is left. */
  function Remaining(b: Budget, now: nat): Result<Settled> {
    if now < b.windowStart then Ok(Settled(b, 0))
    else match Settle(b, now)
      case Err(_) => Ok(Settled(b, 0))
      case Ok(s) =>
        var remaining :- EffectiveRemaining(s);
        Ok(Settled(s, remaining))
  }

  function Reset(b: Budget, caller: Address, now: nat): Result<Settled> {
    var guard := RequireOwner(b, caller);
    :- guard;
    :- RequireNotArchived(b);
    :- RequireStarted(b, now);
    :- RequireNotExpired(b, now);
    Ok(Settled(b.(spent := 0, rolloverCredit := 0, windowStart := now), 0))
  }

  function ForceRollover(b: Budget, caller: Address, now: nat): Result<Settled> {
    var guard := RequireOwner(b, caller);
    :- guard;
    :- RequireNotArchived(b);
    var s :- Settle(b, now);
    Ok(Settled(s, 0))
  }

  function SetLimit(b: Budget, caller: Address, now: nat, newLimit: int): Result<Settled> {
    if newLimit < 0 then Err(InvalidAmount) else
    :- RequireOwner(b, caller);
    :- RequireNotArchived(b);
    var s :- Settle(b, now);
    :- Require(newLimit >= s.spent, InvalidInput);
    Ok(Settled(s.(limit := newLimit), 0))
  }

  /** Under a new rollover policy the accrued credit is dropped or re-clamped. */
  function Reclamp(b: Budget): Result<Budget> {
    if !b.rolloverEnabled then Ok(b.(rolloverCredit := 0))
    else if b.rolloverCredit > 0 then
      var cap :- EffectiveCap(b);
      Ok(b.(rolloverCredit := Capped(b.rolloverCredit, cap)))
    else Ok(b)
  }

  function SetRecurrence(b: Budget, caller: Address, now: nat, period: Period, periodSeconds: nat,
                         rolloverEnabled: bool, rolloverCap: int, rolloverMaxBps: int): Result<Settled> {
    if rolloverCap < 0 then Err(InvalidAmount) else
    :- Require(rolloverMaxBps >= 0, InvalidAmount);
    :- Require(rolloverMaxBps < BPS, InvalidInput);
    :- Require(!period.Custom? || periodSeconds != 0, InvalidInput);
    :- RequireOwner(b, caller);
    :- RequireActive(b);
    var future := now < b.windowStart;
    :- Require(!future || !Expired(b, now), BudgetExpired);
    var s :- if future then Ok(b) else Settle(b, now);
    var bps := if !rolloverEnabled then 0 else if s.rolloverBps == 0 then BPS else s.rolloverBps;
    var c :- Reclamp(s.(period := period,
                        periodSeconds := if period.Custom? then periodSeconds else 0,
                        rolloverEnabled := rolloverEnabled,
                        rolloverCap := rolloverCap,
                        rolloverMaxBps := rolloverMaxBps,
                        rolloverBps := bps));
    Ok(Settled(if future then c else c.(windowStart := now), 0))
  }

  function SetRolloverConfig(b: Budget, caller: Address, now: nat, rolloverEnabled: bool, rolloverBps: int,
                             maxCap: int): Result<Settled> {
    if maxCap < 0 then Err(InvalidAmount) else
    :- Require(rolloverBps >= 0, InvalidAmount);
    :- Require(rolloverBps <= BPS, InvalidInput);
    :- RequireOwner(b, caller);
    :- RequireActive(b);
    :- RequireNotExpired(b, now);
    var s :- Settle(b, now);
    var c :- Reclamp(s.(rolloverEnabled := rolloverEnabled, rolloverBps := rolloverBps, rolloverCap := maxCap));
    Ok(Settled(c, 0))
  }

  function Freeze(b: Budget, caller: Address): Result<Settled> {
    var guard := RequireOwner(b, caller);
    :- guard;
    :- RequireNotArchived(b);
    Ok(Settled(b.(status := Frozen), 0))
  }

  function Unfreeze(b: Budget, caller: Address): Result<Settled> {
    var guard := RequireOwner(b, caller);
    :- guard;
    :- Require(b.status.Frozen?, InvalidState);
    Ok(Settled(b.(status := Active), 0))
  }

  function Archive(b: Budget, caller: Address): Result<Settled> {
    var guard := RequireOwner(b, caller);
    :- guard;
    Ok(Settled(b.(status := Archived), 0))
  }

  /** `transfer_allocation` over the two records it moves limit between. */
  function TransferAllocation(from: Budget, to: Budget, caller: Address, now: nat,
                              amount: int): Result<(Budget, Budget)> {
    var guard := RequireOwner(from, caller);
    :- guard;
    :- RequireOwner(to, caller);
    :- RequireActive(from);
    :- RequireActive(to);
    :- RequireNotExpired(from, now);
    :- RequireNotExpired(to, now);
    var available :- CheckedSub(from.limit, from.spent);
    :- Require(amount <= available, BudgetExceeded);
    var less :- CheckedSub(from.limit, amount);
    var more :- CheckedAdd(to.limit, amount);
    Ok((from.(limit := less), to.(limit := more)))
  }

  // ----- histories of one budget -----

  datatype Op =
    | OpConsume(caller: Address, amount: int)
    | OpRelease(caller: Address, amount: int)
    | OpRemaining
    | OpReset(caller: Address)
    | OpRollover(caller: Address)
    | OpFreeze(caller: Address)
    | OpUnfreeze(caller: Address)
    | OpArchive(caller: Address)
    | OpSetLimit(caller: Address, newLimit: int)
    | OpTransferOut(caller: Address, amount: int, peer: Budget)
    | OpTransferIn(caller: Address, amount: int, peer: Budget)
    | OpSetRecurrence(caller: Address, period: Period, periodSeconds: nat, enabled: bool, cap: int, maxBps: int)
    | OpSetRolloverConfig(caller: Address, enabled: bool, bps: int, cap: int)

  /** One call landing on this budget at ledger time `at`. */
  datatype Event = Event(at: nat, op: Op)

  function Exec(b: Budget, e: Event): Result<Settled> {
    match e.op
    case OpConsume(caller, amount) => Consume(b, caller, e.at, amount)
    case OpRelease(caller, amount) => Release(b, caller, e.at, amount)
    case OpRemaining => Remaining(b, e.at)
    case OpReset(caller) => Reset(b, caller, e.at)
    case OpRollover(caller) => ForceRollover(b, caller, e.at)
    case OpFreeze(caller) => Freeze(b, caller)
    case OpUnfreeze(caller) => Unfreeze(b, caller)
    case OpArchive(caller) => Archive(b, caller)
    case OpSetLimit(caller, newLimit) => SetLimit(b, caller, e.at, newLimit)
    case OpTransferOut(caller, amount, peer) =>
      :- Require(amount > 0, InvalidAmount);
      var pair :- TransferAllocation(b, peer, caller, e.at, amount);
      Ok(Settled(pair.0, 0))
    case OpTransferIn(caller, amount, peer) =>
      :- Require(amount > 0, InvalidAmount);
      var pair :- TransferAllocation(peer, b, caller, e.at, amount);
      Ok(Settled(pair.1, 0))
    case OpSetRecurrence(caller, period, periodSeconds, enabled, cap, maxBps) =>
      SetRecurrence(b, caller, e.at, period, periodSeconds, enabled, cap, maxBps)
    case OpSetRolloverConfig(caller, enabled, bps, cap) => SetRolloverConfig(b, caller, e.at, enabled, bps, cap)
  }

  function Next(b: Budget, e: Event): Budget {
    match Exec(b, e)
    case Ok(s) => s.budget
    case Err(_) => b
  }

  function Run(b: Budget, events: seq<Event>): Budget {
    if events == [] then b
    else Next(Run(b, events[..|events| - 1]), events[|events| - 1])
  }
}

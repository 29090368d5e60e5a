/** When a budget accepts a call, what an accepted call stores and what it answers, stated on
    the fields of the stored records, apart from the operations themselves. */
module BudgetCalls {
  import opened Common
  import opened Arith
  import opened BudgetModel
  import opened BudgetTheorems

  // ----- settlement on every input -----

  /** Length of a budget's window in seconds, 0 for a budget that never recurs. */
  function Window(period: Period, seconds: nat): nat {
    match period
    case OneShot => 0
    case Daily => 86_400
    case Weekly => 604_800
    case Monthly => 2_592_000
    case Custom => seconds
  }

  /** Whole windows behind the stored anchor at `now`. */
  function Lapsed(b: Budget, now: nat): nat {
    var w := Window(b.period, b.periodSeconds);
    if w == 0 || now < b.windowStart then 0 else (now - b.windowStart) / w
  }

  lemma LapsedIsDue(b: Budget, now: nat)
    ensures PeriodsDue(b, now) == Lapsed(b, now)
    ensures WindowOf(b.period, b.periodSeconds)
         == if Window(b.period, b.periodSeconds) == 0 then None else Some(Window(b.period, b.periodSeconds))
  {
    var w := Window(b.period, b.periodSeconds);
    if w > 0 && b.windowStart <= now < b.windowStart + w { FloorUnique(now - b.windowStart, w, 0); }
  }

  /** What one limit per further window adds to what the first boundary carries. */
  ghost function Accrual(b: Budget, now: nat): int
    requires RecordOk(b)
  {
    Capped(BpsOf(Max(Capacity(b) - b.spent, 0), b.rolloverBps), CapOf(b)) + b.limit * (Lapsed(b, now) - 1)
  }

  /** Why the windows of `b` cannot be settled at `now`: the budget is over, the current window
      ends beyond the clock's range, or, with a boundary behind it, the capacity, the deficit to
      book or an accrual without an absolute cap leaves the `i128` range. */
  ghost predicate Unsettled(b: Budget, now: nat, e: Error)
    requires RecordOk(b)
  {
    var w := Window(b.period, b.periodSeconds);
    || (e == BudgetExpired && b.expiresAt != 0 && now >= b.expiresAt)
    || (e == Overflow && w > 0 && b.windowStart + w > U64_MAX)
    || (e == Overflow && Lapsed(b, now) > 0 &&
        (|| Capacity(b) > I128_MAX
         || (b.allowDeficit && Overdrawn(b) && b.deficit + (b.spent - Capacity(b)) > I128_MAX)
         || (b.rolloverEnabled && !(b.allowDeficit && Overdrawn(b)) && b.rolloverCap == 0
             && Accrual(b, now) > I128_MAX)))
  }

  /** The record with its lapsed windows settled. */
  ghost function SettledRecord(b: Budget, now: nat): Budget
    requires RecordOk(b)
  {
    LapsedIsDue(b, now);
    if Lapsed(b, now) == 0 then b else AfterBoundaries(b, Lapsed(b, now))
  }

  /** Settlement fails exactly when there is a reason, with one that holds. */
  lemma SettleDecided(b: Budget, now: nat)
    requires RecordOk(b) && now <= U64_MAX
    ensures match Settle(b, now)
            case Ok(s) => (forall e :: !Unsettled(b, now, e)) && s == SettledRecord(b, now) && RecordOk(s)
            case Err(e) => Unsettled(b, now, e)
  {
    LapsedIsDue(b, now);
    if Settle(b, now).Ok? { SettleMeaning(b, now); }
    if !Expired(b, now) && WindowExpired(b, now).Ok? {
      DueHasPeriods(b, now);
      if Lapsed(b, now) > 0 && Capacity(b) <= I128_MAX {
        CarryDecided(b, now);
      }
    }
  }

  /** The carry in steps: its first share, then an accrual that only an absolute cap saturates. */
  lemma CarrySteps(b: Budget, unspent: int, periods: nat, cap: nat, first: nat, accrued: nat)
    requires RecordOk(b) && periods > 0 && accrued == b.limit * (periods - 1) && (periods == 1 ==> accrued == 0)
    requires EffectiveCap(b) == Ok(cap) && BudgetRollover(unspent, b.rolloverBps, cap) == Ok(first)
    requires first <= I128_MAX
    ensures var r := CarriedCredit(b, unspent, periods);
            if b.rolloverCap == 0 && first + accrued > I128_MAX then r == Err(Overflow) else r.Ok?
  {
  }

  lemma CarryDecided(b: Budget, now: nat)
    requires RecordOk(b) && Lapsed(b, now) > 0 && Capacity(b) <= I128_MAX
    ensures var r := CarriedCredit(b, Max(Capacity(b) - b.spent, 0), Lapsed(b, now));
            if b.rolloverCap == 0 && Accrual(b, now) > I128_MAX then r == Err(Overflow) else r.Ok?
  {
    var unspent, periods := Max(Capacity(b) - b.spent, 0), Lapsed(b, now);
    EffectiveCapDefined(b);
    BudgetRolloverExact(unspent, b.rolloverBps, CapOf(b));
    BpsAtMostWhole(unspent, b.rolloverBps);
    MulMonotone(b.limit, 0, periods - 1);
    CarrySteps(b, unspent, periods, CapOf(b), Capped(BpsOf(unspent, b.rolloverBps), CapOf(b)),
               b.limit * (periods - 1));
  }

  // ----- refusals -----

  ghost predicate Inactive(b: Budget, e: Error) {
    (e == BudgetFrozen && (b.status.Frozen? || b.status.Paused?)) || (e == BudgetArchived && b.status.Archived?)
  }

  /** Moving `amount` of limit from one record to another is refused with `e`. */
  ghost predicate Untransferable(from: Budget, to: Budget, caller: Address, now: nat, amount: int, e: Error) {
    || (e == InvalidAmount && amount <= 0)
    || (e == Unauthorized && (caller != from.owner || caller != to.owner))
    || Inactive(from, e) || Inactive(to, e)
    || (e == BudgetExpired && from.expiresAt != 0 && now >= from.expiresAt)
    || (e == BudgetExpired && to.expiresAt != 0 && now >= to.expiresAt)
    || (e == BudgetExceeded && amount > from.limit - from.spent)
    || (e == Overflow && to.limit + amount > I128_MAX)
  }

  /** The checks a consume makes before it settles. */
  ghost predicate ConsumeBarred(b: Budget, caller: Address, now: nat, amount: int, e: Error) {
    || (e == InvalidAmount && amount <= 0)
    || (e == Unauthorized && caller != b.owner)
    || Inactive(b, e)
    || (e == BudgetNotActive && now < b.windowStart)
  }

  /** The checks it makes on the settled record. */
  ghost predicate ConsumeRefused(s: Budget, amount: int, e: Error) {
    || (e == BudgetExceeded && amount > Left(s) && !(s.allowDeficit && s.deficit == 0))
    || (e == Overflow && (Capacity(s) > I128_MAX || s.spent + amount > I128_MAX || Left(s) < I128_MIN))
  }

  ghost predicate ReleaseBarred(b: Budget, caller: Address, e: Error) {
    (e == Unauthorized && caller != b.owner) || Inactive(b, e)
  }

  ghost predicate ReleaseRefused(s: Budget, amount: int, e: Error) {
    || (e == InvalidAmount && (amount <= 0 || amount > s.spent))
    || (e == Overflow && (Capacity(s) > I128_MAX || Left(s) + amount < I128_MIN))
  }

  /** The refusals a call that spends, gives back or reads meets. */
  ghost predicate RefusedFlow(b: Budget, ev: Event, e: Error)
    requires RecordOk(b)
  {
    var s := SettledRecord(b, ev.at);
    match ev.op
    case OpConsume(caller, amount) =>
      ConsumeBarred(b, caller, ev.at, amount, e) || Unsettled(b, ev.at, e) || ConsumeRefused(s, amount, e)
    case OpRelease(caller, amount) =>
      ReleaseBarred(b, caller, e) || Unsettled(b, ev.at, e) || ReleaseRefused(s, amount, e)
    case OpRemaining =>
      && e == Overflow && ev.at >= b.windowStart && (forall e' :: !Unsettled(b, ev.at, e'))
      && (Capacity(s) > I128_MAX || Left(s) < I128_MIN)
    case OpRollover(caller) =>
      || (e == Unauthorized && caller != b.owner)
      || (e == BudgetArchived && b.status.Archived?)
      || Unsettled(b, ev.at, e)
    case _ => false
  }

  ghost predicate RecurrenceBarred(b: Budget, op: Op, now: nat, e: Error)
    requires op.OpSetRecurrence?
  {
    || (e == InvalidAmount && (op.cap < 0 || op.maxBps < 0))
    || (e == InvalidInput && (op.maxBps >= 10_000 || (op.period.Custom? && op.periodSeconds == 0)))
    || (e == Unauthorized && op.caller != b.owner)
    || Inactive(b, e)
    || (e == BudgetExpired && b.expiresAt != 0 && now >= b.expiresAt)
  }

  ghost predicate RolloverConfigBarred(b: Budget, op: Op, e: Error)
    requires op.OpSetRolloverConfig?
  {
    || (e == InvalidAmount && (op.bps < 0 || op.cap < 0))
    || (e == InvalidInput && op.bps > 10_000)
    || (e == Unauthorized && op.caller != b.owner)
    || Inactive(b, e)
  }

  /** The refusals a call that changes status, limit or policy meets. */
  ghost predicate RefusedSetup(b: Budget, ev: Event, e: Error)
    requires RecordOk(b)
  {
    match ev.op
    case OpReset(caller) =>
      || (e == Unauthorized && caller != b.owner)
      || (e == BudgetArchived && b.status.Archived?)
      || (e == BudgetNotActive && ev.at < b.windowStart)
      || (e == BudgetExpired && b.expiresAt != 0 && ev.at >= b.expiresAt)
    case OpFreeze(caller) => (e == Unauthorized && caller != b.owner) || (e == BudgetArchived && b.status.Archived?)
    case OpUnfreeze(caller) => (e == Unauthorized && caller != b.owner) || (e == InvalidState && !b.status.Frozen?)
    case OpArchive(caller) => e == Unauthorized && caller != b.owner
    case OpSetLimit(caller, newLimit) =>
      || (e == InvalidAmount && newLimit < 0)
      || (e == Unauthorized && caller != b.owner)
      || (e == BudgetArchived && b.status.Archived?)
      || Unsettled(b, ev.at, e)
      || (e == InvalidInput && newLimit < SettledRecord(b, ev.at).spent)
    case OpTransferOut(caller, amount, peer) => Untransferable(b, peer, caller, ev.at, amount, e)
    case OpTransferIn(caller, amount, peer) => Untransferable(peer, b, caller, ev.at, amount, e)
    case OpSetRecurrence(_, _, _, _, _, _) =>
      RecurrenceBarred(b, ev.op, ev.at, e) || (ev.at >= b.windowStart && Unsettled(b, ev.at, e))
    case OpSetRolloverConfig(_, _, _, _) => RolloverConfigBarred(b, ev.op, e) || Unsettled(b, ev.at, e)
    case _ => false
  }

  predicate Flows(op: Op) { op.OpConsume? || op.OpRelease? || op.OpRemaining? || op.OpRollover? }

  ghost predicate Refused(b: Budget, ev: Event, e: Error)
    requires RecordOk(b)
  {
    if Flows(ev.op) then RefusedFlow(b, ev, e) else RefusedSetup(b, ev, e)
  }

  // ----- what an accepted call stores and answers -----

  /** The accrued credit under a new policy: dropped, or cut to the new ceiling. */
  function Recut(credit: int, enabled: bool, ceiling: nat): int {
    if !enabled then 0 else if ceiling > 0 then Min(credit, ceiling) else credit
  }

  ghost predicate AcceptedFlow(b: Budget, ev: Event, t: Budget, ret: int)
    requires RecordOk(b)
  {
    var s := SettledRecord(b, ev.at);
    match ev.op
    case OpConsume(_, amount) => t == s.(spent := s.spent + amount) && ret == Left(t)
    case OpRelease(_, amount) => t == s.(spent := s.spent - amount) && ret == Left(t)
    case OpRemaining =>
      if ev.at < b.windowStart || exists e :: Unsettled(b, ev.at, e) then t == b && ret == 0
      else t == s && ret == Left(s)
    case OpRollover(_) => t == s && ret == 0
    case _ => true
  }

  ghost predicate AcceptedSetup(b: Budget, ev: Event, t: Budget)
    requires RecordOk(b)
  {
    var s := SettledRecord(b, ev.at);
    match ev.op
    case OpReset(_) => t == b.(spent := 0, rolloverCredit := 0, windowStart := ev.at)
    case OpFreeze(_) => t == b.(status := Frozen)
    case OpUnfreeze(_) => t == b.(status := Active)
    case OpArchive(_) => t == b.(status := Archived)
    case OpSetLimit(_, newLimit) => t == s.(limit := newLimit)
    case OpTransferOut(_, amount, _) => t == b.(limit := b.limit - amount)
    case OpTransferIn(_, amount, _) => t == b.(limit := b.limit + amount)
    case OpSetRecurrence(_, period, periodSeconds, enabled, cap, maxBps) =>
      var now := if ev.at < b.windowStart then b else s;
      && cap >= 0 && maxBps >= 0 && now.limit >= 0
      && t == now.(period := period, periodSeconds := if period.Custom? then periodSeconds else 0,
                   rolloverEnabled := enabled, rolloverCap := cap, rolloverMaxBps := maxBps,
                   rolloverBps := if !enabled then 0 else if now.rolloverBps == 0 then 10_000 else now.rolloverBps,
                   rolloverCredit := Recut(now.rolloverCredit, enabled, Ceiling(now.limit, maxBps, cap)),
                   windowStart := Max(b.windowStart, ev.at))
    case OpSetRolloverConfig(_, enabled, bps, cap) =>
      && cap >= 0 && s.limit >= 0 && s.rolloverMaxBps >= 0
      && t == s.(rolloverEnabled := enabled, rolloverBps := bps, rolloverCap := cap,
                 rolloverCredit := Recut(s.rolloverCredit, enabled, Ceiling(s.limit, s.rolloverMaxBps, cap)))
    case _ => true
  }

  ghost predicate Accepted(b: Budget, ev: Event, t: Budget, ret: int)
    requires RecordOk(b)
  {
    if Flows(ev.op) then AcceptedFlow(b, ev, t, ret) else AcceptedSetup(b, ev, t) && ret == 0
  }

  /** The call fails exactly when a refusal applies, with one that does; otherwise it commits
      what it should. */
  ghost predicate Decided(b: Budget, ev: Event)
    requires RecordOk(b)
  {
    match Exec(b, ev)
    case Err(e) => Refused(b, ev, e)
    case Ok(o) => (forall e :: !Refused(b, ev, e)) && Accepted(b, ev, o.budget, o.ret)
  }

  // Each operation first past its settlement, in terms of the settled record alone.

  lemma ConsumeSettled(b: Budget, caller: Address, now: nat, amount: int, s: Budget)
    requires Settle(b, now) == Ok(s) && RecordOk(s)
    ensures match Consume(b, caller, now, amount)
            case Err(e) => ConsumeBarred(b, caller, now, amount, e) || ConsumeRefused(s, amount, e)
            case Ok(o) =>
              && (forall e :: !ConsumeBarred(b, caller, now, amount, e) && !ConsumeRefused(s, amount, e))
              && o.budget == s.(spent := s.spent + amount) && o.ret == Left(o.budget)
  {
    if forall e :: !ConsumeBarred(b, caller, now, amount, e) {
      assert !ConsumeBarred(b, caller, now, amount, InvalidAmount);
      assert !ConsumeBarred(b, caller, now, amount, Unauthorized);
      assert !ConsumeBarred(b, caller, now, amount, BudgetFrozen);
      assert !ConsumeBarred(b, caller, now, amount, BudgetArchived);
      assert !ConsumeBarred(b, caller, now, amount, BudgetNotActive);
      ConsumeUnbarred(b, caller, now, amount, s);
    } else {
      ConsumeStopped(b, caller, now, amount);
    }
  }

  /** Past the first checks only the settled record decides. */
  lemma ConsumeUnbarred(b: Budget, caller: Address, now: nat, amount: int, s: Budget)
    requires Settle(b, now) == Ok(s) && RecordOk(s)
    requires amount > 0 && caller == b.owner && b.status.Active? && now >= b.windowStart
    ensures match Consume(b, caller, now, amount)
            case Err(e) => ConsumeRefused(s, amount, e)
            case Ok(o) =>
              && (forall e :: !ConsumeRefused(s, amount, e))
              && o.budget == s.(spent := s.spent + amount) && o.ret == Left(o.budget)
  {
  }

  lemma ConsumeStopped(b: Budget, caller: Address, now: nat, amount: int)
    requires exists e :: ConsumeBarred(b, caller, now, amount, e)
    ensures var r := Consume(b, caller, now, amount);
            r.Err? && ConsumeBarred(b, caller, now, amount, r.error)
  {
  }

  lemma ConsumeUnsettled(b: Budget, caller: Address, now: nat, amount: int)
    requires Settle(b, now).Err?
    ensures var r := Consume(b, caller, now, amount);
            r.Err? && (r.error == Settle(b, now).error || ConsumeBarred(b, caller, now, amount, r.error))
  {
  }

  lemma ConsumeDecided(b: Budget, ev: Event)
    requires RecordOk(b) && ev.at <= U64_MAX && ev.op.OpConsume?
    ensures Decided(b, ev)
  {
    SettleDecided(b, ev.at);
    match Settle(b, ev.at)
    case Ok(s) => ConsumeSettled(b, ev.op.caller, ev.at, ev.op.amount, s);
    case Err(_) => ConsumeUnsettled(b, ev.op.caller, ev.at, ev.op.amount);
  }

  lemma ReleaseSettled(b: Budget, caller: Address, now: nat, amount: int, s: Budget)
    requires Settle(b, now) == Ok(s) && RecordOk(s)
    ensures match Release(b, caller, now, amount)
            case Err(e) => ReleaseBarred(b, caller, e) || ReleaseRefused(s, amount, e)
            case Ok(o) =>
              && (forall e :: !ReleaseBarred(b, caller, e) && !ReleaseRefused(s, amount, e))
              && o.budget == s.(spent := s.spent - amount) && o.ret == Left(o.budget)
  {
  }

  lemma ReleaseUnsettled(b: Budget, caller: Address, now: nat, amount: int)
    requires Settle(b, now).Err?
    ensures var r := Release(b, caller, now, amount);
            && r.Err?
            && (|| r.error == Settle(b, now).error
                || ReleaseBarred(b, caller, r.error)
                || (r.error == InvalidAmount && amount <= 0))
  {
  }

  lemma ReleaseDecided(b: Budget, ev: Event)
    requires RecordOk(b) && ev.at <= U64_MAX && ev.op.OpRelease?
    ensures Decided(b, ev)
  {
    SettleDecided(b, ev.at);
    match Settle(b, ev.at)
    case Ok(s) => ReleaseSettled(b, ev.op.caller, ev.at, ev.op.amount, s);
    case Err(_) => ReleaseUnsettled(b, ev.op.caller, ev.at, ev.op.amount);
  }

  lemma RemainingSettled(b: Budget, now: nat, s: Budget)
    requires Settle(b, now) == Ok(s) && RecordOk(s) && now >= b.windowStart
    ensures Remaining(b, now)
         == if Capacity(s) > I128_MAX || Left(s) < I128_MIN then Err(Overflow) else Ok(Settled(s, Left(s)))
  {
  }

  lemma RemainingDecided(b: Budget, ev: Event)
    requires RecordOk(b) && ev.at <= U64_MAX && ev.op.OpRemaining?
    ensures Decided(b, ev)
  {
    SettleDecided(b, ev.at);
    if ev.at >= b.windowStart && Settle(b, ev.at).Ok? {
      RemainingSettled(b, ev.at, Settle(b, ev.at).value);
    }
  }

  lemma RolloverDecided(b: Budget, ev: Event)
    requires RecordOk(b) && ev.at <= U64_MAX && ev.op.OpRollover?
    ensures Decided(b, ev)
  {
    SettleDecided(b, ev.at);
  }

  lemma SetLimitDecided(b: Budget, ev: Event)
    requires RecordOk(b) && ev.at <= U64_MAX && ev.op.OpSetLimit?
    ensures Decided(b, ev)
  {
    SettleDecided(b, ev.at);
  }

  /** The other party of a transfer is a stored record too. */
  ghost predicate PeerOk(op: Op) { op.OpTransferOut? || op.OpTransferIn? ==> RecordOk(op.peer) }

  lemma TransferPair(from: Budget, to: Budget, caller: Address, now: nat, amount: int)
    requires RecordOk(from) && RecordOk(to) && amount > 0
    ensures match TransferAllocation(from, to, caller, now, amount)
            case Err(e) => Untransferable(from, to, caller, now, amount, e)
            case Ok(pair) =>
              && (forall e :: !Untransferable(from, to, caller, now, amount, e))
              && pair == (from.(limit := from.limit - amount), to.(limit := to.limit + amount))
  {
  }

  lemma TransferDecided(b: Budget, ev: Event)
    requires RecordOk(b) && PeerOk(ev.op) && (ev.op.OpTransferOut? || ev.op.OpTransferIn?)
    ensures Decided(b, ev)
  {
    if ev.op.amount > 0 {
      match ev.op
      case OpTransferOut(caller, amount, peer) => TransferPair(b, peer, caller, ev.at, amount);
      case OpTransferIn(caller, amount, peer) => TransferPair(peer, b, caller, ev.at, amount);
    }
  }

  lemma MarkDecided(b: Budget, ev: Event)
    requires RecordOk(b) && (ev.op.OpReset? || ev.op.OpFreeze? || ev.op.OpUnfreeze? || ev.op.OpArchive?)
    ensures Decided(b, ev)
  {
  }

  lemma ReclampCuts(b: Budget)
    requires RecordOk(b.(rolloverCredit := 0)) && 0 <= b.rolloverCredit <= I128_MAX
    ensures Reclamp(b) == Ok(b.(rolloverCredit := Recut(b.rolloverCredit, b.rolloverEnabled,
                                                        Ceiling(b.limit, b.rolloverMaxBps, b.rolloverCap))))
  {
    EffectiveCapDefined(b.(rolloverCredit := 0));
    assert EffectiveCap(b) == EffectiveCap(b.(rolloverCredit := 0));
  }

  /** Under its own argument checks, a new recurrence is stored with the credit recut. */
  lemma RecurrenceStores(b: Budget, ev: Event, s: Budget)
    requires RecordOk(s) && Representable(ev) && ev.op.OpSetRecurrence?
    requires if ev.at < b.windowStart then s == b else Settle(b, ev.at) == Ok(s)
    ensures Exec(b, ev).Ok? ==>
              var op, t := ev.op, Exec(b, ev).value.budget;
              && op.cap >= 0 && 0 <= op.maxBps < 10_000
              && t == s.(period := op.period, periodSeconds := if op.period.Custom? then op.periodSeconds else 0,
                         rolloverEnabled := op.enabled, rolloverCap := op.cap, rolloverMaxBps := op.maxBps,
                         rolloverBps := if !op.enabled then 0 else if s.rolloverBps == 0 then 10_000 else s.rolloverBps,
                         rolloverCredit := Recut(s.rolloverCredit, op.enabled, Ceiling(s.limit, op.maxBps, op.cap)),
                         windowStart := if ev.at < b.windowStart then s.windowStart else ev.at)
              && Exec(b, ev).value.ret == 0
    ensures Exec(b, ev).Err? ==> RecurrenceBarred(b, ev.op, ev.at, Exec(b, ev).error)
    ensures Exec(b, ev).Ok? ==> forall e :: !RecurrenceBarred(b, ev.op, ev.at, e)
  {
    var op := ev.op;
    if op.cap >= 0 && 0 <= op.maxBps < BPS {
      ReclampCuts(s.(period := op.period, periodSeconds := if op.period.Custom? then op.periodSeconds else 0,
                     rolloverEnabled := op.enabled, rolloverCap := op.cap, rolloverMaxBps := op.maxBps,
                     rolloverBps := if !op.enabled then 0 else if s.rolloverBps == 0 then BPS else s.rolloverBps));
    }
  }

  lemma RecurrenceUnsettled(b: Budget, ev: Event)
    requires ev.op.OpSetRecurrence? && ev.at >= b.windowStart && Settle(b, ev.at).Err?
    ensures Exec(b, ev).Err?
    ensures Exec(b, ev).error == Settle(b, ev.at).error || RecurrenceBarred(b, ev.op, ev.at, Exec(b, ev).error)
  {
  }

  lemma RecurrenceDecided(b: Budget, ev: Event)
    requires RecordOk(b) && Representable(ev) && ev.op.OpSetRecurrence?
    ensures Decided(b, ev)
  {
    SettleDecided(b, ev.at);
    if ev.at < b.windowStart {
      RecurrenceStores(b, ev, b);
    } else {
      assert Expired(b, ev.at) ==> Unsettled(b, ev.at, BudgetExpired);
      match Settle(b, ev.at)
      case Ok(s) => RecurrenceStores(b, ev, s);
      case Err(_) => RecurrenceUnsettled(b, ev);
    }
  }

  lemma RolloverConfigStores(b: Budget, ev: Event, s: Budget)
    requires RecordOk(s) && Representable(ev) && ev.op.OpSetRolloverConfig? && Settle(b, ev.at) == Ok(s)
    ensures match Exec(b, ev)
            case Err(e) => RolloverConfigBarred(b, ev.op, e)
            case Ok(o) =>
              && (forall e :: !RolloverConfigBarred(b, ev.op, e))
              && o.ret == 0
              && o.budget == s.(rolloverEnabled := ev.op.enabled, rolloverBps := ev.op.bps, rolloverCap := ev.op.cap,
                                rolloverCredit := Recut(s.rolloverCredit, ev.op.enabled,
                                                        Ceiling(s.limit, s.rolloverMaxBps, ev.op.cap)))
  {
    var op := ev.op;
    if op.cap >= 0 && 0 <= op.bps <= BPS {
      ReclampCuts(s.(rolloverEnabled := op.enabled, rolloverBps := op.bps, rolloverCap := op.cap));
    }
  }

  lemma RolloverConfigDecided(b: Budget, ev: Event)
    requires RecordOk(b) && Representable(ev) && ev.op.OpSetRolloverConfig?
    ensures Decided(b, ev)
  {
    SettleDecided(b, ev.at);
    if Settle(b, ev.at).Ok? { RolloverConfigStores(b, ev, Settle(b, ev.at).value); }
  }

  lemma AnyCallDecided(b: Budget, ev: Event)
    requires RecordOk(b) && Representable(ev) && PeerOk(ev.op)
    ensures Decided(b, ev)
  {
    match ev.op
    case OpConsume(_, _) => ConsumeDecided(b, ev);
    case OpRelease(_, _) => ReleaseDecided(b, ev);
    case OpRemaining => RemainingDecided(b, ev);
    case OpRollover(_) => RolloverDecided(b, ev);
    case OpSetLimit(_, _) => SetLimitDecided(b, ev);
    case OpTransferOut(_, _, _) => TransferDecided(b, ev);
    case OpTransferIn(_, _, _) => TransferDecided(b, ev);
    case OpSetRecurrence(_, _, _, _, _, _) => RecurrenceDecided(b, ev);
    case OpSetRolloverConfig(_, _, _, _) => RolloverConfigDecided(b, ev);
    case _ => MarkDecided(b, ev);
  }

  /** On every record a budget's history can reach, every call fails exactly when a refusal
      applies, with one that does, and otherwise stores and answers what it should. */
  lemma CallDecided(b0: Budget, events: seq<Event>, ev: Event)
    requires IsAllocated(b0) && forall e :: e in events ==> Representable(e)
    requires Representable(ev) && PeerOk(ev.op)
    ensures RecordOk(Run(b0, events)) && Decided(Run(b0, events), ev)
  {
    CreditStaysCapped(b0, events);
    AnyCallDecided(Run(b0, events), ev);
  }

  /** A budget is allocated exactly on sound arguments, and starts empty. */
  lemma AllocateDecided(owner: Address, limit: int, period: Period, enabled: bool, bps: int, cap: int, deficits: bool,
                        startAt: nat, expiresAt: nat, now: nat)
    ensures match Allocate(owner, limit, period, enabled, bps, cap, deficits, startAt, expiresAt, now)
            case Ok(b) =>
              && limit >= 0 && cap >= 0 && 0 <= bps <= 10_000
              && (expiresAt == 0 || Max(now, startAt) < expiresAt)
              && (deficits ==> Window(period, 0) > 0)
              && b == Budget(owner, limit, 0, period, 0, startAt, enabled, 0, cap, 0, bps, deficits, 0, expiresAt,
                             Active)
            case Err(e) =>
              || (e == InvalidAmount && (limit < 0 || cap < 0 || bps < 0))
              || (e == InvalidInput &&
                  (bps > 10_000 || (expiresAt != 0 && expiresAt <= Max(now, startAt))
                   || (deficits && Window(period, 0) == 0)))
  {
  }

  // ----- the answer is what is left -----

  predicate EndFits(b: Budget) { b.windowStart + Window(b.period, b.periodSeconds) <= U64_MAX }

  /** A successful spend or give-back answers limit plus credit minus booked deficit minus spent
      of the record it stored, overdrafts included. A read at the same instant leaves the record
      alone and answers the same number; only where the current window ends beyond the clock's
      range, or has not started, does it answer 0. */
  lemma AnswersWhatIsLeft(b: Budget, ev: Event)
    requires RecordOk(b) && ev.at <= U64_MAX && (ev.op.OpConsume? || ev.op.OpRelease?) && Exec(b, ev).Ok?
    ensures var t, ret := Exec(b, ev).value.budget, Exec(b, ev).value.ret;
            && ret == t.limit + t.rolloverCredit - t.deficit - t.spent
            && Remaining(t, ev.at) == Ok(Settled(t, if EndFits(t) && t.windowStart <= ev.at then ret else 0))
  {
    SettleDecided(b, ev.at);
    var s := SettledRecord(b, ev.at);
    FlowAnswers(b, ev, s);
    SettledHasNoneLapsed(b, ev.at);
    SettlesStill(b, ev.at, s, Exec(b, ev).value.budget);
    ReadsAgain(Exec(b, ev).value.budget, ev.at, Exec(b, ev).value.ret);
  }

  lemma FlowAnswers(b: Budget, ev: Event, s: Budget)
    requires (ev.op.OpConsume? || ev.op.OpRelease?) && Exec(b, ev).Ok? && Settle(b, ev.at) == Ok(s) && RecordOk(s)
    ensures var t, ret := Exec(b, ev).value.budget, Exec(b, ev).value.ret;
            && RecordOk(t) && t == s.(spent := t.spent) && ret == Left(t) && InI128(ret) && Capacity(t) <= I128_MAX
  {
    match ev.op
    case OpConsume(caller, amount) =>
      ConsumeSettled(b, caller, ev.at, amount, s);
      assert !ConsumeRefused(s, amount, Overflow) && !ConsumeBarred(b, caller, ev.at, amount, InvalidAmount);
    case OpRelease(caller, amount) =>
      ReleaseSettled(b, caller, ev.at, amount, s);
      assert !ReleaseRefused(s, amount, Overflow) && !ReleaseRefused(s, amount, InvalidAmount);
  }

  lemma SettlesStill(b: Budget, now: nat, s: Budget, t: Budget)
    requires RecordOk(b) && now <= U64_MAX && Settle(b, now) == Ok(s) && Lapsed(s, now) == 0
    requires s == SettledRecord(b, now) && RecordOk(t) && t == s.(spent := t.spent)
    ensures Lapsed(t, now) == 0 && !Expired(t, now)
  {
    SettleDecided(b, now);
  }

  /** Reading a record whose windows are settled. */
  lemma ReadsAgain(t: Budget, now: nat, left: int)
    requires RecordOk(t) && now <= U64_MAX && Lapsed(t, now) == 0 && !Expired(t, now)
    requires left == Left(t) && InI128(left) && Capacity(t) <= I128_MAX
    ensures Remaining(t, now) == Ok(Settled(t, if EndFits(t) && t.windowStart <= now then left else 0))
  {
    SettleDecided(t, now);
    LapsedIsDue(t, now);
    if now >= t.windowStart && Settle(t, now).Ok? { RemainingSettled(t, now, t); }
  }

  lemma SettledHasNoneLapsed(b: Budget, now: nat)
    requires RecordOk(b) && now <= U64_MAX && Settle(b, now).Ok?
    ensures Lapsed(SettledRecord(b, now), now) == 0
  {
    var s := SettledRecord(b, now);
    SettleDecided(b, now);
    LapsedIsDue(b, now);
    LapsedIsDue(s, now);
    if Window(b.period, b.periodSeconds) > 0 && b.windowStart <= now { SettlementIsAnchored(b, now); }
  }
}

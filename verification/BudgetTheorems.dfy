/** What recurring budgets keep over whole histories: bounded credit, drift-free windows,
    conservation of allowance, path-independent settlement and at most one deficit. */
module BudgetTheorems {
  import opened Common
  import opened Arith
  import opened BudgetModel

  // ----- records in range -----

  function Capacity(b: Budget): int { b.limit + b.rolloverCredit }

  predicate Overdrawn(b: Budget) { b.spent > Capacity(b) }

  predicate RecordOk(b: Budget) {
    && 0 <= b.limit <= I128_MAX
    && 0 <= b.spent <= I128_MAX
    && 0 <= b.rolloverCredit <= I128_MAX
    && 0 <= b.rolloverCap <= I128_MAX
    && 0 <= b.rolloverMaxBps < BPS
    && 0 <= b.rolloverBps <= BPS
    && 0 <= b.deficit <= I128_MAX
    && b.windowStart <= U64_MAX
    && (b.rolloverCap != 0 ==> b.rolloverCredit <= b.rolloverCap)
    && (!b.rolloverEnabled ==> b.rolloverCredit == 0)
    && (!b.allowDeficit ==> b.deficit == 0)
  }

  /** Arguments and timestamps are `i128` and `u64` values. */
  predicate Representable(e: Event) {
    && e.at <= U64_MAX
    && (e.op.OpSetLimit? ==> e.op.newLimit <= I128_MAX)
    && (e.op.OpSetRecurrence? ==> e.op.cap <= I128_MAX)
    && (e.op.OpSetRolloverConfig? ==> e.op.cap <= I128_MAX)
  }

  // ----- what settlement computes, without the fixed-width detours -----

  /** The tighter of an absolute cap and a percentage of the limit, where 0 means neither binds. */
  function Ceiling(limit: nat, maxBps: nat, cap: nat): nat {
    var pct := BpsOf(limit, maxBps);
    if cap > 0 && pct > 0 then Min(cap, pct) else Max(cap, pct)
  }

  ghost function CapOf(b: Budget): nat
    requires RecordOk(b)
  {
    Ceiling(b.limit, b.rolloverMaxBps, b.rolloverCap)
  }

  /** The cap computed without overflow is that ceiling. */
  lemma EffectiveCapDefined(b: Budget)
    requires RecordOk(b)
    ensures EffectiveCap(b) == Ok(CapOf(b)) && 0 <= CapOf(b) <= I128_MAX
    ensures b.rolloverCap != 0 ==> 0 < CapOf(b) <= b.rolloverCap
  {
    SplitBpsExact(b.limit, b.rolloverMaxBps);
    BpsAtMostWhole(b.limit, b.rolloverMaxBps);
    if b.rolloverMaxBps == 0 { assert b.limit * b.rolloverMaxBps == 0; }
  }

  /** The credit carried over `periods` boundaries by an account that is not overdrawn. */
  ghost function CarriedOver(b: Budget, periods: nat): nat
    requires RecordOk(b) && periods > 0
  {
    var unspent := Max(Capacity(b) - b.spent, 0);
    MulMonotone(b.limit, 0, periods - 1);
    Capped(BpsOf(unspent, b.rolloverBps) + b.limit * (periods - 1), CapOf(b))
  }

  lemma CarriedCreditMeaning(b: Budget, periods: nat)
    requires RecordOk(b) && periods > 0 && Capacity(b) <= I128_MAX
    requires CarriedCredit(b, Max(Capacity(b) - b.spent, 0), periods).Ok?
    ensures CarriedCredit(b, Max(Capacity(b) - b.spent, 0), periods).value == CarriedOver(b, periods) <= I128_MAX
  {
    var unspent := Max(Capacity(b) - b.spent, 0);
    EffectiveCapDefined(b);
    BudgetRolloverExact(unspent, b.rolloverBps, CapOf(b));
    BpsAtMostWhole(unspent, b.rolloverBps);
    MulMonotone(b.limit, 0, periods - 1);
  }

  /** The record a settlement of `periods` lapsed windows stores. */
  ghost function AfterBoundaries(b: Budget, periods: nat): Budget
    requires RecordOk(b) && periods > 0 && WindowOf(b.period, b.periodSeconds).Some?
  {
    var window := WindowOf(b.period, b.periodSeconds).value;
    var overdrawn := b.allowDeficit && Overdrawn(b);
    MulMonotone(window, 0, periods);
    b.(rolloverCredit := if overdrawn || !b.rolloverEnabled then 0 else CarriedOver(b, periods),
       deficit := if overdrawn then b.deficit + (b.spent - Capacity(b)) else b.deficit,
       spent := 0,
       windowStart := b.windowStart + window * periods)
  }

  lemma PeriodsDueBounds(b: Budget, now: nat)
    requires PeriodsDue(b, now) > 0
    ensures WindowOf(b.period, b.periodSeconds).Some?
    ensures var w := WindowOf(b.period, b.periodSeconds).value;
            && w > 0
            && b.windowStart + w * PeriodsDue(b, now) <= now < b.windowStart + w * PeriodsDue(b, now) + w
  {
    var w := WindowOf(b.period, b.periodSeconds).value;
    FloorBounds(now - b.windowStart, w);
  }

  lemma DueHasPeriods(b: Budget, now: nat)
    requires WindowExpired(b, now).Ok?
    ensures WindowExpired(b, now).value <==> PeriodsDue(b, now) > 0
  {
    if WindowExpired(b, now).value {
      var w := WindowOf(b.period, b.periodSeconds).value;
      FloorMonotone(w, now - b.windowStart, w);
      FloorOfMultiple(1, w);
    }
  }

  /** Settlement stores exactly `AfterBoundaries` of the windows that lapsed, or the
      untouched record when none has. */
  lemma SettleMeaning(b: Budget, now: nat)
    requires RecordOk(b) && now <= U64_MAX && Settle(b, now).Ok?
    ensures PeriodsDue(b, now) == 0 ==> Settle(b, now).value == b
    ensures PeriodsDue(b, now) > 0 ==>
              && Capacity(b) <= I128_MAX
              && WindowOf(b.period, b.periodSeconds).Some?
              && Settle(b, now).value == AfterBoundaries(b, PeriodsDue(b, now))
              && RecordOk(Settle(b, now).value)
  {
    DueHasPeriods(b, now);
    var p := PeriodsDue(b, now);
    if p > 0 {
      PeriodsDueBounds(b, now);
      var w := WindowOf(b.period, b.periodSeconds).value;
      assert w * p == p * w;
      if b.rolloverEnabled && !(b.allowDeficit && Overdrawn(b)) {
        CarriedCreditMeaning(b, p);
        EffectiveCapDefined(b);
      }
    }
  }

  /** The credit of a settled record that carries: never more than the percentage of what was
      unspent plus one limit per further window, the absolute cap, or the percentage of the limit
      (either ceiling where it is set), and as much as these allow. */
  lemma CreditIsCeiled(b: Budget, now: nat)
    requires RecordOk(b) && now <= U64_MAX && Settle(b, now).Ok? && PeriodsDue(b, now) > 0
    requires b.rolloverEnabled && !(b.allowDeficit && Overdrawn(b))
    ensures var credit, pct := Settle(b, now).value.rolloverCredit, (b.limit * b.rolloverMaxBps) / 10_000;
            var due := BpsOf(Max(Capacity(b) - b.spent, 0), b.rolloverBps) + b.limit * (PeriodsDue(b, now) - 1);
            && credit <= due
            && (b.rolloverCap > 0 ==> credit <= b.rolloverCap)
            && (pct > 0 ==> credit <= pct)
            && (credit == due || (b.rolloverCap > 0 && credit == b.rolloverCap) || (pct > 0 && credit == pct))
  {
    SettleMeaning(b, now);
  }

  // ----- every reachable record is in range, its credit capped -----

  lemma ReclampKeepsRecordOk(b: Budget)
    requires RecordOk(b.(rolloverCredit := 0)) && 0 <= b.rolloverCredit <= I128_MAX && Reclamp(b).Ok?
    ensures RecordOk(Reclamp(b).value)
    ensures Reclamp(b).value == b.(rolloverCredit := Reclamp(b).value.rolloverCredit)
  {
    EffectiveCapDefined(b.(rolloverCredit := 0));
    assert EffectiveCap(b) == EffectiveCap(b.(rolloverCredit := 0));
  }

  // What each call stores, free of its guards.

  lemma ConsumeStores(b: Budget, caller: Address, now: nat, amount: int)
    requires Consume(b, caller, now, amount).Ok?
    ensures Settle(b, now).Ok? && amount > 0
    ensures var s := Settle(b, now).value;
            && Consume(b, caller, now, amount).value.budget == s.(spent := s.spent + amount)
            && s.spent + amount <= I128_MAX
            && (s.spent + amount <= Capacity(s) - (if s.allowDeficit && s.deficit > 0 then s.deficit else 0)
                || (s.allowDeficit && s.deficit == 0))
  {
  }

  lemma ReleaseStores(b: Budget, caller: Address, now: nat, amount: int)
    requires Release(b, caller, now, amount).Ok?
    ensures Settle(b, now).Ok?
    ensures var s := Settle(b, now).value;
            0 < amount <= s.spent && Release(b, caller, now, amount).value.budget == s.(spent := s.spent - amount)
  {
  }

  lemma RemainingStores(b: Budget, now: nat)
    requires Remaining(b, now).Ok?
    ensures || Remaining(b, now).value.budget == b
            || Ok(Remaining(b, now).value.budget) == Settle(b, now)
  {
  }

  lemma RolloverStores(b: Budget, caller: Address, now: nat)
    requires ForceRollover(b, caller, now).Ok?
    ensures Ok(ForceRollover(b, caller, now).value.budget) == Settle(b, now)
  {
  }

  lemma SetLimitStores(b: Budget, caller: Address, now: nat, newLimit: int)
    requires SetLimit(b, caller, now, newLimit).Ok?
    ensures Settle(b, now).Ok? && newLimit >= 0 && newLimit >= Settle(b, now).value.spent
    ensures SetLimit(b, caller, now, newLimit).value.budget == Settle(b, now).value.(limit := newLimit)
  {
  }

  lemma TransferStores(from: Budget, to: Budget, caller: Address, now: nat, amount: int)
    requires TransferAllocation(from, to, caller, now, amount).Ok?
    ensures var (x, y) := TransferAllocation(from, to, caller, now, amount).value;
            && x == from.(limit := from.limit - amount) && amount <= from.limit - from.spent
            && y == to.(limit := to.limit + amount) && to.limit + amount <= I128_MAX
  {
  }

  lemma SettleKeepsRecordOk(b: Budget, now: nat)
    requires RecordOk(b) && now <= U64_MAX && Settle(b, now).Ok?
    ensures RecordOk(Settle(b, now).value)
  {
    SettleMeaning(b, now);
  }

  lemma SpendKeepsRecordOk(b: Budget, e: Event)
    requires RecordOk(b) && Representable(e) && (e.op.OpConsume? || e.op.OpRelease?) && Exec(b, e).Ok?
    ensures RecordOk(Next(b, e))
  {
    match e.op {
      case OpConsume(caller, amount) => ConsumeStores(b, caller, e.at, amount);
      case OpRelease(caller, amount) => ReleaseStores(b, caller, e.at, amount);
    }
    SettleKeepsRecordOk(b, e.at);
  }

  lemma VisitKeepsRecordOk(b: Budget, e: Event)
    requires RecordOk(b) && Representable(e) && (e.op.OpRemaining? || e.op.OpRollover?) && Exec(b, e).Ok?
    ensures RecordOk(Next(b, e))
  {
    match e.op {
      case OpRemaining => RemainingStores(b, e.at);
      case OpRollover(caller) => RolloverStores(b, caller, e.at);
    }
    if Settle(b, e.at).Ok? { SettleKeepsRecordOk(b, e.at); }
  }

  lemma TransferKeepsRecordOk(b: Budget, e: Event)
    requires RecordOk(b) && (e.op.OpTransferOut? || e.op.OpTransferIn?) && Exec(b, e).Ok?
    ensures RecordOk(Next(b, e))
  {
    match e.op
    case OpTransferOut(caller, amount, peer) => TransferStores(b, peer, caller, e.at, amount);
    case OpTransferIn(caller, amount, peer) => TransferStores(peer, b, caller, e.at, amount);
  }

  lemma SetLimitKeepsRecordOk(b: Budget, e: Event)
    requires RecordOk(b) && Representable(e) && e.op.OpSetLimit? && Exec(b, e).Ok?
    ensures RecordOk(Next(b, e))
  {
    SetLimitStores(b, e.op.caller, e.at, e.op.newLimit);
    SettleKeepsRecordOk(b, e.at);
  }

  lemma MarkKeepsRecordOk(b: Budget, e: Event)
    requires RecordOk(b) && Representable(e)
    requires e.op.OpReset? || e.op.OpFreeze? || e.op.OpUnfreeze? || e.op.OpArchive?
    ensures RecordOk(Next(b, e))
  {
  }

  lemma RecurrenceKeepsRecordOk(b: Budget, e: Event)
    requires RecordOk(b) && Representable(e) && e.op.OpSetRecurrence? && Exec(b, e).Ok?
    ensures RecordOk(Next(b, e))
  {
    var op, future := e.op, e.at < b.windowStart;
    if !future { SettleKeepsRecordOk(b, e.at); }
    var s := if future then b else Settle(b, e.at).value;
    var bps := if !op.enabled then 0 else if s.rolloverBps == 0 then BPS else s.rolloverBps;
    ReclampKeepsRecordOk(s.(period := op.period, periodSeconds := if op.period.Custom? then op.periodSeconds else 0,
                            rolloverEnabled := op.enabled, rolloverCap := op.cap, rolloverMaxBps := op.maxBps,
                            rolloverBps := bps));
  }

  lemma RolloverConfigKeepsRecordOk(b: Budget, e: Event)
    requires RecordOk(b) && Representable(e) && e.op.OpSetRolloverConfig? && Exec(b, e).Ok?
    ensures RecordOk(Next(b, e))
  {
    SettleKeepsRecordOk(b, e.at);
    var s := Settle(b, e.at).value;
    ReclampKeepsRecordOk(s.(rolloverEnabled := e.op.enabled, rolloverBps := e.op.bps, rolloverCap := e.op.cap));
  }

  lemma NextKeepsRecordOk(b: Budget, e: Event)
    requires RecordOk(b) && Representable(e)
    ensures RecordOk(Next(b, e))
  {
    if Exec(b, e).Ok? {
      match e.op
      case OpSetRecurrence(_, _, _, _, _, _) => RecurrenceKeepsRecordOk(b, e);
      case OpSetRolloverConfig(_, _, _, _) => RolloverConfigKeepsRecordOk(b, e);
      case OpConsume(_, _) => SpendKeepsRecordOk(b, e);
      case OpRelease(_, _) => SpendKeepsRecordOk(b, e);
      case OpRemaining => VisitKeepsRecordOk(b, e);
      case OpRollover(_) => VisitKeepsRecordOk(b, e);
      case OpTransferOut(_, _, _) => TransferKeepsRecordOk(b, e);
      case OpTransferIn(_, _, _) => TransferKeepsRecordOk(b, e);
      case OpSetLimit(_, _) => SetLimitKeepsRecordOk(b, e);
      case _ => MarkKeepsRecordOk(b, e);
    }
  }

  /** A freshly allocated budget. */
  ghost predicate IsAllocated(b: Budget) {
    exists owner, limit: int, period, enabled, bps: int, cap: int, deficits, startAt: nat, expiresAt: nat, now: nat ::
      && limit <= I128_MAX && cap <= I128_MAX && startAt <= U64_MAX
      && Allocate(owner, limit, period, enabled, bps, cap, deficits, startAt, expiresAt, now) == Ok(b)
  }

  /** In every reachable state the rollover credit is non-negative, at most the absolute
      cap when there is one, and zero while rollover is off; every counter stays in range. */
  lemma {:induction false} CreditStaysCapped(b: Budget, events: seq<Event>)
    requires IsAllocated(b) && forall e :: e in events ==> Representable(e)
    ensures RecordOk(Run(b, events))
  {
    if events != [] {
      var n := |events| - 1;
      assert forall e :: e in events[..n] ==> e in events;
      CreditStaysCapped(b, events[..n]);
      NextKeepsRecordOk(Run(b, events[..n]), events[n]);
    }
  }

  // ----- windows never drift -----

  /** After a settlement now lies inside the half-open current window, the anchor has moved
      by a whole number of windows, and settling again at the same instant changes nothing. */
  lemma SettlementIsAnchored(b: Budget, now: nat)
    requires RecordOk(b) && b.windowStart <= now <= U64_MAX
    requires WindowOf(b.period, b.periodSeconds).Some? && Settle(b, now).Ok?
    ensures var s, w := Settle(b, now).value, WindowOf(b.period, b.periodSeconds).value;
            && s.windowStart <= now < s.windowStart + w
            && s.windowStart == b.windowStart + w * PeriodsDue(b, now)
            && PeriodsDue(s, now) == 0
            && (s.windowStart + w <= U64_MAX ==> Settle(s, now) == Ok(s))
  {
    var w := WindowOf(b.period, b.periodSeconds).value;
    SettleMeaning(b, now);
    DueHasPeriods(b, now);
    if PeriodsDue(b, now) > 0 { PeriodsDueBounds(b, now); }
    var s := Settle(b, now).value;
    assert WindowOf(s.period, s.periodSeconds).value == w;
  }

  // ----- conservation -----

  /** Allowance left at `b`: what `effective_remaining` reports, before range checks. */
  function Left(b: Budget): int { Capacity(b) - b.deficit - b.spent }

  lemma LeftIsEffectiveRemaining(b: Budget)
    requires RecordOk(b) && EffectiveRemaining(b).Ok?
    ensures EffectiveRemaining(b).value == Left(b)
  {
  }

  /** A budget together with what an observer of its history has counted: net lifetime
      consumption, windows opened (the first included), resets, and the overdrafts that
      resets wiped off the record. */
  datatype History = History(budget: Budget, net: int, windows: nat, resets: nat, forgiven: nat)

  /** The calls that settle lapsed windows before acting. */
  predicate Settles(op: Op) { op.OpConsume? || op.OpRelease? || op.OpRemaining? || op.OpRollover? }

  /** Windows opened by this call: it settled them iff it re-anchored the record. */
  function Opened(b: Budget, e: Event): nat {
    if Settles(e.op) && Exec(b, e).Ok? && Exec(b, e).value.budget.windowStart != b.windowStart
    then PeriodsDue(b, e.at) else 0
  }

  /** The call's contribution to net consumption. */
  function Flow(op: Op): int {
    match op
    case OpConsume(_, amount) => amount
    case OpRelease(_, amount) => -amount
    case _ => 0
  }

  /** What has been spent beyond the capacity of the current window. */
  function Overdraft(b: Budget): nat { Max(b.spent - Capacity(b), 0) }

  function Observe(h: History, e: Event): History {
    var b := h.budget;
    if Exec(b, e).Err? then h
    else History(
           Next(b, e),
           h.net + Flow(e.op),
           h.windows + Opened(b, e),
           h.resets + (if e.op.OpReset? then 1 else 0),
           h.forgiven + (if e.op.OpReset? then Overdraft(b) else 0))
  }

  /** The allowance granted so far: one base limit per window opened and per reset. */
  function Granted(h: History): int { h.budget.limit * (h.windows + h.resets) }

  /** The grants, and whatever resets forgave, cover everything spent and left. */
  predicate Balanced(h: History) { h.net + Left(h.budget) <= Granted(h) + h.forgiven }

  /** The grants alone do. */
  predicate Conserved(h: History) { h.net + Left(h.budget) <= Granted(h) }

  /** Calls that leave the configuration alone. */
  predicate FixedConfiguration(op: Op) {
    Settles(op) || op.OpReset? || op.OpFreeze? || op.OpUnfreeze? || op.OpArchive?
  }

  /** Overspending happens only under a deficit policy that has booked nothing yet. */
  predicate OverdraftOk(b: Budget) { Overdrawn(b) ==> b.allowDeficit && b.deficit == 0 }

  lemma BoundariesGrantOneLimitEach(b: Budget, periods: nat)
    requires RecordOk(b) && OverdraftOk(b) && periods > 0 && WindowOf(b.period, b.periodSeconds).Some?
    ensures Left(AfterBoundaries(b, periods)) <= Left(b) + b.limit * periods
    ensures OverdraftOk(AfterBoundaries(b, periods))
  {
    var unspent := Max(Capacity(b) - b.spent, 0);
    BpsAtMostWhole(unspent, b.rolloverBps);
    MulMonotone(b.limit, 1, periods);
    assert b.limit * periods == b.limit * (periods - 1) + b.limit;
  }

  lemma SettleConserves(b: Budget, now: nat)
    requires RecordOk(b) && OverdraftOk(b) && now <= U64_MAX && Settle(b, now).Ok?
    ensures var s := Settle(b, now).value;
            && RecordOk(s) && OverdraftOk(s) && s.limit == b.limit
            && Left(s) <= Left(b) + b.limit * PeriodsDue(b, now)
            && (PeriodsDue(b, now) > 0 <==> s.windowStart != b.windowStart)
  {
    SettleMeaning(b, now);
    if PeriodsDue(b, now) > 0 {
      PeriodsDueBounds(b, now);
      MulMonotone(WindowOf(b.period, b.periodSeconds).value, 1, PeriodsDue(b, now));
      BoundariesGrantOneLimitEach(b, PeriodsDue(b, now));
    }
  }

  lemma GrantGrows(limit: int, windows: nat, resets: nat, p: nat)
    ensures limit * (windows + p + resets) == limit * (windows + resets) + limit * p
  {
  }

  /** A successful settling call stores the settled record with `spent` moved by its flow
      (a read on a budget it cannot settle stores it unchanged). */
  ghost predicate SettledWithFlow(b: Budget, e: Event) {
    var t := Next(b, e);
    || (t == b && Flow(e.op) == 0)
    || (Settle(b, e.at).Ok? && var s := Settle(b, e.at).value; t == s.(spent := s.spent + Flow(e.op)))
  }

  lemma ConsumeShape(b: Budget, e: Event)
    requires RecordOk(b) && OverdraftOk(b) && e.at <= U64_MAX && e.op.OpConsume? && Exec(b, e).Ok?
    ensures SettledWithFlow(b, e) && RecordOk(Next(b, e)) && OverdraftOk(Next(b, e))
  {
    ConsumeStores(b, e.op.caller, e.at, e.op.amount);
    SettleConserves(b, e.at);
  }

  lemma ReleaseShape(b: Budget, e: Event)
    requires RecordOk(b) && OverdraftOk(b) && e.at <= U64_MAX && e.op.OpRelease? && Exec(b, e).Ok?
    ensures SettledWithFlow(b, e) && RecordOk(Next(b, e)) && OverdraftOk(Next(b, e))
  {
    ReleaseStores(b, e.op.caller, e.at, e.op.amount);
    SettleConserves(b, e.at);
  }

  lemma VisitShape(b: Budget, e: Event)
    requires RecordOk(b) && OverdraftOk(b) && e.at <= U64_MAX
    requires (e.op.OpRemaining? || e.op.OpRollover?) && Exec(b, e).Ok?
    ensures SettledWithFlow(b, e) && RecordOk(Next(b, e)) && OverdraftOk(Next(b, e))
  {
    match e.op {
      case OpRemaining => RemainingStores(b, e.at);
      case OpRollover(caller) => RolloverStores(b, caller, e.at);
    }
    if Settle(b, e.at).Ok? { SettleConserves(b, e.at); }
  }

  lemma SettlingCallShape(b: Budget, e: Event)
    requires RecordOk(b) && OverdraftOk(b) && e.at <= U64_MAX && Settles(e.op) && Exec(b, e).Ok?
    ensures SettledWithFlow(b, e) && RecordOk(Next(b, e)) && OverdraftOk(Next(b, e))
  {
    match e.op
    case OpConsume(_, _) => ConsumeShape(b, e);
    case OpRelease(_, _) => ReleaseShape(b, e);
    case _ => VisitShape(b, e);
  }

  lemma SpendConserves(h: History, e: Event)
    requires RecordOk(h.budget) && OverdraftOk(h.budget) && Balanced(h)
    requires Settles(e.op) && e.at <= U64_MAX && Exec(h.budget, e).Ok?
    ensures var t := Observe(h, e);
            && RecordOk(t.budget) && OverdraftOk(t.budget) && Balanced(t)
            && t.budget.limit == h.budget.limit && t.forgiven == h.forgiven
  {
    var b := h.budget;
    SettlingCallShape(b, e);
    if Settle(b, e.at).Ok? {
      SettleConserves(b, e.at);
      GrantGrows(b.limit, h.windows, h.resets, PeriodsDue(b, e.at));
    }
  }

  /** A reset grants one more limit and forgives the overdraft, no more. */
  lemma ResetBalances(h: History, e: Event)
    requires RecordOk(h.budget) && Balanced(h) && e.at <= U64_MAX && e.op.OpReset? && Exec(h.budget, e).Ok?
    ensures var t := Observe(h, e);
            && RecordOk(t.budget) && OverdraftOk(t.budget) && Balanced(t) && t.budget.limit == h.budget.limit
            && Granted(t) == Granted(h) + h.budget.limit
            && t.net + Left(t.budget) == h.net + Left(h.budget) + h.budget.spent - Capacity(h.budget) + h.budget.limit
  {
    GrantGrows(h.budget.limit, h.windows, h.resets, 1);
  }

  /** A reset of record `b` keeps the grants alone sufficient, whatever an observer may have
      counted before it, exactly when the record is not overdrawn. The counts range over all
      that satisfy the bound, not only over those some history of `b` produces. */
  lemma ResetConservesExactly(b: Budget, e: Event)
    requires RecordOk(b) && e.at <= U64_MAX && e.op.OpReset? && Exec(b, e).Ok?
    ensures (forall h: History :: h.budget == b && Conserved(h) ==> Conserved(Observe(h, e))) <==> !Overdrawn(b)
  {
    if Overdrawn(b) {
      // Counts that have used up the grants to the last unit.
      var tight := History(b, b.limit - Left(b), 1, 0, 0);
      assert Conserved(tight);
      ResetBalances(tight, e);
      assert !Conserved(Observe(tight, e));
    } else {
      forall h: History | h.budget == b && Conserved(h) ensures Conserved(Observe(h, e)) {
        ResetBalances(h, e);
      }
    }
  }

  lemma ObserveConserves(h: History, e: Event)
    requires RecordOk(h.budget) && OverdraftOk(h.budget) && Balanced(h)
    requires e.at <= U64_MAX && FixedConfiguration(e.op)
    ensures var t := Observe(h, e);
            && RecordOk(t.budget) && OverdraftOk(t.budget) && Balanced(t) && t.budget.limit == h.budget.limit
            && (t.forgiven == h.forgiven || (e.op.OpReset? && Overdrawn(h.budget)))
  {
    if Exec(h.budget, e).Ok? {
      if Settles(e.op) {
        SpendConserves(h, e);
      } else if e.op.OpReset? {
        ResetBalances(h, e);
      }
    }
  }

  /** No `reset` is issued on an overdrawn record anywhere in the history. */
  ghost predicate NoResetWhileOverdrawn(h: History, events: seq<Event>) {
    forall i :: 0 <= i < |events| && events[i].op.OpReset? ==> !Overdrawn(Watch(h, events[..i]).budget)
  }

  function Watch(h: History, events: seq<Event>): History {
    if events == [] then h
    else Observe(Watch(h, events[..|events| - 1]), events[|events| - 1])
  }

  /** The observer's book on the day of allocation. */
  function FirstDay(b: Budget): History { History(b, 0, 1, 0, 0) }

  /** Budget conservation: under a fixed configuration, whatever the gaps between calls, with
      deficits and resets included, net lifetime consumption plus what is left never exceeds
      one base limit per window opened and per reset plus the overdrafts that resets forgave. */
  lemma {:induction false} AllowanceIsConserved(b: Budget, events: seq<Event>)
    requires IsAllocated(b)
    requires forall i :: 0 <= i < |events| ==> events[i].at <= U64_MAX && FixedConfiguration(events[i].op)
    ensures var t := Watch(FirstDay(b), events);
            RecordOk(t.budget) && OverdraftOk(t.budget) && Balanced(t) && t.budget.limit == b.limit
  {
    if events != [] {
      var n := |events| - 1;
      AllowanceIsConserved(b, events[..n]);
      ObserveConserves(Watch(FirstDay(b), events[..n]), events[n]);
    }
  }

  /** Without such a reset nothing is ever forgiven, and the grants alone suffice. */
  lemma {:induction false} NothingForgiven(b: Budget, events: seq<Event>)
    requires IsAllocated(b)
    requires forall i :: 0 <= i < |events| ==> events[i].at <= U64_MAX && FixedConfiguration(events[i].op)
    requires NoResetWhileOverdrawn(FirstDay(b), events)
    ensures Watch(FirstDay(b), events).forgiven == 0 && Conserved(Watch(FirstDay(b), events))
  {
    AllowanceIsConserved(b, events);
    if events != [] {
      var n := |events| - 1;
      forall i | 0 <= i < n && events[..n][i].op.OpReset?
        ensures !Overdrawn(Watch(FirstDay(b), events[..n][..i]).budget)
      {
        assert events[..n][..i] == events[..i];
      }
      NothingForgiven(b, events[..n]);
      AllowanceIsConserved(b, events[..n]);
      ObserveConserves(Watch(FirstDay(b), events[..n]), events[n]);
    }
  }

  /** A deficit budget of 100 a day, as `allocate_with_deficit` creates it. */
  const DEFICIT_EXAMPLE := Budget(Address(1), 100, 0, Daily, 0, 0, false, 0, 0, 0, 0, true, 0, 0, Active)

  lemma ExampleSpends(e: Event)
    requires e == Event(10, OpConsume(Address(1), 1000))
    ensures Observe(FirstDay(DEFICIT_EXAMPLE), e) == History(DEFICIT_EXAMPLE.(spent := 1000), 1000, 1, 0, 0)
  {
    assert Settle(DEFICIT_EXAMPLE, 10) == Ok(DEFICIT_EXAMPLE);
  }

  lemma ExampleResets(e: Event)
    requires e == Event(20, OpReset(Address(1)))
    ensures Observe(History(DEFICIT_EXAMPLE.(spent := 1000), 1000, 1, 0, 0), e)
         == History(DEFICIT_EXAMPLE.(windowStart := 20), 1000, 1, 1, 900)
  {
    assert Reset(DEFICIT_EXAMPLE.(spent := 1000), Address(1), 20).Ok?;
  }

  lemma WatchTwo(h: History, events: seq<Event>)
    requires |events| == 2
    ensures Watch(h, events) == Observe(Observe(h, events[0]), events[1])
  {
    assert events[..1][..0] == [];
    assert Watch(h, events[..1]) == Observe(h, events[0]);
  }

  /** It spends 1000 and is then reset: consumed 1000, 100 left, against 200 granted and 900
      forgiven. */
  lemma ResetForgivesAnOverdraft(events: seq<Event>)
    requires events == [Event(10, OpConsume(Address(1), 1000)), Event(20, OpReset(Address(1)))]
    ensures IsAllocated(DEFICIT_EXAMPLE) && !Conserved(Watch(FirstDay(DEFICIT_EXAMPLE), events))
  {
    assert Allocate(Address(1), 100, Daily, false, 0, 0, true, 0, 0, 0) == Ok(DEFICIT_EXAMPLE);
    ExampleSpends(events[0]);
    ExampleResets(events[1]);
    WatchTwo(FirstDay(DEFICIT_EXAMPLE), events);
  }

  // ----- at most one deficit -----

  /** Everything but the two policy setters. */
  predicate KeepsPolicy(op: Op) { !op.OpSetRecurrence? && !op.OpSetRolloverConfig? }

  /** `t` is no new overdraft over `b`, and a deficit already booked stays as it is. */
  ghost predicate OverdraftKept(b: Budget, t: Budget) {
    OverdraftOk(t) && (b.deficit > 0 ==> t.deficit == b.deficit)
  }

  lemma SettleKeepsOverdraft(b: Budget, now: nat)
    requires RecordOk(b) && OverdraftOk(b) && now <= U64_MAX && Settle(b, now).Ok?
    ensures OverdraftKept(b, Settle(b, now).value)
  {
    SettleMeaning(b, now);
  }

  lemma SettlingKeepsOverdraft(b: Budget, e: Event)
    requires RecordOk(b) && OverdraftOk(b) && e.at <= U64_MAX && Settles(e.op) && Exec(b, e).Ok?
    ensures OverdraftKept(b, Next(b, e))
  {
    SettlingCallShape(b, e);
    if Settle(b, e.at).Ok? { SettleKeepsOverdraft(b, e.at); }
  }

  lemma SetLimitKeepsOverdraft(b: Budget, e: Event)
    requires RecordOk(b) && OverdraftOk(b) && e.at <= U64_MAX && e.op.OpSetLimit? && Exec(b, e).Ok?
    ensures OverdraftKept(b, Next(b, e))
  {
    SetLimitStores(b, e.op.caller, e.at, e.op.newLimit);
    SettleMeaning(b, e.at);
  }

  lemma TransferKeepsOverdraft(b: Budget, e: Event)
    requires RecordOk(b) && OverdraftOk(b) && (e.op.OpTransferOut? || e.op.OpTransferIn?) && Exec(b, e).Ok?
    ensures OverdraftKept(b, Next(b, e))
  {
    match e.op
    case OpTransferOut(caller, amount, peer) => TransferStores(b, peer, caller, e.at, amount);
    case OpTransferIn(caller, amount, peer) => TransferStores(peer, b, caller, e.at, amount);
  }

  lemma PolicyKeptKeepsOverdraftOk(b: Budget, e: Event)
    requires RecordOk(b) && OverdraftOk(b) && e.at <= U64_MAX && KeepsPolicy(e.op)
    ensures OverdraftKept(b, Next(b, e))
  {
    if Exec(b, e).Ok? {
      if Settles(e.op) {
        SettlingKeepsOverdraft(b, e);
      } else if e.op.OpSetLimit? {
        SetLimitKeepsOverdraft(b, e);
      } else if e.op.OpTransferOut? || e.op.OpTransferIn? {
        TransferKeepsOverdraft(b, e);
      }
    }
  }

  /** How many calls of a history booked a deficit. */
  ghost function Bookings(b: Budget, events: seq<Event>): nat {
    if events == [] then 0
    else
      var n := |events| - 1;
      Bookings(b, events[..n]) + (if Run(b, events).deficit != Run(b, events[..n]).deficit then 1 else 0)
  }

  /** With the rollover policy left alone, a deficit is booked at most once in a budget's
      life, across limit changes, transfers and resets: once it is positive no accepted
      spend can pass capacity again. */
  lemma {:induction false} DeficitBookedAtMostOnce(b: Budget, events: seq<Event>)
    requires IsAllocated(b)
    requires forall e :: e in events ==> Representable(e) && KeepsPolicy(e.op)
    ensures RecordOk(Run(b, events)) && OverdraftOk(Run(b, events))
    ensures Bookings(b, events) <= 1
    ensures Bookings(b, events) == 0 <==> Run(b, events).deficit == 0
  {
    if events != [] {
      var n := |events| - 1;
      assert forall e :: e in events[..n] ==> e in events;
      DeficitBookedAtMostOnce(b, events[..n]);
      NextKeepsRecordOk(Run(b, events[..n]), events[n]);
      PolicyKeptKeepsOverdraftOk(Run(b, events[..n]), events[n]);
    }
  }

  // ----- lazy settlement -----

  lemma CapAbsorbs(x: int, y: nat, cap: nat)
    requires x >= 0
    ensures Capped(Capped(x, cap) + y, cap) == Capped(x + y, cap)
  {
  }

  lemma PeriodsSplit(b: Budget, t1: nat, t2: nat)
    requires RecordOk(b) && t1 <= t2 <= U64_MAX && PeriodsDue(b, t1) > 0
    ensures var s := AfterBoundaries(b, PeriodsDue(b, t1));
            PeriodsDue(b, t2) == PeriodsDue(b, t1) + PeriodsDue(s, t2)
  {
    var w, p := WindowOf(b.period, b.periodSeconds).value, PeriodsDue(b, t1);
    PeriodsDueBounds(b, t1);
    FloorShift(t2 - b.windowStart, p, w);
    var rest := t2 - b.windowStart - p * w;
    if rest < w { FloorUnique(rest, w, 0); }
  }

  /** The next boundary books a deficit instead of rolling anything over. */
  predicate InDeficit(b: Budget) { b.allowDeficit && Overdrawn(b) }

  /** A visit of `b` that left record `s`, with `q` boundaries still to come, changes nothing.
      Rollover is off; or no deficit was booked, and rollover is complete, there is nothing to
      roll, or the cap is reached all the same; or a deficit was booked, and the limit of the
      windows after it rolls over to nothing. */
  ghost predicate VisitLeavesNoTrace(b: Budget, s: Budget, q: nat) {
    && RecordOk(b) && RecordOk(s)
    && (|| !b.rolloverEnabled
        || (if InDeficit(b) then BpsOf(b.limit, b.rolloverBps) == 0 && (q == 1 || b.limit == 0)
            else || b.rolloverBps == BPS || Capacity(s) == 0
                 || (CapOf(b) != 0 && BpsOf(Capacity(s), b.rolloverBps) + b.limit * (q - 1) >= CapOf(b))))
  }

  /** The arithmetic of one intermediate visit: `a` accrued before it on top of the first
      carry, `later` after it, and in between the percentage of limit and credit. */
  lemma CreditLostByVisit(limit: nat, first: nat, a: nat, later: nat, cap: nat, bps: nat)
    requires bps <= BPS
    ensures var capacity := limit + Capped(first + a, cap);
            var split, direct := Capped(BpsOf(capacity, bps) + later, cap), Capped(first + a + limit + later, cap);
            && split <= direct
            && (split == direct <==>
                  || bps == BPS || capacity == 0
                  || (cap != 0 && BpsOf(capacity, bps) + later >= cap))
  {
    var capacity: nat := limit + Capped(first + a, cap);
    BpsAtMostWhole(capacity, bps);
    CapAbsorbs(first + a, limit + later, cap);
  }

  lemma SplitKeepsRest(b: Budget, p: nat, q: nat)
    requires RecordOk(b) && p > 0 && q > 0
    requires WindowOf(b.period, b.periodSeconds).Some? && RecordOk(AfterBoundaries(b, p))
    ensures SameButCredit(AfterBoundaries(AfterBoundaries(b, p), q), AfterBoundaries(b, p + q))
  {
    SplitWindows(WindowOf(b.period, b.periodSeconds).value, p, q);
  }

  lemma SplitWithoutDeficit(b: Budget, p: nat, q: nat)
    requires RecordOk(b) && !InDeficit(b) && p > 0 && q > 0
    requires WindowOf(b.period, b.periodSeconds).Some? && RecordOk(AfterBoundaries(b, p))
    ensures var s := AfterBoundaries(b, p);
            var split, direct := AfterBoundaries(s, q).rolloverCredit, AfterBoundaries(b, p + q).rolloverCredit;
            split <= direct && (split == direct <==> VisitLeavesNoTrace(b, s, q))
  {
    var s := AfterBoundaries(b, p);
    SplitLimits(b.limit, p, q);
    if b.rolloverEnabled {
      assert CapOf(s) == CapOf(b);
      CreditLostByVisit(b.limit, BpsOf(Max(Capacity(b) - b.spent, 0), b.rolloverBps), b.limit * (p - 1),
                        b.limit * (q - 1), CapOf(b), b.rolloverBps);
    }
  }

  lemma SplitWithDeficit(b: Budget, p: nat, q: nat)
    requires RecordOk(b) && InDeficit(b) && p > 0 && q > 0
    requires WindowOf(b.period, b.periodSeconds).Some? && RecordOk(AfterBoundaries(b, p))
    ensures var s := AfterBoundaries(b, p);
            var split, direct := AfterBoundaries(s, q).rolloverCredit, AfterBoundaries(b, p + q).rolloverCredit;
            direct == 0 <= split && (split == 0 <==> VisitLeavesNoTrace(b, s, q))
  {
    var s := AfterBoundaries(b, p);
    SplitLimits(b.limit, p, q);
    NothingRolled(b.limit, q);
    assert Capacity(s) - s.spent == b.limit;
  }

  lemma NothingRolled(limit: nat, q: nat)
    requires q > 0
    ensures limit * (q - 1) == 0 <==> q == 1 || limit == 0
  {
    if q > 1 && limit > 0 { MulMonotone(limit, 1, q - 1); }
  }

  /** Settling `p` boundaries and then `q` more, against settling `p + q` at once: the same
      anchor and counters. Without a deficit to book the visit never leaves more credit; with
      one, the lazy settlement keeps none and the visit never leaves less. The records agree
      exactly when the visit leaves no trace. */
  lemma SplitBoundaries(b: Budget, p: nat, q: nat)
    requires RecordOk(b) && p > 0 && q > 0
    requires WindowOf(b.period, b.periodSeconds).Some? && RecordOk(AfterBoundaries(b, p))
    ensures var s := AfterBoundaries(b, p);
            var split, direct := AfterBoundaries(s, q), AfterBoundaries(b, p + q);
            && SameButCredit(split, direct)
            && (if InDeficit(b) then direct.rolloverCredit == 0 <= split.rolloverCredit
                else split.rolloverCredit <= direct.rolloverCredit)
            && (split == direct <==> VisitLeavesNoTrace(b, s, q))
  {
    SplitKeepsRest(b, p, q);
    if InDeficit(b) { SplitWithDeficit(b, p, q); } else { SplitWithoutDeficit(b, p, q); }
  }

  /** The two records differ in their rollover credit at most. */
  predicate SameButCredit(r: Budget, s: Budget) { r.(rolloverCredit := s.rolloverCredit) == s }

  lemma SplitWindows(w: nat, p: nat, q: nat)
    ensures w * (p + q) == w * p + w * q
  {
  }

  lemma SplitLimits(limit: nat, p: nat, q: nat)
    requires p > 0 && q > 0
    ensures limit * (p - 1) >= 0 && limit * (q - 1) >= 0
    ensures limit * (p + q - 1) == limit * (p - 1) + limit + limit * (q - 1)
  {
    MulMonotone(limit, 0, p - 1);
    MulMonotone(limit, 0, q - 1);
    assert limit * (p + q - 1) == limit * ((p - 1) + 1 + (q - 1));
  }

  /** A settlement that succeeds later would have succeeded earlier. */
  lemma SettlesEarlierToo(b: Budget, t1: nat, t2: nat)
    requires RecordOk(b) && t1 <= t2 <= U64_MAX && Settle(b, t2).Ok?
    ensures Settle(b, t1).Ok?
  {
    DueGrows(b, t1, t2);
    if PeriodsDue(b, t1) > 0 { CarriesEarlierToo(b, PeriodsDue(b, t1), PeriodsDue(b, t2)); }
  }

  lemma DueGrows(b: Budget, t1: nat, t2: nat)
    requires t1 <= t2 && WindowExpired(b, t2).Ok?
    ensures WindowExpired(b, t1).Ok? && PeriodsDue(b, t1) <= PeriodsDue(b, t2)
    ensures WindowExpired(b, t1).value <==> PeriodsDue(b, t1) > 0
    ensures WindowExpired(b, t2).value <==> PeriodsDue(b, t2) > 0
  {
    DueHasPeriods(b, t1);
    DueHasPeriods(b, t2);
    if WindowExpired(b, t1).value {
      var w := WindowOf(b.period, b.periodSeconds).value;
      FloorMonotone(t1 - b.windowStart, t2 - b.windowStart, w);
    }
  }

  lemma CarriesEarlierToo(b: Budget, p: nat, q: nat)
    requires RecordOk(b) && 0 < p <= q && Capacity(b) <= I128_MAX
    requires b.rolloverEnabled && !InDeficit(b) ==> CarriedCredit(b, Max(Capacity(b) - b.spent, 0), q).Ok?
    ensures b.rolloverEnabled && !InDeficit(b) ==> CarriedCredit(b, Max(Capacity(b) - b.spent, 0), p).Ok?
  {
    var unspent := Max(Capacity(b) - b.spent, 0);
    EffectiveCapDefined(b);
    BudgetRolloverExact(unspent, b.rolloverBps, CapOf(b));
    BpsAtMostWhole(unspent, b.rolloverBps);
    MulMonotone(b.limit, 0, p - 1);
    MulMonotone(b.limit, p - 1, q - 1);
  }

  /** The same on the stored records: `p` boundaries at a visit and `q` more, against all at once. */
  lemma VisitRecords(b: Budget, s: Budget, split: Budget, direct: Budget, p: nat, q: nat)
    requires RecordOk(b) && RecordOk(s) && (p + q > 0 ==> WindowOf(b.period, b.periodSeconds).Some?)
    requires if p == 0 then s == b else s == AfterBoundaries(b, p)
    requires if q == 0 then split == s else split == AfterBoundaries(s, q)
    requires if p + q == 0 then direct == b else direct == AfterBoundaries(b, p + q)
    ensures SameButCredit(split, direct)
    ensures if InDeficit(b) then direct.rolloverCredit <= split.rolloverCredit
            else split.rolloverCredit <= direct.rolloverCredit
    ensures split == direct <==> p == 0 || q == 0 || VisitLeavesNoTrace(b, s, q)
  {
    if p > 0 && q > 0 { SplitBoundaries(b, p, q); }
  }

  /** `s` is `b` with its due windows settled at `now`. */
  ghost predicate SettledTo(b: Budget, now: nat, s: Budget) {
    && RecordOk(b) && RecordOk(s)
    && (PeriodsDue(b, now) == 0 ==> s == b)
    && (PeriodsDue(b, now) > 0 ==>
          WindowOf(b.period, b.periodSeconds).Some? && s == AfterBoundaries(b, PeriodsDue(b, now)))
  }

  lemma SettlesTo(b: Budget, now: nat)
    requires RecordOk(b) && now <= U64_MAX && Settle(b, now).Ok?
    ensures SettledTo(b, now, Settle(b, now).value)
  {
    SettleMeaning(b, now);
  }

  lemma LazyRecords(b: Budget, t1: nat, t2: nat, s: Budget, split: Budget, direct: Budget)
    requires t1 <= t2 <= U64_MAX && SettledTo(b, t1, s) && SettledTo(s, t2, split) && SettledTo(b, t2, direct)
    ensures SameButCredit(split, direct)
    ensures if InDeficit(b) then direct.rolloverCredit <= split.rolloverCredit
            else split.rolloverCredit <= direct.rolloverCredit
    ensures split == direct <==>
              PeriodsDue(b, t1) == 0 || PeriodsDue(s, t2) == 0 || VisitLeavesNoTrace(b, s, PeriodsDue(s, t2))
  {
    if PeriodsDue(b, t1) > 0 { PeriodsSplit(b, t1, t2); }
    VisitRecords(b, s, split, direct, PeriodsDue(b, t1), PeriodsDue(s, t2));
  }

  /** Lazy settlement compared with an intermediate visit, for every record in range: the same
      record but for its credit, which the visit never raises, or never lowers when a deficit
      is being booked; and the same record altogether exactly when one of the two instants has
      no boundary before it or the visit leaves no trace. */
  lemma LazySettlement(b: Budget, t1: nat, t2: nat)
    requires RecordOk(b) && t1 <= t2 <= U64_MAX
    requires Settle(b, t2).Ok? && Settle(b, t1).Ok? && Settle(Settle(b, t1).value, t2).Ok?
    ensures var s := Settle(b, t1).value;
            var split, direct := Settle(s, t2).value, Settle(b, t2).value;
            && SameButCredit(split, direct)
            && (if InDeficit(b) then direct.rolloverCredit <= split.rolloverCredit
                else split.rolloverCredit <= direct.rolloverCredit)
            && (split == direct <==>
                  || PeriodsDue(b, t1) == 0 || PeriodsDue(s, t2) == 0
                  || VisitLeavesNoTrace(b, s, PeriodsDue(s, t2)))
  {
    SettlesTo(b, t1);
    SettlesTo(b, t2);
    var s := Settle(b, t1).value;
    SettlesTo(s, t2);
    LazyRecords(b, t1, t2, s, Settle(s, t2).value, Settle(b, t2).value);
  }

  /** The record after a visit at each of the given times, in order. */
  function VisitAll(b: Budget, times: seq<nat>): Result<Budget> {
    if times == [] then Ok(b)
    else
      var s :- VisitAll(b, times[..|times| - 1]);
      Settle(s, times[|times| - 1])
  }

  /** `r` is `s` with no more credit. */
  predicate Poorer(r: Budget, s: Budget) { SameButCredit(r, s) && r.rolloverCredit <= s.rolloverCredit }

  lemma SameDue(r: Budget, s: Budget, t: nat)
    requires SameButCredit(r, s)
    ensures PeriodsDue(r, t) == PeriodsDue(s, t)
    ensures WindowOf(r.period, r.periodSeconds) == WindowOf(s.period, s.periodSeconds)
  {
  }

  /** Less credit before the boundaries is no more credit after them. */
  lemma PoorerStays(r: Budget, s: Budget, q: nat)
    requires RecordOk(r) && RecordOk(s) && Poorer(r, s) && !InDeficit(r) && q > 0
    requires WindowOf(r.period, r.periodSeconds).Some?
    ensures Poorer(AfterBoundaries(r, q), AfterBoundaries(s, q))
  {
    assert CapOf(r) == CapOf(s);
    BpsMonotone(Max(Capacity(r) - r.spent, 0), Max(Capacity(s) - s.spent, 0), r.rolloverBps);
  }

  /** One more visit when boundaries have passed: against the lazy record after all of them. */
  lemma VisitAfter(b: Budget, visited: Budget, p: nat, q: nat)
    requires RecordOk(b) && !InDeficit(b) && p > 0 && q > 0 && WindowOf(b.period, b.periodSeconds).Some?
    requires RecordOk(AfterBoundaries(b, p)) && RecordOk(visited) && !InDeficit(visited)
    requires Poorer(visited, AfterBoundaries(b, p))
    ensures Poorer(AfterBoundaries(visited, q), AfterBoundaries(b, p + q))
    ensures (!b.rolloverEnabled || b.rolloverBps == BPS) && visited == AfterBoundaries(b, p) ==>
              AfterBoundaries(visited, q) == AfterBoundaries(b, p + q)
  {
    PoorerStays(visited, AfterBoundaries(b, p), q);
    SplitBoundaries(b, p, q);
  }

  lemma SettledIsClear(b: Budget, now: nat)
    requires RecordOk(b) && now <= U64_MAX && Settle(b, now).Ok? && (InDeficit(b) ==> PeriodsDue(b, now) > 0)
    ensures RecordOk(Settle(b, now).value) && !InDeficit(Settle(b, now).value)
  {
    SettleMeaning(b, now);
  }

  /** One more visit: from a record no richer than the lazy one at `t1` to one no richer than
      the lazy one at `t2`. */
  lemma OneMoreVisit(b: Budget, visited: Budget, t1: nat, t2: nat)
    requires RecordOk(b) && !InDeficit(b) && t1 <= t2 <= U64_MAX
    requires Settle(b, t1).Ok? && Settle(b, t2).Ok? && Settle(visited, t2).Ok?
    requires RecordOk(visited) && !InDeficit(visited) && Poorer(visited, Settle(b, t1).value)
    ensures Poorer(Settle(visited, t2).value, Settle(b, t2).value)
    ensures (!b.rolloverEnabled || b.rolloverBps == BPS) && visited == Settle(b, t1).value ==>
              Settle(visited, t2).value == Settle(b, t2).value
  {
    var s := Settle(b, t1).value;
    SettleMeaning(b, t1);
    SettleMeaning(b, t2);
    SettleMeaning(visited, t2);
    SameDue(visited, s, t2);
    var p, q := PeriodsDue(b, t1), PeriodsDue(s, t2);
    if p > 0 { PeriodsSplit(b, t1, t2); }
    if q > 0 {
      if p > 0 { VisitAfter(b, visited, p, q); } else { PoorerStays(visited, s, q); }
    }
  }

  /** The visit times follow each other within the clock's range. */
  ghost predicate InOrder(times: seq<nat>) {
    forall i, j :: 0 <= i <= j < |times| ==> times[i] <= times[j] <= U64_MAX
  }

  lemma {:induction false} VisitsWithoutDeficit(b: Budget, times: seq<nat>)
    requires RecordOk(b) && !InDeficit(b) && times != [] && InOrder(times)
    requires VisitAll(b, times).Ok? && Settle(b, times[|times| - 1]).Ok?
    ensures var visited, lazy := VisitAll(b, times).value, Settle(b, times[|times| - 1]).value;
            && RecordOk(visited) && !InDeficit(visited) && Poorer(visited, lazy)
            && (!b.rolloverEnabled || b.rolloverBps == BPS ==> visited == lazy)
  {
    var n := |times| - 1;
    if n == 0 {
      assert VisitAll(b, times[..0]) == Ok(b);
      SettledIsClear(b, times[0]);
    } else {
      var before := times[..n];
      assert before[n - 1] == times[n - 1];
      SettlesEarlierToo(b, times[n - 1], times[n]);
      VisitsWithoutDeficit(b, before);
      OneMoreVisit(b, VisitAll(b, before).value, times[n - 1], times[n]);
      SettledIsClear(VisitAll(b, before).value, times[n]);
    }
  }

  /** How a visited record stands to the lazy one while a deficit is being booked: untouched
      until the first boundary, afterwards clear, with the same anchor and deficit. */
  ghost predicate DeficitProgress(b: Budget, visited: Budget, t: nat)
    requires Settle(b, t).Ok?
  {
    && RecordOk(visited) && SameButCredit(visited, Settle(b, t).value)
    && (PeriodsDue(b, t) == 0 ==> visited == b)
    && (PeriodsDue(b, t) > 0 ==> !InDeficit(visited) && Settle(b, t).value.rolloverCredit == 0)
    && (!b.rolloverEnabled ==> visited == Settle(b, t).value)
  }

  lemma FirstDeficitVisit(b: Budget, t: nat)
    requires RecordOk(b) && InDeficit(b) && t <= U64_MAX && Settle(b, t).Ok?
    ensures DeficitProgress(b, Settle(b, t).value, t)
  {
    SettleMeaning(b, t);
  }

  /** Boundaries of a clear record move its anchor and clear its counter, whatever its credit. */
  lemma ClearAdvance(r: Budget, s: Budget, q: nat)
    requires RecordOk(r) && RecordOk(s) && SameButCredit(r, s) && !InDeficit(r) && !InDeficit(s) && q > 0
    requires WindowOf(r.period, r.periodSeconds).Some?
    ensures SameButCredit(AfterBoundaries(r, q), AfterBoundaries(s, q))
  {
  }

  lemma NextDeficitVisit(b: Budget, visited: Budget, t1: nat, t2: nat)
    requires RecordOk(b) && InDeficit(b) && t1 <= t2 <= U64_MAX
    requires Settle(b, t1).Ok? && Settle(b, t2).Ok? && Settle(visited, t2).Ok? && DeficitProgress(b, visited, t1)
    ensures DeficitProgress(b, Settle(visited, t2).value, t2)
  {
    SettleMeaning(b, t1);
    SettleMeaning(b, t2);
    SettleMeaning(visited, t2);
    if PeriodsDue(b, t1) > 0 {
      var s := Settle(b, t1).value;
      var p, q := PeriodsDue(b, t1), PeriodsDue(s, t2);
      PeriodsSplit(b, t1, t2);
      SameDue(visited, s, t2);
      if q > 0 {
        ClearAdvance(visited, s, q);
        SplitKeepsRest(b, p, q);
      }
    }
  }

  lemma {:induction false} VisitsWithDeficit(b: Budget, times: seq<nat>)
    requires RecordOk(b) && InDeficit(b) && times != [] && InOrder(times)
    requires VisitAll(b, times).Ok? && Settle(b, times[|times| - 1]).Ok?
    ensures DeficitProgress(b, VisitAll(b, times).value, times[|times| - 1])
  {
    var n := |times| - 1;
    if n == 0 {
      assert VisitAll(b, times[..0]) == Ok(b);
      FirstDeficitVisit(b, times[0]);
    } else {
      var before := times[..n];
      assert before[n - 1] == times[n - 1];
      SettlesEarlierToo(b, times[n - 1], times[n]);
      VisitsWithDeficit(b, before);
      NextDeficitVisit(b, VisitAll(b, before).value, times[n - 1], times[n]);
    }
  }

  /** Lazy settlement against any sequence of visits, one in every period or as many as one
      likes, for every record in range: the same record but for its credit. The visited budget
      never carries more of it, unless the first boundary books a deficit, when it never
      carries less. With rollover off, or complete and no deficit to book, the records agree. */
  lemma VisitsAgainstLazy(b: Budget, times: seq<nat>)
    requires RecordOk(b) && times != [] && InOrder(times)
    requires VisitAll(b, times).Ok? && Settle(b, times[|times| - 1]).Ok?
    ensures var visited, lazy := VisitAll(b, times).value, Settle(b, times[|times| - 1]).value;
            && (if InDeficit(b) then Poorer(lazy, visited) else Poorer(visited, lazy))
            && (!b.rolloverEnabled || (b.rolloverBps == BPS && !InDeficit(b)) ==> visited == lazy)
  {
    if InDeficit(b) { VisitsWithDeficit(b, times); } else { VisitsWithoutDeficit(b, times); }
  }

  /** An unspent daily budget with rollover, without caps or expiry. */
  predicate DailyRollover(b: Budget) {
    && b.period == Daily && b.periodSeconds == 0 && b.expiresAt == 0 && b.spent == 0
    && b.rolloverEnabled && b.rolloverCap == 0 && b.rolloverMaxBps == 0 && 0 <= b.rolloverBps <= BPS
    && 0 <= b.limit <= 1000 && 0 <= b.rolloverCredit <= 1000
  }

  const DAY: nat := SECONDS_PER_DAY

  lemma DueAfterDays(b: Budget, days: nat)
    requires DailyRollover(b) && 1 <= days <= 2 && b.windowStart <= 2 * DAY
    ensures WindowExpired(b, b.windowStart + days * DAY) == Ok(true)
    ensures PeriodsDue(b, b.windowStart + days * DAY) == days
  {
    FloorOfMultiple(days, DAY);
  }

  lemma DailyCredit(b: Budget, days: nat)
    requires DailyRollover(b) && 1 <= days <= 2
    ensures CarriedCredit(b, Capacity(b), days) == Ok(BpsOf(Capacity(b), b.rolloverBps) + b.limit * (days - 1))
  {
    BudgetRolloverExact(Capacity(b), b.rolloverBps, 0);
    BpsAtMostWhole(Capacity(b), b.rolloverBps);
    assert b.limit * 0 == 0 && b.limit * 1 == b.limit;
  }

  lemma DailySettles(b: Budget, days: nat, now: nat, carry: int)
    requires DailyRollover(b) && 1 <= days <= 2 && b.windowStart <= 2 * DAY && now == b.windowStart + days * DAY
    requires carry == BpsOf(Capacity(b), b.rolloverBps) + b.limit * (days - 1)
    ensures Settle(b, now) == Ok(b.(rolloverCredit := carry, windowStart := now))
  {
    DueAfterDays(b, days);
    DailyCredit(b, days);
    assert CalculateRollover(b, now) == Ok(Rollover(carry, days, true));
  }

  lemma VisitTwice(b: Budget, t1: nat, t2: nat)
    requires Settle(b, t1).Ok?
    ensures VisitAll(b, [t1, t2]) == Settle(Settle(b, t1).value, t2)
  {
    var times := [t1, t2];
    assert times[..1] == [t1] && times[..1][..0] == [];
    assert VisitAll(b, times[..1]) == Settle(b, t1);
  }

  /** A daily budget of 100 at 50% rollover, as `allocate_with_rollover` creates it. */
  const HALF_EXAMPLE: Budget := Budget(Address(1), 100, 0, Daily, 0, 0, true, 0, 0, 0, 5_000, false, 0, 0, Active)

  lemma HalfOf(x: nat)
    ensures BpsOf(2 * x, 5_000) == x
  {
    FloorOfMultiple(x, BPS);
  }

  /** Visited once in between it carries 75 into the third window, settled lazily 150. */
  lemma VisitsCanLoseCredit(b: Budget)
    requires b == HALF_EXAMPLE
    ensures VisitAll(b, [DAY, 2 * DAY]).Ok? && VisitAll(b, [DAY, 2 * DAY]).value.rolloverCredit == 75
    ensures Settle(b, 2 * DAY).Ok? && Settle(b, 2 * DAY).value.rolloverCredit == 150
  {
    HalfOf(50);
    HalfOf(75);
    DailySettles(b, 1, DAY, 50);
    var visited := b.(rolloverCredit := 50, windowStart := DAY);
    DailySettles(visited, 1, 2 * DAY, 75);
    DailySettles(b, 2, 2 * DAY, 150);
    VisitTwice(b, DAY, 2 * DAY);
  }

  /** A daily deficit budget of 100 with complete rollover, as `allocate_with_deficit` creates it. */
  const FULL_EXAMPLE: Budget := Budget(Address(1), 100, 0, Daily, 0, 0, true, 0, 0, 0, 10_000, true, 0, 0, Active)

  /** The same record after `spent` in its first window. */
  function FullSpent(spent: int): Budget { FULL_EXAMPLE.(spent := spent) }

  lemma FullOverspends(b: Budget, e: Event)
    requires b == FULL_EXAMPLE && e == Event(10, OpConsume(Address(1), 150))
    ensures IsAllocated(b) && Next(b, e) == FullSpent(150)
  {
    assert Allocate(Address(1), 100, Daily, true, 10_000, 0, true, 0, 0, 0) == Ok(b);
    assert Settle(b, 10) == Ok(b);
  }

  lemma FullDue(b: Budget, days: nat)
    requires b == FullSpent(150) && 1 <= days <= 2
    ensures WindowExpired(b, days * DAY) == Ok(true) && PeriodsDue(b, days * DAY) == days
  {
    FloorOfMultiple(days, DAY);
  }

  lemma FullSettles(b: Budget, days: nat, now: nat)
    requires b == FullSpent(150) && 1 <= days <= 2 && now == days * DAY
    ensures Settle(b, now) == Ok(b.(rolloverCredit := 0, deficit := 50, spent := 0, windowStart := now))
  {
    FullDue(b, days);
    assert CalculateRollover(b, now) == Ok(Rollover(-50, days, true));
    assert BookDeficit(0, 150, 100) == Ok(50);
  }

  /** It spends 150. Settled lazily after two windows it carries nothing; visited in between it
      carries 100, with the same deficit of 50, although rollover is complete. */
  lemma VisitsCanGainCredit(b: Budget)
    requires b == FullSpent(150)
    ensures VisitAll(b, [DAY, 2 * DAY]).Ok? && Settle(b, 2 * DAY).Ok?
    ensures VisitAll(b, [DAY, 2 * DAY]).value.rolloverCredit == 100 && Settle(b, 2 * DAY).value.rolloverCredit == 0
    ensures VisitAll(b, [DAY, 2 * DAY]).value.deficit == Settle(b, 2 * DAY).value.deficit == 50
  {
    FullSettles(b, 1, DAY);
    FullSettles(b, 2, 2 * DAY);
    var visited := b.(rolloverCredit := 0, deficit := 50, spent := 0, windowStart := DAY);
    FloorOfMultiple(100, BPS);
    DailySettles(visited, 1, 2 * DAY, 100);
    VisitTwice(b, DAY, 2 * DAY);
  }
}

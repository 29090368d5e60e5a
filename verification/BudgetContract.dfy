/** The budget contract as the source writes it: stored records loaded, changed step by
    step and written back. Every method is proved to commit exactly the record-level
    transition of `BudgetModel` (or the registry transition of `BudgetAssets`). */
module BudgetContract {
  import opened Common
  import opened Arith
  import B = BudgetModel
  import A = BudgetAssets

  type Store = map<string, B.Budget>

  /** `early` is the argument check made before the record is loaded. A failed call leaves
      the store alone; a successful one replaces exactly the record it names. */
  ghost predicate Commits(pre: Store, post: Store, id: string, early: Guard,
                          step: B.Budget -> Result<B.Settled>, r: Result<int>) {
    if early.Fail? then post == pre && r == Err(early.error)
    else if id !in pre then post == pre && r == Err(NotFound)
    else match step(pre[id])
      case Err(e) => post == pre && r == Err(e)
      case Ok(s) => post == pre[id := s.budget] && r == Ok(s.ret)
  }

  /** The same for the per-token records: the arguments are checked first, then the owner and
      lifecycle gates; only then does `o` decide. */
  ghost predicate CommitsAsset(pre: map<string, A.Registry>, post: map<string, A.Registry>, id: string, early: Guard,
                               gate: Guard, o: Result<A.Registry>, r: Result<int>) {
    if early.Fail? then post == pre && r == Err(early.error)
    else if gate.Fail? then post == pre && r == Err(gate.error)
    else match o
      case Err(e) => post == pre && r == Err(e)
      case Ok(reg) => post == pre[id := reg] && r == Ok(0)
  }

  /** The transition hook, as a sequence of updates to a loaded record. */
  method WindowTransition(stored: B.Budget, now: nat) returns (r: Result<B.Budget>)
    ensures r == B.Settle(stored, now)
  {
    var budget := stored;
    :- Require(!B.Expired(budget, now), BudgetExpired);
    var outcome :- B.CalculateRollover(budget, now);
    if !outcome.due { return Ok(budget); }
    var window := B.WindowOf(budget.period, budget.periodSeconds).value;
    var capacity := budget.limit + budget.rolloverCredit;
    var spent := budget.spent;
    if budget.allowDeficit && spent > capacity {
      budget := budget.(rolloverCredit := 0);
      var deficit :- B.BookDeficit(budget.deficit, spent, capacity);
      budget := budget.(deficit := deficit);
    } else {
      budget := budget.(rolloverCredit := outcome.carry);
    }
    budget := budget.(spent := 0);
    budget := budget.(windowStart := SaturateU64(budget.windowStart + SaturateU64(outcome.periods * window)));
    return Ok(budget);
  }

  class BudgetContract {
    var budgets: Store
    // Per-token records, grouped by budget.
    var assets: map<string, A.Registry>
    // The host's clock.
    var now: nat

    constructor (now: nat)
      ensures budgets == map[] && assets == map[] && this.now == now
    {
      budgets, assets, this.now := map[], map[], now;
    }

    function Registry(id: string): A.Registry
      reads this
    {
      if id in assets then assets[id] else map[]
    }

    method Tick(seconds: nat)
      modifies this`now
      ensures now == old(now) + seconds
    {
      now := now + seconds;
    }

    method Allocate(owner: Address, id: string, limit: int, period: B.Period, rolloverEnabled: bool, rolloverBps: int,
                    rolloverCap: int, allowDeficit: bool, startAt: nat, expiresAt: nat) returns (r: Result<int>)
      modifies this`budgets
      ensures id == "" ==> budgets == old(budgets) && r == Err(InvalidInput)
      ensures id != "" ==>
                match B.Allocate(owner, limit, period, rolloverEnabled, rolloverBps, rolloverCap, allowDeficit,
                                 startAt, expiresAt, now)
                case Err(e) => budgets == old(budgets) && r == Err(e)
                case Ok(b) =>
                  if id in old(budgets) then budgets == old(budgets) && r == Err(AlreadyExists)
                  else budgets == old(budgets)[id := b] && r == Ok(0)
    {
      if id == "" { return Err(InvalidInput); }
      var b :- B.Allocate(owner, limit, period, rolloverEnabled, rolloverBps, rolloverCap, allowDeficit,
                          startAt, expiresAt, now);
      :- Require(id !in budgets, AlreadyExists);
      budgets := budgets[id := b];
      return Ok(0);
    }

    method Consume(caller: Address, id: string, amount: int) returns (r: Result<int>)
      modifies this`budgets
      ensures var t := now;
              Commits(old(budgets), budgets, id, Require(amount > 0, InvalidAmount),
                      b => B.Consume(b, caller, t, amount), r)
    {
      if amount <= 0 { return Err(InvalidAmount); }
      :- Require(id in budgets, NotFound);
      var budget := budgets[id];
      :- B.RequireOwner(budget, caller);
      :- B.RequireActive(budget);
      :- B.RequireStarted(budget, now);
      var transition := WindowTransition(budget, now);
      budget :- transition;
      var capacity :- CheckedAdd(budget.limit, budget.rolloverCredit);
      var ceiling := capacity;
      if budget.allowDeficit && budget.deficit > 0 {
        ceiling :- CheckedSub(capacity, budget.deficit);
      }
      var newSpent :- CheckedAdd(budget.spent, amount);
      if newSpent > ceiling {
        if !(budget.allowDeficit && budget.deficit == 0) {
          var _ :- CheckedSub(ceiling, budget.spent);
          return Err(BudgetExceeded);
        }
        var overdraft :- CheckedSub(capacity, newSpent);
        budgets := budgets[id := budget.(spent := newSpent)];
        return Ok(overdraft);
      }
      var remaining :- CheckedSub(ceiling, newSpent);
      budgets := budgets[id := budget.(spent := newSpent)];
      return Ok(remaining);
    }

    method Release(caller: Address, id: string, amount: int) returns (r: Result<int>)
      modifies this`budgets
      ensures var t := now;
              Commits(old(budgets), budgets, id, Require(amount > 0, InvalidAmount),
                      b => B.Release(b, caller, t, amount), r)
    {
      if amount <= 0 { return Err(InvalidAmount); }
      :- Require(id in budgets, NotFound);
      var budget := budgets[id];
      :- B.RequireOwner(budget, caller);
      :- B.RequireActive(budget);
      var transition := WindowTransition(budget, now);
      budget :- transition;
      :- Require(amount <= budget.spent, InvalidAmount);
      var spent :- CheckedSub(budget.spent, amount);
      budget := budget.(spent := spent);
      var remaining :- B.EffectiveRemaining(budget);
      budgets := budgets[id := budget];
      return Ok(remaining);
    }

    method Remaining(id: string) returns (r: Result<int>)
      modifies this`budgets
      ensures var t := now; Commits(old(budgets), budgets, id, Pass, b => B.Remaining(b, t), r)
    {
      if id !in budgets { return Err(NotFound); }
      var budget := budgets[id];
      if now < budget.windowStart {
        assert budgets[id := budget] == budgets;
        return Ok(0);
      }
      var transition := WindowTransition(budget, now);
      if transition.Err? {
        assert budgets[id := budget] == budgets;
        return Ok(0);
      }
      budget := transition.value;
      var remaining :- B.EffectiveRemaining(budget);
      budgets := budgets[id := budget];
      return Ok(remaining);
    }

    method Reset(caller: Address, id: string) returns (r: Result<int>)
      modifies this`budgets
      ensures var t := now; Commits(old(budgets), budgets, id, Pass, b => B.Reset(b, caller, t), r)
    {
      if id !in budgets { return Err(NotFound); }
      var budget := budgets[id];
      :- B.RequireOwner(budget, caller);
      :- B.RequireNotArchived(budget);
      :- B.RequireStarted(budget, now);
      :- B.RequireNotExpired(budget, now);
      budget := budget.(spent := 0);
      budget := budget.(rolloverCredit := 0);
      budget := budget.(windowStart := now);
      budgets := budgets[id := budget];
      return Ok(0);
    }

    method Rollover(caller: Address, id: string) returns (r: Result<int>)
      modifies this`budgets
      ensures var t := now; Commits(old(budgets), budgets, id, Pass, b => B.ForceRollover(b, caller, t), r)
    {
      if id !in budgets { return Err(NotFound); }
      var budget := budgets[id];
      :- B.RequireOwner(budget, caller);
      :- B.RequireNotArchived(budget);
      var transition := WindowTransition(budget, now);
      budget :- transition;
      budgets := budgets[id := budget];
      return Ok(0);
    }

    method SetLimit(caller: Address, id: string, newLimit: int) returns (r: Result<int>)
      modifies this`budgets
      ensures var t := now;
              Commits(old(budgets), budgets, id, Require(newLimit >= 0, InvalidAmount),
                      b => B.SetLimit(b, caller, t, newLimit), r)
    {
      if newLimit < 0 { return Err(InvalidAmount); }
      :- Require(id in budgets, NotFound);
      var budget := budgets[id];
      :- B.RequireOwner(budget, caller);
      :- B.RequireNotArchived(budget);
      var transition := WindowTransition(budget, now);
      budget :- transition;
      :- Require(newLimit >= budget.spent, InvalidInput);
      budgets := budgets[id := budget.(limit := newLimit)];
      return Ok(0);
    }

    method SetRolloverConfig(caller: Address, id: string, rolloverEnabled: bool, rolloverBps: int, maxCap: int)
      returns (r: Result<int>)
      modifies this`budgets
      ensures var t := now;
              Commits(old(budgets), budgets, id, A.PolicyArguments(rolloverBps, maxCap),
                      b => B.SetRolloverConfig(b, caller, t, rolloverEnabled, rolloverBps, maxCap), r)
    {
      var guard := A.PolicyArguments(rolloverBps, maxCap);
      :- guard;
      :- Require(id in budgets, NotFound);
      var budget := budgets[id];
      :- B.RequireOwner(budget, caller);
      :- B.RequireActive(budget);
      :- B.RequireNotExpired(budget, now);
      var transition := WindowTransition(budget, now);
      budget :- transition;
      budget := budget.(rolloverEnabled := rolloverEnabled, rolloverBps := rolloverBps, rolloverCap := maxCap);
      budget :- B.Reclamp(budget);
      budgets := budgets[id := budget];
      return Ok(0);
    }

    method SetRecurrence(caller: Address, id: string, period: B.Period, periodSeconds: nat, rolloverEnabled: bool,
                         rolloverCap: int, rolloverMaxBps: int) returns (r: Result<int>)
      modifies this`budgets
      ensures var t := now;
              Commits(old(budgets), budgets, id,
                      RecurrenceArguments(period, periodSeconds, rolloverCap, rolloverMaxBps),
                      b => B.SetRecurrence(b, caller, t, period, periodSeconds, rolloverEnabled, rolloverCap,
                                           rolloverMaxBps),
                      r)
    {
      var guard := RecurrenceArguments(period, periodSeconds, rolloverCap, rolloverMaxBps);
      :- guard;
      :- Require(id in budgets, NotFound);
      var budget := budgets[id];
      :- B.RequireOwner(budget, caller);
      :- B.RequireActive(budget);
      var future := now < budget.windowStart;
      if future {
        :- B.RequireNotExpired(budget, now);
      } else {
        var transition := WindowTransition(budget, now);
        budget :- transition;
      }
      var bps := if !rolloverEnabled then 0 else if budget.rolloverBps == 0 then BPS else budget.rolloverBps;
      budget := budget.(period := period, periodSeconds := if period.Custom? then periodSeconds else 0,
                        rolloverEnabled := rolloverEnabled, rolloverCap := rolloverCap,
                        rolloverMaxBps := rolloverMaxBps, rolloverBps := bps);
      budget :- B.Reclamp(budget);
      if !future { budget := budget.(windowStart := now); }
      budgets := budgets[id := budget];
      return Ok(0);
    }

    method Freeze(caller: Address, id: string) returns (r: Result<int>)
      modifies this`budgets
      ensures Commits(old(budgets), budgets, id, Pass, b => B.Freeze(b, caller), r)
    {
      if id !in budgets { return Err(NotFound); }
      :- B.RequireOwner(budgets[id], caller);
      :- B.RequireNotArchived(budgets[id]);
      budgets := budgets[id := budgets[id].(status := B.Frozen)];
      return Ok(0);
    }

    method Unfreeze(caller: Address, id: string) returns (r: Result<int>)
      modifies this`budgets
      ensures Commits(old(budgets), budgets, id, Pass, b => B.Unfreeze(b, caller), r)
    {
      if id !in budgets { return Err(NotFound); }
      :- B.RequireOwner(budgets[id], caller);
      :- Require(budgets[id].status.Frozen?, InvalidState);
      budgets := budgets[id := budgets[id].(status := B.Active)];
      return Ok(0);
    }

    method Archive(caller: Address, id: string) returns (r: Result<int>)
      modifies this`budgets
      ensures Commits(old(budgets), budgets, id, Pass, b => B.Archive(b, caller), r)
    {
      if id !in budgets { return Err(NotFound); }
      :- B.RequireOwner(budgets[id], caller);
      budgets := budgets[id := budgets[id].(status := B.Archived)];
      return Ok(0);
    }

    method TransferAllocation(caller: Address, fromId: string, toId: string, amount: int) returns (r: Result<int>)
      modifies this`budgets
      ensures amount <= 0 ==> budgets == old(budgets) && r == Err(InvalidAmount)
      ensures amount > 0 && fromId == toId ==> budgets == old(budgets) && r == Err(InvalidInput)
      ensures amount > 0 && fromId != toId && fromId !in old(budgets) ==> budgets == old(budgets) && r == Err(NotFound)
      ensures amount > 0 && fromId != toId && fromId in old(budgets) && toId !in old(budgets) ==>
                && budgets == old(budgets)
                && r == Err(if old(budgets)[fromId].owner == caller then NotFound else Unauthorized)
      ensures amount > 0 && fromId != toId && fromId in old(budgets) && toId in old(budgets) ==>
                match B.TransferAllocation(old(budgets)[fromId], old(budgets)[toId], caller, now, amount)
                case Err(e) => budgets == old(budgets) && r == Err(e)
                case Ok(pair) => budgets == old(budgets)[fromId := pair.0][toId := pair.1] && r == Ok(0)
    {
      if amount <= 0 { return Err(InvalidAmount); }
      :- Require(fromId != toId, InvalidInput);
      :- Require(fromId in budgets, NotFound);
      var from := budgets[fromId];
      :- B.RequireOwner(from, caller);
      :- Require(toId in budgets, NotFound);
      var to := budgets[toId];
      :- B.RequireOwner(to, caller);
      :- B.RequireActive(from);
      :- B.RequireActive(to);
      :- B.RequireNotExpired(from, now);
      :- B.RequireNotExpired(to, now);
      var available :- CheckedSub(from.limit, from.spent);
      :- Require(amount <= available, BudgetExceeded);
      var less :- CheckedSub(from.limit, amount);
      var more :- CheckedAdd(to.limit, amount);
      budgets := budgets[fromId := from.(limit := less)];
      budgets := budgets[toId := to.(limit := more)];
      return Ok(0);
    }

    // ----- per-token allowances -----

    /** The owner and lifecycle gates in front of every token entrypoint. */
    function AssetGate(caller: Address, id: string, spending: bool): Guard
      reads this
    {
      if id !in budgets then Fail(NotFound)
      else
        var b := budgets[id];
        if B.RequireOwner(b, caller).Fail? then B.RequireOwner(b, caller)
        else if B.RequireActive(b).Fail? then B.RequireActive(b)
        else if spending && B.RequireStarted(b, now).Fail? then B.RequireStarted(b, now)
        else B.RequireNotExpired(b, now)
    }

    method SetBudgetLimit(caller: Address, id: string, token: Address, limit: int, windowSeconds: nat,
                          rolloverEnabled: bool, rolloverBps: int, maxCap: int) returns (r: Result<int>)
      modifies this`assets
      ensures var early := if limit < 0 then Fail(InvalidAmount) else A.PolicyArguments(rolloverBps, maxCap);
              var start := if id in budgets then Max(budgets[id].windowStart, now) else 0;
              CommitsAsset(old(assets), assets, id, early, old(AssetGate(caller, id, false)),
                           Ok(A.Register(old(Registry(id)), token, limit, windowSeconds, start, rolloverEnabled,
                                         rolloverBps, maxCap)), r)
    {
      if limit < 0 { return Err(InvalidAmount); }
      :- A.PolicyArguments(rolloverBps, maxCap);
      :- AssetGate(caller, id, false);
      var start := Max(budgets[id].windowStart, now);
      var entry := A.AssetBudget(limit, 0, windowSeconds, start, rolloverEnabled, 0, rolloverBps, maxCap);
      assets := assets[id := Registry(id)[token := entry]];
      return Ok(0);
    }

    method SetAssetRolloverConfig(caller: Address, id: string, token: Address, rolloverEnabled: bool,
                                  rolloverBps: int, maxCap: int) returns (r: Result<int>)
      modifies this`assets
      ensures CommitsAsset(old(assets), assets, id, A.PolicyArguments(rolloverBps, maxCap),
                           old(AssetGate(caller, id, false)),
                           A.Configure(old(Registry(id)), now, token, rolloverEnabled, rolloverBps, maxCap), r)
    {
      var early := A.PolicyArguments(rolloverBps, maxCap);
      :- early;
      :- AssetGate(caller, id, false);
      :- Require(token in Registry(id), AssetNotAuthorized);
      var entry := A.SettleAsset(Registry(id)[token], now);
      entry := entry.(rolloverEnabled := rolloverEnabled, rolloverBps := rolloverBps, maxRolloverCap := maxCap);
      if !rolloverEnabled {
        entry := entry.(rolloverCredit := 0);
      } else if maxCap > 0 && entry.rolloverCredit > maxCap {
        entry := entry.(rolloverCredit := maxCap);
      }
      assets := assets[id := Registry(id)[token := entry]];
      return Ok(0);
    }

    method CheckAndRecordSpend(caller: Address, id: string, spend: A.Spend) returns (r: Result<int>)
      modifies this`assets
      ensures CommitsAsset(old(assets), assets, id, Require(spend.amount > 0, InvalidAmount),
                           old(AssetGate(caller, id, true)), A.RecordSpend(old(Registry(id)), now, spend), r)
    {
      if spend.amount <= 0 { return Err(InvalidAmount); }
      :- AssetGate(caller, id, true);
      :- Require(spend.token in Registry(id), AssetNotAuthorized);
      var entry := A.SettleAsset(Registry(id)[spend.token], now);
      var capacity := entry.limit;
      if entry.rolloverEnabled {
        capacity :- CheckedAdd(entry.limit, entry.rolloverCredit);
      }
      var newSpent :- CheckedAdd(entry.spent, spend.amount);
      :- Require(newSpent <= capacity, BudgetExceeded);
      entry := entry.(spent := newSpent);
      assets := assets[id := Registry(id)[spend.token := entry]];
      return Ok(0);
    }

    method CheckAndRecordBatchSpend(caller: Address, id: string, spends: seq<A.Spend>) returns (r: Result<int>)
      modifies this`assets
      ensures CommitsAsset(old(assets), assets, id, Require(0 < |spends| <= A.MAX_BATCH_TOKENS, InvalidInput),
                           old(AssetGate(caller, id, true)), A.RecordBatch(old(Registry(id)), now, spends), r)
    {
      if !(0 < |spends| <= A.MAX_BATCH_TOKENS) { return Err(InvalidInput); }
      :- AssetGate(caller, id, true);
      var simulated := A.SimulateBatch(Registry(id), now, spends);
      var settled :- simulated;
      A.SimulatedLength(Registry(id), now, spends, |spends|);
      var written := A.WriteBatch(Registry(id), spends, settled);
      assets := assets[id := written];
      return Ok(0);
    }
  }

  function RecurrenceArguments(period: B.Period, periodSeconds: nat, rolloverCap: int, rolloverMaxBps: int): Guard {
    if rolloverCap < 0 || rolloverMaxBps < 0 then Fail(InvalidAmount)
    else if rolloverMaxBps >= BPS then Fail(InvalidInput)
    else Require(!period.Custom? || periodSeconds != 0, InvalidInput)
  }

  /** The argument checks of a new recurrence, with each error naming a failed one. */
  lemma RecurrenceArgumentsDecided(period: B.Period, periodSeconds: nat, rolloverCap: int, rolloverMaxBps: int)
    ensures match RecurrenceArguments(period, periodSeconds, rolloverCap, rolloverMaxBps)
            case Pass => rolloverCap >= 0 && 0 <= rolloverMaxBps < 10_000 && (period.Custom? ==> periodSeconds > 0)
            case Fail(e) =>
              || (e == InvalidAmount && (rolloverCap < 0 || rolloverMaxBps < 0))
              || (e == InvalidInput && (rolloverMaxBps >= 10_000 || (period.Custom? && periodSeconds == 0)))
  {
  }

  /** The gates in front of the token entrypoints: they pass exactly for the owner of a stored,
      active, unexpired budget, and for a spend only once it has started. */
  lemma AssetGateDecided(c: BudgetContract, caller: Address, id: string, spending: bool)
    ensures match c.AssetGate(caller, id, spending)
            case Pass =>
              && id in c.budgets && c.budgets[id].owner == caller && c.budgets[id].status.Active?
              && (spending ==> c.now >= c.budgets[id].windowStart)
              && (c.budgets[id].expiresAt == 0 || c.now < c.budgets[id].expiresAt)
            case Fail(e) =>
              || (e == NotFound && id !in c.budgets)
              || (id in c.budgets && var b := c.budgets[id];
                  || (e == Unauthorized && caller != b.owner)
                  || (e == BudgetFrozen && (b.status.Frozen? || b.status.Paused?))
                  || (e == BudgetArchived && b.status.Archived?)
                  || (e == BudgetNotActive && spending && c.now < b.windowStart)
                  || (e == BudgetExpired && b.expiresAt != 0 && c.now >= b.expiresAt))
  {
  }
}

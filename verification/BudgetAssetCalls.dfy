/** When a token entrypoint accepts a registration, a policy, a spend or a batch, and what it
    then stores, on every registry a run can reach. */
module BudgetAssetCalls {
  import opened Common
  import opened Arith
  import opened BudgetAssets

  /** The token record with its lapsed windows settled: one window's carry, whatever lapsed. */
  ghost function SettledAsset(a: AssetBudget, now: nat): AssetBudget
    requires AssetOk(a)
  {
    if a.windowSeconds == 0 || now < a.windowStart + a.windowSeconds then a
    else
      var capacity := if a.limit + a.rolloverCredit <= I128_MAX then a.limit + a.rolloverCredit else a.limit;
      var credit := Capped(BpsOf(Max(capacity - a.spent, 0), a.rolloverBps), a.maxRolloverCap);
      a.(spent := 0,
         rolloverCredit := if a.rolloverEnabled then credit else 0,
         windowStart := a.windowStart + a.windowSeconds * ((now - a.windowStart) / a.windowSeconds))
  }

  lemma SettledAssetIs(a: AssetBudget, now: nat)
    requires AssetOk(a) && now <= U64_MAX
    ensures SettleAsset(a, now) == SettledAsset(a, now) && AssetOk(SettledAsset(a, now))
  {
    SettleKeepsAssetOk(a, now);
    AssetSettleMeaning(a, now);
    if a.windowSeconds > 0 && a.windowStart <= now { AssetAnchor(a, now); }
    var capacity := if a.limit + a.rolloverCredit <= I128_MAX then a.limit + a.rolloverCredit else a.limit;
    BudgetRolloverExact(Max(capacity - a.spent, 0), a.rolloverBps, a.maxRolloverCap);
  }

  /** One leg is refused with `e` when `credit` counts on top of the limit. */
  ghost predicate LegRefused(s: AssetBudget, amount: int, credit: int, e: Error) {
    || (e == Overflow && (s.limit + credit > I128_MAX || s.spent + amount > I128_MAX))
    || (e == BudgetExceeded && s.spent + amount > s.limit + credit)
  }

  /** The refusals a single spend meets: the token's credit counts. */
  ghost predicate SpendRefused(reg: Registry, now: nat, leg: Spend, e: Error)
    requires RegistryOk(reg)
  {
    || (e == InvalidAmount && leg.amount <= 0)
    || (e == AssetNotAuthorized && leg.token !in reg)
    || (leg.token in reg && var s := SettledAsset(reg[leg.token], now); LegRefused(s, leg.amount, s.rolloverCredit, e))
  }

  /** The refusals a leg of a batch meets: its limit alone counts. */
  ghost predicate BatchLegRefused(reg: Registry, now: nat, leg: Spend, e: Error)
    requires RegistryOk(reg)
  {
    || (e == InvalidAmount && leg.amount <= 0)
    || (e == AssetNotAuthorized && leg.token !in reg)
    || (leg.token in reg && LegRefused(SettledAsset(reg[leg.token], now), leg.amount, 0, e))
  }

  ghost predicate PolicyRefused(bps: int, cap: int, e: Error) {
    (e == InvalidAmount && (bps < 0 || cap < 0)) || (e == InvalidInput && bps > 10_000)
  }

  ghost predicate Refused(reg: Registry, ev: AssetEvent, e: Error)
    requires RegistryOk(reg)
  {
    match ev.op
    case OpRegister(_, limit, _, _, _, bps, cap) => (e == InvalidAmount && limit < 0) || PolicyRefused(bps, cap, e)
    case OpConfigure(token, _, bps, cap) => PolicyRefused(bps, cap, e) || (e == AssetNotAuthorized && token !in reg)
    case OpSpend(spend) => SpendRefused(reg, ev.at, spend, e)
    case OpBatch(spends) =>
      || (e == InvalidInput && (spends == [] || |spends| > 16 || !DistinctTokens(spends)))
      || exists k :: 0 <= k < |spends| && BatchLegRefused(reg, ev.at, spends[k], e)
  }

  /** `after` is `reg` with the leg's amount added to its settled record. */
  ghost predicate Spent(reg: Registry, now: nat, leg: Spend, after: AssetBudget)
    requires RegistryOk(reg)
  {
    leg.token in reg &&
    var s := SettledAsset(reg[leg.token], now);
    after == s.(spent := s.spent + leg.amount)
  }

  ghost predicate Accepted(reg: Registry, ev: AssetEvent, t: Registry)
    requires RegistryOk(reg)
  {
    match ev.op
    case OpRegister(token, limit, windowSeconds, start, enabled, bps, cap) =>
      t == reg[token := AssetBudget(limit, 0, windowSeconds, start, enabled, 0, bps, cap)]
    case OpConfigure(token, enabled, bps, cap) =>
      token in reg &&
      var s := SettledAsset(reg[token], ev.at);
      t == reg[token := s.(rolloverEnabled := enabled, rolloverBps := bps, maxRolloverCap := cap,
                           rolloverCredit := if !enabled then 0
                                             else if cap > 0 then Min(s.rolloverCredit, cap)
                                             else s.rolloverCredit)]
    case OpSpend(spend) =>
      spend.token in t && Spent(reg, ev.at, spend, t[spend.token]) && t == reg[spend.token := t[spend.token]]
    case OpBatch(spends) =>
      && t.Keys == reg.Keys
      && (forall k :: 0 <= k < |spends| ==>
            spends[k].token in t && Spent(reg, ev.at, spends[k], t[spends[k].token]))
      && (forall a :: a in reg && Untouched(spends, |spends|, a) ==> t[a] == reg[a])
  }

  ghost predicate Decided(reg: Registry, ev: AssetEvent)
    requires RegistryOk(reg)
  {
    match ExecAsset(reg, ev)
    case Err(e) => Refused(reg, ev, e)
    case Ok(t) => (forall e :: !Refused(reg, ev, e)) && Accepted(reg, ev, t)
  }

  lemma SpendAssetDecided(a: AssetBudget, now: nat, amount: int)
    requires AssetOk(a) && now <= U64_MAX && amount > 0
    ensures var s := SettledAsset(a, now);
            match SpendAsset(a, now, amount)
            case Err(e) => LegRefused(s, amount, s.rolloverCredit, e)
            case Ok(t) => t == s.(spent := s.spent + amount) && forall e :: !LegRefused(s, amount, s.rolloverCredit, e)
  {
    SettledAssetIs(a, now);
  }

  lemma BatchLegDecided(a: AssetBudget, now: nat, amount: int)
    requires AssetOk(a) && now <= U64_MAX && amount > 0
    ensures var s := SettledAsset(a, now);
            match SpendAssetInBatch(a, now, amount)
            case Err(e) => LegRefused(s, amount, 0, e)
            case Ok(t) => t == s.(spent := s.spent + amount) && forall e :: !LegRefused(s, amount, 0, e)
  {
    SettledAssetIs(a, now);
  }

  lemma SpendDecided(reg: Registry, ev: AssetEvent)
    requires RegistryOk(reg) && ev.at <= U64_MAX && ev.op.OpSpend?
    ensures Decided(reg, ev)
  {
    var leg := ev.op.spend;
    if leg.amount > 0 && leg.token in reg { SpendAssetDecided(reg[leg.token], ev.at, leg.amount); }
  }

  lemma ConfigureDecided(reg: Registry, ev: AssetEvent)
    requires RegistryOk(reg) && ev.at <= U64_MAX && ev.op.OpConfigure?
    ensures Decided(reg, ev)
  {
    if ev.op.token in reg { SettledAssetIs(reg[ev.op.token], ev.at); }
  }

  /** A leg passes the first pass exactly when no refusal applies to it. */
  lemma LegPasses(reg: Registry, now: nat, leg: Spend)
    requires RegistryOk(reg) && now <= U64_MAX
    ensures BatchLegOk(reg, now, leg) <==> forall e :: !BatchLegRefused(reg, now, leg, e)
    ensures BatchLegOk(reg, now, leg) ==> Spent(reg, now, leg, SpendAssetInBatch(reg[leg.token], now, leg.amount).value)
  {
    if leg.amount <= 0 {
      assert BatchLegRefused(reg, now, leg, InvalidAmount);
    } else if leg.token !in reg {
      assert BatchLegRefused(reg, now, leg, AssetNotAuthorized);
    } else {
      BatchLegDecided(reg[leg.token], now, leg.amount);
      match SpendAssetInBatch(reg[leg.token], now, leg.amount)
      case Err(e) => assert BatchLegRefused(reg, now, leg, e);
      case Ok(_) =>
    }
  }

  /** The first pass fails with the refusal of one of its legs, or for a repeated token. */
  lemma {:induction false} SimulationRefusal(reg: Registry, now: nat, spends: seq<Spend>, n: nat)
    requires RegistryOk(reg) && now <= U64_MAX && n <= |spends| && SimulateFirst(reg, now, spends, n).Err?
    ensures var e := SimulateFirst(reg, now, spends, n).error;
            || (e == InvalidInput && !DistinctFirst(spends, n))
            || exists k :: 0 <= k < n && BatchLegRefused(reg, now, spends[k], e)
  {
    var leg := spends[n - 1];
    if SimulateFirst(reg, now, spends, n - 1).Err? {
      SimulationRefusal(reg, now, spends, n - 1);
    } else if leg.amount > 0 && Untouched(spends, n - 1, leg.token) && leg.token in reg {
      BatchLegDecided(reg[leg.token], now, leg.amount);
      assert BatchLegRefused(reg, now, leg, SimulateFirst(reg, now, spends, n).error);
    } else {
      assert leg.amount <= 0 ==> BatchLegRefused(reg, now, leg, InvalidAmount);
      assert leg.token !in reg ==> BatchLegRefused(reg, now, leg, AssetNotAuthorized);
    }
  }

  /** When the first pass succeeds no refusal applies to any leg. */
  lemma LegsPass(reg: Registry, now: nat, spends: seq<Spend>)
    requires RegistryOk(reg) && now <= U64_MAX && SimulateFirst(reg, now, spends, |spends|).Ok?
    ensures var settled := SimulateFirst(reg, now, spends, |spends|).value;
            && DistinctTokens(spends) && |settled| == |spends|
            && (forall k :: 0 <= k < |spends| ==> Spent(reg, now, spends[k], settled[k]))
            && (forall k, e :: 0 <= k < |spends| ==> !BatchLegRefused(reg, now, spends[k], e))
  {
    SimulationMeaning(reg, now, spends, |spends|);
    var settled := SimulateFirst(reg, now, spends, |spends|).value;
    forall k | 0 <= k < |spends|
      ensures Spent(reg, now, spends[k], settled[k]) && forall e :: !BatchLegRefused(reg, now, spends[k], e)
    {
      LegPasses(reg, now, spends[k]);
    }
  }

  lemma BatchStores(reg: Registry, ev: AssetEvent, settled: seq<AssetBudget>)
    requires RegistryOk(reg) && ev.op.OpBatch? && DistinctTokens(ev.op.spends) && |settled| == |ev.op.spends|
    requires forall k :: 0 <= k < |settled| ==> Spent(reg, ev.at, ev.op.spends[k], settled[k])
    ensures Accepted(reg, ev, WriteFirst(reg, ev.op.spends, settled, |settled|))
  {
    WritesMeaning(reg, ev.op.spends, settled, |settled|);
  }

  lemma BatchDecided(reg: Registry, ev: AssetEvent)
    requires RegistryOk(reg) && ev.at <= U64_MAX && ev.op.OpBatch?
    ensures Decided(reg, ev)
  {
    var spends := ev.op.spends;
    match SimulateFirst(reg, ev.at, spends, |spends|)
    case Err(_) => SimulationRefusal(reg, ev.at, spends, |spends|);
    case Ok(settled) =>
      LegsPass(reg, ev.at, spends);
      BatchStores(reg, ev, settled);
  }

  /** On every registry a run can reach, every token call fails exactly when a refusal applies,
      with one that does, and otherwise stores what it should. */
  lemma CallDecided(events: seq<AssetEvent>, ev: AssetEvent)
    requires forall e :: e in events && e.op.OpRegister? ==> e.op.start <= U64_MAX
    requires ev.at <= U64_MAX
    ensures RegistryOk(RunAssets(map[], events)) && Decided(RunAssets(map[], events), ev)
  {
    RegistryStaysOk(events);
    var reg := RunAssets(map[], events);
    match ev.op
    case OpRegister(_, _, _, _, _, _, _) =>
    case OpConfigure(_, _, _, _) => ConfigureDecided(reg, ev);
    case OpSpend(_) => SpendDecided(reg, ev);
    case OpBatch(_) => BatchDecided(reg, ev);
  }
}

/** Per-token allowances of a budget: lazily settled windows, single spends and the atomic
    multi-token batch (contracts/budget/src/lib.rs). */
module BudgetAssets {
  import opened Common
  import opened Arith

  const MAX_BATCH_TOKENS: nat := 16

  datatype AssetBudget = AssetBudget(
    limit: int,
    spent: int,
    windowSeconds: nat,
    windowStart: nat,
    rolloverEnabled: bool,
    rolloverCredit: int,
    rolloverBps: int,
    maxRolloverCap: int)

  datatype Spend = Spend(token: Address, amount: int)

  /** The registered per-token records of one budget. */
  type Registry = map<Address, AssetBudget>

  function CarriedAssetCredit(a: AssetBudget): int {
    var capacity := if InI128(a.limit + a.rolloverCredit) then a.limit + a.rolloverCredit else a.limit;
    var unspent := Max(SaturateI128(capacity - a.spent), 0);
    match BudgetRollover(unspent, a.rolloverBps, a.maxRolloverCap)
    case Ok(credit) => credit
    case Err(_) => 0
  }

  /** `asset_window_transition`. */
  function SettleAsset(a: AssetBudget, now: nat): AssetBudget {
    var elapsed := if now >= a.windowStart then now - a.windowStart else 0;
    if a.windowSeconds == 0 || elapsed < a.windowSeconds then a
    else
      var periods := elapsed / a.windowSeconds;
      a.(rolloverCredit := if a.rolloverEnabled then CarriedAssetCredit(a) else 0,
         spent := 0,
         windowStart := SaturateU64(a.windowStart + SaturateU64(periods * a.windowSeconds)))
  }

  /** One leg checked alone: rollover credit counts. */
  function SpendAsset(a: AssetBudget, now: nat, amount: int): Result<AssetBudget> {
    var s := SettleAsset(a, now);
    var capacity :- if s.rolloverEnabled then CheckedAdd(s.limit, s.rolloverCredit) else Ok(s.limit);
    var newSpent :- CheckedAdd(s.spent, amount);
    :- Require(newSpent <= capacity, BudgetExceeded);
    Ok(s.(spent := newSpent))
  }

  /** One leg inside a batch: the base limit alone counts. */
  function SpendAssetInBatch(a: AssetBudget, now: nat, amount: int): Result<AssetBudget> {
    var s := SettleAsset(a, now);
    var newSpent :- CheckedAdd(s.spent, amount);
    :- Require(newSpent <= s.limit, BudgetExceeded);
    Ok(s.(spent := newSpent))
  }

  /** Registration replaces the token's record: nothing spent, no credit. */
  function Register(reg: Registry, token: Address, limit: int, windowSeconds: nat, start: nat, rolloverEnabled: bool,
                    rolloverBps: int, maxCap: int): Registry {
    reg[token := AssetBudget(limit, 0, windowSeconds, start, rolloverEnabled, 0, rolloverBps, maxCap)]
  }

  /** A new rollover policy for a registered token: settle, then clamp or drop the credit. */
  function Configure(reg: Registry, now: nat, token: Address, rolloverEnabled: bool, rolloverBps: int,
                     maxCap: int): Result<Registry> {
    if token !in reg then Err(AssetNotAuthorized)
    else
      var s := SettleAsset(reg[token], now);
      var credit := if !rolloverEnabled then 0
                    else if maxCap > 0 && s.rolloverCredit > maxCap then maxCap
                    else s.rolloverCredit;
      Ok(reg[token := s.(rolloverEnabled := rolloverEnabled, rolloverBps := rolloverBps, maxRolloverCap := maxCap,
                         rolloverCredit := credit)])
  }

  /** `check_and_record_spend` on the registry, past the owner and lifecycle gates. */
  function RecordSpend(reg: Registry, now: nat, spend: Spend): Result<Registry> {
    if spend.amount <= 0 then Err(InvalidAmount) else
    :- Require(spend.token in reg, AssetNotAuthorized);
    var a :- SpendAsset(reg[spend.token], now, spend.amount);
    Ok(reg[spend.token := a])
  }

  /** None of the first `n` legs is about token `t`. */
  predicate Untouched(spends: seq<Spend>, n: nat, t: Address)
    requires n <= |spends|
  {
    forall k :: 0 <= k < n ==> spends[k].token != t
  }

  /** First pass: simulate the legs without storing any spend. */
  function SimulateFirst(reg: Registry, now: nat, spends: seq<Spend>, n: nat): Result<seq<AssetBudget>>
    requires n <= |spends|
  {
    if n == 0 then Ok([])
    else
      var done :- SimulateFirst(reg, now, spends, n - 1);
      var spend := spends[n - 1];
      :- Require(spend.amount > 0, InvalidAmount);
      :- Require(Untouched(spends, n - 1, spend.token), InvalidInput);
      :- Require(spend.token in reg, AssetNotAuthorized);
      var a :- SpendAssetInBatch(reg[spend.token], now, spend.amount);
      Ok(done + [a])
  }

  /** Second pass: store every simulated leg. */
  function WriteFirst(reg: Registry, spends: seq<Spend>, settled: seq<AssetBudget>, n: nat): Registry
    requires n <= |spends| && n <= |settled|
  {
    if n == 0 then reg
    else WriteFirst(reg, spends, settled, n - 1)[spends[n - 1].token := settled[n - 1]]
  }

  lemma SimulatedLength(reg: Registry, now: nat, spends: seq<Spend>, n: nat)
    requires n <= |spends|
    ensures SimulateFirst(reg, now, spends, n).Ok? ==> |SimulateFirst(reg, now, spends, n).value| == n
  {
  }

  /** `check_and_record_batch_spend` on the registry, past the owner and lifecycle gates. */
  function RecordBatch(reg: Registry, now: nat, spends: seq<Spend>): Result<Registry> {
    if !(0 < |spends| <= MAX_BATCH_TOKENS) then Err(InvalidInput) else
    var settled :- SimulateFirst(reg, now, spends, |spends|);
    SimulatedLength(reg, now, spends, |spends|);
    Ok(WriteFirst(reg, spends, settled, |spends|))
  }

  /** The first `n` legs as separate calls, in the given order. */
  function RecordFirst(reg: Registry, now: nat, spends: seq<Spend>, n: nat): Result<Registry>
    requires n <= |spends|
  {
    if n == 0 then Ok(reg)
    else
      var before :- RecordFirst(reg, now, spends, n - 1);
      RecordSpend(before, now, spends[n - 1])
  }

  function RecordEach(reg: Registry, now: nat, spends: seq<Spend>): Result<Registry> {
    RecordFirst(reg, now, spends, |spends|)
  }

  method SimulateBatch(reg: Registry, now: nat, spends: seq<Spend>) returns (r: Result<seq<AssetBudget>>)
    ensures r == SimulateFirst(reg, now, spends, |spends|)
  {
    var settled := [];
    for i := 0 to |spends|
      invariant SimulateFirst(reg, now, spends, i) == Ok(settled)
    {
      ghost var next := SimulateFirst(reg, now, spends, i + 1);
      assert next.Err? ==> SimulateFirst(reg, now, spends, |spends|) == next by {
        if next.Err? { SimulationFailureIsFinal(reg, now, spends, i + 1, |spends|); }
      }
      var spend := spends[i];
      :- Require(spend.amount > 0, InvalidAmount);
      for j := 0 to i
        invariant forall k :: 0 <= k < j ==> spends[k].token != spend.token
      {
        if spends[j].token == spend.token {
          assert !Untouched(spends, i, spend.token);
          return Err(InvalidInput);
        }
      }
      :- Require(spend.token in reg, AssetNotAuthorized);
      var a :- SpendAssetInBatch(reg[spend.token], now, spend.amount);
      settled := settled + [a];
    }
    return Ok(settled);
  }

  lemma SimulationFailureIsFinal(reg: Registry, now: nat, spends: seq<Spend>, m: nat, n: nat)
    requires m <= n <= |spends| && SimulateFirst(reg, now, spends, m).Err?
    ensures SimulateFirst(reg, now, spends, n) == SimulateFirst(reg, now, spends, m)
    decreases n - m
  {
    if m < n { SimulationFailureIsFinal(reg, now, spends, m, n - 1); }
  }

  method WriteBatch(reg: Registry, spends: seq<Spend>, settled: seq<AssetBudget>) returns (r: Registry)
    requires |settled| == |spends|
    ensures r == WriteFirst(reg, spends, settled, |spends|)
  {
    r := reg;
    for i := 0 to |spends|
      invariant r == WriteFirst(reg, spends, settled, i)
    {
      r := r[spends[i].token := settled[i]];
    }
  }

  // ----- records in range -----

  ghost predicate AssetOk(a: AssetBudget) {
    && 0 <= a.limit <= I128_MAX && 0 <= a.spent <= I128_MAX
    && 0 <= a.rolloverCredit <= I128_MAX
    && 0 <= a.rolloverBps <= BPS && 0 <= a.maxRolloverCap <= I128_MAX
    && a.windowStart <= U64_MAX
    && (a.maxRolloverCap > 0 ==> a.rolloverCredit <= a.maxRolloverCap)
    && (!a.rolloverEnabled || a.windowSeconds == 0 ==> a.rolloverCredit == 0)
  }

  ghost predicate RegistryOk(reg: Registry) { forall t :: t in reg ==> AssetOk(reg[t]) }

  /** A settled token record stays in range, its credit within the token's own cap. */
  lemma SettleKeepsAssetOk(a: AssetBudget, now: nat)
    requires AssetOk(a)
    ensures AssetOk(SettleAsset(a, now))
  {
    var capacity := if InI128(a.limit + a.rolloverCredit) then a.limit + a.rolloverCredit else a.limit;
    var unspent := Max(SaturateI128(capacity - a.spent), 0);
    BudgetRolloverExact(unspent, a.rolloverBps, a.maxRolloverCap);
    BpsAtMostWhole(unspent, a.rolloverBps);
  }

  /** Settling a token window lands now inside it, moves the anchor by whole windows and is idempotent. */
  lemma AssetSettlementIsAnchored(a: AssetBudget, now: nat)
    requires AssetOk(a) && a.windowSeconds > 0 && a.windowStart <= now <= U64_MAX
    ensures var s := SettleAsset(a, now);
            && s.windowStart <= now < s.windowStart + a.windowSeconds
            && s.windowStart == a.windowStart + a.windowSeconds * ((now - a.windowStart) / a.windowSeconds)
            && SettleAsset(s, now) == s
  {
    var p := (now - a.windowStart) / a.windowSeconds;
    FloorBounds(now - a.windowStart, a.windowSeconds);
    assert a.windowSeconds * p == p * a.windowSeconds;
    if now - a.windowStart < a.windowSeconds { FloorUnique(now - a.windowStart, a.windowSeconds, 0); }
  }

  // ----- visits of a token window -----

  /** Whole windows of the token that have lapsed at `now`. */
  function WindowsDue(a: AssetBudget, now: nat): nat {
    if a.windowSeconds == 0 || now < a.windowStart then 0 else (now - a.windowStart) / a.windowSeconds
  }

  /** What one more idle window makes of a credit `c`: the percentage of limit and credit, or of
      the limit alone when the two do not fit, clamped to the cap. */
  function IdleCredit(a: AssetBudget, c: nat): nat
    requires AssetOk(a)
  {
    Capped(BpsOf(if a.limit + c <= I128_MAX then a.limit + c else a.limit, a.rolloverBps), a.maxRolloverCap)
  }

  lemma UnspentCarries(a: AssetBudget, c: nat)
    requires AssetOk(a) && a.spent == 0 && a.rolloverCredit == c
    ensures CarriedAssetCredit(a) == IdleCredit(a, c)
  {
    var capacity := if a.limit + c <= I128_MAX then a.limit + c else a.limit;
    BudgetRolloverExact(capacity, a.rolloverBps, a.maxRolloverCap);
  }

  lemma AssetAnchor(a: AssetBudget, now: nat)
    requires AssetOk(a) && a.windowSeconds > 0 && a.windowStart <= now <= U64_MAX
    ensures SettleAsset(a, now).windowStart == a.windowStart + a.windowSeconds * WindowsDue(a, now)
    ensures WindowsDue(a, now) == 0 <==> now < a.windowStart + a.windowSeconds
  {
    AssetSettlementIsAnchored(a, now);
    var n := now - a.windowStart;
    FloorBounds(n, a.windowSeconds);
    if n < a.windowSeconds {
      FloorUnique(n, a.windowSeconds, 0);
    } else {
      FloorMonotone(a.windowSeconds, n, a.windowSeconds);
      FloorOfMultiple(1, a.windowSeconds);
    }
  }

  /** A settlement that crosses a boundary stores the carried credit, an empty counter and the
      anchor of the current window. */
  lemma AssetSettleMeaning(a: AssetBudget, now: nat)
    requires AssetOk(a) && now <= U64_MAX
    ensures WindowsDue(a, now) == 0 ==> SettleAsset(a, now) == a
    ensures WindowsDue(a, now) > 0 ==>
              SettleAsset(a, now) == a.(rolloverCredit := if a.rolloverEnabled then CarriedAssetCredit(a) else 0,
                                        spent := 0,
                                        windowStart := a.windowStart + a.windowSeconds * WindowsDue(a, now))
  {
    if a.windowSeconds > 0 && a.windowStart <= now { AssetAnchor(a, now); }
  }

  lemma AssetDueSplits(a: AssetBudget, s: AssetBudget, t1: nat, t2: nat)
    requires AssetOk(a) && t1 <= t2 <= U64_MAX && WindowsDue(a, t1) > 0
    requires s.windowSeconds == a.windowSeconds
    requires s.windowStart == a.windowStart + a.windowSeconds * WindowsDue(a, t1)
    ensures WindowsDue(a, t2) == WindowsDue(a, t1) + WindowsDue(s, t2)
  {
    var p, w := WindowsDue(a, t1), a.windowSeconds;
    FloorBounds(t1 - a.windowStart, w);
    assert p * w == w * p;
    FloorShift(t2 - a.windowStart, p, w);
  }

  /** Visiting a token window in between, against settling it once: the same anchor and counter.
      The lazy settlement credits one window however many have lapsed, so each visit carries
      once more; the records agree exactly when one instant has no boundary before it, rollover
      is off, or the carried credit is one that another idle window leaves as it is. */
  lemma AssetVisit(a: AssetBudget, t1: nat, t2: nat)
    requires AssetOk(a) && t1 <= t2 <= U64_MAX
    ensures var s := SettleAsset(a, t1);
            var split, direct := SettleAsset(s, t2), SettleAsset(a, t2);
            && split.(rolloverCredit := direct.rolloverCredit) == direct
            && (if WindowsDue(a, t1) == 0 || WindowsDue(s, t2) == 0 || !a.rolloverEnabled then split == direct
                else AssetOk(s) && direct.rolloverCredit == s.rolloverCredit
                     && split.rolloverCredit == IdleCredit(a, s.rolloverCredit)
                     && (split == direct <==> IdleCredit(a, s.rolloverCredit) == s.rolloverCredit))
  {
    var s := SettleAsset(a, t1);
    SettleKeepsAssetOk(a, t1);
    AssetSettleMeaning(a, t1);
    AssetSettleMeaning(a, t2);
    AssetSettleMeaning(s, t2);
    if WindowsDue(a, t1) > 0 {
      AssetDueSplits(a, s, t1, t2);
      SumOfWindows(a.windowSeconds, WindowsDue(a, t1), WindowsDue(s, t2));
      if s.rolloverEnabled { UnspentCarries(s, s.rolloverCredit); }
    }
  }

  lemma SumOfWindows(w: nat, p: nat, q: nat)
    ensures w * (p + q) == w * p + w * q
  {
  }

  /** With complete rollover another idle window adds the limit until the cap is reached: the
      credit stays as it is exactly when the limit is zero, the cap is reached, or the sum no
      longer fits and the limit alone comes back to it. */
  lemma FullIdleCredit(a: AssetBudget, c: nat)
    requires AssetOk(a) && a.rolloverBps == BPS && (a.maxRolloverCap > 0 ==> c <= a.maxRolloverCap)
    ensures a.limit + c <= I128_MAX ==>
              && IdleCredit(a, c) >= c
              && (IdleCredit(a, c) == c <==> a.limit == 0 || (a.maxRolloverCap > 0 && c == a.maxRolloverCap))
    ensures a.limit + c > I128_MAX ==> IdleCredit(a, c) == Capped(a.limit, a.maxRolloverCap)
  {
    BpsAtMostWhole(a.limit + c, BPS);
    BpsAtMostWhole(a.limit, BPS);
  }

  lemma AssetDue(a: AssetBudget, p: nat)
    requires a.windowSeconds > 0
    ensures WindowsDue(a, a.windowStart + a.windowSeconds * p) == p
  {
    assert a.windowSeconds * p >= 0;
    assert p * a.windowSeconds == a.windowSeconds * p;
    FloorOfMultiple(p, a.windowSeconds);
  }

  /** A token limited to 100 every 10 seconds with complete rollover, nothing spent: after two
      windows it carries 100 if settled once, and 200 if visited in between. */
  lemma AssetVisitsRaiseCredit(a: AssetBudget)
    requires a == AssetBudget(100, 0, 10, 0, true, 0, 10_000, 0)
    ensures SettleAsset(a, 20).rolloverCredit == 100
    ensures SettleAsset(SettleAsset(a, 10), 20).rolloverCredit == 200
  {
    AssetDue(a, 1);
    AssetSettleMeaning(a, 10);
    UnspentCarries(a, 0);
    var s := SettleAsset(a, 10);
    AssetDue(s, 1);
    AssetVisit(a, 10, 20);
    BpsAtMostWhole(100, BPS);
    BpsAtMostWhole(200, BPS);
  }

  /** A recorded spend never passes the token's capacity in its current window. */
  lemma SpendStaysWithinCapacity(a: AssetBudget, now: nat, amount: int)
    requires AssetOk(a) && amount > 0 && SpendAsset(a, now, amount).Ok?
    ensures var s := SpendAsset(a, now, amount).value;
            && AssetOk(s)
            && s.spent == SettleAsset(a, now).spent + amount
            && s.spent <= s.limit + (if s.rolloverEnabled then s.rolloverCredit else 0)
  {
    SettleKeepsAssetOk(a, now);
  }

  // ----- every reachable registry is in range -----

  datatype AssetOp =
    | OpRegister(token: Address, limit: I128, windowSeconds: nat, start: nat, enabled: bool, bps: int, cap: I128)
    | OpConfigure(token: Address, enabled: bool, bps: int, cap: I128)
    | OpSpend(spend: Spend)
    | OpBatch(spends: seq<Spend>)

  datatype AssetEvent = AssetEvent(at: nat, op: AssetOp)

  /** The argument checks in front of registration and configuration. */
  function PolicyArguments(bps: int, cap: int): Guard {
    if cap < 0 || bps < 0 then Fail(InvalidAmount) else Require(bps <= BPS, InvalidInput)
  }

  function ExecAsset(reg: Registry, e: AssetEvent): Result<Registry> {
    match e.op
    case OpRegister(token, limit, windowSeconds, start, enabled, bps, cap) =>
      :- Require(limit >= 0, InvalidAmount);
      :- PolicyArguments(bps, cap);
      Ok(Register(reg, token, limit, windowSeconds, start, enabled, bps, cap))
    case OpConfigure(token, enabled, bps, cap) =>
      :- PolicyArguments(bps, cap);
      Configure(reg, e.at, token, enabled, bps, cap)
    case OpSpend(spend) => RecordSpend(reg, e.at, spend)
    case OpBatch(spends) => RecordBatch(reg, e.at, spends)
  }

  function RunAssets(reg: Registry, events: seq<AssetEvent>): Registry {
    if events == [] then reg
    else
      var before := RunAssets(reg, events[..|events| - 1]);
      match ExecAsset(before, events[|events| - 1])
      case Ok(next) => next
      case Err(_) => before
  }

  lemma ConfigureKeepsOk(reg: Registry, now: nat, token: Address, enabled: bool, bps: nat, cap: I128)
    requires RegistryOk(reg) && bps <= BPS && cap >= 0 && Configure(reg, now, token, enabled, bps, cap).Ok?
    ensures RegistryOk(Configure(reg, now, token, enabled, bps, cap).value)
  {
    assert InI128(cap);
    SettleKeepsAssetOk(reg[token], now);
  }

  lemma SpendKeepsOk(reg: Registry, now: nat, spend: Spend)
    requires RegistryOk(reg) && RecordSpend(reg, now, spend).Ok?
    ensures RegistryOk(RecordSpend(reg, now, spend).value)
  {
    SpendStaysWithinCapacity(reg[spend.token], now, spend.amount);
  }

  lemma {:induction false} SimulatedOk(reg: Registry, now: nat, spends: seq<Spend>, n: nat)
    requires RegistryOk(reg) && n <= |spends| && SimulateFirst(reg, now, spends, n).Ok?
    ensures var settled := SimulateFirst(reg, now, spends, n).value;
            |settled| == n && forall k :: 0 <= k < n ==> AssetOk(settled[k])
  {
    if n > 0 {
      SimulatedOk(reg, now, spends, n - 1);
      SettleKeepsAssetOk(reg[spends[n - 1].token], now);
    }
  }

  lemma {:induction false} WritesKeepOk(reg: Registry, spends: seq<Spend>, settled: seq<AssetBudget>, n: nat)
    requires RegistryOk(reg) && n <= |spends| && n <= |settled|
    requires forall k :: 0 <= k < |settled| ==> AssetOk(settled[k])
    ensures RegistryOk(WriteFirst(reg, spends, settled, n))
  {
    if n > 0 { WritesKeepOk(reg, spends, settled, n - 1); }
  }

  lemma BatchKeepsOk(reg: Registry, now: nat, spends: seq<Spend>)
    requires RegistryOk(reg) && RecordBatch(reg, now, spends).Ok?
    ensures RegistryOk(RecordBatch(reg, now, spends).value)
  {
    SimulatedOk(reg, now, spends, |spends|);
    WritesKeepOk(reg, spends, SimulateFirst(reg, now, spends, |spends|).value, |spends|);
  }

  lemma ExecKeepsOk(reg: Registry, e: AssetEvent)
    requires RegistryOk(reg) && (e.op.OpRegister? ==> e.op.start <= U64_MAX) && ExecAsset(reg, e).Ok?
    ensures RegistryOk(ExecAsset(reg, e).value)
  {
    match e.op
    case OpRegister(_, _, _, _, _, _, _) =>
    case OpConfigure(token, enabled, bps, cap) => ConfigureKeepsOk(reg, e.at, token, enabled, bps, cap);
    case OpSpend(spend) => SpendKeepsOk(reg, e.at, spend);
    case OpBatch(spends) => BatchKeepsOk(reg, e.at, spends);
  }

  /** Whatever is registered, configured and spent, every token record stays in range, its
      credit within its cap, and there is none without a window or with rollover off. */
  lemma {:induction false} RegistryStaysOk(events: seq<AssetEvent>)
    requires forall e :: e in events && e.op.OpRegister? ==> e.op.start <= U64_MAX
    ensures RegistryOk(RunAssets(map[], events))
  {
    if events != [] {
      var n := |events| - 1;
      assert forall e :: e in events[..n] ==> e in events;
      assert events[n] in events;
      RegistryStaysOk(events[..n]);
      var before := RunAssets(map[], events[..n]);
      if ExecAsset(before, events[n]).Ok? { ExecKeepsOk(before, events[n]); }
    }
  }

  // ----- a batch is its legs, in any order -----

  ghost predicate DistinctFirst(spends: seq<Spend>, n: nat)
    requires n <= |spends|
  {
    forall i, j :: 0 <= i < j < n ==> spends[i].token != spends[j].token
  }

  ghost predicate DistinctTokens(spends: seq<Spend>) { DistinctFirst(spends, |spends|) }

  /** `leg` may be recorded on its own against `reg`, leaving the given record. */
  ghost predicate LegOk(reg: Registry, now: nat, leg: Spend) {
    leg.amount > 0 && leg.token in reg && SpendAsset(reg[leg.token], now, leg.amount).Ok?
  }

  /** `after` is `reg` with exactly the records of the first `n` legs replaced by their spent versions. */
  ghost predicate RecordedFirst(reg: Registry, now: nat, spends: seq<Spend>, n: nat, after: Registry)
    requires n <= |spends|
  {
    && after.Keys == reg.Keys
    && (forall k :: 0 <= k < n ==>
          LegOk(reg, now, spends[k])
          && after[spends[k].token] == SpendAsset(reg[spends[k].token], now, spends[k].amount).value)
    && (forall t :: t in reg && Untouched(spends, n, t) ==> after[t] == reg[t])
  }

  ghost predicate Recorded(reg: Registry, now: nat, spends: seq<Spend>, after: Registry) {
    RecordedFirst(reg, now, spends, |spends|, after)
  }

  /** The next leg meets the record it would have met at the start. */
  lemma NextLegIsFresh(reg: Registry, now: nat, spends: seq<Spend>, n: nat, before: Registry)
    requires n < |spends| && DistinctTokens(spends) && RecordedFirst(reg, now, spends, n, before)
    ensures spends[n].token in reg ==> before[spends[n].token] == reg[spends[n].token]
  {
    assert Untouched(spends, n, spends[n].token);
  }

  /** Replacing the record of leg `n` disturbs no earlier leg and no other token. */
  lemma ReplaceNext(reg: Registry, spends: seq<Spend>, n: nat, before: Registry, r: AssetBudget)
    requires n < |spends| && DistinctTokens(spends) && spends[n].token in reg && before.Keys == reg.Keys
    requires forall t :: t in reg && Untouched(spends, n, t) ==> before[t] == reg[t]
    ensures before[spends[n].token := r].Keys == reg.Keys
    ensures forall k :: 0 <= k < n && spends[k].token in reg ==>
                          before[spends[n].token := r][spends[k].token] == before[spends[k].token]
    ensures forall t :: t in reg && Untouched(spends, n + 1, t) ==> before[spends[n].token := r][t] == reg[t]
  {
    forall t | Untouched(spends, n + 1, t) ensures Untouched(spends, n, t) && t != spends[n].token {
      assert spends[n].token != t;
    }
  }

  lemma ExtendRecorded(reg: Registry, now: nat, spends: seq<Spend>, n: nat, before: Registry)
    requires n < |spends| && DistinctTokens(spends) && RecordedFirst(reg, now, spends, n, before)
    requires LegOk(reg, now, spends[n])
    ensures RecordedFirst(reg, now, spends, n + 1,
                          before[spends[n].token := SpendAsset(reg[spends[n].token], now, spends[n].amount).value])
  {
    ReplaceNext(reg, spends, n, before, SpendAsset(reg[spends[n].token], now, spends[n].amount).value);
  }

  lemma RecordOneMore(reg: Registry, now: nat, spends: seq<Spend>, n: nat, before: Registry)
    requires n < |spends| && DistinctTokens(spends) && RecordedFirst(reg, now, spends, n, before)
    ensures RecordSpend(before, now, spends[n]).Ok? <==> LegOk(reg, now, spends[n])
    ensures RecordSpend(before, now, spends[n]).Ok? ==>
              RecordedFirst(reg, now, spends, n + 1, RecordSpend(before, now, spends[n]).value)
  {
    NextLegIsFresh(reg, now, spends, n, before);
    if LegOk(reg, now, spends[n]) { ExtendRecorded(reg, now, spends, n, before); }
  }

  lemma {:induction false} EachRecords(reg: Registry, now: nat, spends: seq<Spend>, n: nat)
    requires n <= |spends| && DistinctTokens(spends) && RecordFirst(reg, now, spends, n).Ok?
    ensures RecordedFirst(reg, now, spends, n, RecordFirst(reg, now, spends, n).value)
  {
    if n > 0 {
      EachRecords(reg, now, spends, n - 1);
      RecordOneMore(reg, now, spends, n - 1, RecordFirst(reg, now, spends, n - 1).value);
    }
  }

  lemma {:induction false} EachSucceeds(reg: Registry, now: nat, spends: seq<Spend>, n: nat)
    requires n <= |spends| && DistinctTokens(spends)
    requires forall k :: 0 <= k < n ==> LegOk(reg, now, spends[k])
    ensures RecordFirst(reg, now, spends, n).Ok?
  {
    if n > 0 {
      EachSucceeds(reg, now, spends, n - 1);
      EachRecords(reg, now, spends, n - 1);
      RecordOneMore(reg, now, spends, n - 1, RecordFirst(reg, now, spends, n - 1).value);
    }
  }

  /** One-by-one spends over distinct tokens succeed exactly when each leg does by itself,
      and then replace exactly those records. */
  lemma EachMeaning(reg: Registry, now: nat, spends: seq<Spend>)
    requires DistinctTokens(spends)
    ensures RecordEach(reg, now, spends).Ok? <==> forall k :: 0 <= k < |spends| ==> LegOk(reg, now, spends[k])
    ensures RecordEach(reg, now, spends).Ok? ==> Recorded(reg, now, spends, RecordEach(reg, now, spends).value)
  {
    if RecordEach(reg, now, spends).Ok? {
      EachRecords(reg, now, spends, |spends|);
    } else if forall k :: 0 <= k < |spends| ==> LegOk(reg, now, spends[k]) {
      EachSucceeds(reg, now, spends, |spends|);
    }
  }

  lemma RecordedIsUnique(reg: Registry, now: nat, xs: seq<Spend>, ys: seq<Spend>, r: Registry, s: Registry)
    requires Recorded(reg, now, xs, r) && Recorded(reg, now, ys, s)
    requires multiset(xs) == multiset(ys)
    ensures r == s
  {
    forall t | t in reg ensures r[t] == s[t] {
      if k :| 0 <= k < |xs| && xs[k].token == t {
        SameElements(xs, ys, k);
        var j :| 0 <= j < |ys| && ys[j] == xs[k];
        assert s[ys[j].token] == r[xs[k].token];
      } else {
        forall j | 0 <= j < |ys| ensures ys[j].token != t { SameElements(ys, xs, j); }
        assert Untouched(xs, |xs|, t) && Untouched(ys, |ys|, t);
      }
    }
  }

  lemma SameElements(xs: seq<Spend>, ys: seq<Spend>, k: nat)
    requires multiset(xs) == multiset(ys) && k < |xs|
    ensures exists j :: 0 <= j < |ys| && ys[j] == xs[k]
  {
    assert xs[k] in multiset(xs);
    assert xs[k] in multiset(ys);
    assert xs[k] in ys;
  }

  /** Reordering distinct legs keeps their tokens distinct. */
  lemma DistinctIsOrderFree(xs: seq<Spend>, ys: seq<Spend>)
    requires multiset(xs) == multiset(ys) && DistinctTokens(xs)
    ensures DistinctTokens(ys)
  {
    forall i, j | 0 <= i < j < |ys| ensures ys[i].token != ys[j].token {
      if ys[i].token == ys[j].token {
        SameElements(ys, xs, i);
        SameElements(ys, xs, j);
        var a :| 0 <= a < |xs| && xs[a] == ys[i];
        var b :| 0 <= b < |xs| && xs[b] == ys[j];
        assert a == b;
        CountTwo(ys, i, j);
        CountDistinct(xs, a);
      }
    }
  }

  lemma CountTwo(ys: seq<Spend>, i: nat, j: nat)
    requires i < j < |ys| && ys[i] == ys[j]
    ensures multiset(ys)[ys[i]] >= 2
  {
    assert ys == ys[..i] + [ys[i]] + ys[i + 1..j] + [ys[j]] + ys[j + 1..];
  }

  lemma CountDistinct(xs: seq<Spend>, a: nat)
    requires DistinctTokens(xs) && a < |xs|
    ensures multiset(xs)[xs[a]] == 1
  {
    assert xs == xs[..a] + [xs[a]] + xs[a + 1..];
    assert xs[a] !in xs[..a];
    assert xs[a] !in xs[a + 1..];
  }

  /** A token's rollover credit and limit sum to a representable capacity. */
  ghost predicate CapacityFits(reg: Registry, now: nat, leg: Spend) {
    leg.token in reg ==>
      var s := SettleAsset(reg[leg.token], now);
      s.rolloverEnabled ==> s.limit + s.rolloverCredit <= I128_MAX
  }

  /** The leg fits the base limit of its window, without the token's rollover credit. */
  ghost predicate DrawsNoCredit(reg: Registry, now: nat, leg: Spend) {
    leg.token in reg ==>
      var s := SettleAsset(reg[leg.token], now);
      s.rolloverEnabled ==> s.spent + leg.amount <= s.limit
  }

  /** A leg passes in a batch exactly when it passes alone and draws on no credit, and then
      leaves the same record. */
  lemma BatchLegIsStricter(reg: Registry, now: nat, leg: Spend)
    requires RegistryOk(reg) && leg.token in reg && CapacityFits(reg, now, leg)
    ensures var a := reg[leg.token];
            && (SpendAssetInBatch(a, now, leg.amount).Ok? ==>
                  SpendAssetInBatch(a, now, leg.amount) == SpendAsset(a, now, leg.amount))
            && (SpendAssetInBatch(a, now, leg.amount).Ok? <==>
                  SpendAsset(a, now, leg.amount).Ok? && DrawsNoCredit(reg, now, leg))
  {
    SettleKeepsAssetOk(reg[leg.token], now);
  }

  ghost predicate BatchLegOk(reg: Registry, now: nat, leg: Spend) {
    leg.amount > 0 && leg.token in reg && SpendAssetInBatch(reg[leg.token], now, leg.amount).Ok?
  }

  lemma {:induction false} SimulationMeaning(reg: Registry, now: nat, spends: seq<Spend>, n: nat)
    requires n <= |spends|
    ensures SimulateFirst(reg, now, spends, n).Ok? <==>
            DistinctFirst(spends, n) && forall k :: 0 <= k < n ==> BatchLegOk(reg, now, spends[k])
    ensures SimulateFirst(reg, now, spends, n).Ok? ==>
              var settled := SimulateFirst(reg, now, spends, n).value;
              && |settled| == n
              && forall k :: 0 <= k < n ==>
                   settled[k] == SpendAssetInBatch(reg[spends[k].token], now, spends[k].amount).value
  {
    if n > 0 {
      SimulationMeaning(reg, now, spends, n - 1);
      var token := spends[n - 1].token;
      assert DistinctFirst(spends, n) <==> DistinctFirst(spends, n - 1) && Untouched(spends, n - 1, token);
    }
  }

  lemma {:induction false} WritesMeaning(reg: Registry, spends: seq<Spend>, settled: seq<AssetBudget>, n: nat)
    requires n <= |spends| == |settled| && DistinctTokens(spends)
    requires forall k :: 0 <= k < |spends| ==> spends[k].token in reg
    ensures var after := WriteFirst(reg, spends, settled, n);
            && after.Keys == reg.Keys
            && (forall k :: 0 <= k < n ==> after[spends[k].token] == settled[k])
            && (forall t :: t in reg && Untouched(spends, n, t) ==> after[t] == reg[t])
  {
    if n > 0 {
      WritesMeaning(reg, spends, settled, n - 1);
      forall t | Untouched(spends, n, t) ensures Untouched(spends, n - 1, t) && t != spends[n - 1].token {
        assert spends[n - 1].token != t;
      }
    }
  }

  /** A batch that succeeds stores exactly the spent records of its legs. */
  lemma BatchIsRecorded(reg: Registry, now: nat, spends: seq<Spend>)
    requires RegistryOk(reg) && RecordBatch(reg, now, spends).Ok?
    requires forall k :: 0 <= k < |spends| ==> CapacityFits(reg, now, spends[k])
    ensures DistinctTokens(spends) && Recorded(reg, now, spends, RecordBatch(reg, now, spends).value)
  {
    SimulationMeaning(reg, now, spends, |spends|);
    var settled := SimulateFirst(reg, now, spends, |spends|).value;
    WritesMeaning(reg, spends, settled, |spends|);
    forall k | 0 <= k < |spends|
      ensures LegOk(reg, now, spends[k]) && settled[k] == SpendAsset(reg[spends[k].token], now, spends[k].amount).value
    {
      assert BatchLegOk(reg, now, spends[k]);
      BatchLegIsStricter(reg, now, spends[k]);
    }
  }

  /** A successful batch leaves the same registry as its legs recorded one by one, in any order. */
  lemma BatchEqualsLegsInAnyOrder(reg: Registry, now: nat, spends: seq<Spend>, order: seq<Spend>)
    requires RegistryOk(reg) && RecordBatch(reg, now, spends).Ok? && multiset(order) == multiset(spends)
    requires forall k :: 0 <= k < |spends| ==> CapacityFits(reg, now, spends[k])
    ensures RecordEach(reg, now, order) == RecordBatch(reg, now, spends)
  {
    BatchIsRecorded(reg, now, spends);
    DistinctIsOrderFree(spends, order);
    EachMeaning(reg, now, order);
    forall k | 0 <= k < |order| ensures LegOk(reg, now, order[k]) {
      SameElements(order, spends, k);
      var j :| 0 <= j < |spends| && spends[j] == order[k];
      assert LegOk(reg, now, spends[j]);
    }
    RecordedIsUnique(reg, now, order, spends, RecordEach(reg, now, order).value, RecordBatch(reg, now, spends).value);
  }

  /** A well-shaped batch succeeds exactly when all its one-by-one spends do and none of them
      draws on rollover credit. */
  lemma BatchSucceedsExactly(reg: Registry, now: nat, spends: seq<Spend>)
    requires RegistryOk(reg) && forall k :: 0 <= k < |spends| ==> CapacityFits(reg, now, spends[k])
    ensures RecordBatch(reg, now, spends).Ok? <==>
            && 0 < |spends| <= MAX_BATCH_TOKENS
            && DistinctTokens(spends)
            && RecordEach(reg, now, spends).Ok?
            && forall k :: 0 <= k < |spends| ==> DrawsNoCredit(reg, now, spends[k])
  {
    SimulationMeaning(reg, now, spends, |spends|);
    if DistinctTokens(spends) {
      EachMeaning(reg, now, spends);
      forall k | 0 <= k < |spends|
        ensures BatchLegOk(reg, now, spends[k]) <==> LegOk(reg, now, spends[k]) && DrawsNoCredit(reg, now, spends[k])
      {
        if spends[k].token in reg { BatchLegIsStricter(reg, now, spends[k]); }
      }
    }
  }

  lemma NoRolloverNoCredit(reg: Registry, now: nat, leg: Spend)
    requires leg.token in reg ==> !reg[leg.token].rolloverEnabled
    ensures CapacityFits(reg, now, leg) && DrawsNoCredit(reg, now, leg)
  {
  }

  /** With per-token rollover off, a well-shaped batch succeeds exactly when all its
      one-by-one spends do. */
  lemma BatchSucceedsExactlyWhenLegsDo(reg: Registry, now: nat, spends: seq<Spend>)
    requires RegistryOk(reg)
    requires forall k :: 0 <= k < |spends| && spends[k].token in reg ==> !reg[spends[k].token].rolloverEnabled
    ensures RecordBatch(reg, now, spends).Ok? <==>
            && 0 < |spends| <= MAX_BATCH_TOKENS
            && DistinctTokens(spends)
            && RecordEach(reg, now, spends).Ok?
  {
    forall k | 0 <= k < |spends| ensures CapacityFits(reg, now, spends[k]) && DrawsNoCredit(reg, now, spends[k]) {
      NoRolloverNoCredit(reg, now, spends[k]);
    }
    BatchSucceedsExactly(reg, now, spends);
  }

  const TOKEN: Address := Address(7)

  /** A token limited to 100 every 10 seconds with full rollover, of which 50 is spent at once. */
  const CREDIT_RUN: seq<AssetEvent> :=
    [AssetEvent(0, OpRegister(TOKEN, 100, 10, 0, true, 10_000, 0)), AssetEvent(0, OpSpend(Spend(TOKEN, 50)))]

  lemma CreditRunState()
    ensures RunAssets(map[], CREDIT_RUN) == map[TOKEN := AssetBudget(100, 50, 10, 0, true, 0, 10_000, 0)]
  {
    var first := CREDIT_RUN[..1];
    assert first[..0] == [] && RunAssets(map[], first[..0]) == map[];
    var reg := Register(map[], TOKEN, 100, 10, 0, true, 10_000, 0);
    assert RunAssets(map[], first) == reg;
    assert RecordSpend(reg, 0, Spend(TOKEN, 50)) == Ok(reg[TOKEN := AssetBudget(100, 50, 10, 0, true, 0, 10_000, 0)]);
  }

  /** With rollover on the two differ: when that window has lapsed, a spend of 120 draws on
      the 50 carried over and is accepted alone, but not as a batch of one. */
  lemma BatchIgnoresRolloverCredit()
    ensures var reg := RunAssets(map[], CREDIT_RUN);
            && RecordEach(reg, 10, [Spend(TOKEN, 120)]).Ok?
            && RecordBatch(reg, 10, [Spend(TOKEN, 120)]) == Err(BudgetExceeded)
  {
    CreditRunState();
    var reg: Registry := map[TOKEN := AssetBudget(100, 50, 10, 0, true, 0, 10_000, 0)];
    var spends := [Spend(TOKEN, 120)];
    BudgetRolloverExact(50, 10_000, 0);
    assert SettleAsset(reg[TOKEN], 10) == AssetBudget(100, 0, 10, 10, true, 50, 10_000, 0);
    assert RecordFirst(reg, 10, spends, 0) == Ok(reg);
    assert RecordFirst(reg, 10, spends, 1).Ok?;
    assert SimulateFirst(reg, 10, spends, 0) == Ok([]);
    assert SimulateFirst(reg, 10, spends, 1) == Err(BudgetExceeded);
  }
}

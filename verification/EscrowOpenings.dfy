/** What an opening asks for is what is recorded, for as long as the escrow exists: its parties,
    instants, schedule, keys, condition and milestone weights. And what the recipient of a
    time-locked escrow was promised: nothing before the instant asked for, everything after. */
module EscrowOpenings {
  import opened Common
  import opened Arith
  import opened EscrowModel
  import opened EscrowShares
  import opened EscrowVesting
  import opened EscrowInvariant
  import opened EscrowMilestones
  import opened EscrowSteps
  import opened EscrowTheorems
  import opened EscrowPromises
  import opened EscrowCalls

  // ----- the record an opening asks for -----

  /** A funded escrow of these terms. */
  function Deal(t: Terms, schedule: Schedule): Escrow {
    Escrow(t.sender, t.recipient, t.arbiter, t.assets, Funded, t.deadline, t.gracePeriod, t.refundWindow,
           Total(t.assets), schedule, 0, t.overrideSigners, t.overrideThreshold, 0)
  }

  /** Terms of a single deadline: no grace period, no refund window, no override keys. */
  function Simple(sender: Address, recipient: Address, arbiter: Address, assets: seq<AssetAmount>,
                  deadline: nat): Terms {
    Terms(sender, recipient, arbiter, assets, deadline, 0, 0, [], 0)
  }

  /** The agreement an opening at `now` asks for. */
  function Asked(o: Opening, now: nat): Agreement {
    match o
    case NewEscrow(t) => Agreement(Deal(t, Schedule(Unscheduled, 0, 0, 0)), None, None, {})
    case NewConditioned(t, participants, threshold) =>
      Agreement(Deal(t, Schedule(Unscheduled, 0, 0, 0)), None,
                if participants == [] then None else Some(Condition(participants, threshold, 0)), {})
    case NewTimelock(sender, recipient, arbiter, assets, unlock) =>
      Agreement(Deal(Simple(sender, recipient, arbiter, assets, unlock), Schedule(Cliff, now, unlock, unlock)),
                None, None, {})
    case NewScheduled(sender, recipient, arbiter, assets, schedule, deadline) =>
      var last := if deadline == 0 then schedule.end else deadline;
      Agreement(Deal(Simple(sender, recipient, arbiter, assets, last), schedule), None, None, {})
    case NewUnfunded(sender, recipient, arbiter, assets, unlock, grace) =>
      var deal := Deal(Simple(sender, recipient, arbiter, assets, unlock), Schedule(Cliff, now, unlock, unlock));
      Agreement(deal.(gracePeriod := grace, status := Created, funded := 0), None, None, {})
    case NewMilestones(sender, recipient, arbiter, asset, amount, deadline, weights) =>
      var deal := Deal(Simple(sender, recipient, arbiter, [AssetAmount(asset, amount)], deadline),
                       Schedule(Unscheduled, 0, 0, 0));
      var items := seq(|weights|, i requires 0 <= i < |weights| => Milestone(i, weights[i], Pending));
      Agreement(deal, Some(MilestoneSet(items, 0, false)), None, {})
  }

  // ----- refusals -----

  ghost predicate AssetsRefused(tokens: set<Address>, assets: seq<AssetAmount>, err: Error) {
    || (err == AssetNotAuthorized && exists i :: 0 <= i < |assets| && assets[i].asset !in tokens)
    || (err == InvalidInput && (assets == [] || |assets| > 10))
    || (err == InvalidInput && exists i, j :: 0 <= i < j < |assets| && assets[i].asset == assets[j].asset)
    || (err == InvalidAmount && exists i :: 0 <= i < |assets| && assets[i].amount <= 0)
  }

  /** A list of keys with a threshold it cannot have. */
  ghost predicate KeysRefused<T>(keys: seq<T>, threshold: nat, err: Error) {
    || (err == InvalidThreshold && threshold > |keys|)
    || (err == InvalidThreshold && keys != [] && threshold == 0)
    || (err == TooManySigners && |keys| > 20)
    || (err == InvalidInput && !Distinct(keys))
  }

  /** The parties and the latest instant of an opening are unsound. */
  ghost predicate PartiesRefused(sender: Address, recipient: Address, now: nat, last: nat, err: Error) {
    || (err == Unauthorized && sender == SELF)
    || (err == InvalidInput && (recipient == sender || last <= now))
  }

  ghost predicate TermsRefused(l: Ledger, tokens: set<Address>, now: nat, t: Terms, err: Error) {
    || PartiesRefused(t.sender, t.recipient, now, t.deadline, err)
    || AssetsRefused(tokens, t.assets, err)
    || KeysRefused(t.overrideSigners, t.overrideThreshold, err)
    || DepositRefused(l, t.sender, t.assets, err)
  }

  ghost predicate OpeningRefused(l: Ledger, tokens: set<Address>, now: nat, o: Opening, err: Error) {
    match o
    case NewEscrow(t) => TermsRefused(l, tokens, now, t, err)
    case NewConditioned(t, participants, threshold) =>
      TermsRefused(l, tokens, now, t, err) || KeysRefused(participants, threshold, err)
    case NewTimelock(sender, recipient, _, assets, unlock) =>
      || PartiesRefused(sender, recipient, now, unlock, err)
      || AssetsRefused(tokens, assets, err) || DepositRefused(l, sender, assets, err)
    case NewScheduled(sender, recipient, _, assets, s, deadline) =>
      || PartiesRefused(sender, recipient, now, s.end, err)
      || AssetsRefused(tokens, assets, err) || DepositRefused(l, sender, assets, err)
      || (err == InvalidInput && (!(s.start <= s.cliff <= s.end) || s.start == s.end))
      || (err == InvalidInput && 0 < deadline < s.end)
    case NewUnfunded(sender, recipient, _, assets, unlock, _) =>
      PartiesRefused(sender, recipient, now, unlock, err) || AssetsRefused(tokens, assets, err)
    case NewMilestones(sender, recipient, _, asset, amount, deadline, weights) =>
      || PartiesRefused(sender, recipient, now, deadline, err)
      || (err == InvalidAmount && amount <= 0)
      || (err == AssetNotAuthorized && asset !in tokens)
      || (err == InvalidInput && (weights == [] || Sum(weights) != 10_000))
      || (err == Overflow && Sum(weights) > U32_MAX)
      || (err == InsufficientFunds && amount > Balance(l, sender, asset))
  }

  /** An opening records what it asked for and, unless it is unfunded, takes the whole deposit. */
  ghost predicate OpeningDone(now: nat, op: Opening, o: Outcome) {
    var a := Asked(op, now);
    && o.agreement == a
    && if op.NewUnfunded? then NothingMoved(o) else Deposits(a.escrow.sender, a.escrow.assets, o)
  }

  ghost predicate OpeningDecided(l: Ledger, tokens: set<Address>, now: nat, op: Opening, r: Result<Outcome>) {
    && (r.Err? ==> OpeningRefused(l, tokens, now, op, r.error))
    && (r.Ok? ==> OpeningDone(now, op, r.value) && forall err :: !OpeningRefused(l, tokens, now, op, err))
  }

  lemma {:induction false} AssetsFromDecided(assets: seq<AssetAmount>, i: nat)
    requires i <= |assets| && AssetsFrom(assets, i).Fail?
    ensures var err := AssetsFrom(assets, i).error;
            || (err == InvalidInput && exists j, k :: 0 <= j < k < |assets| && assets[j].asset == assets[k].asset)
            || (err == InvalidAmount && exists k :: 0 <= k < |assets| && assets[k].amount <= 0)
    decreases |assets| - i
  {
    if i < |assets| && assets[i].amount > 0 && forall j :: i < j < |assets| ==> assets[j].asset != assets[i].asset {
      AssetsFromDecided(assets, i + 1);
    }
  }

  lemma AssetsDecided(tokens: set<Address>, assets: seq<AssetAmount>)
    ensures var g := ValidateAssets(tokens, assets);
            && (g.Fail? ==> AssetsRefused(tokens, assets, g.error))
            && (g.Pass? ==> AssetsOk(assets) && forall err :: !AssetsRefused(tokens, assets, err))
  {
    AssetsFromMeaning(assets, 0);
    if AssetsFrom(assets, 0).Fail? { AssetsFromDecided(assets, 0); }
  }

  lemma KeysValid<T>(keys: seq<T>, threshold: nat)
    ensures var g := ValidateThreshold(keys, threshold);
            && (g.Fail? ==> KeysRefused(keys, threshold, g.error))
            && (g.Pass? ==> forall err :: !KeysRefused(keys, threshold, err))
  {
  }

  /** A funded opening ends with its deposit: refused for a reason, or recorded as asked. */
  ghost predicate DepositIsDecided(l: Ledger, sender: Address, assets: seq<AssetAmount>, asked: Agreement,
                                   r: Result<Outcome>) {
    && (r.Err? ==> DepositRefused(l, sender, assets, r.error))
    && (r.Ok? ==>
          && (forall err :: !DepositRefused(l, sender, assets, err))
          && r.value.agreement == asked && Deposits(sender, assets, r.value))
  }

  lemma FundedDecided(l: Ledger, t: Terms, schedule: Schedule)
    requires AssetsOk(t.assets) && t.sender != SELF
    ensures DepositIsDecided(l, t.sender, t.assets, Agreement(Deal(t, schedule), None, None, {}),
                             OpenFunded(l, t, schedule))
  {
    DepositDecided(l, t.sender, t.assets);
  }

  lemma CreateDecided(l: Ledger, tokens: set<Address>, now: nat, t: Terms)
    ensures OpeningDecided(l, tokens, now, NewEscrow(t), Create(l, tokens, now, t))
  {
    AssetsDecided(tokens, t.assets);
    KeysValid(t.overrideSigners, t.overrideThreshold);
    if ValidateAssets(tokens, t.assets).Pass? && t.sender != SELF { FundedDecided(l, t, NO_SCHEDULE); }
  }

  lemma ConditionedDecided(l: Ledger, tokens: set<Address>, now: nat, op: Opening)
    requires op.NewConditioned?
    ensures OpeningDecided(l, tokens, now, op, Begin(l, tokens, now, op))
  {
    KeysValid(op.participants, op.threshold);
    CreateDecided(l, tokens, now, op.terms);
    if Begin(l, tokens, now, op).Ok? {
      forall err ensures !OpeningRefused(l, tokens, now, op, err) {
        assert !OpeningRefused(l, tokens, now, NewEscrow(op.terms), err);
      }
    }
  }

  lemma UnfundedDecided(l: Ledger, tokens: set<Address>, now: nat, op: Opening)
    requires op.NewUnfunded?
    ensures OpeningDecided(l, tokens, now, op, Begin(l, tokens, now, op))
  {
    AssetsDecided(tokens, op.assets);
  }

  lemma TimelockDecided(l: Ledger, tokens: set<Address>, now: nat, op: Opening)
    requires op.NewTimelock?
    ensures OpeningDecided(l, tokens, now, op, Begin(l, tokens, now, op))
  {
    var t, schedule := BulletTerms(op.sender, op.recipient, op.arbiter, op.assets, op.unlock, 0),
                       Schedule(Cliff, now, op.unlock, op.unlock);
    AssetsDecided(tokens, op.assets);
    if ValidateAssets(tokens, op.assets).Pass? && op.sender != SELF {
      FundedDecided(l, t, schedule);
      TimelockOpens(l, tokens, now, op, OpenFunded(l, t, schedule));
    }
  }

  /** With sound assets a timelock is decided by its parties, its unlock time and its deposit `r`. */
  lemma TimelockOpens(l: Ledger, tokens: set<Address>, now: nat, op: Opening, r: Result<Outcome>)
    requires op.NewTimelock? && op.sender != SELF && ValidateAssets(tokens, op.assets).Pass?
    requires forall err :: !AssetsRefused(tokens, op.assets, err)
    requires r == OpenFunded(l, BulletTerms(op.sender, op.recipient, op.arbiter, op.assets, op.unlock, 0),
                             Schedule(Cliff, now, op.unlock, op.unlock))
    requires DepositIsDecided(l, op.sender, op.assets, Asked(op, now), r)
    ensures OpeningDecided(l, tokens, now, op, Begin(l, tokens, now, op))
  {
  }

  lemma ScheduledDecided(l: Ledger, tokens: set<Address>, now: nat, op: Opening)
    requires op.NewScheduled?
    ensures OpeningDecided(l, tokens, now, op, Begin(l, tokens, now, op))
  {
    var last := if op.deadline == 0 then op.schedule.end else op.deadline;
    var t := BulletTerms(op.sender, op.recipient, op.arbiter, op.assets, last, 0);
    AssetsDecided(tokens, op.assets);
    if ValidateAssets(tokens, op.assets).Pass? && op.sender != SELF {
      FundedDecided(l, t, op.schedule);
      ScheduledOpens(l, tokens, now, op, last, OpenFunded(l, t, op.schedule));
    }
  }

  /** The checks of a scheduled opening apart from its sender, its assets and its deposit. */
  predicate ScheduleSound(op: Opening, now: nat)
    requires op.NewScheduled?
  {
    var s := op.schedule;
    && op.recipient != op.sender && now < s.end && s.start <= s.cliff <= s.end && s.start < s.end
    && (op.deadline == 0 || s.end <= op.deadline)
  }

  lemma ScheduledPasses(l: Ledger, tokens: set<Address>, now: nat, op: Opening, last: nat)
    requires op.NewScheduled? && op.sender != SELF && ValidateAssets(tokens, op.assets).Pass?
    requires last == if op.deadline == 0 then op.schedule.end else op.deadline
    ensures Begin(l, tokens, now, op) ==
            if ScheduleSound(op, now)
            then OpenFunded(l, BulletTerms(op.sender, op.recipient, op.arbiter, op.assets, last, 0), op.schedule)
            else Err(InvalidInput)
  {
  }

  lemma ScheduledOpens(l: Ledger, tokens: set<Address>, now: nat, op: Opening, last: nat, r: Result<Outcome>)
    requires op.NewScheduled? && op.sender != SELF && ValidateAssets(tokens, op.assets).Pass?
    requires forall err :: !AssetsRefused(tokens, op.assets, err)
    requires last == if op.deadline == 0 then op.schedule.end else op.deadline
    requires r == OpenFunded(l, BulletTerms(op.sender, op.recipient, op.arbiter, op.assets, last, 0), op.schedule)
    requires DepositIsDecided(l, op.sender, op.assets, Asked(op, now), r)
    ensures OpeningDecided(l, tokens, now, op, Begin(l, tokens, now, op))
  {
    ScheduledPasses(l, tokens, now, op, last);
  }

  /** The running sum fails exactly when the whole sum does not fit 32 bits. */
  lemma {:induction false} BpsDecided(weights: seq<nat>, n: nat)
    requires n <= |weights|
    ensures BpsFirst(weights, n) == if Sum(weights[..n]) > U32_MAX then Err(Overflow) else Ok(Sum(weights[..n]))
  {
    if n > 0 {
      BpsDecided(weights, n - 1);
      assert weights[..n][..n - 1] == weights[..n - 1];
    }
  }

  lemma MilestonesDecided(l: Ledger, tokens: set<Address>, now: nat, op: Opening)
    requires op.NewMilestones?
    ensures OpeningDecided(l, tokens, now, op, Begin(l, tokens, now, op))
  {
    var assets := [AssetAmount(op.asset, op.amount)];
    BpsDecided(op.weights, |op.weights|);
    assert op.weights[..|op.weights|] == op.weights;
    assert assets[..0] == [];
    assert Total(assets) == op.amount;
    assert FreshMilestones(op.weights) == Asked(op, now).milestones.value.items;
    if Begin(l, tokens, now, op).Ok? { OneDepositMoves(op.sender, op.asset, op.amount); }
  }

  lemma OneDepositMoves(sender: Address, asset: Address, amount: int)
    requires sender != SELF
    ensures var moves := [Move(asset, sender, SELF, amount)];
            && ComesFrom(moves, sender)
            && forall a :: Deposited(moves, a) == AmountOf([AssetAmount(asset, amount)], a)
  {
    var moves, assets := [Move(asset, sender, SELF, amount)], [AssetAmount(asset, amount)];
    assert moves[..0] == [];
    forall a ensures Deposited(moves, a) == AmountOf(assets, a) {
      assert AmountFirst(assets, a, 0) == 0;
    }
  }

  /** Every opening fails exactly when a refusal applies, with one that does, and otherwise
      records what it asked for. */
  lemma EveryOpeningDecided(l: Ledger, tokens: set<Address>, now: nat, op: Opening)
    ensures OpeningDecided(l, tokens, now, op, Begin(l, tokens, now, op))
  {
    match op
    case NewEscrow(t) => CreateDecided(l, tokens, now, t);
    case NewConditioned(_, _, _) => ConditionedDecided(l, tokens, now, op);
    case NewTimelock(_, _, _, _, _) => TimelockDecided(l, tokens, now, op);
    case NewScheduled(_, _, _, _, _, _) => ScheduledDecided(l, tokens, now, op);
    case NewUnfunded(_, _, _, _, _, _) => UnfundedDecided(l, tokens, now, op);
    case NewMilestones(_, _, _, _, _, _, _) => MilestonesDecided(l, tokens, now, op);
  }

  // ----- terms never change -----

  /** `b` is `a` later: only status, amounts, nonce, approvals and milestone statuses may differ. */
  ghost predicate SameTerms(a: Agreement, b: Agreement) {
    && b.escrow == a.escrow.(status := b.escrow.status, funded := b.escrow.funded, released := b.escrow.released,
                             overrideNonce := b.escrow.overrideNonce)
    && SameCondition(a.condition, b.condition)
    && SameWeights(a.milestones, b.milestones)
  }

  predicate SameCondition(a: Option<Condition>, b: Option<Condition>) {
    match a
    case None => b.None?
    case Some(c) => b.Some? && b.value == c.(approvals := b.value.approvals)
  }

  ghost predicate SameWeights(a: Option<MilestoneSet>, b: Option<MilestoneSet>) {
    match a
    case None => b.None?
    case Some(ms) =>
      && b.Some? && |b.value.items| == |ms.items|
      && forall i :: 0 <= i < |ms.items| ==> b.value.items[i] == ms.items[i].(status := b.value.items[i].status)
  }

  lemma SameTermsTrans(a: Agreement, b: Agreement, c: Agreement)
    requires SameTerms(a, b) && SameTerms(b, c)
    ensures SameTerms(a, c)
  {
    if a.milestones.Some? {
      var x, y, z := a.milestones.value.items, b.milestones.value.items, c.milestones.value.items;
      forall i | 0 <= i < |x| ensures z[i] == x[i].(status := z[i].status) {
        assert y[i] == x[i].(status := y[i].status) && z[i] == y[i].(status := z[i].status);
      }
    }
  }

  /** A record whose status, amounts or nonce alone differ. */
  lemma MovedOn(a: Agreement, e: Escrow)
    requires e == a.escrow.(status := e.status, funded := e.funded, released := e.released,
                            overrideNonce := e.overrideNonce)
    ensures SameTerms(a, a.(escrow := e))
  {
    TermsReflexive(a);
  }

  lemma PaymentRecord(a: Agreement, l: Ledger, tokens: set<Address>, now: nat, action: Action)
    requires PaysOut(action) && Perform(a, l, tokens, now, action).Ok?
    ensures var t := Perform(a, l, tokens, now, action).value.agreement;
            && t == a.(escrow := t.escrow)
            && t.escrow == a.escrow.(status := t.escrow.status, released := t.escrow.released,
                                     overrideNonce := t.escrow.overrideNonce)
  {
  }

  lemma PaymentKeepsTerms(a: Agreement, l: Ledger, tokens: set<Address>, now: nat, action: Action)
    requires PaysOut(action) && Perform(a, l, tokens, now, action).Ok?
    ensures SameTerms(a, Perform(a, l, tokens, now, action).value.agreement)
  {
    PaymentRecord(a, l, tokens, now, action);
    MovedOn(a, Perform(a, l, tokens, now, action).value.agreement.escrow);
  }

  lemma ReturnKeepsTerms(a: Agreement, l: Ledger, tokens: set<Address>, now: nat, action: Action)
    requires IsReturn(action) && a.milestones.None? && Perform(a, l, tokens, now, action).Ok?
    ensures SameTerms(a, Perform(a, l, tokens, now, action).value.agreement)
  {
    ReturnOnlyMarks(a, l, tokens, now, action);
    MovedOn(a, a.escrow.(status := Refunded));
  }

  lemma ReturnOnlyMarks(a: Agreement, l: Ledger, tokens: set<Address>, now: nat, action: Action)
    requires IsReturn(action) && a.milestones.None? && Perform(a, l, tokens, now, action).Ok?
    ensures Perform(a, l, tokens, now, action).value.agreement == a.(escrow := a.escrow.(status := Refunded))
  {
  }

  /** The calls on milestones and the sender's cancellation of them. */
  predicate TouchesMilestones(a: Agreement, action: Action) {
    || action.DoReleaseMilestone? || action.DoDispute? || action.DoResolve? || action.DoCancelMilestones?
    || (IsReturn(action) && a.milestones.Some?)
  }

  lemma ApprovalKeepsTerms(a: Agreement, l: Ledger, caller: Address, index: nat)
    requires ReleaseMilestone(a, l, caller, index).Ok?
    ensures SameTerms(a, ReleaseMilestone(a, l, caller, index).value.agreement)
  {
  }

  lemma FlagKeepsTerms(a: Agreement, l: Ledger, caller: Address, index: nat)
    ensures DisputeMilestone(a, l, caller, index).Ok? ==>
              SameTerms(a, DisputeMilestone(a, l, caller, index).value.agreement)
    ensures ResolveMilestone(a, l, caller, index).Ok? ==>
              SameTerms(a, ResolveMilestone(a, l, caller, index).value.agreement)
  {
  }

  lemma CancellingKeepsTerms(a: Agreement, l: Ledger, caller: Address)
    requires CancelMilestones(a, l, caller).Ok?
    ensures SameTerms(a, CancelMilestones(a, l, caller).value.agreement)
  {
  }

  lemma NoRefundOfMilestones(a: Agreement, l: Ledger, tokens: set<Address>, now: nat, action: Action)
    requires IsReturn(action) && !action.DoCancel? && a.milestones.Some?
    ensures Perform(a, l, tokens, now, action).Err?
  {
  }

  lemma MilestoneCallKeepsTerms(a: Agreement, l: Ledger, tokens: set<Address>, now: nat, action: Action)
    requires TouchesMilestones(a, action) && Perform(a, l, tokens, now, action).Ok?
    ensures SameTerms(a, Perform(a, l, tokens, now, action).value.agreement)
  {
    match action
    case DoReleaseMilestone(caller, index) => ApprovalKeepsTerms(a, l, caller, index);
    case DoDispute(caller, index) => FlagKeepsTerms(a, l, caller, index);
    case DoResolve(caller, index) => FlagKeepsTerms(a, l, caller, index);
    case DoCancelMilestones(caller) => CancellingKeepsTerms(a, l, caller);
    case DoCancel(caller) => CancellingKeepsTerms(a, l, caller);
    case _ => NoRefundOfMilestones(a, l, tokens, now, action);
  }

  lemma OtherKeepsTerms(a: Agreement, l: Ledger, tokens: set<Address>, now: nat, action: Action)
    requires !PaysOut(action) && !IsReturn(action) && !TouchesMilestones(a, action)
    requires Perform(a, l, tokens, now, action).Ok?
    ensures SameTerms(a, Perform(a, l, tokens, now, action).value.agreement)
  {
  }

  lemma ActionKeepsTerms(a: Agreement, l: Ledger, tokens: set<Address>, now: nat, action: Action)
    requires Perform(a, l, tokens, now, action).Ok?
    ensures SameTerms(a, Perform(a, l, tokens, now, action).value.agreement)
  {
    if PaysOut(action) {
      PaymentKeepsTerms(a, l, tokens, now, action);
    } else if TouchesMilestones(a, action) {
      MilestoneCallKeepsTerms(a, l, tokens, now, action);
    } else if IsReturn(action) {
      ReturnKeepsTerms(a, l, tokens, now, action);
    } else {
      OtherKeepsTerms(a, l, tokens, now, action);
    }
  }

  ghost predicate HasTerms(c: Config, id: nat, a: Agreement) {
    Inv(c) && id in c.state.agreements && SameTerms(a, c.state.agreements[id])
  }

  lemma TermsAct(c: Config, op: Op, id: nat, a: Agreement)
    requires HasTerms(c, id, a) && op.Act? && op.id == id && Exec(c.state, op).Ok?
    ensures id in Next(c, op).state.agreements && SameTerms(a, Next(c, op).state.agreements[id])
  {
    var s := c.state;
    ActIsRecord(c, op);
    ActionKeepsTerms(s.agreements[id], s.ledger, s.tokens, s.now, op.action);
    SameTermsTrans(a, s.agreements[id], Next(c, op).state.agreements[id]);
  }

  lemma TermsStep(c: Config, op: Op, id: nat, a: Agreement)
    requires HasTerms(c, id, a) && Numbers(c, op)
    ensures HasTerms(Next(c, op), id, a)
  {
    StepKeepsInv(c, op);
    if op.Act? && op.id == id && Exec(c.state, op).Ok? {
      TermsAct(c, op, id, a);
    } else {
      OthersUntouched(c, op, id);
    }
  }

  lemma TermsStay(c0: Config, ops: seq<Op>, i: nat, j: nat, id: nat, a: Agreement)
    requires IsRun(c0, ops, j) && i <= j && HasTerms(ConfigAt(c0, ops, i), id, a)
    ensures HasTerms(ConfigAt(c0, ops, j), id, a)
  {
    var kept := (c: Config) => HasTerms(c, id, a);
    forall c, op {:trigger Next(c, op)} | kept(c) && Numbers(c, op) ensures kept(Next(c, op)) {
      TermsStep(c, op, id, a);
    }
    forall k | i <= k < j ensures Numbers(ConfigAt(c0, ops, k), ops[k]) { RunNumbers(c0, ops, k); }
    Preserved(c0, ops, i, j, kept);
  }

  /** Call `j` of the run opened escrow `id`. */
  ghost predicate OpenedAt(c0: Config, ops: seq<Op>, j: nat, id: nat)
    requires j < |ops|
  {
    var s := ConfigAt(c0, ops, j).state;
    ops[j].Open? && Exec(s, ops[j]).Ok? && Exec(s, ops[j]).value.id == id
  }

  lemma OpeningStores(c: Config, op: Op)
    requires Inv(c) && op.Open? && Exec(c.state, op).Ok? && c.state.count < U64_MAX
    ensures var id := Exec(c.state, op).value.id;
            && id in Next(c, op).state.agreements
            && Next(c, op).state.agreements[id] == Asked(op.opening, c.state.now)
  {
    OpenIsRecord(c, op);
    ExecOpens(c.state, op);
    EveryOpeningDecided(c.state.ledger, c.state.tokens, c.state.now, op.opening);
  }

  lemma TermsReflexive(a: Agreement)
    ensures SameTerms(a, a)
  {
  }

  lemma OpeningHasTerms(c: Config, op: Op)
    requires Inv(c) && op.Open? && Exec(c.state, op).Ok? && c.state.count < U64_MAX
    ensures HasTerms(Next(c, op), Exec(c.state, op).value.id, Asked(op.opening, c.state.now))
  {
    StepKeepsInv(c, op);
    OpeningStores(c, op);
    TermsReflexive(Asked(op.opening, c.state.now));
  }

  lemma RunOpens(c0: Config, ops: seq<Op>, j: nat, id: nat)
    requires IsRun(c0, ops, j) && j < |ops| && OpenedAt(c0, ops, j, id)
    ensures HasTerms(ConfigAt(c0, ops, j + 1), id, Asked(ops[j].opening, ConfigAt(c0, ops, j).state.now))
  {
    RunInv(c0, ops, j);
    OpeningHasTerms(ConfigAt(c0, ops, j), ops[j]);
  }

  ghost predicate CarriesTerms(c: Config, id: nat, a: Agreement) {
    id in c.state.agreements && SameTerms(a, c.state.agreements[id])
  }

  lemma TermsFrom(c0: Config, ops: seq<Op>, j: nat, k: nat, i: nat, id: nat, a: Agreement)
    requires IsRun(c0, ops, i) && j < k == j + 1 <= i && OpenedAt(c0, ops, j, id)
    requires a == Asked(ops[j].opening, ConfigAt(c0, ops, j).state.now)
    ensures CarriesTerms(ConfigAt(c0, ops, i), id, a)
  {
    RunOpens(c0, ops, j, id);
    TermsStay(c0, ops, k, i, id, a);
  }

  /** Over every run: from its opening on, an escrow carries the parties, instants, schedule,
      keys, condition and milestone weights its opening asked for, and no call changes them. */
  lemma TermsAsAsked(c0: Config, ops: seq<Op>, j: nat, i: nat, id: nat)
    requires IsRun(c0, ops, i) && j < i && OpenedAt(c0, ops, j, id)
    ensures CarriesTerms(ConfigAt(c0, ops, i), id, Asked(ops[j].opening, ConfigAt(c0, ops, j).state.now))
  {
    TermsFrom(c0, ops, j, j + 1, i, id, Asked(ops[j].opening, ConfigAt(c0, ops, j).state.now));
  }

  /** And every escrow was opened by a call of the run. */
  lemma {:induction false} EveryEscrowWasOpened(c0: Config, ops: seq<Op>, i: nat, id: nat)
    requires IsRun(c0, ops, i) && id in ConfigAt(c0, ops, i).state.agreements
    ensures exists j :: 0 <= j < i && OpenedAt(c0, ops, j, id)
  {
    if i > 0 {
      if id in ConfigAt(c0, ops, i - 1).state.agreements {
        EveryEscrowWasOpened(c0, ops, i - 1, id);
      } else {
        RunNumbered(c0, ops, i - 1);
        NewIdIsOpened(ConfigAt(c0, ops, i - 1), ops[i - 1], id);
        assert OpenedAt(c0, ops, i - 1, id);
      }
    }
  }

  lemma NewIdIsOpened(c: Config, op: Op, id: nat)
    requires Numbered(c) && c.state.count < U64_MAX
    requires id !in c.state.agreements && id in Next(c, op).state.agreements
    ensures op.Open? && Exec(c.state, op).Ok? && Exec(c.state, op).value.id == id
  {
    if Exec(c.state, op).Ok? {
      if op.Act? { ActIsRecord(c, op); }
    }
  }
}

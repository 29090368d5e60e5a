/** Every entrypoint keeps the accounting of the agreement it touches. */
module EscrowSteps {
  import opened Common
  import opened Arith
  import opened EscrowModel
  import opened EscrowShares
  import opened EscrowVesting
  import opened EscrowInvariant
  import opened EscrowMilestones

  // ----- openings -----

  lemma ValidAssetsOk(tokens: set<Address>, assets: seq<AssetAmount>)
    requires ValidateAssets(tokens, assets).Pass?
    ensures AssetsOk(assets)
  {
    AssetsFromMeaning(assets, 0);
  }

  /** The deposit loop opens balanced books. */
  lemma PullOpensBooks(e: Escrow, l: Ledger)
    requires TermsOk(e) && e.funded > 0 && PullFirst(l, e.sender, e.assets, |e.assets|).Ok?
    ensures var t := PullFirst(l, e.sender, e.assets, |e.assets|).value;
            && t.total == Total(e.assets)
            && BooksOk(e, Book(t.moves, [])) && RoutesOk(e, t.moves)
            && Covers(l, t.ledger, t.moves)
  {
    var t := PullFirst(l, e.sender, e.assets, |e.assets|).value;
    assert e.assets[..|e.assets|] == e.assets;
    forall a
      ensures Deposited(t.moves, a) == AmountOf(e.assets, a) && Paid(t.moves, a) == 0
      ensures Balance(t.ledger, SELF, a) >= Balance(l, SELF, a) + Deposited(t.moves, a) - Paid(t.moves, a)
    {
      PullEffect(l, e.sender, e.assets, |e.assets|, a);
      InboundPaysNobody(t.moves, e.sender, a, SELF);
    }
    PullTotals(l, e.sender, e.assets, |e.assets|);
    PullEffect(l, e.sender, e.assets, |e.assets|, SELF);
  }

  lemma OpenFundedKeeps(l: Ledger, now: nat, t: Terms, schedule: Schedule)
    requires t.sender != t.recipient && t.sender != SELF && AssetsOk(t.assets) && WellFormed(schedule)
    requires OpenFunded(l, t, schedule).Ok?
    ensures Keeps(EMPTY, l, now, OpenFunded(l, t, schedule).value)
  {
    var o := OpenFunded(l, t, schedule).value;
    var e := o.agreement.escrow;
    PullTotals(l, t.sender, t.assets, |t.assets|);
    assert t.assets[..|t.assets|] == t.assets;
    AmountWithinTotal(t.assets, SELF);
    PullOpensBooks(e, l);
    assert Append(EMPTY, o.moves, o.share) == Book(o.moves, []);
  }

  lemma UnfundedKeeps(l: Ledger, now: nat, e: Escrow)
    requires TermsOk(e) && e.status == Created && e.funded == 0 && e.released == 0
    ensures Keeps(EMPTY, l, now, Outcome(Plain(e), l, [], None, 0))
  {
    NoMoves(EMPTY, l);
  }

  lemma ConditionedKeeps(l: Ledger, tokens: set<Address>, now: nat, t: Terms, participants: seq<Address>,
                         threshold: nat)
    requires CreateConditioned(l, tokens, now, t, participants, threshold).Ok?
    ensures Keeps(EMPTY, l, now, CreateConditioned(l, tokens, now, t, participants, threshold).value)
  {
    ValidAssetsOk(tokens, t.assets);
    OpenFundedKeeps(l, now, t, NO_SCHEDULE);
  }

  lemma DepositMilestonesKeeps(l: Ledger, tokens: set<Address>, now: nat, sender: Address, recipient: Address,
                               arbiter: Address, asset: Address, amount: I128, deadline: nat, weights: seq<nat>)
    requires DepositMilestones(l, tokens, now, sender, recipient, arbiter, asset, amount, deadline, weights).Ok?
    ensures Keeps(EMPTY, l, now,
                  DepositMilestones(l, tokens, now, sender, recipient, arbiter, asset, amount, deadline, weights).value)
  {
    var o := DepositMilestones(l, tokens, now, sender, recipient, arbiter, asset, amount, deadline, weights).value;
    var e, items := o.agreement.escrow, o.agreement.milestones.value.items;
    assert e.assets[..0] == [] && e.assets[..1] == e.assets;
    assert PullFirst(l, sender, e.assets, 0) == Ok(Tally(l, [], 0));
    assert [] + o.moves == o.moves;
    assert PullFirst(l, sender, e.assets, 1) == Ok(Tally(o.ledger, o.moves, amount));
    PullOpensBooks(e, l);
    assert Append(EMPTY, o.moves, o.share) == Book(o.moves, []);
    PullEffect(l, sender, e.assets, 1, asset);
    InboundPaysNobody(o.moves, sender, asset, sender);
    InboundPaysNobody(o.moves, sender, asset, recipient);
    FreshScheduleOk(weights, amount);
  }

  lemma FreshScheduleOk(weights: seq<nat>, amount: int)
    requires weights != [] && BpsFirst(weights, |weights|) == Ok(BPS)
    ensures var items := FreshMilestones(weights);
            ScheduleOfMilestones(items) && !AllCompleted(items) && CompletedFloors(amount, items, |items|) == 0
  {
    var items := FreshMilestones(weights);
    BpsFirstIsSum(weights, |weights|);
    assert weights[..|weights|] == weights;
    assert Weights(items) == weights;
    assert items[0].status == Pending;
    NoneCompleted(items, amount, |items|);
  }

  lemma {:induction false} NoneCompleted(items: seq<Milestone>, amount: int, n: nat)
    requires n <= |items| && forall i :: 0 <= i < |items| ==> items[i].status == Pending
    ensures CompletedFloors(amount, items, n) == 0
  {
    if n > 0 { NoneCompleted(items, amount, n - 1); }
  }

  lemma BeginKeeps(l: Ledger, tokens: set<Address>, now: nat, op: Opening)
    requires Begin(l, tokens, now, op).Ok?
    ensures Keeps(EMPTY, l, now, Begin(l, tokens, now, op).value)
  {
    match op
    case NewEscrow(t) =>
      ValidAssetsOk(tokens, t.assets);
      OpenFundedKeeps(l, now, t, NO_SCHEDULE);
    case NewConditioned(t, participants, threshold) => ConditionedKeeps(l, tokens, now, t, participants, threshold);
    case NewTimelock(s, r, a, assets, unlock) =>
      ValidAssetsOk(tokens, assets);
      OpenFundedKeeps(l, now, BulletTerms(s, r, a, assets, unlock, 0), Schedule(Cliff, now, unlock, unlock));
    case NewScheduled(s, r, a, assets, schedule, deadline) =>
      ValidAssetsOk(tokens, assets);
      var effective := if deadline == 0 then schedule.end else deadline;
      OpenFundedKeeps(l, now, BulletTerms(s, r, a, assets, effective, 0), schedule);
    case NewUnfunded(s, r, a, assets, unlock, grace) =>
      ValidAssetsOk(tokens, assets);
      UnfundedKeeps(l, now, Begin(l, tokens, now, op).value.agreement.escrow);
    case NewMilestones(s, r, a, asset, amount, deadline, weights) =>
      DepositMilestonesKeeps(l, tokens, now, s, r, a, asset, amount, deadline, weights);
  }

  // ----- approvals -----

  /** `release_approvals`: the flagged ones among the first `n` participants, in order. */
  function ApprovalsFirst(participants: seq<Address>, approved: set<Address>, n: nat): (r: seq<Address>)
    requires n <= |participants|
    ensures |r| <= n
  {
    if n == 0 then []
    else ApprovalsFirst(participants, approved, n - 1)
         + (if participants[n - 1] in approved then [participants[n - 1]] else [])
  }

  /** The same as a set. */
  function Among(participants: seq<Address>, approved: set<Address>, n: nat): set<Address>
    requires n <= |participants|
  {
    if n == 0 then {}
    else Among(participants, approved, n - 1) + (if participants[n - 1] in approved then {participants[n - 1]} else {})
  }

  lemma {:induction false} AmongMeaning(participants: seq<Address>, approved: set<Address>, n: nat, p: Address)
    requires n <= |participants|
    ensures p in Among(participants, approved, n) <==> p in approved && exists i :: 0 <= i < n && participants[i] == p
  {
    if n > 0 { AmongMeaning(participants, approved, n - 1, p); }
  }

  lemma {:induction false} ApprovalsMeaning(participants: seq<Address>, approved: set<Address>, n: nat)
    requires n <= |participants| && Distinct(participants)
    ensures |ApprovalsFirst(participants, approved, n)| == |Among(participants, approved, n)|
    ensures forall p :: p in ApprovalsFirst(participants, approved, n) <==> p in Among(participants, approved, n)
  {
    if n > 0 {
      ApprovalsMeaning(participants, approved, n - 1);
      AmongMeaning(participants, approved, n - 1, participants[n - 1]);
    }
  }

  /** The list a client reads is as long as the counter: nobody is missed or counted twice. */
  lemma ListedApprovals(a: Agreement)
    requires ConditionOk(a) && a.condition.Some?
    ensures var c := a.condition.value;
            var listed := ApprovalsFirst(c.participants, a.approved, |c.participants|);
            && |listed| == c.approvals == |a.approved|
            && (forall p :: p in listed <==> p in a.approved)
  {
    var c := a.condition.value;
    ApprovalsMeaning(c.participants, a.approved, |c.participants|);
    forall p ensures p in Among(c.participants, a.approved, |c.participants|) <==> p in a.approved {
      AmongMeaning(c.participants, a.approved, |c.participants|, p);
    }
    assert Among(c.participants, a.approved, |c.participants|) == a.approved;
  }

  lemma OneMore(s: set<Address>, p: Address)
    requires p !in s && |s| <= MAX_SIGNERS
    ensures |s + {p}| == |s| + 1 == (|s| + 1) % (U32_MAX + 1)
  {
  }

  lemma ApproveCounts(a: Agreement, l: Ledger, caller: Address)
    requires ConditionOk(a) && ApproveRelease(a, l, caller).Ok?
    ensures var o := ApproveRelease(a, l, caller).value;
            && ConditionOk(o.agreement)
            && o == Outcome(a.(condition := o.agreement.condition, approved := a.approved + {caller}), l, [], None,
                            |a.approved| + 1)
  {
    ListedApprovals(a);
    OneMore(a.approved, caller);
  }

  lemma ApproveKeeps(a: Agreement, b: Book, now: nat, l: Ledger, caller: Address)
    requires AgreementOk(a, b, now) && ApproveRelease(a, l, caller).Ok?
    ensures Keeps(b, l, now, ApproveRelease(a, l, caller).value)
  {
    ApproveCounts(a, l, caller);
    NoMoves(b, l);
  }

  // ----- the other calls -----

  lemma FundKeeps(a: Agreement, b: Book, now: nat, l: Ledger, tokens: set<Address>, caller: Address)
    requires AgreementOk(a, b, now) && Fund(a, l, tokens, caller).Ok?
    ensures Keeps(b, l, now, Fund(a, l, tokens, caller).value)
  {
    var o := Fund(a, l, tokens, caller).value;
    var e := o.agreement.escrow;
    PullTotals(l, caller, e.assets, |e.assets|);
    assert e.assets[..|e.assets|] == e.assets;
    AmountWithinTotal(e.assets, SELF);
    PullOpensBooks(e, l);
    forall asset
      ensures Deposited(b.log + o.moves, asset) == AmountOf(e.assets, asset) && Paid(b.log + o.moves, asset) == 0
    {
      ConcatSums(b.log, o.moves, asset, SELF);
    }
    assert b.shares == [];
  }

  lemma MarkerKeeps(a: Agreement, b: Book, now: nat, l: Ledger, caller: Address, o: Outcome)
    requires AgreementOk(a, b, now)
    requires Ok(o) == Expire(a, l, now) || Ok(o) == Close(a, l, caller)
    ensures Keeps(b, l, now, o)
  {
    NoMoves(b, l);
  }

  /** The calls that may pay or return a whole asset list. */
  predicate IsPlain(action: Action) {
    || action.DoWithdraw? || action.DoClaim? || action.DoRelease? || action.DoOverride?
    || action.DoRefund? || action.DoRefundTimelock? || action.DoReclaim? || action.DoCancel?
  }

  lemma PlainKeeps(a: Agreement, b: Book, l: Ledger, tokens: set<Address>, now: nat, action: Action)
    requires AgreementOk(a, b, now) && IsPlain(action) && Early(action).Pass? && Perform(a, l, tokens, now, action).Ok?
    ensures Keeps(b, l, now, Perform(a, l, tokens, now, action).value)
  {
    var o := Perform(a, l, tokens, now, action).value;
    match action
    case DoWithdraw(caller, amount) => WithdrawKeeps(a, b, now, l, caller, amount);
    case DoClaim(caller) => ClaimKeeps(a, b, now, l, caller);
    case DoRelease(caller, amount) => ReleaseKeeps(a, b, now, l, caller, amount);
    case DoOverride(nonce, signatures) => OverrideKeeps(a, b, now, l, nonce, signatures);
    case DoRefund(caller) => RefundKeeps(a, b, now, l, caller, o);
    case DoRefundTimelock(caller) => RefundKeeps(a, b, now, l, caller, o);
    case DoReclaim(caller) => RefundKeeps(a, b, now, l, caller, o);
    case DoCancel(caller) =>
      if a.milestones.Some? { CancelMilestonesKeeps(a, b, now, l, caller); } else { CancelKeeps(a, b, now, l, caller); }
  }

  /** Whatever an entrypoint does to a sound agreement, it leaves it sound, with custody
      covering every token it moved. */
  lemma PerformKeeps(a: Agreement, b: Book, l: Ledger, tokens: set<Address>, now: nat, action: Action)
    requires AgreementOk(a, b, now) && Early(action).Pass? && Perform(a, l, tokens, now, action).Ok?
    ensures Keeps(b, l, now, Perform(a, l, tokens, now, action).value)
  {
    var o := Perform(a, l, tokens, now, action).value;
    if IsPlain(action) {
      PlainKeeps(a, b, l, tokens, now, action);
    } else {
      match action
      case DoApprove(caller) => ApproveKeeps(a, b, now, l, caller);
      case DoFund(caller) => FundKeeps(a, b, now, l, tokens, caller);
      case DoExpire => MarkerKeeps(a, b, now, l, SELF, o);
      case DoClose(caller) => MarkerKeeps(a, b, now, l, caller, o);
      case DoReleaseMilestone(caller, index) => ReleaseMilestoneKeeps(a, b, now, l, caller, index);
      case DoDispute(caller, index) => FlagKeeps(a, b, now, l, caller, index, o);
      case DoResolve(caller, index) => FlagKeeps(a, b, now, l, caller, index, o);
      case DoCancelMilestones(caller) => CancelMilestonesKeeps(a, b, now, l, caller);
    }
  }
}

/** Whether the money of a milestone escrow can ever leave custody in full, and with it the
    exact condition for every live escrow of the contract. */
module EscrowMilestoneRecovery {
  import opened Common
  import opened Arith
  import opened EscrowModel
  import opened EscrowShares
  import opened EscrowInvariant
  import opened EscrowMilestones
  import opened EscrowSteps
  import opened EscrowTheorems
  import opened EscrowPromises
  import opened EscrowRecovery

  // ----- the condition -----

  predicate Unpaid(m: Milestone) { m.status != Completed }

  /** The share of every milestone that is not yet paid can be computed. */
  predicate OpenSharesFit(funded: int, items: seq<Milestone>) {
    forall i :: 0 <= i < |items| && Unpaid(items[i]) ==> funded * items[i].bps <= I128_MAX
  }

  /** A funded milestone escrow settles by completing what is open; an expired one only by
      cancelling what remains. */
  predicate MilestonesRecoverable(e: Escrow, ms: MilestoneSet) {
    if e.status == Expired then e.funded == ms.released || e.funded * (e.funded - ms.released) <= I128_MAX
    else OpenSharesFit(e.funded, ms.items)
  }

  /** The condition for every live escrow, read off its stored record and the clock. */
  predicate CanSettle(a: Agreement, now: nat) {
    match a.milestones
    case None => Recoverable(a.escrow, now)
    case Some(ms) => MilestonesRecoverable(a.escrow, ms)
  }

  // ----- locked for ever -----

  predicate Locked(a: Agreement) {
    a.milestones.Some? && Live(a.escrow) && !MilestonesRecoverable(a.escrow, a.milestones.value)
  }

  /** Milestone `k` is open and its share cannot be computed. */
  predicate Blocked(a: Agreement, k: nat) {
    && a.milestones.Some? && k < |a.milestones.value.items|
    && Unpaid(a.milestones.value.items[k]) && a.escrow.funded * a.milestones.value.items[k].bps > I128_MAX
  }

  lemma LockedIsBlocked(a: Agreement) returns (k: nat)
    requires Locked(a) && a.escrow.status == Funded
    ensures Blocked(a, k)
  {
    k :| k < |a.milestones.value.items| && Unpaid(a.milestones.value.items[k])
         && a.escrow.funded * a.milestones.value.items[k].bps > I128_MAX;
  }

  lemma {:induction false} EachAtMostSum(shares: seq<int>, k: nat)
    requires NonNegative(shares) && k < |shares|
    ensures 0 <= shares[k] <= Sum(shares)
  {
    var n := |shares| - 1;
    SumNonNegative(shares[..n]);
    if k < n { EachAtMostSum(shares[..n], k); }
  }

  lemma {:induction false} SumNonNegative(shares: seq<int>)
    requires NonNegative(shares)
    ensures Sum(shares) >= 0
  {
    if shares != [] { SumNonNegative(shares[..|shares| - 1]); }
  }

  /** A share too large to compute leaves a remainder too large to return. */
  lemma BlockedProduct(funded: nat, bps: nat, remaining: int)
    requires bps <= BPS && funded * bps > I128_MAX && Portion(funded, bps, BPS) <= remaining
    ensures remaining > 0 && funded * remaining > I128_MAX
  {
    var floor := I128_MAX / BPS;
    FloorMonotone(I128_MAX, funded * bps, BPS);
    assert floor >= BPS;
    MulMonotone(funded, bps, remaining);
  }

  /** While a milestone is blocked, what remains cannot be returned either. */
  lemma BlockedRemainder(a: Agreement, b: Book, now: nat, k: nat)
    requires AgreementOk(a, b, now) && Live(a.escrow) && Blocked(a, k)
    ensures var e, ms := a.escrow, a.milestones.value;
            e.funded - ms.released > 0 && e.funded * (e.funded - ms.released) > I128_MAX
  {
    var e, ms := a.escrow, a.milestones.value;
    PayoutWithinRemaining(ms.items, k, e.funded);
    EachAtMostSum(Weights(ms.items), k);
    BlockedProduct(e.funded, ms.items[k].bps, e.funded - ms.released);
  }

  /** A cancellation that succeeds has returned its remainder. */
  lemma CancelNeedsProduct(a: Agreement, b: Book, now: nat, l: Ledger, caller: Address)
    requires AgreementOk(a, b, now) && CancelMilestones(a, l, caller).Ok?
    ensures Live(a.escrow) && MilestonesRecoverable(a.escrow.(status := Expired), a.milestones.value)
  {
    var e, ms := a.escrow, a.milestones.value;
    var x := e.funded - ms.released;
    if x > 0 {
      PaidProductsFit(l, e.sender, e.assets, x, e.funded, 1);
      assert e.assets[0].amount * x <= I128_MAX;
    }
  }

  /** An approval that succeeds has computed its share. */
  lemma ReleaseNeedsProduct(a: Agreement, l: Ledger, caller: Address, index: nat)
    requires TermsOk(a.escrow) && |a.escrow.assets| == 1 && a.escrow.funded == a.escrow.assets[0].amount
    requires ReleaseMilestone(a, l, caller, index).Ok?
    ensures var k := SelectMilestone(a, caller, index, Pending);
            k.Ok? && a.escrow.funded * a.milestones.value.items[k.value].bps <= I128_MAX
  {
    assert Total(a.escrow.assets) == a.escrow.funded by { assert a.escrow.assets[..0] == []; }
  }

  lemma {:induction false} TwoOpen(items: seq<Milestone>, i: nat, j: nat, n: nat)
    requires n <= |items| && i < |items| && j < |items| && i != j && Unpaid(items[i]) && Unpaid(items[j])
    ensures OpenCount(items, n) >= (if i < n then 1 else 0) + (if j < n then 1 else 0)
  {
    if n > 0 { TwoOpen(items, i, j, n - 1); }
  }

  /** Approving another milestone leaves the blocked one open and the escrow funded. */
  lemma BlockedSurvivesRelease(a: Agreement, b: Book, now: nat, l: Ledger, caller: Address, index: nat, k: nat)
    requires AgreementOk(a, b, now) && Blocked(a, k) && ReleaseMilestone(a, l, caller, index).Ok?
    ensures var t := ReleaseMilestone(a, l, caller, index).value.agreement;
            t.escrow == a.escrow && t.escrow.status == Funded && Blocked(t, k)
  {
    ReleaseMilestoneMeaning(a, b, now, l, caller, index);
    ReleaseNeedsProduct(a, l, caller, index);
    var items := a.milestones.value.items;
    TwoOpen(items, index, k, |items|);
  }

  lemma BlockedSurvivesFlag(a: Agreement, l: Ledger, caller: Address, index: nat, k: nat, o: Outcome)
    requires Blocked(a, k)
    requires Ok(o) == DisputeMilestone(a, l, caller, index) || Ok(o) == ResolveMilestone(a, l, caller, index)
    ensures o.agreement.escrow == a.escrow && a.escrow.status == Funded && Blocked(o.agreement, k)
  {
  }

  predicate OnMilestones(action: Action) {
    || action.DoReleaseMilestone? || action.DoDispute? || action.DoResolve?
    || action.DoCancel? || action.DoCancelMilestones?
  }

  /** Of the other calls only the marker is open to a live milestone escrow. */
  lemma OtherCallsOnMilestones(a: Agreement, b: Book, l: Ledger, tokens: set<Address>, now: nat, action: Action)
    requires AgreementOk(a, b, now) && a.milestones.Some? && Live(a.escrow) && !OnMilestones(action)
    requires Perform(a, l, tokens, now, action).Ok?
    ensures a.escrow.status == Funded
    ensures Perform(a, l, tokens, now, action).value.agreement == a.(escrow := a.escrow.(status := Expired))
  {
  }

  lemma LockedCannotReturn(a: Agreement, b: Book, l: Ledger, now: nat, caller: Address)
    requires AgreementOk(a, b, now) && Locked(a)
    ensures CancelMilestones(a, l, caller).Err?
  {
    if CancelMilestones(a, l, caller).Ok? {
      CancelNeedsProduct(a, b, now, l, caller);
      if a.escrow.status == Funded {
        var k := LockedIsBlocked(a);
        BlockedRemainder(a, b, now, k);
      }
    }
  }

  /** A milestone call that succeeds on an escrow with a blocked milestone leaves it blocked. */
  lemma BlockedCall(a: Agreement, b: Book, l: Ledger, tokens: set<Address>, now: nat, action: Action, k: nat)
    requires AgreementOk(a, b, now) && Blocked(a, k) && Perform(a, l, tokens, now, action).Ok?
    requires action.DoReleaseMilestone? || action.DoDispute? || action.DoResolve?
    ensures var t := Perform(a, l, tokens, now, action).value.agreement;
            t.escrow == a.escrow && a.escrow.status == Funded && Blocked(t, k)
  {
    var o := Perform(a, l, tokens, now, action).value;
    match action
    case DoReleaseMilestone(caller, index) => BlockedSurvivesRelease(a, b, now, l, caller, index, k);
    case DoDispute(caller, index) => BlockedSurvivesFlag(a, l, caller, index, k, o);
    case DoResolve(caller, index) => BlockedSurvivesFlag(a, l, caller, index, k, o);
  }

  lemma BlockedIsLocked(a: Agreement, k: nat)
    requires Blocked(a, k) && a.escrow.status == Funded
    ensures Locked(a)
  {
  }

  /** These calls need a funded escrow. */
  lemma MilestoneCallNeedsFunded(a: Agreement, l: Ledger, tokens: set<Address>, now: nat, action: Action)
    requires (action.DoReleaseMilestone? || action.DoDispute? || action.DoResolve?)
    requires Perform(a, l, tokens, now, action).Ok?
    ensures a.escrow.status == Funded
  {
  }

  /** A milestone call on a locked escrow leaves it locked. */
  lemma LockedMilestoneCall(a: Agreement, b: Book, l: Ledger, tokens: set<Address>, now: nat, action: Action)
    requires AgreementOk(a, b, now) && Locked(a) && OnMilestones(action) && Perform(a, l, tokens, now, action).Ok?
    ensures a.escrow.status == Funded && Locked(Perform(a, l, tokens, now, action).value.agreement)
  {
    if action.DoCancel? || action.DoCancelMilestones? {
      LockedCannotReturn(a, b, l, now, action.caller);
    } else {
      MilestoneCallNeedsFunded(a, l, tokens, now, action);
      var k := LockedIsBlocked(a);
      BlockedCall(a, b, l, tokens, now, action, k);
      BlockedIsLocked(Perform(a, l, tokens, now, action).value.agreement, k);
    }
  }

  lemma ExpiredIsLocked(a: Agreement, b: Book, now: nat)
    requires AgreementOk(a, b, now) && Locked(a) && a.escrow.status == Funded
    ensures Locked(a.(escrow := a.escrow.(status := Expired)))
  {
    var k := LockedIsBlocked(a);
    BlockedRemainder(a, b, now, k);
  }

  /** No call frees a locked milestone escrow, and none succeeds on an expired one. */
  lemma LockedStep(a: Agreement, b: Book, l: Ledger, tokens: set<Address>, now: nat, action: Action)
    requires AgreementOk(a, b, now) && Locked(a) && Perform(a, l, tokens, now, action).Ok?
    ensures a.escrow.status == Funded && Locked(Perform(a, l, tokens, now, action).value.agreement)
  {
    if OnMilestones(action) {
      LockedMilestoneCall(a, b, l, tokens, now, action);
    } else {
      OtherCallsOnMilestones(a, b, l, tokens, now, action);
      ExpiredIsLocked(a, b, now);
    }
  }

  ghost predicate LockedAt(c: Config, id: nat) {
    Inv(c) && id in c.state.agreements && Locked(c.state.agreements[id])
  }

  lemma LockedAct(c: Config, op: Op, id: nat)
    requires LockedAt(c, id) && op.Act? && op.id == id && Exec(c.state, op).Ok?
    ensures c.state.agreements[id].escrow.status == Funded
    ensures id in Next(c, op).state.agreements && Locked(Next(c, op).state.agreements[id])
  {
    var s := c.state;
    ActIsRecord(c, op);
    LockedStep(s.agreements[id], c.books[id], s.ledger, s.tokens, s.now, op.action);
  }

  lemma LockedNext(c: Config, op: Op, id: nat)
    requires LockedAt(c, id) && Numbers(c, op)
    ensures LockedAt(Next(c, op), id)
  {
    StepKeepsInv(c, op);
    if op.Act? && op.id == id && Exec(c.state, op).Ok? {
      LockedAct(c, op, id);
    } else {
      OthersUntouched(c, op, id);
    }
  }

  /** Once locked, no continuation ever settles it. */
  lemma LockedForever(c: Config, ops: seq<Op>, i: nat, id: nat)
    requires LockedAt(c, id) && Continues(c, ops) && i <= |ops|
    ensures LockedAt(ConfigAt(c, ops, i), id)
  {
    var kept := (d: Config) => LockedAt(d, id);
    forall d, op {:trigger Next(d, op)} | kept(d) && Numbers(d, op) ensures kept(Next(d, op)) {
      LockedNext(d, op, id);
    }
    Preserved(c, ops, 0, i, kept);
  }

  /** Locked and expired, with the book `book`. */
  ghost predicate SealedWith(c: Config, id: nat, book: Book) {
    LockedAt(c, id) && c.state.agreements[id].escrow.status == Expired && c.books[id] == book
  }

  lemma SealedNext(c: Config, op: Op, id: nat, book: Book)
    requires SealedWith(c, id, book) && Numbers(c, op)
    ensures SealedWith(Next(c, op), id, book)
  {
    LockedNext(c, op, id);
    if op.Act? && op.id == id && Exec(c.state, op).Ok? {
      LockedAct(c, op, id);
    } else {
      OthersUntouched(c, op, id);
    }
  }

  /** Once locked and expired, no continuation ever pays any of it to anybody. */
  lemma SealedForever(c: Config, ops: seq<Op>, i: nat, id: nat, book: Book)
    requires SealedWith(c, id, book) && Continues(c, ops) && i <= |ops|
    ensures SealedWith(ConfigAt(c, ops, i), id, book)
  {
    var kept := (d: Config) => SealedWith(d, id, book);
    forall d, op {:trigger Next(d, op)} | kept(d) && Numbers(d, op) ensures kept(Next(d, op)) {
      SealedNext(d, op, id, book);
    }
    Preserved(c, ops, 0, i, kept);
  }

  // ----- ways out -----

  /** The milestone escrow `id` of `c`, funded. */
  ghost predicate HoldsMilestones(c: Config, id: nat) {
    && Inv(c) && id in c.state.agreements
    && c.state.agreements[id].milestones.Some? && c.state.agreements[id].escrow.status == Funded
  }

  lemma FundedMilestones(c: Config, id: nat)
    requires HoldsMilestones(c, id)
    ensures var ms := c.state.agreements[id].milestones.value;
            && !ms.cancelled && !AllCompleted(ms.items)
            && (forall i :: 0 <= i < |ms.items| ==> ms.items[i].index == i)
  {
  }

  predicate Resolvable(a: Agreement, k: nat) {
    && a.milestones.Some? && a.escrow.status == Funded && !a.milestones.value.cancelled
    && k < |a.milestones.value.items| && a.milestones.value.items[k].status == Disputed
    && (forall i :: 0 <= i < |a.milestones.value.items| ==> a.milestones.value.items[i].index == i)
  }

  lemma ResolveSucceeds(a: Agreement, l: Ledger, k: nat)
    requires Resolvable(a, k)
    ensures ResolveMilestone(a, l, a.escrow.arbiter, k).Ok?
    ensures ResolveMilestone(a, l, a.escrow.arbiter, k).value.agreement
         == a.(milestones := Some(Mark(a.milestones.value, k, Pending)))
  {
    assert Locate(a.milestones.value.items, k, |a.milestones.value.items|) == Some(k);
  }

  /** The same schedule with the status of milestone `k` set. */
  predicate Marked(a: Agreement, t: Agreement, k: nat, status: MilestoneStatus) {
    && a.milestones.Some? && t.milestones.Some? && k < |a.milestones.value.items| && t.escrow == a.escrow
    && t.milestones.value.items
       == a.milestones.value.items[k := a.milestones.value.items[k].(status := status)]
  }

  lemma MarkedKeepsFit(a: Agreement, t: Agreement, k: nat, status: MilestoneStatus)
    requires Marked(a, t, k, status) && Unpaid(a.milestones.value.items[k])
    requires OpenSharesFit(a.escrow.funded, a.milestones.value.items)
    ensures OpenSharesFit(t.escrow.funded, t.milestones.value.items)
    ensures LeftOpen(t) == LeftOpen(a) - (if status == Completed then 1 else 0)
  {
    MarkEffect(a.milestones.value.items, k, status, 0, |a.milestones.value.items|);
  }

  /** The share of milestone `k` can be computed. */
  predicate ShareFits(a: Agreement, k: nat) {
    && a.milestones.Some? && k < |a.milestones.value.items|
    && a.escrow.funded * a.milestones.value.items[k].bps <= I128_MAX
  }

  lemma ResolveOne(reach: (Config, Config) -> bool, c: Config, id: nat, k: nat) returns (d: Config)
    requires ClosedUnderCalls(reach) && HoldsMilestones(c, id) && k < |c.state.agreements[id].milestones.value.items|
    requires c.state.agreements[id].milestones.value.items[k].status == Disputed
    ensures reach(c, d) && HoldsMilestones(d, id) && Marked(c.state.agreements[id], d.state.agreements[id], k, Pending)
  {
    var a := c.state.agreements[id];
    var t := ResolveYields(c, id, k);
    d := AdvanceTo(reach, c, id, DoResolve(a.escrow.arbiter, k), t);
  }

  lemma ResolveYields(c: Config, id: nat, k: nat) returns (t: Agreement)
    requires HoldsMilestones(c, id) && k < |c.state.agreements[id].milestones.value.items|
    requires c.state.agreements[id].milestones.value.items[k].status == Disputed
    ensures Yields(c, id, DoResolve(c.state.agreements[id].escrow.arbiter, k), t)
    ensures Marked(c.state.agreements[id], t, k, Pending)
  {
    FundedMilestones(c, id);
    t := ResolvedAgreement(c, id, k);
  }

  lemma ResolvedAgreement(c: Config, id: nat, k: nat) returns (t: Agreement)
    requires id in c.state.agreements && Resolvable(c.state.agreements[id], k)
    ensures Yields(c, id, DoResolve(c.state.agreements[id].escrow.arbiter, k), t)
    ensures Marked(c.state.agreements[id], t, k, Pending)
  {
    var a := c.state.agreements[id];
    ResolveSucceeds(a, c.state.ledger, k);
    t := ResolveMilestone(a, c.state.ledger, a.escrow.arbiter, k).value.agreement;
  }

  lemma ReleaseSucceeds(c: Config, id: nat, k: nat)
    requires HoldsMilestones(c, id) && ShareFits(c.state.agreements[id], k)
    requires c.state.agreements[id].milestones.value.items[k].status == Pending
    ensures var a := c.state.agreements[id];
            var r := ReleaseMilestone(a, c.state.ledger, a.escrow.arbiter, k);
            r.Ok? && (Settled(r.value.agreement.escrow) || Marked(a, r.value.agreement, k, Completed))
  {
    var a := c.state.agreements[id];
    FundedMilestones(c, id);
    MilestoneNeverBounces(c, id, k);
    ReleaseMilestoneMeaning(a, c.books[id], c.state.now, c.state.ledger, a.escrow.arbiter, k);
  }

  lemma ReleaseYields(c: Config, id: nat, k: nat) returns (t: Agreement)
    requires HoldsMilestones(c, id) && ShareFits(c.state.agreements[id], k)
    requires c.state.agreements[id].milestones.value.items[k].status == Pending
    ensures Yields(c, id, DoReleaseMilestone(c.state.agreements[id].escrow.arbiter, k), t)
    ensures Settled(t.escrow) || Marked(c.state.agreements[id], t, k, Completed)
  {
    ReleaseSucceeds(c, id, k);
    t := ReleasedAgreement(c, id, k);
  }

  lemma ReleasedAgreement(c: Config, id: nat, k: nat) returns (t: Agreement)
    requires id in c.state.agreements && c.state.agreements[id].milestones.Some?
    requires var a := c.state.agreements[id];
             var r := ReleaseMilestone(a, c.state.ledger, a.escrow.arbiter, k);
             r.Ok? && (Settled(r.value.agreement.escrow) || Marked(a, r.value.agreement, k, Completed))
    ensures Yields(c, id, DoReleaseMilestone(c.state.agreements[id].escrow.arbiter, k), t)
    ensures Settled(t.escrow) || Marked(c.state.agreements[id], t, k, Completed)
  {
    var a := c.state.agreements[id];
    t := ReleaseMilestone(a, c.state.ledger, a.escrow.arbiter, k).value.agreement;
  }

  /** Milestone `k` was paid: the escrow is settled, or still holds the others. */
  ghost predicate PaidOne(c: Config, d: Config, id: nat, k: nat)
    requires id in c.state.agreements
  {
    || Redeemed(d, id)
    || (HoldsMilestones(d, id) && Marked(c.state.agreements[id], d.state.agreements[id], k, Completed))
  }

  lemma ReleaseOne(reach: (Config, Config) -> bool, c: Config, id: nat, k: nat) returns (d: Config)
    requires ClosedUnderCalls(reach) && HoldsMilestones(c, id) && ShareFits(c.state.agreements[id], k)
    requires c.state.agreements[id].milestones.value.items[k].status == Pending
    ensures reach(c, d) && PaidOne(c, d, id, k)
  {
    var t := ReleaseYields(c, id, k);
    d := AdvanceTo(reach, c, id, DoReleaseMilestone(c.state.agreements[id].escrow.arbiter, k), t);
  }

  lemma ResolvedFits(a: Agreement, t: Agreement, k: nat)
    requires Marked(a, t, k, Pending) && ShareFits(a, k)
    ensures ShareFits(t, k) && t.milestones.value.items[k].status == Pending
  {
  }

  lemma MarkedTwice(a: Agreement, t: Agreement, u: Agreement, k: nat)
    requires Marked(a, t, k, Pending) && Marked(t, u, k, Completed)
    ensures Marked(a, u, k, Completed)
  {
  }

  /** Resolve milestone `k` if it is disputed, then approve it. */
  lemma CompleteOne(reach: (Config, Config) -> bool, c: Config, id: nat, k: nat) returns (d: Config)
    requires ClosedUnderCalls(reach) && HoldsMilestones(c, id) && ShareFits(c.state.agreements[id], k)
    requires Unpaid(c.state.agreements[id].milestones.value.items[k])
    ensures reach(c, d) && PaidOne(c, d, id, k)
  {
    if c.state.agreements[id].milestones.value.items[k].status == Disputed {
      var p := ResolveOne(reach, c, id, k);
      ResolvedFits(c.state.agreements[id], p.state.agreements[id], k);
      d := ReleaseOne(reach, p, id, k);
      if !Redeemed(d, id) {
        MarkedTwice(c.state.agreements[id], p.state.agreements[id], d.state.agreements[id], k);
      }
    } else {
      d := ReleaseOne(reach, c, id, k);
    }
  }

  /** How many milestones are still to be paid. */
  function LeftOpen(a: Agreement): nat {
    if a.milestones.Some? then OpenCount(a.milestones.value.items, |a.milestones.value.items|) else 0
  }

  /** A funded milestone escrow whose open shares can be computed is completed one by one. */
  lemma {:induction false} CompleteAll(reach: (Config, Config) -> bool, c: Config, id: nat) returns (d: Config)
    requires ClosedUnderCalls(reach) && HoldsMilestones(c, id)
    requires OpenSharesFit(c.state.agreements[id].escrow.funded, c.state.agreements[id].milestones.value.items)
    ensures reach(c, d) && Redeemed(d, id)
    decreases LeftOpen(c.state.agreements[id])
  {
    FundedMilestones(c, id);
    var items := c.state.agreements[id].milestones.value.items;
    var k: nat :| k < |items| && Unpaid(items[k]);
    d := CompleteOne(reach, c, id, k);
    if !Redeemed(d, id) {
      MarkedKeepsFit(c.state.agreements[id], d.state.agreements[id], k, Completed);
      d := CompleteAll(reach, d, id);
    }
  }

  lemma CancelYields(c: Config, id: nat, remaining: int) returns (t: Agreement)
    requires Inv(c) && id in c.state.agreements && c.state.agreements[id].milestones.Some?
    requires Live(c.state.agreements[id].escrow)
    requires remaining == c.state.agreements[id].escrow.funded - c.state.agreements[id].milestones.value.released
    requires remaining == 0 || c.state.agreements[id].escrow.funded * remaining <= I128_MAX
    ensures Yields(c, id, DoCancelMilestones(c.state.agreements[id].escrow.sender), t) && Settled(t.escrow)
  {
    MilestoneExit(c, id, c.state.agreements[id].escrow.sender, remaining);
    t := CancelledAgreement(c, id);
  }

  lemma CancelledAgreement(c: Config, id: nat) returns (t: Agreement)
    requires id in c.state.agreements
    requires CancelMilestones(c.state.agreements[id], c.state.ledger, c.state.agreements[id].escrow.sender).Ok?
    ensures Yields(c, id, DoCancelMilestones(c.state.agreements[id].escrow.sender), t) && Settled(t.escrow)
  {
    var a := c.state.agreements[id];
    SettlingRecord(a, c.state.ledger, c.state.tokens, c.state.now, DoCancelMilestones(a.escrow.sender));
    t := CancelMilestones(a, c.state.ledger, a.escrow.sender).value.agreement;
  }

  /** An expired one is cancelled. */
  lemma CancelNow(reach: (Config, Config) -> bool, c: Config, id: nat, remaining: int) returns (d: Config)
    requires ClosedUnderCalls(reach) && Inv(c) && id in c.state.agreements
    requires c.state.agreements[id].milestones.Some? && Live(c.state.agreements[id].escrow)
    requires remaining == c.state.agreements[id].escrow.funded - c.state.agreements[id].milestones.value.released
    requires remaining == 0 || c.state.agreements[id].escrow.funded * remaining <= I128_MAX
    ensures reach(c, d) && Redeemed(d, id)
  {
    var t := CancelYields(c, id, remaining);
    d := AdvanceTo(reach, c, id, DoCancelMilestones(c.state.agreements[id].escrow.sender), t);
  }

  /** From a milestone escrow that can settle, its settlement is in reach. */
  lemma MilestonesInReach(reach: (Config, Config) -> bool, c: Config, id: nat, remaining: int) returns (d: Config)
    requires ClosedUnderCalls(reach) && Inv(c) && id in c.state.agreements
    requires c.state.agreements[id].milestones.Some? && Live(c.state.agreements[id].escrow)
    requires remaining == c.state.agreements[id].escrow.funded - c.state.agreements[id].milestones.value.released
    requires MilestonesRecoverable(c.state.agreements[id].escrow, c.state.agreements[id].milestones.value)
    ensures reach(c, d) && Redeemed(d, id)
  {
    if c.state.agreements[id].escrow.status == Expired {
      d := CancelNow(reach, c, id, remaining);
    } else {
      d := CompleteAll(reach, c, id);
    }
  }

  lemma MilestonesReach(c: Config, id: nat) returns (ops: seq<Op>)
    requires Inv(c) && id in c.state.agreements && c.state.agreements[id].milestones.Some?
    requires Live(c.state.agreements[id].escrow)
    requires MilestonesRecoverable(c.state.agreements[id].escrow, c.state.agreements[id].milestones.value)
    ensures Redeems(c, ops, id)
  {
    var reach := (x: Config, y: Config) => Reaches(x, y);
    ReachesIsClosed(reach);
    var e, ms := c.state.agreements[id].escrow, c.state.agreements[id].milestones.value;
    var d := MilestonesInReach(reach, c, id, e.funded - ms.released);
    ops :| Leads(c, ops, d);
    LeadsContinues(c, ops, d);
  }

  // ----- the exact condition -----

  lemma LockedIsLive(c: Config, id: nat)
    requires LockedAt(c, id)
    ensures !Redeemed(c, id)
  {
  }

  lemma LockedNeverRedeems(c: Config, ops: seq<Op>, id: nat)
    requires LockedAt(c, id) && Continues(c, ops)
    ensures !Redeems(c, ops, id)
  {
    LockedForever(c, ops, |ops|, id);
    LockedIsLive(ConfigAt(c, ops, |ops|), id);
  }

  lemma SealedThen(c: Config, ops: seq<Op>, id: nat, book: Book)
    requires SealedWith(c, id, book) && Continues(c, ops)
    ensures BookOf(ConfigAt(c, ops, |ops|), id) == book
  {
    SealedForever(c, ops, |ops|, id, book);
  }

  /** The exact condition for every reachable funded or expired milestone escrow: some
      continuation settles it if and only if it is recoverable, and when an expired one is not,
      no continuation moves any of its money. */
  lemma MilestoneRecovery(c: Config, id: nat)
    requires Inv(c) && id in c.state.agreements && c.state.agreements[id].milestones.Some?
    requires Live(c.state.agreements[id].escrow)
    ensures var a := c.state.agreements[id];
            && ((exists ops :: Redeems(c, ops, id)) <==> MilestonesRecoverable(a.escrow, a.milestones.value))
            && (Locked(a) && a.escrow.status == Expired ==>
                  forall ops :: Continues(c, ops) ==> BookOf(ConfigAt(c, ops, |ops|), id) == BookOf(c, id))
  {
    var a := c.state.agreements[id];
    if MilestonesRecoverable(a.escrow, a.milestones.value) {
      var ops := MilestonesReach(c, id);
    } else {
      forall ops ensures !Redeems(c, ops, id) {
        if Continues(c, ops) { LockedNeverRedeems(c, ops, id); }
      }
      if a.escrow.status == Expired {
        forall ops | Continues(c, ops) ensures BookOf(ConfigAt(c, ops, |ops|), id) == BookOf(c, id) {
          SealedThen(c, ops, id, c.books[id]);
        }
      }
    }
  }

  /** The exact condition for every reachable live escrow, of any kind: some continuation
      settles it if and only if its record and the clock allow it. When they do not, nothing of
      it is ever paid again, except that a funded milestone escrow may still pay the milestones
      whose shares can be computed. */
  lemma Recovery(c: Config, id: nat)
    requires Inv(c) && id in c.state.agreements && Live(c.state.agreements[id].escrow)
    ensures var a := c.state.agreements[id];
            && ((exists ops :: Redeems(c, ops, id)) <==> CanSettle(a, c.state.now))
            && (!CanSettle(a, c.state.now) && (a.milestones.None? || a.escrow.status == Expired) ==>
                  forall ops :: Continues(c, ops) ==> BookOf(ConfigAt(c, ops, |ops|), id) == BookOf(c, id))
  {
    if c.state.agreements[id].milestones.None? {
      PlainRecovery(c, id);
    } else {
      MilestoneRecovery(c, id);
    }
  }

  // ----- a concrete run -----

  /** Everything in one milestone of 2^64 units. */
  const LARGE_MILESTONE: Op := Open(NewMilestones(ALICE, BOB, ARBITER, TOKEN, LARGE, 10, [10_000]))

  const LARGE_RUN: seq<Op> := [LARGE_MILESTONE, Tick(10), Act(1, DoExpire)]

  /** The contract holding that escrow at time `now`. */
  function OneMilestone(now: nat, status: Status): Config {
    var e := Draft(BulletTerms(ALICE, BOB, ARBITER, [AssetAmount(TOKEN, LARGE)], 10, 0), status, LARGE, NO_SCHEDULE);
    var ms := MilestoneSet([Milestone(0, 10_000, Pending)], 0, false);
    Config(State(now, 1, {TOKEN}, map[1 := Agreement(e, Some(ms), None, {})],
                 map[(ALICE, TOKEN) := 0, (SELF, TOKEN) := LARGE]),
           map[1 := Book([Move(TOKEN, ALICE, SELF, LARGE)], [])])
  }

  lemma DepositOne(l: Ledger)
    requires l == Funds(LARGE).state.ledger
    ensures var r := DepositMilestones(l, {TOKEN}, 0, ALICE, BOB, ARBITER, TOKEN, LARGE, 10, [10_000]);
            && r.Ok? && r.value.agreement == OneMilestone(0, Funded).state.agreements[1]
            && r.value.ledger == OneMilestone(0, Funded).state.ledger
            && r.value.moves == [Move(TOKEN, ALICE, SELF, LARGE)] && r.value.share.None?
  {
    var m := Move(TOKEN, ALICE, SELF, LARGE);
    assert BpsFirst([10_000], 0) == Ok(0) && BpsFirst([10_000], 1) == Ok(10_000);
    assert Transfer(l, m).value == map[(ALICE, TOKEN) := 0, (SELF, TOKEN) := LARGE];
    assert FreshMilestones([10_000]) == [Milestone(0, 10_000, Pending)];
  }

  lemma OpenMilestone()
    ensures Next(Funds(LARGE), LARGE_MILESTONE) == OneMilestone(0, Funded)
  {
    DepositOne(Funds(LARGE).state.ledger);
    OpenIsRecord(Funds(LARGE), LARGE_MILESTONE);
    assert [] + [Move(TOKEN, ALICE, SELF, LARGE)] == [Move(TOKEN, ALICE, SELF, LARGE)];
  }

  lemma WaitMilestone()
    ensures Next(OneMilestone(0, Funded), Tick(10)) == OneMilestone(10, Funded)
  {
  }

  lemma ExpireMilestone()
    ensures Next(OneMilestone(10, Funded), Act(1, DoExpire)) == OneMilestone(10, Expired)
  {
    var c := OneMilestone(10, Funded);
    NoMoves(c.books[1], c.state.ledger);
    var r := Expire(c.state.agreements[1], c.state.ledger, 10);
    assert r.Ok?;
    ActIsRecord(c, Act(1, DoExpire));
    assert Record(c, 1, 1, r.value) == OneMilestone(10, Expired);
  }

  lemma LargeRunExpires()
    ensures ConfigAt(Funds(LARGE), LARGE_RUN, 3) == OneMilestone(10, Expired)
  {
    OpenMilestone();
    WaitMilestone();
    ExpireMilestone();
    RunOfThree(Funds(LARGE), LARGE_RUN);
  }

  lemma SealedStart(c: Config)
    requires c == OneMilestone(10, Expired) && ConfigAt(Funds(LARGE), LARGE_RUN, 3) == c
    ensures SealedWith(c, 1, c.books[1])
  {
    RunInv(Funds(LARGE), LARGE_RUN, 3);
    assert LARGE * (LARGE - 0) > I128_MAX;
  }

  /** Until its deadline the arbiter could have released all of it. Then anybody's call of the
      marker seals it: whatever is called afterwards, nothing of it is ever paid. */
  lemma SealedExample(ops: seq<Op>)
    requires |ops| <= U64_MAX - 3
    ensures var run := LARGE_RUN + ops;
            var c := ConfigAt(Funds(LARGE), run, |run|);
            Deposited(BookOf(c, 1).log, TOKEN) == LARGE && Paid(BookOf(c, 1).log, TOKEN) == 0
  {
    var c := OneMilestone(10, Expired);
    LargeRunExpires();
    SealedStart(c);
    CountsOn(c, ops);
    RunEnd(Funds(LARGE), LARGE_RUN, ops, c);
    SealedThen(c, ops, 1, c.books[1]);
    OneDeposit(LARGE);
  }
}

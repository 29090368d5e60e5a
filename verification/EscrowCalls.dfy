/** When the escrow contract accepts a call and what an accepted call does, stated on the parties,
    the instants as plain sums, the vested amounts and the floored shares, apart from the
    entrypoints themselves. */
module EscrowCalls {
  import opened Common
  import opened Arith
  import opened EscrowModel
  import opened EscrowShares
  import opened EscrowVesting
  import opened EscrowInvariant
  import opened EscrowMilestones
  import opened EscrowSteps
  import opened EscrowTheorems
  import opened EscrowPromises

  const TWO64: nat := 0x1_0000_0000_0000_0000

  // ----- the conditions the calls are judged by -----

  /** The grace period is over; the sum keeps 64 bits. */
  predicate GraceOver(e: Escrow, now: nat) { now >= (e.deadline + e.gracePeriod) % TWO64 }

  /** The refund window is bounded and has closed; the sum saturates at 64 bits. */
  predicate RefundsClosed(e: Escrow, now: nat) {
    e.refundWindow > 0 && now >= Min(e.deadline + e.gracePeriod + e.refundWindow, TWO64 - 1)
  }

  /** A condition is attached and fewer participants than its threshold have approved. */
  predicate Unapproved(a: Agreement) { a.condition.Some? && |a.approved| < a.condition.value.threshold }

  /** What has vested and has not been released. */
  ghost function Claimable(e: Escrow, now: nat): int
    requires TermsOk(e)
  {
    Vested(e.funded, e.schedule, now) - e.released
  }

  /** The schedule bars a release of the remainder: its cliff is ahead, or a line has vested
      less than what remains. */
  ghost predicate Gated(e: Escrow, now: nat)
    requires TermsOk(e)
  {
    e.schedule.kind != Unscheduled
    && (now < e.schedule.cliff
        || (e.schedule.kind == Linear && e.funded - e.released > Vested(e.funded, e.schedule, now)))
  }

  /** The amount named is ahead of a line. */
  ghost predicate Ahead(e: Escrow, now: nat, amount: int)
    requires TermsOk(e)
  {
    e.schedule.kind == Linear && amount > Vested(e.funded, e.schedule, now)
  }

  /** A product of a payout of the share `x` leaves the `i128` range. */
  ghost predicate Oversized(e: Escrow, x: int) { !ProductsFit(e.assets, x, |e.assets|) }

  /** Some signature aborts or repeats or names an unknown key. */
  ghost predicate BadSignatures(e: Escrow, signatures: seq<Signature>, err: Error) {
    || (err == HostAbort && exists i :: 0 <= i < |signatures| && !signatures[i].valid)
    || (err == NotASigner && exists i :: 0 <= i < |signatures| && signatures[i].key !in e.overrideSigners)
    || (err == AlreadySigned && exists i, j :: 0 <= i < j < |signatures| && signatures[i].key == signatures[j].key)
  }

  // ----- refusals -----

  ghost predicate WithdrawRefused(a: Agreement, now: nat, caller: Address, amount: int, err: Error)
    requires TermsOk(a.escrow)
  {
    var e := a.escrow;
    || (err == InvalidAmount && amount <= 0)
    || (err == InvalidState && (a.milestones.Some? || e.status != Funded))
    || (err == Unauthorized && caller != e.recipient)
    || (err == TimeLockActive && Claimable(e, now) <= 0)
    || (err == InsufficientFunds && 0 < Claimable(e, now) < amount)
    || (err == ThresholdNotMet && Unapproved(a))
    || (err == Overflow && (VestingOverflows(e.funded, e.schedule, now) || Oversized(e, amount)))
  }

  /** What a claim of a funded escrow pays: everything without a schedule, else all claimable. */
  ghost function ClaimShare(e: Escrow, now: nat): int
    requires TermsOk(e)
  {
    if e.schedule.kind == Unscheduled then e.funded - e.released else Claimable(e, now)
  }

  ghost predicate ClaimBarred(a: Agreement, now: nat, caller: Address, err: Error)
    requires TermsOk(a.escrow)
  {
    var e := a.escrow;
    || (err == InvalidState && (a.milestones.Some? || (e.status != Funded && e.status != Created)))
    || (err == Unauthorized && caller != e.recipient)
    || (err == TimeLockActive &&
        if e.status == Created || e.schedule.kind == Unscheduled then !GraceOver(e, now) else Claimable(e, now) <= 0)
    || (err == ThresholdNotMet && Unapproved(a))
    || (err == Overflow && e.status == Funded && VestingOverflows(e.funded, e.schedule, now))
  }

  ghost predicate ClaimRefused(a: Agreement, now: nat, caller: Address, err: Error)
    requires TermsOk(a.escrow)
  {
    var e := a.escrow;
    || ClaimBarred(a, now, caller, err)
    || (err == Overflow && e.status == Funded && Oversized(e, ClaimShare(e, now)))
  }

  ghost predicate ReleaseBarred(a: Agreement, now: nat, caller: Address, amount: int, err: Error)
    requires TermsOk(a.escrow)
  {
    var e := a.escrow;
    || (err == Unauthorized && caller != e.arbiter)
    || (err == InvalidState && (a.milestones.Some? || e.status != Funded))
    || (err == TimelockNotExpired && (Gated(e, now) || Ahead(e, now, amount)))
    || (err == EscrowExpired && GraceOver(e, now))
    || (err == InvalidAmount && amount > e.funded - e.released && !Ahead(e, now, amount))
    || (err == ThresholdNotMet && Unapproved(a))
    || (err == Overflow && VestingOverflows(e.funded, e.schedule, now))
  }

  ghost predicate ReleaseRefused(a: Agreement, now: nat, caller: Address, amount: int, err: Error)
    requires TermsOk(a.escrow)
  {
    ReleaseBarred(a, now, caller, amount, err)
    || (err == Overflow && Oversized(a.escrow, a.escrow.funded - a.escrow.released))
  }

  /** The checks of an override apart from its signatures, of which there are `n`. */
  ghost predicate OverrideLocked(a: Agreement, now: nat, nonce: nat, n: nat, err: Error)
    requires TermsOk(a.escrow)
  {
    var e := a.escrow;
    || (err == InvalidState && (a.milestones.Some? || e.status != Funded))
    || (err == Unauthorized && (e.overrideSigners == [] || e.overrideThreshold == 0))
    || (err == EscrowExpired && now >= e.deadline)
    || (err == TimelockNotExpired && Gated(e, now))
    || (err == InvalidNonce && nonce <= e.overrideNonce)
    || (err == ThresholdNotMet && (n < e.overrideThreshold || Unapproved(a)))
    || (err == Overflow && VestingOverflows(e.funded, e.schedule, now))
  }

  ghost predicate OverrideBarred(a: Agreement, now: nat, nonce: nat, signatures: seq<Signature>, err: Error)
    requires TermsOk(a.escrow)
  {
    OverrideLocked(a, now, nonce, |signatures|, err) || BadSignatures(a.escrow, signatures, err)
  }

  ghost predicate OverrideRefused(a: Agreement, now: nat, nonce: nat, signatures: seq<Signature>, err: Error)
    requires TermsOk(a.escrow)
  {
    OverrideBarred(a, now, nonce, signatures, err)
    || (err == Overflow && Oversized(a.escrow, a.escrow.funded - a.escrow.released))
  }

  /** `refund` and `reclaim`. */
  ghost predicate RefundBarred(a: Agreement, now: nat, caller: Address, err: Error) {
    var e := a.escrow;
    || (err == InvalidState && (a.milestones.Some? || !Live(e)))
    || (err == Unauthorized && caller != e.sender)
    || (err == TimeLockActive && now < e.deadline)
    || (err == GraceActive && !GraceOver(e, now))
    || (err == EscrowExpired && RefundsClosed(e, now))
  }

  ghost predicate RefundRefused(a: Agreement, now: nat, caller: Address, err: Error) {
    var e := a.escrow;
    RefundBarred(a, now, caller, err) || (err == Overflow && Live(e) && Oversized(e, e.funded - e.released))
  }

  ghost predicate RefundTimelockBarred(a: Agreement, now: nat, caller: Address, err: Error) {
    var e := a.escrow;
    || (err == InvalidState && (a.milestones.Some? || (e.status != Created && !Live(e))))
    || (err == Unauthorized && caller != e.sender)
    || (err == TimeLockActive && !GraceOver(e, now))
    || (err == EscrowExpired && RefundsClosed(e, now))
  }

  ghost predicate RefundTimelockRefused(a: Agreement, now: nat, caller: Address, err: Error) {
    var e := a.escrow;
    RefundTimelockBarred(a, now, caller, err) || (err == Overflow && Live(e) && Oversized(e, e.funded - e.released))
  }

  /** Cancelling an escrow without milestones. */
  ghost predicate CancelRefused(a: Agreement, now: nat, caller: Address, err: Error)
    requires TermsOk(a.escrow)
  {
    var e := a.escrow;
    || (err == InvalidState && ((e.status != Created && e.status != Funded) || now >= e.deadline))
    || (err == Unauthorized && caller != e.sender && caller != e.arbiter)
    || (err == TimeLockActive && Vested(e.funded, e.schedule, now) > 0)
    || (err == Overflow && e.status == Funded &&
        (VestingOverflows(e.funded, e.schedule, now) || Oversized(e, e.funded - e.released)))
  }

  /** The refusals of a call that wants milestone `index` in status `wanted`. */
  ghost predicate MilestoneBarred(a: Agreement, caller: Address, index: nat, wanted: MilestoneStatus, err: Error) {
    || (err == Unauthorized && caller != a.escrow.arbiter)
    || (err == NotFound && a.milestones.None?)
    || (a.milestones.Some? && var ms := a.milestones.value;
        || (err == InvalidState && (ms.cancelled || a.escrow.status != Funded))
        || (err == InvalidMilestone &&
            (index >= |ms.items| || (ms.items[index].status != Completed && ms.items[index].status != wanted)))
        || (err == MilestoneAlreadyCompleted && index < |ms.items| && ms.items[index].status == Completed))
  }

  ghost predicate CancellingRefused(a: Agreement, caller: Address, err: Error) {
    || (err == Unauthorized && caller != a.escrow.sender && caller != a.escrow.arbiter)
    || (err == NotFound && a.milestones.None?)
    || (a.milestones.Some? && var ms := a.milestones.value;
        || (err == AlreadyExists && ms.cancelled)
        || (err == InvalidState && !Live(a.escrow))
        || (err == Overflow && Live(a.escrow) && ms.released < a.escrow.funded
            && a.escrow.funded * (a.escrow.funded - ms.released) > I128_MAX))
  }

  /** A deposit lacks tokens, or its total leaves the `i128` range. */
  ghost predicate DepositRefused(l: Ledger, sender: Address, assets: seq<AssetAmount>, err: Error) {
    || (err == InsufficientFunds &&
        exists i :: 0 <= i < |assets| && assets[i].amount > Balance(l, sender, assets[i].asset))
    || (err == Overflow && Total(assets) > I128_MAX)
  }

  ghost predicate FundRefused(a: Agreement, l: Ledger, tokens: set<Address>, caller: Address, err: Error) {
    var e := a.escrow;
    || (err == Unauthorized && caller != e.sender)
    || (err == InvalidState && e.status != Created)
    || (err == AssetNotAuthorized && exists i :: 0 <= i < |e.assets| && e.assets[i].asset !in tokens)
    || DepositRefused(l, e.sender, e.assets, err)
  }

  ghost predicate ApproveRefused(a: Agreement, caller: Address, err: Error) {
    || (err == InvalidState && a.escrow.status != Funded)
    || (err == NotFound && a.condition.None?)
    || (err == NotASigner && a.condition.Some? && caller !in a.condition.value.participants)
    || (err == AlreadySigned && caller in a.approved)
  }

  ghost predicate CloseRefused(e: Escrow, caller: Address, err: Error) {
    || (err == InvalidState && e.status != Released && e.status != Refunded)
    || (err == Unauthorized && caller !in {e.sender, e.recipient, e.arbiter})
  }

  ghost predicate ReleaseMilestoneRefused(a: Agreement, caller: Address, index: nat, err: Error) {
    || MilestoneBarred(a, caller, index, Pending, err)
    || (err == Overflow && a.milestones.Some? && index < |a.milestones.value.items|
        && a.escrow.funded * a.milestones.value.items[index].bps > I128_MAX)
  }

  ghost predicate ActionRefused(a: Agreement, l: Ledger, tokens: set<Address>, now: nat, action: Action, err: Error)
    requires TermsOk(a.escrow)
  {
    match action
    case DoApprove(caller) => ApproveRefused(a, caller, err)
    case DoFund(caller) => FundRefused(a, l, tokens, caller, err)
    case DoWithdraw(caller, amount) => WithdrawRefused(a, now, caller, amount, err)
    case DoClaim(caller) => ClaimRefused(a, now, caller, err)
    case DoRelease(caller, amount) => ReleaseRefused(a, now, caller, amount, err)
    case DoOverride(nonce, signatures) => OverrideRefused(a, now, nonce, signatures, err)
    case DoExpire => err == InvalidState && (a.escrow.status != Funded || !GraceOver(a.escrow, now))
    case DoRefund(caller) => RefundRefused(a, now, caller, err)
    case DoRefundTimelock(caller) => RefundTimelockRefused(a, now, caller, err)
    case DoReclaim(caller) => RefundRefused(a, now, caller, err)
    case DoCancel(caller) =>
      if a.milestones.Some? then CancellingRefused(a, caller, err) else CancelRefused(a, now, caller, err)
    case DoClose(caller) => CloseRefused(a.escrow, caller, err)
    case DoReleaseMilestone(caller, index) => ReleaseMilestoneRefused(a, caller, index, err)
    case DoDispute(caller, index) => MilestoneBarred(a, caller, index, Pending, err)
    case DoResolve(caller, index) => MilestoneBarred(a, caller, index, Disputed, err)
    case DoCancelMilestones(caller) => CancellingRefused(a, caller, err)
  }

  // ----- effects -----

  /** The call paid `to` the floored share `x` of every asset, and nothing else moved. */
  ghost predicate PaidOut(e: Escrow, to: Address, x: int, o: Outcome) {
    && o.share == Some(x) && PaysTo(o.moves, to)
    && forall asset :: Paid(o.moves, asset) == Portion(AmountOf(e.assets, asset), x, e.funded)
  }

  predicate NothingMoved(o: Outcome) { o.moves == [] && o.share.None? }

  /** The escrow after `x` more of it was released. */
  function AfterPaying(e: Escrow, x: int): Escrow {
    e.(released := e.released + x, status := if e.released + x == e.funded then Released else e.status)
  }

  /** `x` more was paid to the recipient. */
  ghost predicate PaymentDone(a: Agreement, x: int, ret: int, o: Outcome) {
    && o.agreement == a.(escrow := AfterPaying(a.escrow, x)) && o.ret == ret
    && PaidOut(a.escrow, a.escrow.recipient, x, o)
  }

  ghost predicate ClaimDone(a: Agreement, now: nat, o: Outcome)
    requires TermsOk(a.escrow)
  {
    if a.escrow.status == Created then
      o.agreement == a.(escrow := a.escrow.(status := Released)) && o.ret == 0 && NothingMoved(o)
    else PaymentDone(a, ClaimShare(a.escrow, now), ClaimShare(a.escrow, now), o)
  }

  ghost predicate OverrideDone(a: Agreement, nonce: nat, o: Outcome) {
    var e := a.escrow;
    && o.agreement == a.(escrow := e.(overrideNonce := nonce, status := Released)) && o.ret == 0
    && PaidOut(e, e.recipient, e.funded - e.released, o)
  }

  ghost predicate ReturnDone(a: Agreement, o: Outcome) {
    var e := a.escrow;
    && o.agreement == a.(escrow := e.(status := Refunded)) && o.ret == 0
    && if e.status == Created then NothingMoved(o) else PaidOut(e, e.sender, e.funded - e.released, o)
  }

  /** The milestones after a cancellation: nothing pending is left pending. */
  ghost predicate AllFrozen(before: seq<Milestone>, after: seq<Milestone>) {
    && |after| == |before|
    && forall i :: 0 <= i < |after| ==>
         after[i] == if before[i].status == Pending then before[i].(status := Disputed) else before[i]
  }

  ghost predicate CancellingDone(a: Agreement, o: Outcome) {
    && a.milestones.Some? && o.agreement.milestones.Some?
    && var e, ms, next := a.escrow, a.milestones.value, o.agreement.milestones.value;
       var rest := e.funded - ms.released;
       && o.agreement == a.(escrow := e.(status := Refunded), milestones := Some(next))
       && next == ms.(items := next.items, cancelled := true) && AllFrozen(ms.items, next.items)
       && if rest == 0 then NothingMoved(o) else PaidOut(e, e.sender, rest, o)
  }

  /** The milestones with only the status of number `k` changed. */
  ghost predicate OnlyStatus(before: seq<Milestone>, after: seq<Milestone>, k: nat, status: MilestoneStatus) {
    k < |before| && after == before[k := before[k].(status := status)]
  }

  ghost predicate MilestonePaid(a: Agreement, index: nat, o: Outcome) {
    && a.milestones.Some? && o.agreement.milestones.Some?
    && index < |a.milestones.value.items| && a.escrow.assets != []
    && var e, ms, next := a.escrow, a.milestones.value, o.agreement.milestones.value;
       var last := forall i :: 0 <= i < |ms.items| && i != index ==> ms.items[i].status == Completed;
       var x := if last then e.funded - ms.released else (e.funded * ms.items[index].bps) / 10_000;
       && OnlyStatus(ms.items, next.items, index, Completed)
       && next == ms.(items := next.items, released := ms.released + x)
       && o.agreement == a.(milestones := Some(next),
                            escrow := if last then e.(released := e.funded, status := Released) else e)
       && o.moves == [Move(e.assets[0].asset, SELF, e.recipient, x)] && o.share == Some(x) && o.ret == 0
  }

  ghost predicate MilestoneFlagged(a: Agreement, index: nat, status: MilestoneStatus, o: Outcome) {
    && a.milestones.Some? && o.agreement.milestones.Some?
    && var ms, next := a.milestones.value, o.agreement.milestones.value;
       && OnlyStatus(ms.items, next.items, index, status)
       && next == ms.(items := next.items) && o.agreement == a.(milestones := Some(next))
       && NothingMoved(o) && o.ret == 0
  }

  ghost predicate ApproveDone(a: Agreement, caller: Address, o: Outcome) {
    && a.condition.Some? && NothingMoved(o) && o.ret == |a.approved| + 1
    && o.agreement == a.(approved := a.approved + {caller},
                         condition := Some(a.condition.value.(approvals := |a.approved| + 1)))
  }

  ghost predicate FundDone(a: Agreement, o: Outcome) {
    var e := a.escrow;
    && o.agreement == a.(escrow := e.(funded := Total(e.assets), status := Funded)) && o.ret == 0
    && Deposits(e.sender, e.assets, o)
  }

  ghost predicate MarkDone(a: Agreement, status: Status, o: Outcome) {
    o.agreement == a.(escrow := a.escrow.(status := status)) && NothingMoved(o) && o.ret == 0
  }

  /** The call brought the listed amount of every asset into custody, and nothing else moved. */
  ghost predicate Deposits(sender: Address, assets: seq<AssetAmount>, o: Outcome) {
    && o.share.None? && ComesFrom(o.moves, sender)
    && forall asset :: Deposited(o.moves, asset) == AmountOf(assets, asset)
  }

  ghost predicate ActionDone(a: Agreement, now: nat, action: Action, o: Outcome)
    requires TermsOk(a.escrow)
  {
    var e := a.escrow;
    match action
    case DoApprove(caller) => ApproveDone(a, caller, o)
    case DoFund(_) => FundDone(a, o)
    case DoWithdraw(_, amount) => PaymentDone(a, amount, e.released + amount, o)
    case DoClaim(_) => ClaimDone(a, now, o)
    case DoRelease(_, _) => PaymentDone(a, e.funded - e.released, 0, o)
    case DoOverride(nonce, _) => OverrideDone(a, nonce, o)
    case DoExpire => MarkDone(a, Expired, o)
    case DoRefund(_) => ReturnDone(a, o)
    case DoRefundTimelock(_) => ReturnDone(a, o)
    case DoReclaim(_) => ReturnDone(a, o)
    case DoCancel(_) => if a.milestones.Some? then CancellingDone(a, o) && o.ret == 0 else ReturnDone(a, o)
    case DoClose(_) => MarkDone(a, Closed, o)
    case DoReleaseMilestone(_, index) => MilestonePaid(a, index, o)
    case DoDispute(_, index) => MilestoneFlagged(a, index, Disputed, o)
    case DoResolve(_, index) => MilestoneFlagged(a, index, Pending, o)
    case DoCancelMilestones(_) => CancellingDone(a, o) && o.ret == e.funded - a.milestones.value.released
  }

  /** The action fails exactly when a refusal applies, with one that does; otherwise it does
      what it should. */
  ghost predicate Decided(a: Agreement, l: Ledger, tokens: set<Address>, now: nat, action: Action, r: Result<Outcome>)
    requires TermsOk(a.escrow)
  {
    match r
    case Err(err) => ActionRefused(a, l, tokens, now, action, err)
    case Ok(o) => (forall err :: !ActionRefused(a, l, tokens, now, action, err)) && ActionDone(a, now, action, o)
  }

  // ----- what a sound configuration offers -----

  /** Custody covers any share of `e` not yet drawn. */
  ghost predicate Covered(l: Ledger, e: Escrow, drawn: int)
    requires e.funded > 0
  {
    forall to, x: nat :: drawn + x <= e.funded ==>
      DecidedByRange(e, x, PayFirst(l, to, e.assets, x, e.funded, |e.assets|))
  }

  /** The facts about one agreement every guard rests on. */
  ghost predicate Sane(a: Agreement, now: nat) {
    var e := a.escrow;
    && TermsOk(e) && ConditionOk(a)
    && (e.status == Created ==> e.funded == 0 && e.released == 0 && a.milestones.None?)
    && (Live(e) ==> 0 < e.funded && 0 <= Drawn(a) <= e.funded)
    && (Live(e) && a.milestones.None? ==> e.released < e.funded && 0 <= Claimable(e, now))
  }

  ghost predicate Ready(a: Agreement, now: nat, l: Ledger) {
    Sane(a, now) && (Live(a.escrow) ==> Covered(l, a.escrow, Drawn(a)))
  }

  lemma ReadyHere(c: Config, id: nat)
    requires Inv(c) && id in c.state.agreements
    ensures Ready(c.state.agreements[id], c.state.now, c.state.ledger)
  {
    var a, b := c.state.agreements[id], c.books[id];
    var e := a.escrow;
    if Live(e) {
      forall to, x: nat | Drawn(a) + x <= e.funded
        ensures DecidedByRange(e, x, PayFirst(c.state.ledger, to, e.assets, x, e.funded, |e.assets|))
      {
        PayoutNeverBounces(c, id, to, x);
      }
    }
  }

  /** A payout of an undrawn share: the record as given, exactly the floored shares, or Overflow. */
  ghost predicate PayoutDecided(a: Agreement, e: Escrow, to: Address, x: int, ret: int, r: Result<Outcome>) {
    match r
    case Err(err) => err == Overflow && Oversized(e, x)
    case Ok(o) => !Oversized(e, x) && o.agreement == a && o.ret == ret && PaidOut(e, to, x, o)
  }

  lemma PayoutIsDecided(a: Agreement, e: Escrow, l: Ledger, to: Address, x: nat, ret: int, drawn: int)
    requires TermsOk(e) && e.funded > 0 && a.escrow.assets == e.assets && a.escrow.funded == e.funded
    requires Covered(l, e, drawn) && drawn + x <= e.funded
    ensures PayoutDecided(a, e, to, x, ret, Payout(a, l, to, x, ret))
  {
    var paid := PayFirst(l, to, e.assets, x, e.funded, |e.assets|);
    if paid.Ok? {
      forall asset
        ensures Paid(paid.value.moves, asset) == Portion(AmountOf(e.assets, asset), x, e.funded)
      {
        PayEffect(l, to, e.assets, x, e.funded, |e.assets|, asset);
      }
      PayEffect(l, to, e.assets, x, e.funded, |e.assets|, SELF);
    }
  }

  // ----- payments -----

  lemma ClaimableDecided(e: Escrow, now: nat)
    requires TermsOk(e) && 0 <= e.released <= e.funded
    ensures match CalcClaimable(e, now)
            case Err(err) => err == Overflow && VestingOverflows(e.funded, e.schedule, now)
            case Ok(x) => !VestingOverflows(e.funded, e.schedule, now) && x == Max(Claimable(e, now), 0)
  {
    CalcVestedExact(e.funded, e.schedule, now);
    VestedBounds(e.funded, e.schedule, now);
  }

  lemma WithdrawDecided(a: Agreement, l: Ledger, now: nat, caller: Address, amount: int)
    requires Ready(a, now, l) && amount > 0
    ensures match Withdraw(a, l, now, caller, amount)
            case Err(err) => WithdrawRefused(a, now, caller, amount, err)
            case Ok(o) =>
              && (forall err :: !WithdrawRefused(a, now, caller, amount, err))
              && PaymentDone(a, amount, a.escrow.released + amount, o)
  {
    var e := a.escrow;
    if a.milestones.None? && e.status == Funded {
      ClaimableDecided(e, now);
      VestedBounds(e.funded, e.schedule, now);
      if amount <= Claimable(e, now) {
        var t := a.(escrow := AfterPaying(e, amount));
        PayoutIsDecided(t, e, l, e.recipient, amount, e.released + amount, e.released);
      }
    }
  }

  /** The share `x` of `e` is undrawn, and `t` is a record of the same deal. */
  ghost predicate Undrawn(t: Agreement, e: Escrow, l: Ledger, x: int, drawn: int) {
    && TermsOk(e) && e.funded > 0 && t.escrow.assets == e.assets && t.escrow.funded == e.funded
    && x >= 0 && Covered(l, e, drawn) && drawn + x <= e.funded
  }

  /** A call is barred by a guard, or past all of them it is a payout of an undrawn share. */
  ghost predicate GuardsThenPays(r: Result<Outcome>, barred: Error -> bool, t: Agreement, e: Escrow, l: Ledger,
                                 to: Address, x: int, ret: int, drawn: int) {
    || (r.Err? && barred(r.error))
    || (Undrawn(t, e, l, x, drawn) && (forall err :: !barred(err)) && r == Payout(t, l, to, x, ret))
  }

  /** Such a call is decided by its guards and its products. */
  lemma GuardedPayout(r: Result<Outcome>, barred: Error -> bool, t: Agreement, e: Escrow, l: Ledger, to: Address,
                      x: int, ret: int, drawn: int)
    requires GuardsThenPays(r, barred, t, e, l, to, x, ret, drawn)
    ensures match r
            case Err(err) => barred(err) || ((forall other :: !barred(other)) && err == Overflow && Oversized(e, x))
            case Ok(_) => (forall err :: !barred(err)) && PayoutDecided(t, e, to, x, ret, r)
  {
    if Undrawn(t, e, l, x, drawn) { PayoutIsDecided(t, e, l, to, x, ret, drawn); }
  }

  /** What a plain escrow still holds is undrawn. */
  lemma RestUndrawn(a: Agreement, now: nat, l: Ledger, t: Agreement, x: int)
    requires Ready(a, now, l) && a.milestones.None? && Live(a.escrow)
    requires t.escrow.assets == a.escrow.assets && t.escrow.funded == a.escrow.funded
    requires 0 <= x <= a.escrow.funded - a.escrow.released
    ensures Undrawn(t, a.escrow, l, x, a.escrow.released)
  {
  }

  lemma ClaimGuards(a: Agreement, l: Ledger, now: nat, caller: Address, t: Agreement, x: int)
    requires Sane(a, now) && x == ClaimShare(a.escrow, now) && t == a.(escrow := AfterPaying(a.escrow, x))
    requires a.milestones.None? && a.escrow.status == Funded && Undrawn(t, a.escrow, l, x, a.escrow.released)
    ensures GuardsThenPays(Claim(a, l, now, caller), err => ClaimBarred(a, now, caller, err), t, a.escrow, l,
                           a.escrow.recipient, x, x, a.escrow.released)
  {
    ClaimableDecided(a.escrow, now);
  }

  lemma ClaimStopped(a: Agreement, l: Ledger, now: nat, caller: Address)
    requires TermsOk(a.escrow) && a.escrow.status != Created && (a.milestones.Some? || a.escrow.status != Funded)
    ensures var r := Claim(a, l, now, caller); r.Err? && ClaimBarred(a, now, caller, r.error)
  {
  }

  lemma ClaimPays(a: Agreement, l: Ledger, now: nat, caller: Address, t: Agreement, x: int, r: Result<Outcome>)
    requires TermsOk(a.escrow) && x == ClaimShare(a.escrow, now) && a.escrow.status != Created
    requires t == a.(escrow := AfterPaying(a.escrow, x))
    requires GuardsThenPays(r, err => ClaimBarred(a, now, caller, err), t, a.escrow, l, a.escrow.recipient, x, x,
                            a.escrow.released)
    ensures match r
            case Err(err) => ClaimRefused(a, now, caller, err)
            case Ok(o) => (forall err :: !ClaimRefused(a, now, caller, err)) && ClaimDone(a, now, o)
  {
    var barred := err => ClaimBarred(a, now, caller, err);
    GuardedPayout(r, barred, t, a.escrow, l, a.escrow.recipient, x, x, a.escrow.released);
    assert barred(InvalidState) <==> ClaimBarred(a, now, caller, InvalidState);
    if r.Ok? {
      forall err ensures !ClaimRefused(a, now, caller, err) { assert !barred(err); }
    }
  }

  lemma ClaimUnfunded(a: Agreement, l: Ledger, now: nat, caller: Address)
    requires Sane(a, now) && a.escrow.status == Created
    ensures match Claim(a, l, now, caller)
            case Err(err) => ClaimBarred(a, now, caller, err)
            case Ok(o) => (forall err :: !ClaimBarred(a, now, caller, err)) && ClaimDone(a, now, o)
  {
  }

  lemma ClaimDecided(a: Agreement, l: Ledger, now: nat, caller: Address)
    requires Ready(a, now, l)
    ensures match Claim(a, l, now, caller)
            case Err(err) => ClaimRefused(a, now, caller, err)
            case Ok(o) => (forall err :: !ClaimRefused(a, now, caller, err)) && ClaimDone(a, now, o)
  {
    if a.escrow.status == Created {
      ClaimUnfunded(a, l, now, caller);
    } else {
      var x := ClaimShare(a.escrow, now);
      var t := a.(escrow := AfterPaying(a.escrow, x));
      VestedBounds(a.escrow.funded, a.escrow.schedule, now);
      if a.milestones.None? && a.escrow.status == Funded {
        RestUndrawn(a, now, l, t, x);
        ClaimGuards(a, l, now, caller, t, x);
        ClaimPays(a, l, now, caller, t, x, Claim(a, l, now, caller));
      } else {
        ClaimStopped(a, l, now, caller);
      }
    }
  }

  lemma LinearReleaseGuards(a: Agreement, l: Ledger, now: nat, caller: Address, amount: int, t: Agreement,
                            x: int)
    requires Sane(a, now) && x == a.escrow.funded - a.escrow.released
    requires a.escrow.schedule.kind == Linear
    requires t == a.(escrow := AfterPaying(a.escrow, x))
    requires a.milestones.None? && a.escrow.status == Funded && Undrawn(t, a.escrow, l, x, a.escrow.released)
    ensures GuardsThenPays(Release(a, l, now, caller, amount), err => ReleaseBarred(a, now, caller, amount, err),
                           t, a.escrow, l, a.escrow.recipient, x, 0, a.escrow.released)
  {
    CalcVestedExact(a.escrow.funded, a.escrow.schedule, now);
  }

  lemma ReleaseGuards(a: Agreement, l: Ledger, now: nat, caller: Address, amount: int, t: Agreement, x: int)
    requires Sane(a, now) && x == a.escrow.funded - a.escrow.released
    requires a.escrow.schedule.kind != Linear
    requires t == a.(escrow := AfterPaying(a.escrow, x))
    requires a.milestones.None? && a.escrow.status == Funded && Undrawn(t, a.escrow, l, x, a.escrow.released)
    ensures GuardsThenPays(Release(a, l, now, caller, amount), err => ReleaseBarred(a, now, caller, amount, err),
                           t, a.escrow, l, a.escrow.recipient, x, 0, a.escrow.released)
  {
  }

  lemma ReleaseStopped(a: Agreement, l: Ledger, now: nat, caller: Address, amount: int)
    requires TermsOk(a.escrow) && (a.milestones.Some? || a.escrow.status != Funded)
    ensures var r := Release(a, l, now, caller, amount); r.Err? && ReleaseBarred(a, now, caller, amount, r.error)
  {
  }

  lemma ReleasePays(a: Agreement, l: Ledger, now: nat, caller: Address, amount: int, t: Agreement, x: int,
                    r: Result<Outcome>)
    requires TermsOk(a.escrow) && x == a.escrow.funded - a.escrow.released
    requires t == a.(escrow := AfterPaying(a.escrow, x))
    requires GuardsThenPays(r, err => ReleaseBarred(a, now, caller, amount, err), t, a.escrow, l, a.escrow.recipient,
                            x, 0, a.escrow.released)
    ensures match r
            case Err(err) => ReleaseRefused(a, now, caller, amount, err)
            case Ok(o) => (forall err :: !ReleaseRefused(a, now, caller, amount, err)) && PaymentDone(a, x, 0, o)
  {
    var barred := err => ReleaseBarred(a, now, caller, amount, err);
    GuardedPayout(r, barred, t, a.escrow, l, a.escrow.recipient, x, 0, a.escrow.released);
    if r.Ok? {
      forall err ensures !ReleaseRefused(a, now, caller, amount, err) { assert !barred(err); }
    }
  }

  lemma ReleaseDecided(a: Agreement, l: Ledger, now: nat, caller: Address, amount: int)
    requires Ready(a, now, l)
    ensures match Release(a, l, now, caller, amount)
            case Err(err) => ReleaseRefused(a, now, caller, amount, err)
            case Ok(o) =>
              && (forall err :: !ReleaseRefused(a, now, caller, amount, err))
              && PaymentDone(a, a.escrow.funded - a.escrow.released, 0, o)
  {
    var x := a.escrow.funded - a.escrow.released;
    var t := a.(escrow := AfterPaying(a.escrow, x));
    if a.milestones.None? && a.escrow.status == Funded {
      RestUndrawn(a, now, l, t, x);
      if a.escrow.schedule.kind == Linear {
        LinearReleaseGuards(a, l, now, caller, amount, t, x);
      } else {
        ReleaseGuards(a, l, now, caller, amount, t, x);
      }
      ReleasePays(a, l, now, caller, amount, t, x, Release(a, l, now, caller, amount));
    } else {
      ReleaseStopped(a, l, now, caller, amount);
    }
  }

  /** One more signature is bad on its own, or repeats an earlier key. */
  lemma OneMoreSignature(e: Escrow, before: seq<Signature>, s: Signature, err: Error)
    ensures BadSignatures(e, before + [s], err) <==>
            || BadSignatures(e, before, err)
            || (err == HostAbort && !s.valid)
            || (err == NotASigner && s.key !in e.overrideSigners)
            || (err == AlreadySigned && exists i :: 0 <= i < |before| && before[i].key == s.key)
  {
    var after := before + [s];
    assert forall i :: 0 <= i < |before| ==> after[i] == before[i];
    assert after[|before|] == s;
  }

  /** The signatures pass exactly when all are valid and of distinct configured keys. */
  lemma {:induction false} KeysDecided(e: Escrow, signatures: seq<Signature>, n: nat)
    requires n <= |signatures|
    ensures match KeysFirst(e.overrideSigners, signatures, n)
            case Ok(seen) => |seen| == n && forall err :: !BadSignatures(e, signatures[..n], err)
            case Err(err) => BadSignatures(e, signatures[..n], err)
  {
    if n > 0 {
      KeysDecided(e, signatures, n - 1);
      var s, before := signatures[n - 1], signatures[..n - 1];
      assert signatures[..n] == before + [s];
      forall err ensures BadSignatures(e, signatures[..n], err) <==>
                         || BadSignatures(e, before, err)
                         || (err == HostAbort && !s.valid)
                         || (err == NotASigner && s.key !in e.overrideSigners)
                         || (err == AlreadySigned && exists i :: 0 <= i < |before| && before[i].key == s.key)
      {
        OneMoreSignature(e, before, s, err);
      }
      if KeysFirst(e.overrideSigners, signatures, n - 1).Ok? { SeenBefore(e, signatures, n - 1, s.key); }
    }
  }

  lemma SeenBefore(e: Escrow, signatures: seq<Signature>, n: nat, key: nat)
    requires n <= |signatures| && KeysFirst(e.overrideSigners, signatures, n).Ok?
    ensures key in KeysFirst(e.overrideSigners, signatures, n).value <==>
            exists i :: 0 <= i < n && signatures[..n][i].key == key
  {
    KeysAreDistinct(e.overrideSigners, signatures, n);
    var seen, before := KeysFirst(e.overrideSigners, signatures, n).value, signatures[..n];
    if key in seen {
      var i :| 0 <= i < n && before[i] == Signature(key, true);
    }
    forall i | 0 <= i < n ensures before[i].key in seen {
      EveryKeyCounts(e.overrideSigners, signatures, i, n);
    }
  }

  /** No check of an override but its signatures stands in the way. */
  ghost predicate OverrideClear(a: Agreement, now: nat, nonce: nat, n: nat)
    requires TermsOk(a.escrow)
  {
    var e := a.escrow;
    && a.milestones.None? && e.status == Funded
    && e.overrideSigners != [] && 0 < e.overrideThreshold <= n
    && now < e.deadline && !Gated(e, now) && nonce > e.overrideNonce && !Unapproved(a)
    && !VestingOverflows(e.funded, e.schedule, now)
  }

  lemma OverrideClearMeans(a: Agreement, now: nat, nonce: nat, n: nat)
    requires TermsOk(a.escrow)
    ensures OverrideClear(a, now, nonce, n) <==> forall err :: !OverrideLocked(a, now, nonce, n, err)
  {
    if forall err :: !OverrideLocked(a, now, nonce, n, err) {
      assert !OverrideLocked(a, now, nonce, n, InvalidState) && !OverrideLocked(a, now, nonce, n, Unauthorized);
      assert !OverrideLocked(a, now, nonce, n, EscrowExpired) && !OverrideLocked(a, now, nonce, n, InvalidNonce);
      assert !OverrideLocked(a, now, nonce, n, TimelockNotExpired) && !OverrideLocked(a, now, nonce, n, Overflow);
      assert !OverrideLocked(a, now, nonce, n, ThresholdNotMet);
    }
  }

  lemma OverrideOpens(a: Agreement, l: Ledger, now: nat, nonce: nat, signatures: seq<Signature>, x: int)
    requires Sane(a, now) && x == a.escrow.funded - a.escrow.released
    requires OverrideClear(a, now, nonce, |signatures|)
    requires KeysFirst(a.escrow.overrideSigners, signatures, |signatures|).Ok?
    requires |KeysFirst(a.escrow.overrideSigners, signatures, |signatures|).value| == |signatures|
    ensures OverrideRelease(a, l, now, nonce, signatures)
         == Payout(a.(escrow := a.escrow.(overrideNonce := nonce, status := Released)), l, a.escrow.recipient, x, 0)
  {
    CalcVestedExact(a.escrow.funded, a.escrow.schedule, now);
  }

  lemma LinearOverrideStops(a: Agreement, l: Ledger, now: nat, nonce: nat, signatures: seq<Signature>)
    requires Sane(a, now) && a.escrow.schedule.kind == Linear
    requires var keys := KeysFirst(a.escrow.overrideSigners, signatures, |signatures|);
             keys.Err? || (!OverrideClear(a, now, nonce, |signatures|) && |keys.value| == |signatures|)
    ensures var r := OverrideRelease(a, l, now, nonce, signatures);
            && r.Err?
            && (|| OverrideLocked(a, now, nonce, |signatures|, r.error)
                || KeysFirst(a.escrow.overrideSigners, signatures, |signatures|) == Err(r.error))
  {
    CalcVestedExact(a.escrow.funded, a.escrow.schedule, now);
  }

  lemma OverrideStops(a: Agreement, l: Ledger, now: nat, nonce: nat, signatures: seq<Signature>)
    requires Sane(a, now) && a.escrow.schedule.kind != Linear
    requires var keys := KeysFirst(a.escrow.overrideSigners, signatures, |signatures|);
             keys.Err? || (!OverrideClear(a, now, nonce, |signatures|) && |keys.value| == |signatures|)
    ensures var r := OverrideRelease(a, l, now, nonce, signatures);
            && r.Err?
            && (|| OverrideLocked(a, now, nonce, |signatures|, r.error)
                || KeysFirst(a.escrow.overrideSigners, signatures, |signatures|) == Err(r.error))
  {
  }

  lemma OverridePays(a: Agreement, l: Ledger, now: nat, nonce: nat, signatures: seq<Signature>, t: Agreement, x: int,
                     r: Result<Outcome>)
    requires TermsOk(a.escrow) && Undrawn(t, a.escrow, l, x, a.escrow.released)
    requires t == a.(escrow := a.escrow.(overrideNonce := nonce, status := Released))
    requires x == a.escrow.funded - a.escrow.released && r == Payout(t, l, a.escrow.recipient, x, 0)
    requires forall err :: !OverrideBarred(a, now, nonce, signatures, err)
    ensures match r
            case Err(err) => OverrideRefused(a, now, nonce, signatures, err)
            case Ok(o) =>
              (forall err :: !OverrideRefused(a, now, nonce, signatures, err)) && OverrideDone(a, nonce, o)
  {
    PayoutIsDecided(t, a.escrow, l, a.escrow.recipient, x, 0, a.escrow.released);
  }

  lemma OverrideDecided(a: Agreement, l: Ledger, now: nat, nonce: nat, signatures: seq<Signature>)
    requires Ready(a, now, l)
    ensures match OverrideRelease(a, l, now, nonce, signatures)
            case Err(err) => OverrideRefused(a, now, nonce, signatures, err)
            case Ok(o) =>
              && (forall err :: !OverrideRefused(a, now, nonce, signatures, err))
              && OverrideDone(a, nonce, o)
  {
    var e, x, n := a.escrow, a.escrow.funded - a.escrow.released, |signatures|;
    KeysDecided(e, signatures, n);
    assert signatures[..n] == signatures;
    OverrideClearMeans(a, now, nonce, n);
    if OverrideClear(a, now, nonce, n) && KeysFirst(e.overrideSigners, signatures, n).Ok? {
      var t := a.(escrow := e.(overrideNonce := nonce, status := Released));
      OverrideOpens(a, l, now, nonce, signatures, x);
      RestUndrawn(a, now, l, t, x);
      OverridePays(a, l, now, nonce, signatures, t, x, OverrideRelease(a, l, now, nonce, signatures));
    } else {
      if e.schedule.kind == Linear {
        LinearOverrideStops(a, l, now, nonce, signatures);
      } else {
        OverrideStops(a, l, now, nonce, signatures);
      }
    }
  }

  // ----- returns -----

  lemma RefundPays(a: Agreement, l: Ledger, now: nat, caller: Address, t: Agreement, x: int, r: Result<Outcome>)
    requires a.escrow.status != Created && x == a.escrow.funded - a.escrow.released
    requires t == a.(escrow := a.escrow.(status := Refunded))
    requires GuardsThenPays(r, err => RefundBarred(a, now, caller, err), t, a.escrow, l, a.escrow.sender, x, 0,
                            a.escrow.released)
    ensures match r
            case Err(err) => RefundRefused(a, now, caller, err)
            case Ok(o) => (forall err :: !RefundRefused(a, now, caller, err)) && ReturnDone(a, o)
  {
    var barred := err => RefundBarred(a, now, caller, err);
    GuardedPayout(r, barred, t, a.escrow, l, a.escrow.sender, x, 0, a.escrow.released);
    match r
    case Err(err) => assert err == Overflow || barred(err); assert barred(InvalidState) || Live(a.escrow);
    case Ok(_) =>
      assert !barred(InvalidState);
      forall err ensures !RefundRefused(a, now, caller, err) { assert !barred(err); }
  }

  lemma RefundTimelockPays(a: Agreement, l: Ledger, now: nat, caller: Address, t: Agreement, x: int, r: Result<Outcome>)
    requires a.escrow.status != Created && x == a.escrow.funded - a.escrow.released
    requires t == a.(escrow := a.escrow.(status := Refunded))
    requires GuardsThenPays(r, err => RefundTimelockBarred(a, now, caller, err), t, a.escrow, l, a.escrow.sender, x, 0,
                            a.escrow.released)
    ensures match r
            case Err(err) => RefundTimelockRefused(a, now, caller, err)
            case Ok(o) => (forall err :: !RefundTimelockRefused(a, now, caller, err)) && ReturnDone(a, o)
  {
    var barred := err => RefundTimelockBarred(a, now, caller, err);
    GuardedPayout(r, barred, t, a.escrow, l, a.escrow.sender, x, 0, a.escrow.released);
    match r
    case Err(err) => assert err == Overflow || barred(err); assert barred(InvalidState) || Live(a.escrow);
    case Ok(_) =>
      assert !barred(InvalidState);
      forall err ensures !RefundTimelockRefused(a, now, caller, err) { assert !barred(err); }
  }

  lemma RefundOfUnfunded(a: Agreement, l: Ledger, now: nat, caller: Address, r: Result<Outcome>)
    requires a.escrow.status == Created && (r == Refund(a, l, now, caller) || r == Reclaim(a, l, now, caller))
    ensures r.Err? && RefundRefused(a, now, caller, r.error)
  {
  }

  lemma RefundGuards(a: Agreement, l: Ledger, now: nat, caller: Address, t: Agreement, x: int, r: Result<Outcome>)
    requires Sane(a, now) && a.escrow.status != Created && x == a.escrow.funded - a.escrow.released
    requires r == Refund(a, l, now, caller) || r == Reclaim(a, l, now, caller)
    requires t == a.(escrow := a.escrow.(status := Refunded))
    requires a.milestones.None? && Live(a.escrow) ==> Undrawn(t, a.escrow, l, x, a.escrow.released)
    ensures GuardsThenPays(r, err => RefundBarred(a, now, caller, err), t, a.escrow, l, a.escrow.sender, x, 0,
                           a.escrow.released)
  {
  }

  lemma RefundDecided(a: Agreement, l: Ledger, now: nat, caller: Address, r: Result<Outcome>)
    requires Ready(a, now, l) && (r == Refund(a, l, now, caller) || r == Reclaim(a, l, now, caller))
    ensures match r
            case Err(err) => RefundRefused(a, now, caller, err)
            case Ok(o) => (forall err :: !RefundRefused(a, now, caller, err)) && ReturnDone(a, o)
  {
    if a.escrow.status == Created {
      RefundOfUnfunded(a, l, now, caller, r);
    } else {
      var t, x := a.(escrow := a.escrow.(status := Refunded)), a.escrow.funded - a.escrow.released;
      if a.milestones.None? && Live(a.escrow) { RestUndrawn(a, now, l, t, x); }
      RefundGuards(a, l, now, caller, t, x, r);
      RefundPays(a, l, now, caller, t, x, r);
    }
  }

  lemma RefundUnfunded(a: Agreement, l: Ledger, now: nat, caller: Address)
    requires Sane(a, now) && a.escrow.status == Created
    ensures match RefundTimelock(a, l, now, caller)
            case Err(err) => RefundTimelockRefused(a, now, caller, err)
            case Ok(o) => (forall err :: !RefundTimelockRefused(a, now, caller, err)) && ReturnDone(a, o)
  {
  }

  lemma RefundTimelockGuards(a: Agreement, l: Ledger, now: nat, caller: Address, t: Agreement, x: int)
    requires Sane(a, now) && x == a.escrow.funded - a.escrow.released && a.escrow.status != Created
    requires t == a.(escrow := a.escrow.(status := Refunded))
    requires a.milestones.None? && Live(a.escrow) ==> Undrawn(t, a.escrow, l, x, a.escrow.released)
    ensures GuardsThenPays(RefundTimelock(a, l, now, caller), err => RefundTimelockBarred(a, now, caller, err), t,
                           a.escrow, l, a.escrow.sender, x, 0, a.escrow.released)
  {
  }

  lemma RefundTimelockDecided(a: Agreement, l: Ledger, now: nat, caller: Address)
    requires Ready(a, now, l)
    ensures match RefundTimelock(a, l, now, caller)
            case Err(err) => RefundTimelockRefused(a, now, caller, err)
            case Ok(o) => (forall err :: !RefundTimelockRefused(a, now, caller, err)) && ReturnDone(a, o)
  {
    if a.escrow.status == Created {
      RefundUnfunded(a, l, now, caller);
    } else {
      var t, x := a.(escrow := a.escrow.(status := Refunded)), a.escrow.funded - a.escrow.released;
      if a.milestones.None? && Live(a.escrow) { RestUndrawn(a, now, l, t, x); }
      RefundTimelockGuards(a, l, now, caller, t, x);
      RefundTimelockPays(a, l, now, caller, t, x, RefundTimelock(a, l, now, caller));
    }
  }

  lemma CancelDecided(a: Agreement, l: Ledger, now: nat, caller: Address)
    requires Ready(a, now, l) && a.milestones.None?
    ensures match Cancel(a, l, now, caller)
            case Err(err) => CancelRefused(a, now, caller, err)
            case Ok(o) => (forall err :: !CancelRefused(a, now, caller, err)) && ReturnDone(a, o)
  {
    var e := a.escrow;
    CalcVestedExact(e.funded, e.schedule, now);
    VestedBounds(e.funded, e.schedule, now);
    if Live(e) {
      PayoutIsDecided(a.(escrow := e.(status := Refunded)), e, l, e.sender, e.funded - e.released, 0, e.released);
    }
  }

  // ----- calls without a payout -----

  /** A holder other than custody loses what it sends. */
  lemma SenderLoses(l: Ledger, m: Move, a: Address)
    requires Transfer(l, m).Ok? && m.from != m.to
    ensures Balance(Transfer(l, m).value, m.from, a) == Balance(l, m.from, a) - (if a == m.asset then m.amount else 0)
  {
  }

  /** A deposit of distinct positive amounts succeeds exactly when the sender holds each of them
      and their total fits; what the sender holds of a later asset is still all there. */
  lemma {:induction false} PullDecided(l: Ledger, sender: Address, assets: seq<AssetAmount>, n: nat)
    requires AssetsOk(assets) && sender != SELF && n <= |assets|
    ensures match PullFirst(l, sender, assets, n)
            case Ok(t) =>
              && (forall i :: 0 <= i < n ==> assets[i].amount <= Balance(l, sender, assets[i].asset))
              && Total(assets[..n]) <= I128_MAX
              && (forall i :: n <= i < |assets| ==>
                    Balance(t.ledger, sender, assets[i].asset) == Balance(l, sender, assets[i].asset))
            case Err(err) =>
              || (err == InsufficientFunds &&
                  exists i :: 0 <= i < n && assets[i].amount > Balance(l, sender, assets[i].asset))
              || (err == Overflow && Total(assets[..n]) > I128_MAX)
  {
    if n > 0 {
      PullDecided(l, sender, assets, n - 1);
      assert assets[..n][..n - 1] == assets[..n - 1];
      if PullFirst(l, sender, assets, n - 1).Ok? { PullNext(l, sender, assets, n - 1); }
    }
  }

  lemma PullNext(l: Ledger, sender: Address, assets: seq<AssetAmount>, n: nat)
    requires AssetsOk(assets) && sender != SELF && n < |assets| && PullFirst(l, sender, assets, n).Ok?
    requires var before := PullFirst(l, sender, assets, n).value.ledger;
             forall i :: n <= i < |assets| ==>
               Balance(before, sender, assets[i].asset) == Balance(l, sender, assets[i].asset)
    ensures match PullFirst(l, sender, assets, n + 1)
            case Ok(t) =>
              && assets[n].amount <= Balance(l, sender, assets[n].asset) && Total(assets[..n + 1]) <= I128_MAX
              && (forall i :: n < i < |assets| ==>
                    Balance(t.ledger, sender, assets[i].asset) == Balance(l, sender, assets[i].asset))
            case Err(err) =>
              || (err == InsufficientFunds && assets[n].amount > Balance(l, sender, assets[n].asset))
              || (err == Overflow && Total(assets[..n + 1]) > I128_MAX)
  {
    var t, m := PullFirst(l, sender, assets, n).value, Move(assets[n].asset, sender, SELF, assets[n].amount);
    assert assets[..n + 1][..n] == assets[..n];
    PullTotals(l, sender, assets, n);
    AmountBounds(assets, SELF, n);
    if Transfer(t.ledger, m).Ok? {
      forall i | n < i < |assets|
        ensures Balance(Transfer(t.ledger, m).value, sender, assets[i].asset) == Balance(l, sender, assets[i].asset)
      {
        SenderLoses(t.ledger, m, assets[i].asset);
      }
    }
  }

  /** Exactly what is listed came in. */
  ghost predicate Pulled(sender: Address, assets: seq<AssetAmount>, t: Tally) {
    && t.total == Total(assets) && ComesFrom(t.moves, sender)
    && forall asset :: Deposited(t.moves, asset) == AmountOf(assets, asset)
  }

  /** A deposit is refused exactly for a reason, and otherwise brings in all that is listed. */
  lemma DepositDecided(l: Ledger, sender: Address, assets: seq<AssetAmount>)
    requires AssetsOk(assets) && sender != SELF
    ensures var r := PullFirst(l, sender, assets, |assets|);
            && (r.Err? ==> DepositRefused(l, sender, assets, r.error))
            && (r.Ok? ==> (forall err :: !DepositRefused(l, sender, assets, err)) && Pulled(sender, assets, r.value))
  {
    var n := |assets|;
    assert assets[..n] == assets;
    PullDecided(l, sender, assets, n);
    if PullFirst(l, sender, assets, n).Ok? {
      PullTotals(l, sender, assets, n);
      PullEffect(l, sender, assets, n, SELF);
      forall asset
        ensures Deposited(PullFirst(l, sender, assets, n).value.moves, asset) == AmountOf(assets, asset)
      {
        PullEffect(l, sender, assets, n, asset);
      }
    }
  }

  lemma FundDecided(a: Agreement, l: Ledger, tokens: set<Address>, now: nat, caller: Address)
    requires Sane(a, now)
    ensures match Fund(a, l, tokens, caller)
            case Err(err) => FundRefused(a, l, tokens, caller, err)
            case Ok(o) => (forall err :: !FundRefused(a, l, tokens, caller, err)) && FundDone(a, o)
  {
    DepositDecided(l, a.escrow.sender, a.escrow.assets);
  }

  lemma ApproveDecided(a: Agreement, l: Ledger, now: nat, caller: Address)
    requires Sane(a, now)
    ensures match ApproveRelease(a, l, caller)
            case Err(err) => ApproveRefused(a, caller, err)
            case Ok(o) => (forall err :: !ApproveRefused(a, caller, err)) && ApproveDone(a, caller, o)
  {
    if ApproveRelease(a, l, caller).Ok? { ApproveCounts(a, l, caller); }
  }

  lemma MarkDecided(a: Agreement, l: Ledger, tokens: set<Address>, now: nat, action: Action)
    requires TermsOk(a.escrow) && (action.DoExpire? || action.DoClose?)
    ensures Decided(a, l, tokens, now, action, Perform(a, l, tokens, now, action))
  {
  }

  // ----- milestones -----

  /** Milestones are indexed by their position. */
  ghost predicate Indexed(a: Agreement) {
    a.milestones.Some? ==>
      forall i :: 0 <= i < |a.milestones.value.items| ==> a.milestones.value.items[i].index == i
  }

  lemma SelectDecided(a: Agreement, caller: Address, index: nat, wanted: MilestoneStatus)
    requires Indexed(a) && wanted != Completed
    ensures match SelectMilestone(a, caller, index, wanted)
            case Err(err) => MilestoneBarred(a, caller, index, wanted, err)
            case Ok(k) => k == index && forall err :: !MilestoneBarred(a, caller, index, wanted, err)
  {
  }

  lemma FlagDecided(a: Agreement, l: Ledger, tokens: set<Address>, now: nat, action: Action)
    requires TermsOk(a.escrow) && Indexed(a) && (action.DoDispute? || action.DoResolve?)
    ensures Decided(a, l, tokens, now, action, Perform(a, l, tokens, now, action))
  {
    SelectDecided(a, action.caller, action.index, if action.DoDispute? then Pending else Disputed);
  }

  /** One milestone is open exactly when all others are completed. */
  lemma LastOpen(items: seq<Milestone>, k: nat)
    requires k < |items| && items[k].status != Completed
    ensures OpenCount(items, |items|) == 1 <==> forall i :: 0 <= i < |items| && i != k ==> items[i].status == Completed
  {
    var rest := items[k := items[k].(status := Completed)];
    MarkEffect(items, k, Completed, 0, |items|);
    OpenCountMeaning(rest, |items|);
    if OpenCount(items, |items|) == 1 {
      forall i | 0 <= i < |items| && i != k ensures items[i].status == Completed { assert rest[i] == items[i]; }
    }
    if forall i :: 0 <= i < |items| && i != k ==> items[i].status == Completed {
      forall i | 0 <= i < |items| ensures rest[i].status == Completed { assert i != k ==> rest[i] == items[i]; }
    }
  }

  lemma ReleaseMilestonePays(a: Agreement, b: Book, now: nat, l: Ledger, caller: Address, index: nat)
    requires AgreementOk(a, b, now) && ReleaseMilestone(a, l, caller, index).Ok?
    ensures MilestonePaid(a, index, ReleaseMilestone(a, l, caller, index).value)
  {
    ReleaseMilestoneMeaning(a, b, now, l, caller, index);
    LastOpen(a.milestones.value.items, index);
  }

  lemma ReleaseMilestoneDecided(c: Config, id: nat, caller: Address, index: nat)
    requires Inv(c) && id in c.state.agreements
    ensures var a := c.state.agreements[id];
            match ReleaseMilestone(a, c.state.ledger, caller, index)
            case Err(err) => ReleaseMilestoneRefused(a, caller, index, err)
            case Ok(o) =>
              (forall err :: !ReleaseMilestoneRefused(a, caller, index, err)) && MilestonePaid(a, index, o)
  {
    var a, b, l := c.state.agreements[id], c.books[id], c.state.ledger;
    SelectDecided(a, caller, index, Pending);
    if SelectMilestone(a, caller, index, Pending).Ok? {
      assert caller == a.escrow.arbiter;
      MilestoneNeverBounces(c, id, index);
      if ReleaseMilestone(a, l, caller, index).Ok? {
        ReleaseMilestonePays(a, b, c.state.now, l, caller, index);
      }
    }
  }

  lemma CancelMilestonesDecided(a: Agreement, l: Ledger, now: nat, caller: Address)
    requires Ready(a, now, l)
    requires a.milestones.Some? && Live(a.escrow) ==>
               |a.escrow.assets| == 1 && a.escrow.assets[0].amount == a.escrow.funded
    ensures match CancelMilestones(a, l, caller)
            case Err(err) => CancellingRefused(a, caller, err)
            case Ok(o) =>
              && (forall err :: !CancellingRefused(a, caller, err))
              && CancellingDone(a, o) && o.ret == a.escrow.funded - a.milestones.value.released
  {
    var e := a.escrow;
    if a.milestones.Some? && Live(e) {
      var ms := a.milestones.value;
      var x := e.funded - ms.released;
      var next := MilestoneSet(Frozen(ms.items), ms.released, true);
      var t := a.(escrow := e.(status := Refunded), milestones := Some(next));
      assert ProductsFit(e.assets, x, 1) <==> e.funded * x <= I128_MAX;
      if x > 0 { PayoutIsDecided(t, e, l, e.sender, x, x, ms.released); }
    }
  }

  // ----- every action of every run -----

  lemma PaymentDecided(a: Agreement, l: Ledger, tokens: set<Address>, now: nat, action: Action)
    requires Ready(a, now, l) && PaysOut(action) && Early(action).Pass?
    ensures Decided(a, l, tokens, now, action, Perform(a, l, tokens, now, action))
  {
    match action
    case DoWithdraw(caller, amount) => WithdrawDecided(a, l, now, caller, amount);
    case DoClaim(caller) => ClaimDecided(a, l, now, caller);
    case DoRelease(caller, amount) => ReleaseDecided(a, l, now, caller, amount);
    case DoOverride(nonce, signatures) => OverrideDecided(a, l, now, nonce, signatures);
  }

  lemma ReturnDecided(a: Agreement, l: Ledger, tokens: set<Address>, now: nat, action: Action)
    requires Ready(a, now, l) && IsReturn(action) && (action.DoCancel? ==> a.milestones.None?)
    ensures Decided(a, l, tokens, now, action, Perform(a, l, tokens, now, action))
  {
    match action
    case DoRefund(caller) => RefundDecided(a, l, now, caller, Refund(a, l, now, caller));
    case DoReclaim(caller) => RefundDecided(a, l, now, caller, Reclaim(a, l, now, caller));
    case DoRefundTimelock(caller) => RefundTimelockDecided(a, l, now, caller);
    case DoCancel(caller) => CancelDecided(a, l, now, caller);
  }

  lemma CancellingDecided(a: Agreement, l: Ledger, tokens: set<Address>, now: nat, action: Action)
    requires Ready(a, now, l)
    requires a.milestones.Some? && Live(a.escrow) ==>
               |a.escrow.assets| == 1 && a.escrow.assets[0].amount == a.escrow.funded
    requires action.DoCancelMilestones? || (action.DoCancel? && a.milestones.Some?)
    ensures Decided(a, l, tokens, now, action, Perform(a, l, tokens, now, action))
  {
    CancelMilestonesDecided(a, l, now, action.caller);
  }

  lemma RecordDecided(a: Agreement, l: Ledger, tokens: set<Address>, now: nat, action: Action)
    requires Sane(a, now) && (action.DoApprove? || action.DoFund? || action.DoExpire? || action.DoClose?)
    ensures Decided(a, l, tokens, now, action, Perform(a, l, tokens, now, action))
  {
    match action
    case DoApprove(caller) => ApproveDecided(a, l, now, caller);
    case DoFund(caller) => FundDecided(a, l, tokens, now, caller);
    case _ => MarkDecided(a, l, tokens, now, action);
  }

  lemma MilestoneApprovalDecided(c: Config, id: nat, action: Action)
    requires Inv(c) && id in c.state.agreements && action.DoReleaseMilestone?
    ensures var a, s := c.state.agreements[id], c.state;
            && TermsOk(a.escrow)
            && Decided(a, s.ledger, s.tokens, s.now, action, Perform(a, s.ledger, s.tokens, s.now, action))
  {
    ReleaseMilestoneDecided(c, id, action.caller, action.index);
  }

  lemma MilestoneFlagDecided(c: Config, id: nat, action: Action)
    requires Inv(c) && id in c.state.agreements && (action.DoDispute? || action.DoResolve?)
    ensures var a, s := c.state.agreements[id], c.state;
            && TermsOk(a.escrow)
            && Decided(a, s.ledger, s.tokens, s.now, action, Perform(a, s.ledger, s.tokens, s.now, action))
  {
    var a, s := c.state.agreements[id], c.state;
    ItemsIndexed(c, id);
    FlagDecided(a, s.ledger, s.tokens, s.now, action);
  }

  lemma MilestoneCancelDecided(c: Config, id: nat, action: Action)
    requires Inv(c) && id in c.state.agreements
    requires action.DoCancelMilestones? || (action.DoCancel? && c.state.agreements[id].milestones.Some?)
    ensures var a, s := c.state.agreements[id], c.state;
            && TermsOk(a.escrow)
            && Decided(a, s.ledger, s.tokens, s.now, action, Perform(a, s.ledger, s.tokens, s.now, action))
  {
    var a, s := c.state.agreements[id], c.state;
    ReadyHere(c, id);
    if a.milestones.Some? && Live(a.escrow) { MilestoneLive(c, id); }
    CancellingDecided(a, s.ledger, s.tokens, s.now, action);
  }

  lemma PlainActionDecided(a: Agreement, l: Ledger, tokens: set<Address>, now: nat, action: Action)
    requires Ready(a, now, l) && Early(action).Pass?
    requires !action.DoCancelMilestones? && !action.DoReleaseMilestone? && !action.DoDispute? && !action.DoResolve?
    requires action.DoCancel? ==> a.milestones.None?
    ensures Decided(a, l, tokens, now, action, Perform(a, l, tokens, now, action))
  {
    if PaysOut(action) {
      PaymentDecided(a, l, tokens, now, action);
    } else if IsReturn(action) {
      ReturnDecided(a, l, tokens, now, action);
    } else {
      RecordDecided(a, l, tokens, now, action);
    }
  }

  lemma ActionDecided(c: Config, id: nat, action: Action)
    requires Inv(c) && id in c.state.agreements && Early(action).Pass?
    ensures var a, s := c.state.agreements[id], c.state;
            && TermsOk(a.escrow)
            && Decided(a, s.ledger, s.tokens, s.now, action, Perform(a, s.ledger, s.tokens, s.now, action))
  {
    var a, s := c.state.agreements[id], c.state;
    if action.DoReleaseMilestone? {
      MilestoneApprovalDecided(c, id, action);
    } else if action.DoDispute? || action.DoResolve? {
      MilestoneFlagDecided(c, id, action);
    } else if action.DoCancelMilestones? || (action.DoCancel? && a.milestones.Some?) {
      MilestoneCancelDecided(c, id, action);
    } else {
      ReadyHere(c, id);
      PlainActionDecided(a, s.ledger, s.tokens, s.now, action);
    }
  }

  lemma ItemsIndexed(c: Config, id: nat)
    requires Inv(c) && id in c.state.agreements
    ensures Indexed(c.state.agreements[id])
  {
  }

  /** The refusals a call on escrow `id` meets. */
  ghost predicate CallRefused(s: State, id: nat, action: Action, err: Error) {
    || (err == NotFound && id !in s.agreements)
    || (err == InvalidAmount && action.DoWithdraw? && action.amount <= 0)
    || (id in s.agreements && TermsOk(s.agreements[id].escrow)
        && ActionRefused(s.agreements[id], s.ledger, s.tokens, s.now, action, err))
  }

  /** An accepted call changes the record of that escrow and the token ledger, and nothing else. */
  ghost predicate CallDone(s: State, id: nat, action: Action, step: Step) {
    && id in s.agreements && id in step.state.agreements && step.id == id
    && step.state == s.(agreements := s.agreements[id := step.state.agreements[id]], ledger := step.state.ledger)
    && TermsOk(s.agreements[id].escrow)
    && ActionDone(s.agreements[id], s.now, action,
                  Outcome(step.state.agreements[id], step.state.ledger, step.moves, step.share, step.ret))
  }

  ghost predicate CallIsDecided(s: State, id: nat, action: Action, r: Result<Step>) {
    match r
    case Err(err) => CallRefused(s, id, action, err)
    case Ok(step) => CallDone(s, id, action, step) && forall err :: !CallRefused(s, id, action, err)
  }

  /** A call stores what its action hands back. */
  ghost predicate Commits(s: State, id: nat, r: Result<Outcome>, call: Result<Step>) {
    match r
    case Err(err) => call == Err(err)
    case Ok(o) =>
      call == Ok(Step(s.(agreements := s.agreements[id := o.agreement], ledger := o.ledger), id, o.moves, o.share,
                      o.ret))
  }

  lemma ExecCommits(s: State, id: nat, action: Action)
    requires id in s.agreements && Early(action).Pass?
    ensures Commits(s, id, Perform(s.agreements[id], s.ledger, s.tokens, s.now, action), Exec(s, Act(id, action)))
  {
  }

  lemma CommittedIsDecided(s: State, id: nat, action: Action, r: Result<Outcome>, call: Result<Step>)
    requires id in s.agreements && Early(action).Pass? && TermsOk(s.agreements[id].escrow)
    requires Decided(s.agreements[id], s.ledger, s.tokens, s.now, action, r) && Commits(s, id, r, call)
    ensures CallIsDecided(s, id, action, call)
  {
  }

  lemma AnyCallDecided(c: Config, id: nat, action: Action)
    requires Inv(c)
    ensures CallIsDecided(c.state, id, action, Exec(c.state, Act(id, action)))
  {
    var s := c.state;
    if id in s.agreements && Early(action).Pass? {
      ActionDecided(c, id, action);
      ExecCommits(s, id, action);
      CommittedIsDecided(s, id, action, Perform(s.agreements[id], s.ledger, s.tokens, s.now, action),
                         Exec(s, Act(id, action)));
    } else {
      NoSuchCall(s, id, action);
    }
  }

  lemma NoSuchCall(s: State, id: nat, action: Action)
    requires id !in s.agreements || Early(action).Fail?
    ensures CallIsDecided(s, id, action, Exec(s, Act(id, action)))
  {
  }

  /** Over every run, every call on an escrow fails exactly when a refusal applies, with one that
      does, and otherwise does what it should and no more. */
  lemma CallDecided(c0: Config, ops: seq<Op>, i: nat, id: nat, action: Action)
    requires IsRun(c0, ops, i)
    ensures CallIsDecided(ConfigAt(c0, ops, i).state, id, action, Exec(ConfigAt(c0, ops, i).state, Act(id, action)))
  {
    RunInv(c0, ops, i);
    AnyCallDecided(ConfigAt(c0, ops, i), id, action);
  }

  // ----- expiry -----

  /** Anybody may mark an escrow expired if and only if it is funded and, where the sum fits 64
      bits, its deadline and grace period are over. */
  lemma ExpireDecided(a: Agreement, l: Ledger, now: nat)
    requires a.escrow.deadline + a.escrow.gracePeriod < TWO64
    ensures Expire(a, l, now).Ok? <==> a.escrow.status == Funded && now >= a.escrow.deadline + a.escrow.gracePeriod
    ensures Expire(a, l, now).Ok? ==> MarkDone(a, Expired, Expire(a, l, now).value)
  {
  }
}

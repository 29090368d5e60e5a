/** What the recipient of a time-locked escrow was promised, stated on the arguments its opening
    was given: no call pays earlier than the instant asked for, and from it on everything can be
    claimed. And nobody's time is cut short: an escrow is marked expired only after its grace
    period. */
module EscrowTimelocks {
  import opened Common
  import opened Arith
  import opened EscrowModel
  import opened EscrowShares
  import opened EscrowVesting
  import opened EscrowInvariant
  import opened EscrowMilestones
  import opened EscrowSteps
  import opened EscrowTheorems
  import opened EscrowPromises
  import opened EscrowCalls
  import opened EscrowOpenings

  /** The openings that lock the money in time. */
  predicate TimeLocks(o: Opening) {
    o.NewTimelock? || o.NewUnfunded? || (o.NewScheduled? && o.schedule.kind != Unscheduled)
  }

  /** The instant asked for before which the recipient gets nothing. */
  function LockedUntil(o: Opening): nat
    requires TimeLocks(o)
  {
    match o
    case NewTimelock(_, _, _, _, unlock) => unlock
    case NewUnfunded(_, _, _, _, unlock, _) => unlock
    case NewScheduled(_, _, _, _, schedule, _) => schedule.cliff
  }

  /** The instant asked for from which everything is the recipient's. */
  function OpenFrom(o: Opening): nat
    requires TimeLocks(o)
  {
    match o
    case NewTimelock(_, _, _, _, unlock) => unlock
    case NewUnfunded(_, _, _, _, unlock, _) => unlock
    case NewScheduled(_, _, _, _, schedule, _) => schedule.end
  }

  // ----- nothing before -----

  /** The record carries a schedule with this cliff and this end, and no milestones or condition. */
  predicate Locked(a: Agreement, cliff: nat, end: nat) {
    && a.escrow.schedule.kind != Unscheduled && a.escrow.schedule.cliff == cliff && a.escrow.schedule.end == end
    && a.milestones.None? && a.condition.None?
  }

  lemma AskedIsLocked(o: Opening, now: nat, a: Agreement)
    requires TimeLocks(o) && SameTerms(Asked(o, now), a)
    ensures Locked(a, LockedUntil(o), OpenFrom(o))
  {
  }

  /** Nothing has vested before the cliff, or before the end of a bullet. */
  lemma NothingVested(amount: nat, s: Schedule, time: nat)
    requires WellFormed(s) && time < s.cliff
    ensures Vested(amount, s, time) == 0
  {
  }

  lemma WithdrawWaits(a: Agreement, l: Ledger, now: nat, caller: Address, amount: int)
    requires Ready(a, now, l) && amount > 0 && Withdraw(a, l, now, caller, amount).Ok?
    ensures now >= a.escrow.schedule.cliff
  {
    WithdrawDecided(a, l, now, caller, amount);
    assert !WithdrawRefused(a, now, caller, amount, TimeLockActive);
    assert !WithdrawRefused(a, now, caller, amount, InvalidState);
    if now < a.escrow.schedule.cliff { NothingVested(a.escrow.funded, a.escrow.schedule, now); }
  }

  lemma ClaimWaits(a: Agreement, l: Ledger, now: nat, caller: Address)
    requires Ready(a, now, l) && a.escrow.schedule.kind != Unscheduled && Claim(a, l, now, caller).Ok?
    ensures now >= a.escrow.schedule.cliff || Claim(a, l, now, caller).value.moves == []
  {
    ClaimDecided(a, l, now, caller);
    assert !ClaimRefused(a, now, caller, TimeLockActive) && !ClaimRefused(a, now, caller, InvalidState);
    if now < a.escrow.schedule.cliff { NothingVested(a.escrow.funded, a.escrow.schedule, now); }
  }

  lemma ReleaseWaits(a: Agreement, l: Ledger, now: nat, caller: Address, amount: int)
    requires Ready(a, now, l) && a.escrow.schedule.kind != Unscheduled && Release(a, l, now, caller, amount).Ok?
    ensures now >= a.escrow.schedule.cliff
  {
    ReleaseDecided(a, l, now, caller, amount);
    assert !ReleaseRefused(a, now, caller, amount, TimelockNotExpired);
  }

  lemma OverrideWaits(a: Agreement, l: Ledger, now: nat, nonce: nat, signatures: seq<Signature>)
    requires Ready(a, now, l) && a.escrow.schedule.kind != Unscheduled
    requires OverrideRelease(a, l, now, nonce, signatures).Ok?
    ensures now >= a.escrow.schedule.cliff
  {
    OverrideDecided(a, l, now, nonce, signatures);
    assert !OverrideRefused(a, now, nonce, signatures, TimelockNotExpired);
  }

  lemma PaymentWaits(a: Agreement, b: Book, l: Ledger, tokens: set<Address>, now: nat, action: Action)
    requires Ready(a, now, l) && a.escrow.schedule.kind != Unscheduled && PaysOut(action) && Early(action).Pass?
    requires Perform(a, l, tokens, now, action).Ok? && Perform(a, l, tokens, now, action).value.moves != []
    ensures now >= a.escrow.schedule.cliff
  {
    match action
    case DoWithdraw(caller, amount) => WithdrawWaits(a, l, now, caller, amount);
    case DoClaim(caller) => ClaimWaits(a, l, now, caller);
    case DoRelease(caller, amount) => ReleaseWaits(a, l, now, caller, amount);
    case DoOverride(nonce, signatures) => OverrideWaits(a, l, now, nonce, signatures);
  }

  /** The other calls on an escrow without milestones pay nobody but the sender. */
  lemma OthersPayNoRecipient(a: Agreement, b: Book, l: Ledger, tokens: set<Address>, now: nat, action: Action)
    requires AgreementOk(a, b, now) && a.milestones.None? && !PaysOut(action)
    requires Perform(a, l, tokens, now, action).Ok?
    ensures !PaysRecipient(a.escrow, Perform(a, l, tokens, now, action).value.moves)
  {
    if IsReturn(action) {
      ReturnsPaySender(a, b, l, tokens, now, action);
    } else if action.DoFund? {
      FundPaysNobody(a, b, l, tokens, now, action.caller);
    }
  }

  lemma LockedCallWaits(c: Config, id: nat, action: Action, cliff: nat, end: nat)
    requires Inv(c) && id in c.state.agreements && Locked(c.state.agreements[id], cliff, end) && Early(action).Pass?
    requires var a, s := c.state.agreements[id], c.state;
             && Perform(a, s.ledger, s.tokens, s.now, action).Ok?
             && PaysRecipient(a.escrow, Perform(a, s.ledger, s.tokens, s.now, action).value.moves)
    ensures c.state.now >= cliff
  {
    var a, s := c.state.agreements[id], c.state;
    ReadyHere(c, id);
    if PaysOut(action) {
      PaymentWaits(a, c.books[id], s.ledger, s.tokens, s.now, action);
    } else {
      OthersPayNoRecipient(a, c.books[id], s.ledger, s.tokens, s.now, action);
    }
  }

  /** Over every run: no call pays the recipient of a time-locked escrow before the instant its
      opening asked for, the unlock time of a timelock or the cliff of a schedule. */
  lemma NothingBeforeUnlock(c0: Config, ops: seq<Op>, j: nat, i: nat)
    requires IsRun(c0, ops, i) && j < i < |ops| && ops[i].Act? && OpenedAt(c0, ops, j, ops[i].id)
    requires ops[j].Open? && TimeLocks(ops[j].opening)
    requires ops[i].id in ConfigAt(c0, ops, i).state.agreements
    requires Exec(ConfigAt(c0, ops, i).state, ops[i]).Ok?
    requires PaysRecipient(ConfigAt(c0, ops, i).state.agreements[ops[i].id].escrow,
                           Exec(ConfigAt(c0, ops, i).state, ops[i]).value.moves)
    ensures ConfigAt(c0, ops, i).state.now >= LockedUntil(ops[j].opening)
  {
    var o, id := ops[j].opening, ops[i].id;
    RunInv(c0, ops, i);
    TermsAsAsked(c0, ops, j, i, id);
    var c := ConfigAt(c0, ops, i);
    AskedIsLocked(o, ConfigAt(c0, ops, j).state.now, c.state.agreements[id]);
    ActedOn(c, ops[i]);
    LockedCallWaits(c, id, ops[i].action, LockedUntil(o), OpenFrom(o));
  }

  lemma ActedOn(c: Config, op: Op)
    requires op.Act? && Exec(c.state, op).Ok?
    ensures op.id in c.state.agreements && Early(op.action).Pass?
    ensures var s := c.state;
            var r := Perform(s.agreements[op.id], s.ledger, s.tokens, s.now, op.action);
            r.Ok? && r.value.moves == Exec(c.state, op).value.moves
  {
  }

  // ----- everything after -----

  /** All that is left is claimable, and the recipient's claim takes it unless a product of that
      payout does not fit. */
  ghost predicate ClaimsAll(a: Agreement, l: Ledger, now: nat) {
    var e := a.escrow;
    var r, rest := Claim(a, l, now, e.recipient), e.funded - e.released;
    && CalcClaimable(e, now) == Ok(rest)
    && (r.Ok? <==> ProductsFit(e.assets, rest, |e.assets|))
    && (r.Ok? ==> r.value.ret == rest && r.value.agreement.escrow.status == Released
                  && PaidOut(e, e.recipient, rest, r.value))
  }

  lemma MaturedClaim(a: Agreement, l: Ledger, now: nat, cliff: nat, end: nat)
    requires Ready(a, now, l) && Locked(a, cliff, end) && a.escrow.status == Funded && now >= end
    ensures ClaimsAll(a, l, now)
  {
    var e := a.escrow;
    VestedBounds(e.funded, e.schedule, now);
    ClaimableDecided(e, now);
    ClaimDecided(a, l, now, e.recipient);
    ClaimShareFits(a, now);
  }

  lemma ClaimShareFits(a: Agreement, now: nat)
    requires Sane(a, now) && a.milestones.None? && a.condition.None? && a.escrow.status == Funded
    requires a.escrow.schedule.kind != Unscheduled && now >= a.escrow.schedule.end
    ensures forall err :: ClaimRefused(a, now, a.escrow.recipient, err) <==>
              err == Overflow && Oversized(a.escrow, a.escrow.funded - a.escrow.released)
  {
    VestedBounds(a.escrow.funded, a.escrow.schedule, now);
  }

  /** Over every run: from the instant its opening asked for, the unlock time of a timelock or the
      end of a schedule, everything a funded time-locked escrow still holds is claimable, and the
      recipient's claim takes it unless a product of the payout does not fit. */
  lemma EverythingAfterUnlock(c0: Config, ops: seq<Op>, j: nat, i: nat, id: nat)
    requires IsRun(c0, ops, i) && j < i && OpenedAt(c0, ops, j, id)
    requires ops[j].Open? && TimeLocks(ops[j].opening)
    requires id in ConfigAt(c0, ops, i).state.agreements
    requires ConfigAt(c0, ops, i).state.agreements[id].escrow.status == Funded
    requires ConfigAt(c0, ops, i).state.now >= OpenFrom(ops[j].opening)
    ensures var s := ConfigAt(c0, ops, i).state; ClaimsAll(s.agreements[id], s.ledger, s.now)
  {
    RunInv(c0, ops, i);
    TermsAsAsked(c0, ops, j, i, id);
    UnlockedHere(ConfigAt(c0, ops, i), id, ops[j].opening, ConfigAt(c0, ops, j).state.now);
  }

  lemma UnlockedHere(c: Config, id: nat, o: Opening, since: nat)
    requires Inv(c) && id in c.state.agreements && TimeLocks(o) && SameTerms(Asked(o, since), c.state.agreements[id])
    requires c.state.agreements[id].escrow.status == Funded && c.state.now >= OpenFrom(o)
    ensures ClaimsAll(c.state.agreements[id], c.state.ledger, c.state.now)
  {
    AskedIsLocked(o, since, c.state.agreements[id]);
    ReadyHere(c, id);
    MaturedClaim(c.state.agreements[id], c.state.ledger, c.state.now, LockedUntil(o), OpenFrom(o));
  }

  // ----- expiry waits for the grace period -----

  lemma PaymentsNeverExpire(a: Agreement, l: Ledger, tokens: set<Address>, now: nat, action: Action)
    requires (PaysOut(action) || IsReturn(action)) && Perform(a, l, tokens, now, action).Ok?
    ensures Perform(a, l, tokens, now, action).value.agreement.escrow.status != Expired
  {
  }

  /** Only the expiry itself marks an escrow expired. */
  lemma ExpiryIsMarked(a: Agreement, l: Ledger, tokens: set<Address>, now: nat, action: Action)
    requires Perform(a, l, tokens, now, action).Ok?
    requires Perform(a, l, tokens, now, action).value.agreement.escrow.status == Expired
    ensures a.escrow.status == Expired || (a.escrow.status == Funded && GraceOver(a.escrow, now))
  {
    if PaysOut(action) || IsReturn(action) { PaymentsNeverExpire(a, l, tokens, now, action); }
  }

  ghost predicate ExpiredInTime(c: Config, id: nat) {
    id in c.state.agreements && c.state.agreements[id].escrow.status == Expired ==>
      GraceOver(c.state.agreements[id].escrow, c.state.now)
  }

  lemma ExpiryAct(c: Config, op: Op, id: nat)
    requires ExpiredInTime(c, id) && op.Act? && op.id == id && Exec(c.state, op).Ok?
    ensures ExpiredInTime(Next(c, op), id)
  {
    var s := c.state;
    ActIsRecord(c, op);
    ActionKeepsTerms(s.agreements[id], s.ledger, s.tokens, s.now, op.action);
    var o := Perform(s.agreements[id], s.ledger, s.tokens, s.now, op.action).value;
    if o.agreement.escrow.status == Expired {
      ExpiryIsMarked(s.agreements[id], s.ledger, s.tokens, s.now, op.action);
    }
  }

  lemma ExpiryElsewhere(c: Config, op: Op, id: nat)
    requires Numbered(c) && Numbers(c, op) && id in c.state.agreements && ExpiredInTime(c, id)
    requires Exec(c.state, op).Err? || !op.Act? || op.id != id
    ensures ExpiredInTime(Next(c, op), id)
  {
    OthersUntouched(c, op, id);
  }

  lemma ExpiryStep(c: Config, op: Op, id: nat)
    requires Inv(c) && Numbers(c, op) && ExpiredInTime(c, id)
    ensures ExpiredInTime(Next(c, op), id)
  {
    if op.Act? && op.id == id && Exec(c.state, op).Ok? {
      ExpiryAct(c, op, id);
    } else if id in c.state.agreements {
      ExpiryElsewhere(c, op, id);
    } else if id in Next(c, op).state.agreements {
      NewNeedsId(c, op, id);
      NewIsNotExpired(c, op, id);
    }
  }

  lemma NewIsNotExpired(c: Config, op: Op, id: nat)
    requires Inv(c) && c.state.count < U64_MAX && id !in c.state.agreements && id in Next(c, op).state.agreements
    ensures Next(c, op).state.agreements[id].escrow.status != Expired
  {
    NewIdIsOpened(c, op, id);
    OpeningStores(c, op);
    AskedIsNotExpired(op.opening, c.state.now);
  }

  lemma AskedIsNotExpired(o: Opening, now: nat)
    ensures Asked(o, now).escrow.status != Expired
  {
  }

  lemma NewNeedsId(c: Config, op: Op, id: nat)
    requires Numbers(c, op) && id !in c.state.agreements && id in Next(c, op).state.agreements
    ensures op.Open? && c.state.count < U64_MAX
  {
  }

  lemma {:induction false} RunExpiresInTime(c0: Config, ops: seq<Op>, i: nat, id: nat)
    requires IsRun(c0, ops, i)
    ensures ExpiredInTime(ConfigAt(c0, ops, i), id)
  {
    if i > 0 {
      RunExpiresInTime(c0, ops, i - 1, id);
      RunInv(c0, ops, i - 1);
      RunNumbers(c0, ops, i - 1);
      ExpiryStep(ConfigAt(c0, ops, i - 1), ops[i - 1], id);
    }
  }

  /** Over every run: an escrow marked expired is past its deadline and grace period, wherever
      their sum fits 64 bits. Until then the arbiter's and the recipient's paths stay open. */
  lemma ExpiredIsPastGrace(c0: Config, ops: seq<Op>, i: nat, id: nat)
    requires IsRun(c0, ops, i) && id in ConfigAt(c0, ops, i).state.agreements
    requires var e := ConfigAt(c0, ops, i).state.agreements[id].escrow;
             e.status == Expired && e.deadline + e.gracePeriod < TWO64
    ensures var e := ConfigAt(c0, ops, i).state.agreements[id].escrow;
            ConfigAt(c0, ops, i).state.now >= e.deadline + e.gracePeriod
  {
    RunExpiresInTime(c0, ops, i, id);
    GraceIsOver(ConfigAt(c0, ops, i), id);
  }

  lemma GraceIsOver(c: Config, id: nat)
    requires ExpiredInTime(c, id) && id in c.state.agreements
    requires var e := c.state.agreements[id].escrow; e.status == Expired && e.deadline + e.gracePeriod < TWO64
    ensures var e := c.state.agreements[id].escrow; c.state.now >= e.deadline + e.gracePeriod
  {
  }

  /** Over every run: anybody's call to expire succeeds if and only if the escrow is there and
      funded and, for a sum that fits 64 bits, its deadline and grace period are over. */
  lemma ExpiryDecided(c0: Config, ops: seq<Op>, i: nat, id: nat)
    requires IsRun(c0, ops, i)
    requires id in ConfigAt(c0, ops, i).state.agreements ==>
               var e := ConfigAt(c0, ops, i).state.agreements[id].escrow; e.deadline + e.gracePeriod < TWO64
    ensures var s := ConfigAt(c0, ops, i).state;
            && (Exec(s, Act(id, DoExpire)).Ok? <==>
                  && id in s.agreements && s.agreements[id].escrow.status == Funded
                  && s.now >= s.agreements[id].escrow.deadline + s.agreements[id].escrow.gracePeriod)
            && (Exec(s, Act(id, DoExpire)).Ok? ==>
                  Exec(s, Act(id, DoExpire)).value.state ==
                  s.(agreements := s.agreements[id := s.agreements[id].(
                       escrow := s.agreements[id].escrow.(status := Expired))]))
  {
    var s := ConfigAt(c0, ops, i).state;
    if id in s.agreements {
      ExpireDecided(s.agreements[id], s.ledger, s.now);
      ExecCommits(s, id, DoExpire);
    }
  }
}

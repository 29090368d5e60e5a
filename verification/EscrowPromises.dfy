/** The contract's promises to its parties: vesting, multi-party approval, milestone money,
    the signature override, and the two places where the documented promise is broken. */
module EscrowPromises {
  import opened Common
  import opened Arith
  import opened EscrowModel
  import opened EscrowShares
  import opened EscrowVesting
  import opened EscrowInvariant
  import opened EscrowMilestones
  import opened EscrowSteps
  import opened EscrowTheorems

  // ----- vesting -----

  /** In every reachable state a funded escrow has released less than everything and no more
      than has vested; without a schedule it has released nothing. */
  lemma VestingSafety(c0: Config, ops: seq<Op>, i: nat, id: nat)
    requires IsRun(c0, ops, i) && id in ConfigAt(c0, ops, i).state.agreements
    requires var a := ConfigAt(c0, ops, i).state.agreements[id];
             a.milestones.None? && a.escrow.status == Funded
    ensures var c := ConfigAt(c0, ops, i);
            var e := c.state.agreements[id].escrow;
            && WellFormed(e.schedule) && e.funded > 0
            && 0 <= e.released <= Vested(e.funded, e.schedule, c.state.now)
            && e.released < e.funded
            && (e.schedule.kind == Unscheduled ==> e.released == 0)
  {
    RunInv(c0, ops, i);
  }

  /** A claim is the withdrawal of everything claimable: same payments, same record. And it
      brings the released total to exactly what has vested. */
  lemma ClaimIsFullWithdrawal(a: Agreement, b: Book, l: Ledger, now: nat, caller: Address)
    requires AgreementOk(a, b, now) && a.escrow.status == Funded && a.escrow.schedule.kind != Unscheduled
    requires Claim(a, l, now, caller).Ok?
    ensures var o := Claim(a, l, now, caller).value;
            var w := Withdraw(a, l, now, caller, o.ret);
            && o.agreement.escrow.released == Vested(a.escrow.funded, a.escrow.schedule, now)
            && w.Ok? && w.value == o.(ret := o.agreement.escrow.released)
  {
    ClaimableExact(a.escrow, now);
  }

  /** The arbiter's release settles the whole escrow. The recipient then holds no more than
      has vested exactly when the schedule has ended: the documented time lock is the gate
      `now >= end`, which the code does not test. */
  lemma ReleaseWithinVesting(a: Agreement, b: Book, l: Ledger, now: nat, caller: Address, amount: int)
    requires AgreementOk(a, b, now) && a.escrow.schedule.kind != Unscheduled
    requires Release(a, l, now, caller, amount).Ok?
    ensures var o := Release(a, l, now, caller, amount).value;
            && Sum(Append(b, o.moves, o.share).shares) == a.escrow.funded
            && (a.escrow.funded <= Vested(a.escrow.funded, a.escrow.schedule, now) <==> now >= a.escrow.schedule.end)
  {
    ReleaseKeeps(a, b, now, l, caller, amount);
    ReleaseSettles(a, l, now, caller, amount);
    OutcomeProgress(b, l, now, Release(a, l, now, caller, amount).value);
    ReleasedInTime(a, b, now);
  }

  lemma ReleaseSettles(a: Agreement, l: Ledger, now: nat, caller: Address, amount: int)
    requires Release(a, l, now, caller, amount).Ok?
    ensures a.milestones.None? && a.escrow.status == Funded
    ensures var e := Release(a, l, now, caller, amount).value.agreement.escrow;
            e.status == Released && e.funded == a.escrow.funded
  {
  }

  lemma ReleasedInTime(a: Agreement, b: Book, now: nat)
    requires AgreementOk(a, b, now) && a.escrow.status == Funded && a.escrow.schedule.kind != Unscheduled
    ensures a.escrow.funded <= Vested(a.escrow.funded, a.escrow.schedule, now) <==> now >= a.escrow.schedule.end
  {
    VestedBounds(a.escrow.funded, a.escrow.schedule, now);
  }

  /** The failing family, named by the caller's data: a bullet whose cliff precedes its end,
      or a line already partly withdrawn. With neither, a release is never early. */
  lemma ReleaseNeverEarlyUnless(a: Agreement, b: Book, l: Ledger, now: nat, caller: Address, amount: int)
    requires AgreementOk(a, b, now) && Release(a, l, now, caller, amount).Ok?
    requires a.escrow.schedule.kind == Cliff ==> a.escrow.schedule.cliff == a.escrow.schedule.end
    requires a.escrow.schedule.kind == Linear ==> a.escrow.released == 0
    ensures a.escrow.schedule.kind != Unscheduled ==> now >= a.escrow.schedule.end
  {
    if a.escrow.schedule.kind == Linear {
      CalcVestedExact(a.escrow.funded, a.escrow.schedule, now);
      VestedBounds(a.escrow.funded, a.escrow.schedule, now);
    }
  }

  // ----- milestones -----

  /** What a milestone escrow has paid, at any moment of any run: the recipient has exactly
      the released amount, which is everything once it is settled by completion; a
      cancelled one returned exactly the rest to the sender. */
  lemma MilestoneConservation(c0: Config, ops: seq<Op>, i: nat, id: nat)
    requires IsRun(c0, ops, i) && id in ConfigAt(c0, ops, i).state.agreements
    requires ConfigAt(c0, ops, i).state.agreements[id].milestones.Some?
    ensures var c := ConfigAt(c0, ops, i);
            var e, ms, log := c.state.agreements[id].escrow, c.state.agreements[id].milestones.value, BookOf(c, id).log;
            && |e.assets| == 1 && Deposited(log, e.assets[0].asset) == e.funded == e.assets[0].amount
            && 0 <= PaidTo(log, e.assets[0].asset, e.recipient) == ms.released <= e.funded
            && PaidTo(log, e.assets[0].asset, e.sender) == (if ms.cancelled then e.funded - ms.released else 0)
            && (Settled(e) && !ms.cancelled <==> AllCompleted(ms.items) && !ms.cancelled)
            && (AllCompleted(ms.items) && !ms.cancelled ==> ms.released == e.funded)
  {
    RunInv(c0, ops, i);
    var c := ConfigAt(c0, ops, i);
    SoleAmount(c.state.agreements[id].escrow, c.state.agreements[id].escrow.assets[0].asset);
  }

  /** Approving a pending milestone never bounces either: only its one product can overflow. */
  lemma MilestoneNeverBounces(c: Config, id: nat, index: nat)
    requires Inv(c) && id in c.state.agreements
    requires var a := c.state.agreements[id];
             && a.milestones.Some? && a.escrow.status == Funded && !a.milestones.value.cancelled
             && index < |a.milestones.value.items| && a.milestones.value.items[index].status == Pending
    ensures var a := c.state.agreements[id];
            var r := ReleaseMilestone(a, c.state.ledger, a.escrow.arbiter, index);
            if a.escrow.funded * a.milestones.value.items[index].bps <= I128_MAX then r.Ok? else r == Err(Overflow)
  {
    var a, b := c.state.agreements[id], c.books[id];
    var e, ms, asset := a.escrow, a.milestones.value, a.escrow.assets[0].asset;
    PayoutWithinRemaining(ms.items, index, e.funded);
    var x := if OpenCount(ms.items, |ms.items|) == 1 then e.funded - ms.released
             else Portion(e.funded, ms.items[index].bps, BPS);
    HeldCoversShare(a, b, c.state.now, asset, x);
    SoleAmount(e, asset);
    SolePortion(e.funded, x);
    AllHeldNonNegative(c, asset);
    HeldWithinTotal(c.books, id, asset, c.state.count);
    ApprovalDecided(a, c.state.ledger, index, x);
  }

  lemma ApprovalDecided(a: Agreement, l: Ledger, index: nat, x: nat)
    requires a.milestones.Some? && a.escrow.status == Funded && !a.milestones.value.cancelled
    requires TermsOk(a.escrow) && |a.escrow.assets| == 1 && a.escrow.funded > 0
    requires var e, ms := a.escrow, a.milestones.value;
             && (forall i :: 0 <= i < |ms.items| ==> ms.items[i].index == i)
             && index < |ms.items| && ms.items[index].status == Pending
             && 0 <= ms.released && ms.released + x <= e.funded
             && x == (if OpenCount(ms.items, |ms.items|) == 1 then e.funded - ms.released
                      else Portion(e.funded, ms.items[index].bps, BPS))
             && x <= Balance(l, SELF, e.assets[0].asset)
    ensures var r := ReleaseMilestone(a, l, a.escrow.arbiter, index);
            if a.escrow.funded * a.milestones.value.items[index].bps <= I128_MAX then r.Ok? else r == Err(Overflow)
  {
    var e, ms := a.escrow, a.milestones.value;
    assert Locate(ms.items, index, |ms.items|) == Some(index);
    CheckedPortion(e.funded, ms.items[index].bps, BPS);
    assert ShareOf(e.funded, ms.items[index].bps, BPS).Ok? <==> e.funded * ms.items[index].bps <= I128_MAX;
  }

  lemma MilestoneLive(c: Config, id: nat)
    requires Inv(c) && id in c.state.agreements && c.state.agreements[id].milestones.Some?
    requires Live(c.state.agreements[id].escrow)
    ensures var e, ms := c.state.agreements[id].escrow, c.state.agreements[id].milestones.value;
            && |e.assets| == 1 && e.assets[0].amount == e.funded && !ms.cancelled
            && 0 <= ms.released <= e.funded && 0 < e.funded <= I128_MAX && Sum(c.books[id].shares) == ms.released
  {
  }

  /** The way out of a milestone escrow: cancelling what remains succeeds exactly when nothing
      remains or `amount * remaining` fits `i128`. */
  lemma MilestoneExit(c: Config, id: nat, caller: Address, remaining: int)
    requires Inv(c) && id in c.state.agreements && c.state.agreements[id].milestones.Some?
    requires var e := c.state.agreements[id].escrow;
             && Live(e) && (caller == e.sender || caller == e.arbiter)
             && remaining == e.funded - c.state.agreements[id].milestones.value.released
    ensures var r := CancelMilestones(c.state.agreements[id], c.state.ledger, caller);
            if remaining == 0 || c.state.agreements[id].escrow.funded * remaining <= I128_MAX
            then r.Ok? && r.value.ret == remaining
            else r == Err(Overflow)
  {
    MilestoneLive(c, id);
    PayoutNeverBounces(c, id, c.state.agreements[id].escrow.sender, remaining);
    CancelDecided(c.state.agreements[id], c.state.ledger, caller, remaining);
  }

  lemma CancelDecided(a: Agreement, l: Ledger, caller: Address, x: nat)
    requires a.milestones.Some? && !a.milestones.value.cancelled && Live(a.escrow)
    requires caller == a.escrow.sender || caller == a.escrow.arbiter
    requires x == a.escrow.funded - a.milestones.value.released <= I128_MAX
    requires |a.escrow.assets| == 1 && a.escrow.assets[0].amount == a.escrow.funded
    requires DecidedByRange(a.escrow, x,
                            PayFirst(l, a.escrow.sender, a.escrow.assets, x, a.escrow.funded, |a.escrow.assets|))
    ensures var r := CancelMilestones(a, l, caller);
            if x == 0 || a.escrow.funded * x <= I128_MAX then r.Ok? && r.value.ret == x else r == Err(Overflow)
  {
    assert ProductsFit(a.escrow.assets, x, 1) <==> a.escrow.funded * x <= I128_MAX;
  }

  // ----- approvals -----

  /** The stored counter, the flags and the list a client reads always agree. */
  lemma ApprovalsAgree(c0: Config, ops: seq<Op>, i: nat, id: nat)
    requires IsRun(c0, ops, i) && id in ConfigAt(c0, ops, i).state.agreements
    requires ConfigAt(c0, ops, i).state.agreements[id].condition.Some?
    ensures var a := ConfigAt(c0, ops, i).state.agreements[id];
            var k := a.condition.value;
            var listed := ApprovalsFirst(k.participants, a.approved, |k.participants|);
            && k.approvals == |a.approved| == |listed| <= |k.participants|
            && (forall p :: p in listed <==> p in a.approved)
            && 1 <= k.threshold <= |k.participants| <= MAX_SIGNERS
  {
    RunInv(c0, ops, i);
    ListedApprovals(ConfigAt(c0, ops, i).state.agreements[id]);
  }

  ghost predicate PaysRecipient(e: Escrow, moves: seq<Move>) {
    exists k :: 0 <= k < |moves| && moves[k].from == SELF && moves[k].to == e.recipient
  }

  predicate IsReturn(action: Action) {
    action.DoRefund? || action.DoRefundTimelock? || action.DoReclaim? || action.DoCancel?
  }

  /** A sender's exit moves nothing or pays the remainder to the sender. */
  lemma ReturnMoves(a: Agreement, l: Ledger, tokens: set<Address>, now: nat, action: Action)
    requires a.milestones.None? && 0 <= a.escrow.released <= a.escrow.funded
    requires IsReturn(action) && Perform(a, l, tokens, now, action).Ok?
    ensures var e, moves := a.escrow, Perform(a, l, tokens, now, action).value.moves;
            var x := e.funded - e.released;
            || moves == []
            || (x > 0 && PayFirst(l, e.sender, e.assets, x, e.funded, |e.assets|).Ok?
                && moves == PayFirst(l, e.sender, e.assets, x, e.funded, |e.assets|).value.moves)
  {
  }

  /** The sender's exits pay the sender and nobody else. */
  lemma ReturnsPaySender(a: Agreement, b: Book, l: Ledger, tokens: set<Address>, now: nat, action: Action)
    requires AgreementOk(a, b, now) && a.milestones.None? && IsReturn(action) && Perform(a, l, tokens, now, action).Ok?
    ensures PaysTo(Perform(a, l, tokens, now, action).value.moves, a.escrow.sender)
  {
    var e, moves := a.escrow, Perform(a, l, tokens, now, action).value.moves;
    if Settled(e) {
      SettledStaysPut(a, b, l, tokens, now, action);
    } else {
      ReturnMoves(a, l, tokens, now, action);
      if moves != [] {
        PayEffect(l, e.sender, e.assets, e.funded - e.released, e.funded, |e.assets|, SELF);
      }
    }
  }

  lemma FundPaysNobody(a: Agreement, b: Book, l: Ledger, tokens: set<Address>, now: nat, caller: Address)
    requires AgreementOk(a, b, now) && Fund(a, l, tokens, caller).Ok?
    ensures !PaysRecipient(a.escrow, Fund(a, l, tokens, caller).value.moves)
  {
    PullEffect(l, caller, a.escrow.assets, |a.escrow.assets|, SELF);
  }

  /** No call pays the recipient of a conditioned escrow below its approval threshold. */
  lemma PaidOnlyWhenApproved(a: Agreement, b: Book, l: Ledger, tokens: set<Address>, now: nat, action: Action)
    requires AgreementOk(a, b, now) && a.condition.Some? && Perform(a, l, tokens, now, action).Ok?
    requires PaysRecipient(a.escrow, Perform(a, l, tokens, now, action).value.moves)
    ensures |a.approved| >= a.condition.value.threshold
  {
    if IsReturn(action) {
      ReturnsPaySender(a, b, l, tokens, now, action);
    } else if action.DoFund? {
      FundPaysNobody(a, b, l, tokens, now, action.caller);
    }
  }

  /** Call `j` of the run is `p`'s own successful approval of escrow `id`. */
  ghost predicate ApprovedAt(c0: Config, ops: seq<Op>, j: nat, id: nat, p: Address)
    requires j < |ops|
  {
    ops[j] == Act(id, DoApprove(p)) && Exec(ConfigAt(c0, ops, j).state, ops[j]).Ok?
  }

  ghost predicate Approved(c0: Config, ops: seq<Op>, i: nat, id: nat, p: Address)
    requires i <= |ops|
  {
    exists j :: 0 <= j < i && ApprovedAt(c0, ops, j, id, p)
  }

  lemma ReturnApprovals(a: Agreement, l: Ledger, tokens: set<Address>, now: nat, action: Action)
    requires IsReturn(action) && Perform(a, l, tokens, now, action).Ok?
    ensures Perform(a, l, tokens, now, action).value.agreement.approved == a.approved
  {
  }

  lemma PaymentApprovals(a: Agreement, l: Ledger, tokens: set<Address>, now: nat, action: Action)
    requires PaysOut(action) && Perform(a, l, tokens, now, action).Ok?
    ensures Perform(a, l, tokens, now, action).value.agreement.approved == a.approved
  {
  }

  lemma PerformApprovals(a: Agreement, l: Ledger, tokens: set<Address>, now: nat, action: Action)
    requires Perform(a, l, tokens, now, action).Ok?
    ensures Perform(a, l, tokens, now, action).value.agreement.approved
         == if action.DoApprove? then a.approved + {action.caller} else a.approved
  {
    if PaysOut(action) {
      PaymentApprovals(a, l, tokens, now, action);
    } else if IsReturn(action) {
      ReturnApprovals(a, l, tokens, now, action);
    }
  }

  lemma FreshHasNoApprovals(l: Ledger, tokens: set<Address>, now: nat, op: Opening)
    requires Begin(l, tokens, now, op).Ok?
    ensures Begin(l, tokens, now, op).value.agreement.approved == {}
  {
  }

  lemma ApprovalStep(c: Config, op: Op, id: nat, p: Address)
    requires Numbered(c) && c.state.count < U64_MAX
    requires id in Next(c, op).state.agreements && p in Next(c, op).state.agreements[id].approved
    ensures (id in c.state.agreements && p in c.state.agreements[id].approved)
            || (op == Act(id, DoApprove(p)) && Exec(c.state, op).Ok?)
  {
    var s := c.state;
    if Exec(s, op).Ok? {
      if op.Open? {
        OpenIsRecord(c, op);
        FreshHasNoApprovals(s.ledger, s.tokens, s.now, op.opening);
      } else if op.Act? {
        ActIsRecord(c, op);
        PerformApprovals(s.agreements[op.id], s.ledger, s.tokens, s.now, op.action);
      }
    }
  }

  lemma RunNumbered(c0: Config, ops: seq<Op>, i: nat)
    requires IsRun(c0, ops, i)
    ensures Numbered(ConfigAt(c0, ops, i)) && ConfigAt(c0, ops, i).state.count <= i
  {
    RunInv(c0, ops, i);
  }

  /** No approval flag exists without its owner's own successful call. */
  lemma {:induction false} FlagsAreApprovals(c0: Config, ops: seq<Op>, i: nat, id: nat, p: Address)
    requires IsRun(c0, ops, i) && id in ConfigAt(c0, ops, i).state.agreements
    requires p in ConfigAt(c0, ops, i).state.agreements[id].approved
    ensures Approved(c0, ops, i, id, p)
  {
    if i > 0 {
      var c := ConfigAt(c0, ops, i - 1);
      RunNumbered(c0, ops, i - 1);
      ApprovalStep(c, ops[i - 1], id, p);
      if id in c.state.agreements && p in c.state.agreements[id].approved {
        FlagsAreApprovals(c0, ops, i - 1, id, p);
      } else {
        assert ApprovedAt(c0, ops, i - 1, id, p);
      }
    }
  }

  /** Enough distinct participants approved escrow `id` themselves before call `i`. */
  ghost predicate Backed(c0: Config, ops: seq<Op>, i: nat, id: nat, k: Condition, backers: set<Address>)
    requires i <= |ops|
  {
    && |backers| >= k.threshold
    && (forall p :: p in backers ==> p in k.participants && Approved(c0, ops, i, id, p))
  }

  /** Over every run: when the recipient of a conditioned escrow is paid, at least the
      threshold of distinct participants had approved, each by its own call. */
  lemma RecipientPaymentIsBacked(c0: Config, ops: seq<Op>, i: nat)
    requires IsRun(c0, ops, i) && i < |ops| && ops[i].Act?
    requires Exec(ConfigAt(c0, ops, i).state, ops[i]).Ok?
    requires ops[i].id in ConfigAt(c0, ops, i).state.agreements
    requires var a := ConfigAt(c0, ops, i).state.agreements[ops[i].id];
             && a.condition.Some?
             && PaysRecipient(a.escrow, Exec(ConfigAt(c0, ops, i).state, ops[i]).value.moves)
    ensures var a := ConfigAt(c0, ops, i).state.agreements[ops[i].id];
            exists backers :: Backed(c0, ops, i, ops[i].id, a.condition.value, backers)
  {
    RunInv(c0, ops, i);
    var c := ConfigAt(c0, ops, i);
    var id := ops[i].id;
    var a := c.state.agreements[id];
    PaidOnlyWhenApproved(a, c.books[id], c.state.ledger, c.state.tokens, c.state.now, ops[i].action);
    forall p | p in a.approved ensures p in a.condition.value.participants && Approved(c0, ops, i, id, p) {
      FlagsAreApprovals(c0, ops, i, id, p);
    }
    assert Backed(c0, ops, i, id, a.condition.value, a.approved);
  }

  // ----- who is paid, by whose call, and when -----

  predicate PaysOut(action: Action) {
    action.DoWithdraw? || action.DoClaim? || action.DoRelease? || action.DoOverride?
  }

  /** What a payment stores: the same deal, still funded or released. */
  ghost predicate PaymentStored(a: Agreement, o: Outcome) {
    && a.milestones.None? && o.agreement.milestones.None?
    && o.agreement.escrow.funded == a.escrow.funded
    && (o.agreement.escrow.status == Released || o.agreement.escrow.status == Funded)
  }

  lemma WithdrawStores(a: Agreement, l: Ledger, now: nat, caller: Address, amount: int)
    requires Withdraw(a, l, now, caller, amount).Ok?
    ensures PaymentStored(a, Withdraw(a, l, now, caller, amount).value)
    ensures Withdraw(a, l, now, caller, amount).value.share == Some(amount)
  {
  }

  lemma ClaimStores(a: Agreement, l: Ledger, now: nat, caller: Address)
    requires Claim(a, l, now, caller).Ok?
    ensures PaymentStored(a, Claim(a, l, now, caller).value)
  {
  }

  lemma ReleaseStores(a: Agreement, l: Ledger, tokens: set<Address>, now: nat, action: Action)
    requires (action.DoRelease? || action.DoOverride?) && Perform(a, l, tokens, now, action).Ok?
    ensures PaymentStored(a, Perform(a, l, tokens, now, action).value)
  {
  }

  /** The outcome moves nothing, or pays one share to the recipient. */
  ghost predicate PaysShare(l: Ledger, e: Escrow, o: Outcome) {
    if o.share.None? then o.moves == []
    else
      var paid := PayFirst(l, e.recipient, e.assets, o.share.value, e.funded, |e.assets|);
      paid.Ok? && o.moves == paid.value.moves
  }

  lemma WithdrawMoves(a: Agreement, l: Ledger, now: nat, caller: Address, amount: int)
    requires Withdraw(a, l, now, caller, amount).Ok?
    ensures PaysShare(l, a.escrow, Withdraw(a, l, now, caller, amount).value)
  {
  }

  lemma ClaimMoves(a: Agreement, l: Ledger, now: nat, caller: Address)
    requires Claim(a, l, now, caller).Ok?
    ensures PaysShare(l, a.escrow, Claim(a, l, now, caller).value)
  {
  }

  lemma ReleaseMoves(a: Agreement, l: Ledger, tokens: set<Address>, now: nat, action: Action)
    requires (action.DoRelease? || action.DoOverride?) && Perform(a, l, tokens, now, action).Ok?
    ensures PaysShare(l, a.escrow, Perform(a, l, tokens, now, action).value)
  {
  }

  lemma PaymentsAddressed(l: Ledger, e: Escrow, o: Outcome)
    requires TermsOk(e) && PaysShare(l, e, o) && (o.share.Some? ==> e.funded > 0 && o.share.value >= 0)
    ensures PaysTo(o.moves, e.recipient)
  {
    if o.share.Some? { PayEffect(l, e.recipient, e.assets, o.share.value, e.funded, |e.assets|, SELF); }
  }

  /** Soundness of an outcome, read off for its last share and its status. */
  lemma OutcomeProgress(b: Book, l: Ledger, now: nat, o: Outcome)
    requires Keeps(b, l, now, o)
    ensures var sum := Sum(Append(b, o.moves, o.share).shares);
            && (o.share.Some? ==> o.share.value >= 0 && o.agreement.escrow.funded > 0)
            && (Settled(o.agreement.escrow) ==> sum == o.agreement.escrow.funded)
            && (o.agreement.escrow.status == Funded && o.agreement.milestones.None? ==> sum < o.agreement.escrow.funded)
  {
    if o.share.Some? {
      var shares := Append(b, o.moves, o.share).shares;
      assert shares[|shares| - 1] == o.share.value;
    }
  }

  /** Withdrawals, claims and releases pay the recipient alone, a withdrawal exactly the
      share asked for; they leave the escrow funded or, once everything is paid, released. */
  lemma PaymentsGoToRecipient(a: Agreement, b: Book, l: Ledger, tokens: set<Address>, now: nat, action: Action)
    requires AgreementOk(a, b, now) && PaysOut(action) && Early(action).Pass? && Perform(a, l, tokens, now, action).Ok?
    ensures var o := Perform(a, l, tokens, now, action).value;
            && PaysTo(o.moves, a.escrow.recipient)
            && (action.DoWithdraw? ==> o.share == Some(action.amount))
            && o.agreement.escrow.status ==
               if Sum(Append(b, o.moves, o.share).shares) == a.escrow.funded then Released else Funded
  {
    var o := Perform(a, l, tokens, now, action).value;
    PlainKeeps(a, b, l, tokens, now, action);
    OutcomeProgress(b, l, now, o);
    match action {
      case DoWithdraw(caller, amount) =>
        WithdrawStores(a, l, now, caller, amount);
        WithdrawMoves(a, l, now, caller, amount);
      case DoClaim(caller) =>
        ClaimStores(a, l, now, caller);
        ClaimMoves(a, l, now, caller);
      case _ =>
        ReleaseStores(a, l, tokens, now, action);
        ReleaseMoves(a, l, tokens, now, action);
    }
    PaymentsAddressed(l, a.escrow, o);
  }

  lemma ReturnRecord(a: Agreement, l: Ledger, tokens: set<Address>, now: nat, action: Action)
    requires a.milestones.None? && IsReturn(action) && Perform(a, l, tokens, now, action).Ok?
    ensures Perform(a, l, tokens, now, action).value.agreement.escrow == a.escrow.(status := Refunded)
  {
  }

  /** Refunds and cancellations pay the sender alone and end in `Refunded`. */
  lemma ReturnsGoToSender(a: Agreement, b: Book, l: Ledger, tokens: set<Address>, now: nat, action: Action)
    requires AgreementOk(a, b, now) && a.milestones.None? && IsReturn(action) && Perform(a, l, tokens, now, action).Ok?
    ensures var o := Perform(a, l, tokens, now, action).value;
            && PaysTo(o.moves, a.escrow.sender)
            && o.agreement.escrow == a.escrow.(status := Refunded)
            && Sum(Append(b, o.moves, o.share).shares) == a.escrow.funded
  {
    PlainKeeps(a, b, l, tokens, now, action);
    OutcomeProgress(b, l, now, Perform(a, l, tokens, now, action).value);
    ReturnRecord(a, l, tokens, now, action);
    ReturnsPaySender(a, b, l, tokens, now, action);
  }

  /** At least the threshold of signatures, all valid and of distinct configured keys. */
  ghost predicate SignedBy(e: Escrow, signatures: seq<Signature>) {
    var keys := set s | s in signatures :: s.key;
    && |keys| == |signatures| >= e.overrideThreshold > 0
    && (forall s :: s in signatures ==> s.valid && s.key in e.overrideSigners)
  }

  /** Whose call may move an escrow's money, and when: the recipient what has vested, or all
      of an unscheduled escrow after the grace period; the arbiter until the grace period
      ends; the configured keys until the deadline; the sender from the end of the grace
      period until the refund window closes; sender or arbiter by cancelling before the
      deadline, or at any time what remains of a milestone schedule. */
  ghost predicate Entitled(a: Agreement, now: nat, action: Action) {
    var e := a.escrow;
    match action
    case DoFund(caller) => caller == e.sender && e.status == Created
    case DoWithdraw(caller, _) => caller == e.recipient && e.status == Funded && e.schedule.kind != Unscheduled
    case DoClaim(caller) =>
      caller == e.recipient && e.status == Funded && (e.schedule.kind == Unscheduled ==> now >= GraceEnd(e))
    case DoRelease(caller, _) => caller == e.arbiter && e.status == Funded && now < GraceEnd(e)
    case DoOverride(nonce, signatures) =>
      e.status == Funded && now < e.deadline && nonce > e.overrideNonce && SignedBy(e, signatures)
    case DoRefund(caller) => caller == e.sender && Live(e) && now >= e.deadline && RefundsOpen(e, now)
    case DoRefundTimelock(caller) => caller == e.sender && Live(e) && RefundsOpen(e, now)
    case DoReclaim(caller) => caller == e.sender && Live(e) && now >= e.deadline && RefundsOpen(e, now)
    case DoCancel(caller) =>
      && (caller == e.sender || caller == e.arbiter)
      && (a.milestones.None? ==>
            e.status == Funded && now < e.deadline && CalcVested(e.funded, e.schedule, now) == Ok(0))
    case DoReleaseMilestone(caller, _) => caller == e.arbiter && e.status == Funded && a.milestones.Some?
    case DoCancelMilestones(caller) => (caller == e.sender || caller == e.arbiter) && Live(e) && a.milestones.Some?
    case _ => false
  }

  lemma ReturnerEntitled(a: Agreement, b: Book, l: Ledger, tokens: set<Address>, now: nat, action: Action)
    requires AgreementOk(a, b, now) && IsReturn(action) && Perform(a, l, tokens, now, action).Ok?
    requires Perform(a, l, tokens, now, action).value.moves != []
    ensures Entitled(a, now, action)
  {
    CalcVestedExact(a.escrow.funded, a.escrow.schedule, now);
  }

  lemma PayerEntitled(a: Agreement, b: Book, l: Ledger, tokens: set<Address>, now: nat, action: Action)
    requires AgreementOk(a, b, now) && PaysOut(action) && Perform(a, l, tokens, now, action).Ok?
    requires Perform(a, l, tokens, now, action).value.moves != []
    ensures Entitled(a, now, action)
  {
    if action.DoOverride? { OverrideIsSigned(a, l, now, action.nonce, action.signatures); }
  }

  lemma MoversAreEntitled(a: Agreement, b: Book, l: Ledger, tokens: set<Address>, now: nat, action: Action)
    requires AgreementOk(a, b, now) && Perform(a, l, tokens, now, action).Ok?
    requires Perform(a, l, tokens, now, action).value.moves != []
    ensures !Settled(a.escrow) && Entitled(a, now, action)
  {
    if Settled(a.escrow) {
      SettledStaysPut(a, b, l, tokens, now, action);
    } else if IsReturn(action) {
      ReturnerEntitled(a, b, l, tokens, now, action);
    } else if PaysOut(action) {
      PayerEntitled(a, b, l, tokens, now, action);
    }
  }

  /** In any run, a call that moves an escrow's tokens is one its caller was entitled to make
      at that moment, on an escrow not yet settled. */
  lemma OnlyTheEntitledMoveMoney(c0: Config, ops: seq<Op>, i: nat)
    requires IsRun(c0, ops, i) && i < |ops| && ops[i].Act?
    requires Exec(ConfigAt(c0, ops, i).state, ops[i]).Ok?
    requires Exec(ConfigAt(c0, ops, i).state, ops[i]).value.moves != []
    ensures var s := ConfigAt(c0, ops, i).state;
            && ops[i].id in s.agreements
            && !Settled(s.agreements[ops[i].id].escrow)
            && Entitled(s.agreements[ops[i].id], s.now, ops[i].action)
  {
    RunInv(c0, ops, i);
    var c := ConfigAt(c0, ops, i);
    var s, id := c.state, ops[i].id;
    MoversAreEntitled(s.agreements[id], c.books[id], s.ledger, s.tokens, s.now, ops[i].action);
  }

  predicate Settles(action: Action) {
    action.DoRelease? || action.DoOverride? || IsReturn(action) || action.DoCancelMilestones?
  }

  lemma SettlingRecord(a: Agreement, l: Ledger, tokens: set<Address>, now: nat, action: Action)
    requires Settles(action) && Perform(a, l, tokens, now, action).Ok?
    ensures Settled(Perform(a, l, tokens, now, action).value.agreement.escrow)
  {
  }

  lemma SettlingCallSettles(c: Config, op: Op)
    requires op.Act? && Settles(op.action) && Exec(c.state, op).Ok?
    ensures op.id in Next(c, op).state.agreements && Settled(Next(c, op).state.agreements[op.id].escrow)
  {
    ActIsRecord(c, op);
    SettlingRecord(c.state.agreements[op.id], c.state.ledger, c.state.tokens, c.state.now, op.action);
  }

  lemma SettledRefusesSettling(c: Config, op: Op)
    requires op.Act? && Settles(op.action) && op.id in c.state.agreements
    requires MilestonesOk(c.state.agreements[op.id], BookOf(c, op.id)) && Settled(c.state.agreements[op.id].escrow)
    ensures Exec(c.state, op).Err?
  {
    var s := c.state;
    if Perform(s.agreements[op.id], s.ledger, s.tokens, s.now, op.action).Ok? {
      SettledStaysPut(s.agreements[op.id], BookOf(c, op.id), s.ledger, s.tokens, s.now, op.action);
      SettlingNotClosed(s.agreements[op.id], s.ledger, s.tokens, s.now, op.action);
    }
  }

  lemma SettlingNotClosed(a: Agreement, l: Ledger, tokens: set<Address>, now: nat, action: Action)
    requires Settles(action) && Perform(a, l, tokens, now, action).Ok?
    ensures Perform(a, l, tokens, now, action).value.agreement.escrow.status != Closed
  {
  }

  lemma RunMilestonesOk(c0: Config, ops: seq<Op>, i: nat, id: nat)
    requires IsRun(c0, ops, i) && id in ConfigAt(c0, ops, i).state.agreements
    ensures MilestonesOk(ConfigAt(c0, ops, i).state.agreements[id], BookOf(ConfigAt(c0, ops, i), id))
  {
    RunInv(c0, ops, i);
  }

  lemma SettledAfter(c0: Config, ops: seq<Op>, i: nat)
    requires i < |ops| && ops[i].Act? && Settles(ops[i].action) && Exec(ConfigAt(c0, ops, i).state, ops[i]).Ok?
    ensures ops[i].id in ConfigAt(c0, ops, i + 1).state.agreements
    ensures Settled(ConfigAt(c0, ops, i + 1).state.agreements[ops[i].id].escrow)
  {
    SettlingCallSettles(ConfigAt(c0, ops, i), ops[i]);
  }

  lemma SettledLater(c0: Config, ops: seq<Op>, i: nat, j: nat)
    requires IsRun(c0, ops, j) && i < j
    requires ops[i].Act? && Settles(ops[i].action) && Exec(ConfigAt(c0, ops, i).state, ops[i]).Ok?
    ensures ops[i].id in ConfigAt(c0, ops, j).state.agreements
    ensures Settled(ConfigAt(c0, ops, j).state.agreements[ops[i].id].escrow)
  {
    SettledAfter(c0, ops, i);
    Finality(c0, ops, i + 1, j, ops[i].id);
  }

  lemma RefusedOnceSettled(c0: Config, ops: seq<Op>, j: nat)
    requires IsRun(c0, ops, j) && j < |ops| && ops[j].Act? && Settles(ops[j].action)
    requires ops[j].id in ConfigAt(c0, ops, j).state.agreements
    requires Settled(ConfigAt(c0, ops, j).state.agreements[ops[j].id].escrow)
    ensures Exec(ConfigAt(c0, ops, j).state, ops[j]).Err?
  {
    RunMilestonesOk(c0, ops, j, ops[j].id);
    SettledRefusesSettling(ConfigAt(c0, ops, j), ops[j]);
  }

  /** An escrow is settled at most once: of all releases, overrides, refunds, reclaims and
      cancellations of it in a run, at most one succeeds. */
  lemma SettlesOnce(c0: Config, ops: seq<Op>, i: nat, j: nat)
    requires IsRun(c0, ops, j) && i < j < |ops|
    requires ops[i].Act? && ops[j].Act? && ops[i].id == ops[j].id
    requires Settles(ops[i].action) && Settles(ops[j].action)
    ensures Exec(ConfigAt(c0, ops, i).state, ops[i]).Err? || Exec(ConfigAt(c0, ops, j).state, ops[j]).Err?
  {
    if Exec(ConfigAt(c0, ops, i).state, ops[i]).Ok? {
      SettledLater(c0, ops, i, j);
      RefusedOnceSettled(c0, ops, j);
    }
  }

  // ----- the signature override -----

  function KeySet(keys: seq<nat>): set<nat> { set k | k in keys }

  lemma {:induction false} KeysAreDistinct(signers: seq<nat>, signatures: seq<Signature>, n: nat)
    requires n <= |signatures| && KeysFirst(signers, signatures, n).Ok?
    ensures var seen := KeysFirst(signers, signatures, n).value;
            && |KeySet(seen)| == |seen| == n
            && (forall k :: k in seen ==> k in signers && Signature(k, true) in signatures[..n])
  {
    if n > 0 {
      KeysAreDistinct(signers, signatures, n - 1);
      var seen, key := KeysFirst(signers, signatures, n - 1).value, signatures[n - 1].key;
      assert KeySet(seen + [key]) == KeySet(seen) + {key};
      assert signatures[..n] == signatures[..n - 1] + [signatures[n - 1]];
    }
  }

  /** An override release carries valid signatures of at least the threshold of distinct
      configured keys, and no signature that is not of that kind. */
  lemma OverrideIsSigned(a: Agreement, l: Ledger, now: nat, nonce: nat, signatures: seq<Signature>)
    requires OverrideRelease(a, l, now, nonce, signatures).Ok?
    ensures SignedBy(a.escrow, signatures)
    ensures a.escrow.overrideNonce < nonce
    ensures OverrideRelease(a, l, now, nonce, signatures).value.agreement.escrow.overrideNonce == nonce
  {
    var signers, n := a.escrow.overrideSigners, |signatures|;
    KeysAreDistinct(signers, signatures, n);
    var seen := KeysFirst(signers, signatures, n).value;
    forall i | 0 <= i < n ensures signatures[i].valid && signatures[i].key in signers && signatures[i].key in seen {
      EveryKeyCounts(signers, signatures, i, n);
    }
    assert signatures[..n] == signatures;
    assert (set s | s in signatures :: s.key) == KeySet(seen);
  }

  lemma {:induction false} EveryKeyCounts(signers: seq<nat>, signatures: seq<Signature>, i: nat, n: nat)
    requires i < n <= |signatures| && KeysFirst(signers, signatures, n).Ok?
    ensures signatures[i].valid && signatures[i].key in signers
    ensures signatures[i].key in KeysFirst(signers, signatures, n).value
  {
    if i < n - 1 { EveryKeyCounts(signers, signatures, i, n - 1); }
  }

  // ----- concrete runs -----

  const ALICE: Address := Address(1)
  const BOB: Address := Address(2)
  const ARBITER: Address := Address(3)
  const TOKEN: Address := Address(4)

  function Funds(amount: nat): Config {
    Config(State(0, 0, {TOKEN}, map[], map[(ALICE, TOKEN) := amount]), map[])
  }

  /** One token pulled into empty custody. */
  lemma PullSingle(amount: I128)
    requires amount >= 0
    ensures PullFirst(Funds(amount).state.ledger, ALICE, [AssetAmount(TOKEN, amount)], 1)
         == Ok(Tally(map[(ALICE, TOKEN) := 0, (SELF, TOKEN) := amount], [Move(TOKEN, ALICE, SELF, amount)], amount))
  {
    var assets := [AssetAmount(TOKEN, amount)];
    assert PullFirst(Funds(amount).state.ledger, ALICE, assets, 0) == Ok(Tally(Funds(amount).state.ledger, [], 0));
    var m := Move(TOKEN, ALICE, SELF, amount);
    assert [] + [m] == [m];
    assert Transfer(Funds(amount).state.ledger, m).value == map[(ALICE, TOKEN) := 0, (SELF, TOKEN) := amount];
  }

  lemma OneAssetValid(amount: int)
    requires amount > 0
    ensures ValidateAssets({TOKEN}, [AssetAmount(TOKEN, amount)]).Pass?
  {
    assert AssetsFrom([AssetAmount(TOKEN, amount)], 1).Pass?;
  }

  /** A bullet with its cliff at 10 and its end at 20. */
  const EARLY_BULLET: Opening :=
    NewScheduled(ALICE, BOB, ARBITER, [AssetAmount(TOKEN, 100)], Schedule(Cliff, 0, 10, 20), 0)

  /** The contract holding that one escrow at time `now`. */
  function EarlyState(now: nat): State {
    var terms := BulletTerms(ALICE, BOB, ARBITER, [AssetAmount(TOKEN, 100)], 20, 0);
    State(now, 1, {TOKEN}, map[1 := Plain(Draft(terms, Funded, 100, Schedule(Cliff, 0, 10, 20)))],
          map[(ALICE, TOKEN) := 0, (SELF, TOKEN) := 100])
  }

  lemma EarlyOpening()
    ensures Exec(Funds(100).state, Open(EARLY_BULLET)).Ok?
    ensures Exec(Funds(100).state, Open(EARLY_BULLET)).value.state == EarlyState(0)
  {
    PullSingle(100);
    OneAssetValid(100);
  }

  lemma PayOneToken(l: Ledger)
    requires Balance(l, SELF, TOKEN) >= 100
    ensures var r := PayFirst(l, BOB, [AssetAmount(TOKEN, 100)], 100, 100, 1);
            r.Ok? && r.value.moves == [Move(TOKEN, SELF, BOB, 100)]
  {
    var assets := [AssetAmount(TOKEN, 100)];
    assert PayFirst(l, BOB, assets, 100, 100, 0) == Ok(Tally(l, [], 0));
    assert ShareOf(100, 100, 100) == Ok(100);
    assert [] + [Move(TOKEN, SELF, BOB, 100)] == [Move(TOKEN, SELF, BOB, 100)];
  }

  /** The documented claim that a scheduled escrow cannot be released ahead of its vesting
      schedule fails: open that bullet, wait ten seconds, and the arbiter releases
      everything while nothing has vested. */
  lemma EarlyReleaseExample()
    ensures Exec(Funds(100).state, Open(EARLY_BULLET)).Ok?
    ensures Exec(Funds(100).state, Open(EARLY_BULLET)).value.state == EarlyState(0)
    ensures Exec(EarlyState(0), Tick(10)).Ok? && Exec(EarlyState(0), Tick(10)).value.state == EarlyState(10)
    ensures Release(EarlyState(10).agreements[1], EarlyState(10).ledger, 10, ARBITER, 100).Ok?
    ensures Release(EarlyState(10).agreements[1], EarlyState(10).ledger, 10, ARBITER, 100).value.moves
         == [Move(TOKEN, SELF, BOB, 100)]
    ensures Vested(100, EarlyState(10).agreements[1].escrow.schedule, 10) == 0
  {
    EarlyOpening();
    PayOneToken(EarlyState(10).ledger);
  }

  // ----- the wrapped grace period -----

  /** The grace period ends where it is documented to end exactly when the sum fits 64 bits;
      otherwise it is cut to 64 bits instead of being refused. */
  lemma GraceEndExact(e: Escrow)
    requires e.deadline <= U64_MAX && e.gracePeriod <= U64_MAX
    ensures GraceEnd(e) == e.deadline + e.gracePeriod <==> e.deadline + e.gracePeriod <= U64_MAX
    ensures e.deadline + e.gracePeriod > U64_MAX ==>
              GraceEnd(e) == e.deadline + e.gracePeriod - U64_MAX - 1 < e.deadline
  {
  }

  /** So an unscheduled escrow is claimed before its deadline only if its sum does not fit. */
  lemma EarlyClaimNeedsWrap(a: Agreement, l: Ledger, now: nat, caller: Address)
    requires a.escrow.deadline <= U64_MAX && a.escrow.gracePeriod <= U64_MAX
    requires a.escrow.schedule.kind == Unscheduled && Claim(a, l, now, caller).Ok? && now < a.escrow.deadline
    ensures a.escrow.deadline + a.escrow.gracePeriod > U64_MAX
  {
    GraceEndExact(a.escrow);
  }

  /** 100 units with deadline 10 and a grace period of 2^64 - 10 seconds. */
  const WRAPPED_TERMS: Terms :=
    Terms(ALICE, BOB, ARBITER, [AssetAmount(TOKEN, 100)], 10, 0xFFFF_FFFF_FFFF_FFF6, 0, [], 0)

  function WrappedAgreement(): Agreement { Plain(Draft(WRAPPED_TERMS, Funded, 100, NO_SCHEDULE)) }

  /** It is created, and at that very moment its recipient claims all of it. */
  lemma WrappedGraceExample(l: Ledger)
    requires l == map[(ALICE, TOKEN) := 0, (SELF, TOKEN) := 100]
    ensures Create(Funds(100).state.ledger, {TOKEN}, 0, WRAPPED_TERMS).Ok?
    ensures var o := Create(Funds(100).state.ledger, {TOKEN}, 0, WRAPPED_TERMS).value;
            o.agreement == WrappedAgreement() && o.ledger == l
    ensures Claim(WrappedAgreement(), l, 0, BOB).Ok?
    ensures Claim(WrappedAgreement(), l, 0, BOB).value.moves == [Move(TOKEN, SELF, BOB, 100)]
  {
    PullSingle(100);
    OneAssetValid(100);
    PayOneToken(l);
    assert GraceEnd(WrappedAgreement().escrow) == 0;
  }
}

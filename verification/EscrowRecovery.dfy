/** Whether the money of an escrow without milestones can ever leave custody: the exact
    condition under which some sequence of calls settles it, and that no sequence of calls
    pays anything when the condition fails. */
module EscrowRecovery {
  import opened Common
  import opened Arith
  import opened EscrowModel
  import opened EscrowShares
  import opened EscrowVesting
  import opened EscrowInvariant
  import opened EscrowSteps
  import opened EscrowTheorems
  import opened EscrowPromises

  // ----- continuations -----

  /** The calls `ops` from `c` on take no id from an exhausted counter. */
  ghost predicate Continues(c: Config, ops: seq<Op>) {
    forall k :: 0 <= k < |ops| ==> Numbers(ConfigAt(c, ops, k), ops[k])
  }

  ghost predicate Redeemed(c: Config, id: nat) {
    id in c.state.agreements && Settled(c.state.agreements[id].escrow)
  }

  ghost predicate Redeems(c: Config, ops: seq<Op>, id: nat) {
    Continues(c, ops) && Redeemed(ConfigAt(c, ops, |ops|), id)
  }

  // ----- the condition -----

  /** Some moment from now on lies inside the refund window. */
  predicate WindowAhead(e: Escrow, now: nat) {
    ClosesAt(e) == 0 || Max(now, GraceEnd(e)) < ClosesAt(e)
  }

  /** An expired escrow can only be refunded: its remainder must be computable and its refund
      window must not have closed. A funded one can still be claimed: with a schedule piece
      by piece, without one only as a whole. */
  predicate Recoverable(e: Escrow, now: nat) {
    if e.status == Expired then
      ProductsFit(e.assets, e.funded - e.released, |e.assets|) && WindowAhead(e, now)
    else
      e.schedule.kind == Unscheduled ==> ProductsFit(e.assets, e.funded, |e.assets|)
  }

  predicate Stranded(a: Agreement, now: nat) {
    a.milestones.None? && Live(a.escrow) && !Recoverable(a.escrow, now)
  }

  // ----- stranded for ever -----

  /** The escrow `id` of `c`, funded or expired and without milestones. */
  ghost predicate Holds(c: Config, id: nat) {
    && Inv(c) && id in c.state.agreements
    && c.state.agreements[id].milestones.None? && Live(c.state.agreements[id].escrow)
  }

  /** A payout loop that succeeds has computed all its products. */
  lemma {:induction false} PaidProductsFit(l: Ledger, to: Address, assets: seq<AssetAmount>, x: nat, funded: nat,
                                           n: nat)
    requires AssetsOk(assets) && funded > 0 && n <= |assets| && PayFirst(l, to, assets, x, funded, n).Ok?
    ensures ProductsFit(assets, x, n)
  {
    if n > 0 {
      PayRound(l, to, assets, x, funded, n - 1);
      PaidProductsFit(l, to, assets, x, funded, n - 1);
    }
  }

  /** A remainder whose products do not fit cannot be paid to anybody. */
  lemma NoPayout(e: Escrow, l: Ledger, to: Address, f: Agreement, x: nat, ret: int)
    requires TermsOk(e) && e.funded > 0 && SameDeal(e, f.escrow) && !ProductsFit(e.assets, x, |e.assets|)
    ensures Payout(f, l, to, x, ret).Err?
  {
    if PayFirst(l, to, e.assets, x, e.funded, |e.assets|).Ok? {
      PaidProductsFit(l, to, e.assets, x, e.funded, |e.assets|);
    }
  }

  lemma NoRefund(a: Agreement, l: Ledger, tokens: set<Address>, now: nat, action: Action, x: nat)
    requires TermsOk(a.escrow) && a.escrow.funded > 0 && a.milestones.None? && IsReturn(action)
    requires 0 < x == a.escrow.funded - a.escrow.released && !ProductsFit(a.escrow.assets, x, |a.escrow.assets|)
    ensures Perform(a, l, tokens, now, action).Err?
  {
    NoPayout(a.escrow, l, a.escrow.sender, a.(escrow := a.escrow.(status := Refunded)), x, 0);
  }

  lemma NoPayment(a: Agreement, l: Ledger, tokens: set<Address>, now: nat, action: Action, x: nat)
    requires TermsOk(a.escrow) && a.escrow.schedule.kind == Unscheduled && a.escrow.released == 0 && Live(a.escrow)
    requires PaysOut(action) && 0 < x == a.escrow.funded && !ProductsFit(a.escrow.assets, x, |a.escrow.assets|)
    ensures Perform(a, l, tokens, now, action).Err?
  {
    var e := a.escrow;
    match action
    case DoWithdraw(_, _) =>
    case DoClaim(_) => NoPayout(e, l, e.recipient, a.(escrow := WithReleased(e, x)), x, x);
    case DoRelease(_, _) => NoPayout(e, l, e.recipient, a.(escrow := e.(released := x, status := Released)), x, 0);
    case DoOverride(nonce, _) =>
      NoPayout(e, l, e.recipient, a.(escrow := e.(overrideNonce := nonce, status := Released)), x, 0);
  }

  /** On an expired escrow only a refund inside the window could succeed. */
  lemma ExpiredOnlyRefunds(a: Agreement, l: Ledger, tokens: set<Address>, now: nat, action: Action)
    requires a.milestones.None? && a.escrow.status == Expired && Perform(a, l, tokens, now, action).Ok?
    ensures IsReturn(action) && RefundsOpen(a.escrow, now)
  {
  }

  /** On a funded one, anything but a payout or a return is an approval or the marker. */
  lemma FundedOtherCalls(a: Agreement, l: Ledger, tokens: set<Address>, now: nat, action: Action)
    requires a.milestones.None? && a.escrow.status == Funded && !IsReturn(action) && !PaysOut(action)
    requires Perform(a, l, tokens, now, action).Ok?
    ensures var o := Perform(a, l, tokens, now, action).value;
            && o.moves == [] && o.share.None? && o.agreement.milestones.None?
            && (o.agreement.escrow == a.escrow || o.agreement.escrow == a.escrow.(status := Expired))
  {
  }

  /** Nothing that can be called on a stranded escrow pays anything or frees it. */
  lemma StrandedStep(a: Agreement, b: Book, l: Ledger, tokens: set<Address>, now: nat, action: Action)
    requires AgreementOk(a, b, now) && Stranded(a, now) && Perform(a, l, tokens, now, action).Ok?
    ensures var o := Perform(a, l, tokens, now, action).value;
            Stranded(o.agreement, now) && o.moves == [] && o.share.None?
  {
    var x := a.escrow.funded - a.escrow.released;
    if a.escrow.status == Expired {
      ExpiredOnlyRefunds(a, l, tokens, now, action);
      NoRefund(a, l, tokens, now, action, x);
    } else if IsReturn(action) {
      NoRefund(a, l, tokens, now, action, x);
    } else if PaysOut(action) {
      NoPayment(a, l, tokens, now, action, x);
    } else {
      FundedOtherCalls(a, l, tokens, now, action);
    }
  }

  /** The escrow is stranded and its book is `book`. */
  ghost predicate StrandedWith(c: Config, id: nat, book: Book) {
    Holds(c, id) && Stranded(c.state.agreements[id], c.state.now) && c.books[id] == book
  }

  lemma StrandedAct(c: Config, op: Op, id: nat, book: Book)
    requires StrandedWith(c, id, book) && op.Act? && op.id == id && Exec(c.state, op).Ok?
    ensures id in Next(c, op).books && Next(c, op).books[id] == book
    ensures id in Next(c, op).state.agreements && Stranded(Next(c, op).state.agreements[id], Next(c, op).state.now)
  {
    var s := c.state;
    ActIsRecord(c, op);
    StrandedStep(s.agreements[id], book, s.ledger, s.tokens, s.now, op.action);
    NoMoves(book, s.ledger);
  }

  lemma StrandedLater(a: Agreement, now: nat, later: nat)
    requires Stranded(a, now) && now <= later
    ensures Stranded(a, later)
  {
  }

  lemma StrandedMeanwhile(c: Config, op: Op, id: nat, book: Book)
    requires StrandedWith(c, id, book) && Numbers(c, op) && (Exec(c.state, op).Err? || !op.Act? || op.id != id)
    ensures id in Next(c, op).books && Next(c, op).books[id] == book
    ensures id in Next(c, op).state.agreements && Stranded(Next(c, op).state.agreements[id], Next(c, op).state.now)
  {
    OthersUntouched(c, op, id);
    StrandedLater(c.state.agreements[id], c.state.now, Next(c, op).state.now);
  }

  lemma StrandedNext(c: Config, op: Op, id: nat, book: Book)
    requires StrandedWith(c, id, book) && Numbers(c, op)
    ensures StrandedWith(Next(c, op), id, book)
  {
    StepKeepsInv(c, op);
    if op.Act? && op.id == id && Exec(c.state, op).Ok? {
      StrandedAct(c, op, id, book);
    } else {
      StrandedMeanwhile(c, op, id, book);
    }
  }

  /** Once stranded, no continuation ever pays any of it to anybody. */
  lemma StrandedForever(c: Config, ops: seq<Op>, i: nat, id: nat, book: Book)
    requires StrandedWith(c, id, book) && Continues(c, ops) && i <= |ops|
    ensures StrandedWith(ConfigAt(c, ops, i), id, book)
  {
    var kept := (d: Config) => StrandedWith(d, id, book);
    forall d, op {:trigger Next(d, op)} | kept(d) && Numbers(d, op) ensures kept(Next(d, op)) {
      StrandedNext(d, op, id, book);
    }
    Preserved(c, ops, 0, i, kept);
  }

  lemma StrandedBook(c: Config, id: nat, book: Book)
    requires StrandedWith(c, id, book)
    ensures BookOf(c, id) == book && !Redeemed(c, id)
  {
  }

  lemma StrandedThen(c: Config, ops: seq<Op>, id: nat, book: Book)
    requires StrandedWith(c, id, book) && Continues(c, ops)
    ensures BookOf(ConfigAt(c, ops, |ops|), id) == book && !Redeemed(ConfigAt(c, ops, |ops|), id)
  {
    StrandedForever(c, ops, |ops|, id, book);
    StrandedBook(ConfigAt(c, ops, |ops|), id, book);
  }

  // ----- ways out -----

  /** A relation that contains every call other than an opening and composes. */
  ghost predicate ClosedUnderCalls(reach: (Config, Config) -> bool) {
    && (forall c :: reach(c, c))
    && (forall c, op: Op {:trigger Next(c, op)} :: !op.Open? ==> reach(c, Next(c, op)))
    && (forall c, d, e :: reach(c, d) && reach(d, e) ==> reach(c, e))
  }

  /** A call on the escrow that succeeds leads to a sound configuration holding its outcome. */
  lemma Advance(reach: (Config, Config) -> bool, c: Config, id: nat, action: Action) returns (d: Config)
    requires ClosedUnderCalls(reach) && Inv(c) && id in c.state.agreements && Early(action).Pass?
    requires Perform(c.state.agreements[id], c.state.ledger, c.state.tokens, c.state.now, action).Ok?
    ensures reach(c, d) && Inv(d) && d.state.now == c.state.now && id in d.state.agreements
    ensures d.state.agreements[id]
         == Perform(c.state.agreements[id], c.state.ledger, c.state.tokens, c.state.now, action).value.agreement
  {
    AdvanceKeeps(c, id, action);
    d := Next(c, Act(id, action));
  }

  /** The call `action` on escrow `id` succeeds and stores `t`. */
  ghost predicate Yields(c: Config, id: nat, action: Action, t: Agreement) {
    && id in c.state.agreements && Early(action).Pass?
    && var r := Perform(c.state.agreements[id], c.state.ledger, c.state.tokens, c.state.now, action);
       r.Ok? && r.value.agreement == t
  }

  lemma AdvanceTo(reach: (Config, Config) -> bool, c: Config, id: nat, action: Action, t: Agreement)
    returns (d: Config)
    requires ClosedUnderCalls(reach) && Inv(c) && Yields(c, id, action, t)
    ensures reach(c, d) && Inv(d) && d.state.now == c.state.now && id in d.state.agreements
    ensures d.state.agreements[id] == t
  {
    d := Advance(reach, c, id, action);
  }

  lemma AdvanceKeeps(c: Config, id: nat, action: Action)
    requires Inv(c) && id in c.state.agreements && Early(action).Pass?
    requires Perform(c.state.agreements[id], c.state.ledger, c.state.tokens, c.state.now, action).Ok?
    ensures var d := Next(c, Act(id, action));
            && Inv(d) && d.state.now == c.state.now && id in d.state.agreements
            && d.state.agreements[id]
               == Perform(c.state.agreements[id], c.state.ledger, c.state.tokens, c.state.now, action).value.agreement
  {
    ActIsRecord(c, Act(id, action));
    ActKeepsInv(c, Act(id, action));
  }

  /** Let time pass until `t`, if it has not come yet. */
  lemma WaitUntil(reach: (Config, Config) -> bool, c: Config, id: nat, t: nat) returns (d: Config)
    requires ClosedUnderCalls(reach) && Holds(c, id)
    ensures reach(c, d) && Holds(d, id)
    ensures d == Config(c.state.(now := Max(c.state.now, t)), c.books)
  {
    var op := Tick(if t > c.state.now then t - c.state.now else 0);
    TickIsLater(c, op.seconds);
    StepKeepsInv(c, op);
    d := Next(c, op);
  }

  lemma TickIsLater(c: Config, seconds: nat)
    ensures Next(c, Tick(seconds)) == Config(c.state.(now := c.state.now + seconds), c.books)
  {
  }

  /** A participant whose approval is still missing, as long as the threshold is not met. */
  lemma MissingApproval(a: Agreement) returns (p: Address)
    requires ConditionOk(a) && a.condition.Some? && RequireApprovals(a).Fail?
    ensures p in a.condition.value.participants && p !in a.approved
  {
    var c := a.condition.value;
    if forall q :: q in c.participants ==> q in a.approved {
      EverybodyListed(c.participants, a.approved, |c.participants|);
      ListedApprovals(a);
    }
    p :| p in c.participants && p !in a.approved;
  }

  lemma {:induction false} EverybodyListed(participants: seq<Address>, approved: set<Address>, n: nat)
    requires n <= |participants| && forall q :: q in participants ==> q in approved
    ensures |ApprovalsFirst(participants, approved, n)| == n
  {
    if n > 0 { EverybodyListed(participants, approved, n - 1); }
  }

  /** The participants can always complete the condition of a funded escrow. */
  lemma {:induction false} GatherApprovals(reach: (Config, Config) -> bool, c: Config, id: nat) returns (d: Config)
    requires ClosedUnderCalls(reach) && Holds(c, id) && c.state.agreements[id].escrow.status == Funded
    ensures reach(c, d) && Holds(d, id) && RequireApprovals(d.state.agreements[id]).Pass?
    ensures d.state.now == c.state.now && d.state.agreements[id].escrow == c.state.agreements[id].escrow
    decreases var k := c.state.agreements[id].condition;
              if k.Some? && k.value.threshold > k.value.approvals then k.value.threshold - k.value.approvals else 0
  {
    var a := c.state.agreements[id];
    d := c;
    if RequireApprovals(a).Fail? {
      var p := MissingApproval(a);
      var next := ApproveOne(reach, c, id, p);
      d := GatherApprovals(reach, next, id);
    }
  }

  predicate OneMoreApproval(a: Agreement, b: Agreement) {
    && b.escrow == a.escrow && b.milestones == a.milestones && a.condition.Some?
    && b.condition == Some(a.condition.value.(approvals := a.condition.value.approvals + 1))
  }

  lemma ApproveOne(reach: (Config, Config) -> bool, c: Config, id: nat, p: Address) returns (d: Config)
    requires ClosedUnderCalls(reach) && Holds(c, id) && c.state.agreements[id].escrow.status == Funded
    requires c.state.agreements[id].condition.Some?
    requires p in c.state.agreements[id].condition.value.participants && p !in c.state.agreements[id].approved
    ensures reach(c, d) && Inv(d) && d.state.now == c.state.now && id in d.state.agreements
    ensures OneMoreApproval(c.state.agreements[id], d.state.agreements[id])
  {
    ApproveSucceeds(c.state.agreements[id], c.state.ledger, p);
    d := Advance(reach, c, id, DoApprove(p));
  }

  lemma ApproveSucceeds(a: Agreement, l: Ledger, p: Address)
    requires ConditionOk(a) && a.escrow.status == Funded && a.condition.Some?
    requires p in a.condition.value.participants && p !in a.approved
    ensures ApproveRelease(a, l, p).Ok?
    ensures OneMoreApproval(a, ApproveRelease(a, l, p).value.agreement)
  {
    ApproveCounts(a, l, p);
  }

  /** An expired escrow is refunded inside its window. */
  lemma RefundRedeems(reach: (Config, Config) -> bool, c: Config, id: nat, remaining: int) returns (d: Config)
    requires ClosedUnderCalls(reach) && Holds(c, id) && WindowAhead(c.state.agreements[id].escrow, c.state.now)
    requires remaining == c.state.agreements[id].escrow.funded - c.state.agreements[id].escrow.released
    requires ProductsFit(c.state.agreements[id].escrow.assets, remaining, |c.state.agreements[id].escrow.assets|)
    ensures reach(c, d) && Redeemed(d, id)
  {
    var e := c.state.agreements[id].escrow;
    var w := WaitUntil(reach, c, id, GraceEnd(e));
    WindowOpens(e, c.state.now);
    d := RefundNow(reach, w, id, remaining);
  }

  lemma WindowOpens(e: Escrow, now: nat)
    requires WindowAhead(e, now)
    ensures RefundsOpen(e, Max(now, GraceEnd(e)))
  {
  }

  lemma RefundNow(reach: (Config, Config) -> bool, c: Config, id: nat, remaining: int) returns (d: Config)
    requires ClosedUnderCalls(reach) && Holds(c, id) && RefundsOpen(c.state.agreements[id].escrow, c.state.now)
    requires remaining == c.state.agreements[id].escrow.funded - c.state.agreements[id].escrow.released
    requires ProductsFit(c.state.agreements[id].escrow.assets, remaining, |c.state.agreements[id].escrow.assets|)
    ensures reach(c, d) && Redeemed(d, id)
  {
    var a, action := c.state.agreements[id], DoRefundTimelock(c.state.agreements[id].escrow.sender);
    SenderExit(c, id, action, remaining);
    SettlingRecord(a, c.state.ledger, c.state.tokens, c.state.now, action);
    d := Advance(reach, c, id, action);
  }

  /** A funded escrow without a schedule is claimed as a whole after its grace period. */
  lemma ClaimRedeems(reach: (Config, Config) -> bool, c: Config, id: nat) returns (d: Config)
    requires ClosedUnderCalls(reach) && Holds(c, id) && c.state.agreements[id].escrow.status == Funded
    requires c.state.agreements[id].escrow.schedule.kind == Unscheduled
    requires Recoverable(c.state.agreements[id].escrow, c.state.now)
    ensures reach(c, d) && Redeemed(d, id)
  {
    var e := c.state.agreements[id].escrow;
    var w := WaitUntil(reach, c, id, GraceEnd(e));
    var g := GatherApprovals(reach, w, id);
    LiveRemainder(g, id);
    NothingReleased(g, id);
    d := ClaimWhole(reach, g, id, e.funded);
  }

  lemma NothingReleased(c: Config, id: nat)
    requires Holds(c, id) && c.state.agreements[id].escrow.schedule.kind == Unscheduled
    ensures c.state.agreements[id].escrow.released == 0
  {
  }

  predicate ClaimReady(a: Agreement, now: nat, x: int) {
    && a.milestones.None? && a.escrow.status == Funded && a.escrow.schedule.kind == Unscheduled
    && now >= GraceEnd(a.escrow) && RequireApprovals(a).Pass?
    && a.escrow.released == 0 && 0 < x == a.escrow.funded <= I128_MAX
  }

  lemma ClaimWhole(reach: (Config, Config) -> bool, c: Config, id: nat, x: nat) returns (d: Config)
    requires ClosedUnderCalls(reach) && Holds(c, id) && ClaimReady(c.state.agreements[id], c.state.now, x)
    requires Sum(c.books[id].shares) == 0
    requires ProductsFit(c.state.agreements[id].escrow.assets, x, |c.state.agreements[id].escrow.assets|)
    ensures reach(c, d) && Redeemed(d, id)
  {
    ClaimIsPaid(c, id, x);
    d := Advance(reach, c, id, DoClaim(c.state.agreements[id].escrow.recipient));
  }

  lemma ClaimIsPaid(c: Config, id: nat, x: nat)
    requires Holds(c, id) && ClaimReady(c.state.agreements[id], c.state.now, x)
    requires Sum(c.books[id].shares) == 0
    requires ProductsFit(c.state.agreements[id].escrow.assets, x, |c.state.agreements[id].escrow.assets|)
    ensures var a := c.state.agreements[id];
            var r := Claim(a, c.state.ledger, c.state.now, a.escrow.recipient);
            r.Ok? && Settled(r.value.agreement.escrow)
  {
    var a := c.state.agreements[id];
    PayoutNeverBounces(c, id, a.escrow.recipient, x);
    ClaimSucceeds(a, c.state.ledger, c.state.now, x);
  }

  lemma ClaimSucceeds(a: Agreement, l: Ledger, now: nat, x: int)
    requires ClaimReady(a, now, x)
    requires PayFirst(l, a.escrow.recipient, a.escrow.assets, x, x, |a.escrow.assets|).Ok?
    ensures Claim(a, l, now, a.escrow.recipient).Ok?
    ensures Settled(Claim(a, l, now, a.escrow.recipient).value.agreement.escrow)
  {
  }

  /** A matured schedule can be withdrawn unit by unit, which no product can prevent. */
  lemma {:induction false} WithdrawalsRedeem(reach: (Config, Config) -> bool, c: Config, id: nat) returns (d: Config)
    requires ClosedUnderCalls(reach) && Holds(c, id) && c.state.agreements[id].escrow.status == Funded
    requires Matured(c.state.agreements[id], c.state.now)
    ensures reach(c, d) && Redeemed(d, id)
    decreases var e := c.state.agreements[id].escrow; if e.funded > e.released then e.funded - e.released else 0
  {
    var next := WithdrawOne(reach, c, id);
    UnitLeaves(c.state.agreements[id], next.state.agreements[id], c.state.now);
    d := next;
    if next.state.agreements[id].escrow.status == Funded {
      d := WithdrawalsRedeem(reach, next, id);
    }
  }

  lemma UnitLeaves(a: Agreement, b: Agreement, now: nat)
    requires a.escrow.status == Funded && Matured(a, now) && UnitWithdrawn(a, b)
    ensures Matured(b, now) && b.milestones == a.milestones
    ensures b.escrow.status == Funded || Settled(b.escrow)
    ensures 0 <= b.escrow.funded - b.escrow.released < a.escrow.funded - a.escrow.released
  {
  }

  predicate Matured(a: Agreement, now: nat) {
    a.escrow.schedule.kind != Unscheduled && now >= a.escrow.schedule.end && RequireApprovals(a).Pass?
  }

  predicate UnitWithdrawn(a: Agreement, b: Agreement) {
    && b == a.(escrow := WithReleased(a.escrow, a.escrow.released + 1))
    && a.escrow.released < a.escrow.funded
  }

  lemma WithdrawOne(reach: (Config, Config) -> bool, c: Config, id: nat) returns (d: Config)
    requires ClosedUnderCalls(reach) && Holds(c, id) && c.state.agreements[id].escrow.status == Funded
    requires Matured(c.state.agreements[id], c.state.now)
    ensures reach(c, d) && Inv(d) && d.state.now == c.state.now && id in d.state.agreements
    ensures UnitWithdrawn(c.state.agreements[id], d.state.agreements[id])
  {
    UnitIsPaid(c, id);
    d := Advance(reach, c, id, DoWithdraw(c.state.agreements[id].escrow.recipient, 1));
  }

  /** The withdrawal of one unit succeeds. */
  lemma UnitIsPaid(c: Config, id: nat)
    requires Holds(c, id) && c.state.agreements[id].escrow.status == Funded
    requires Matured(c.state.agreements[id], c.state.now)
    ensures var a := c.state.agreements[id];
            var r := Withdraw(a, c.state.ledger, c.state.now, a.escrow.recipient, 1);
            r.Ok? && UnitWithdrawn(a, r.value.agreement)
  {
    var a := c.state.agreements[id];
    LiveRemainder(c, id);
    AmountsFit(a.escrow);
    PayoutNeverBounces(c, id, a.escrow.recipient, 1);
    WithdrawSucceeds(a, c.state.ledger, c.state.now);
  }

  lemma AmountsFit(e: Escrow)
    requires TermsOk(e) && e.funded > 0
    ensures ProductsFit(e.assets, 1, |e.assets|)
  {
    forall i | 0 <= i < |e.assets| ensures e.assets[i].amount * 1 <= I128_MAX {
      AmountAt(e.assets, i, |e.assets|);
      AmountWithinTotal(e.assets, e.assets[i].asset);
    }
  }

  lemma WithdrawSucceeds(a: Agreement, l: Ledger, now: nat)
    requires a.milestones.None? && a.escrow.status == Funded && Matured(a, now) && WellFormed(a.escrow.schedule)
    requires 0 <= a.escrow.released < a.escrow.funded <= I128_MAX
    requires PayFirst(l, a.escrow.recipient, a.escrow.assets, 1, a.escrow.funded, |a.escrow.assets|).Ok?
    ensures Withdraw(a, l, now, a.escrow.recipient, 1).Ok?
    ensures Withdraw(a, l, now, a.escrow.recipient, 1).value.agreement
         == a.(escrow := WithReleased(a.escrow, a.escrow.released + 1))
  {
    CalcVestedExact(a.escrow.funded, a.escrow.schedule, now);
    VestedBounds(a.escrow.funded, a.escrow.schedule, now);
  }

  lemma ScheduleRedeems(reach: (Config, Config) -> bool, c: Config, id: nat) returns (d: Config)
    requires ClosedUnderCalls(reach) && Holds(c, id) && c.state.agreements[id].escrow.status == Funded
    requires c.state.agreements[id].escrow.schedule.kind != Unscheduled
    ensures reach(c, d) && Redeemed(d, id)
  {
    var w := WaitUntil(reach, c, id, c.state.agreements[id].escrow.schedule.end);
    var g := GatherApprovals(reach, w, id);
    d := WithdrawalsRedeem(reach, g, id);
  }

  /** From a recoverable escrow its settlement is in reach. */
  lemma SettlementInReach(reach: (Config, Config) -> bool, c: Config, id: nat) returns (d: Config)
    requires ClosedUnderCalls(reach) && Holds(c, id) && Recoverable(c.state.agreements[id].escrow, c.state.now)
    ensures reach(c, d) && Redeemed(d, id)
  {
    var e := c.state.agreements[id].escrow;
    if e.status == Expired {
      d := RefundRedeems(reach, c, id, e.funded - e.released);
    } else if e.schedule.kind == Unscheduled {
      d := ClaimRedeems(reach, c, id);
    } else {
      d := ScheduleRedeems(reach, c, id);
    }
  }

  // ----- the exact condition -----

  /** `d` is reached from `c` by calls none of which opens an escrow. */
  ghost predicate Leads(c: Config, ops: seq<Op>, d: Config) {
    (forall k :: 0 <= k < |ops| ==> !ops[k].Open?) && ConfigAt(c, ops, |ops|) == d
  }

  ghost predicate Reaches(c: Config, d: Config) { exists ops :: Leads(c, ops, d) }

  lemma {:induction false} RunPrefix(c: Config, xs: seq<Op>, ys: seq<Op>, i: nat)
    requires i <= |xs|
    ensures ConfigAt(c, xs + ys, i) == ConfigAt(c, xs, i)
  {
    if i > 0 { RunPrefix(c, xs, ys, i - 1); }
  }

  lemma {:induction false} RunConcat(c: Config, xs: seq<Op>, ys: seq<Op>, i: nat)
    requires i <= |ys|
    ensures ConfigAt(c, xs + ys, |xs| + i) == ConfigAt(ConfigAt(c, xs, |xs|), ys, i)
  {
    if i == 0 {
      RunPrefix(c, xs, ys, |xs|);
    } else {
      RunConcat(c, xs, ys, i - 1);
    }
  }

  lemma ReachesStep(c: Config, op: Op)
    requires !op.Open?
    ensures Reaches(c, Next(c, op))
  {
    assert ConfigAt(c, [op], 0) == c;
    assert Leads(c, [op], Next(c, op));
  }

  lemma ReachesTrans(c: Config, d: Config, e: Config)
    requires Reaches(c, d) && Reaches(d, e)
    ensures Reaches(c, e)
  {
    var xs :| Leads(c, xs, d);
    var ys :| Leads(d, ys, e);
    RunConcat(c, xs, ys, |ys|);
    assert Leads(c, xs + ys, e);
  }

  lemma ReachesIsClosed(reach: (Config, Config) -> bool)
    requires forall c, d :: reach(c, d) == Reaches(c, d)
    ensures ClosedUnderCalls(reach)
  {
    forall c ensures reach(c, c) { assert Leads(c, [], c); }
    forall c, op: Op {:trigger Next(c, op)} | !op.Open? ensures reach(c, Next(c, op)) { ReachesStep(c, op); }
    forall c, d, e | reach(c, d) && reach(d, e) ensures reach(c, e) { ReachesTrans(c, d, e); }
  }

  lemma RecoverableReaches(c: Config, id: nat) returns (d: Config)
    requires Holds(c, id) && Recoverable(c.state.agreements[id].escrow, c.state.now)
    ensures Reaches(c, d) && Redeemed(d, id)
  {
    var reach := (x: Config, y: Config) => Reaches(x, y);
    ReachesIsClosed(reach);
    d := SettlementInReach(reach, c, id);
  }

  lemma LeadsContinues(c: Config, ops: seq<Op>, d: Config)
    requires Leads(c, ops, d)
    ensures Continues(c, ops)
  {
  }

  lemma RecoverableRedeems(c: Config, id: nat) returns (ops: seq<Op>)
    requires Holds(c, id) && Recoverable(c.state.agreements[id].escrow, c.state.now)
    ensures Redeems(c, ops, id)
  {
    var d := RecoverableReaches(c, id);
    ops :| Leads(c, ops, d);
    LeadsContinues(c, ops, d);
  }

  lemma StrandedRedeemsNever(c: Config, ops: seq<Op>, id: nat)
    requires Holds(c, id) && !Recoverable(c.state.agreements[id].escrow, c.state.now) && Continues(c, ops)
    ensures BookOf(ConfigAt(c, ops, |ops|), id) == BookOf(c, id) && !Redeems(c, ops, id)
  {
    StrandedThen(c, ops, id, c.books[id]);
  }

  /** The exact condition, for every reachable funded or expired escrow without milestones:
      some continuation settles it if and only if it is recoverable, and otherwise no
      continuation moves any of its money. */
  lemma PlainRecovery(c: Config, id: nat)
    requires Holds(c, id)
    ensures (exists ops :: Redeems(c, ops, id)) <==> Recoverable(c.state.agreements[id].escrow, c.state.now)
    ensures !Recoverable(c.state.agreements[id].escrow, c.state.now) ==>
              forall ops :: Continues(c, ops) ==> BookOf(ConfigAt(c, ops, |ops|), id) == BookOf(c, id)
  {
    if Recoverable(c.state.agreements[id].escrow, c.state.now) {
      var ops := RecoverableRedeems(c, id);
    } else {
      forall ops | Continues(c, ops)
        ensures BookOf(ConfigAt(c, ops, |ops|), id) == BookOf(c, id) && !Redeems(c, ops, id)
      {
        StrandedRedeemsNever(c, ops, id);
      }
    }
  }

  // ----- concrete runs -----

  lemma CountStep(c: Config, op: Op)
    ensures Next(c, op).state.count <= c.state.count + 1
  {
  }

  lemma {:induction false} CountGrows(c: Config, ops: seq<Op>, k: nat)
    requires k <= |ops|
    ensures ConfigAt(c, ops, k).state.count <= c.state.count + k
  {
    if k > 0 {
      CountGrows(c, ops, k - 1);
      CountStep(ConfigAt(c, ops, k - 1), ops[k - 1]);
    }
  }

  /** A counter far from its end numbers every call that follows. */
  lemma CountsOn(c: Config, ops: seq<Op>)
    requires c.state.count + |ops| <= U64_MAX
    ensures Continues(c, ops)
  {
    forall k | 0 <= k < |ops| ensures Numbers(ConfigAt(c, ops, k), ops[k]) { CountGrows(c, ops, k); }
  }

  lemma StrandedStart(c0: Config, first: seq<Op>, c: Config, id: nat)
    requires Fresh(c0) && |first| <= U64_MAX && c == ConfigAt(c0, first, |first|)
    requires id in c.state.agreements && Stranded(c.state.agreements[id], c.state.now)
    ensures StrandedWith(c, id, BookOf(c, id)) && c.state.count <= |first|
  {
    RunInv(c0, first, |first|);
  }

  /** The end of a run is the end of its continuation after the first calls. */
  lemma RunEnd(c0: Config, first: seq<Op>, ops: seq<Op>, c: Config)
    requires c == ConfigAt(c0, first, |first|)
    ensures ConfigAt(c0, first + ops, |first + ops|) == ConfigAt(c, ops, |ops|)
  {
    RunConcat(c0, first, ops, |ops|);
  }

  /** Whatever is called after a stranded state of a fresh contract, nothing is paid. */
  lemma StrandedRun(c0: Config, first: seq<Op>, ops: seq<Op>, c: Config, id: nat)
    requires Fresh(c0) && |first + ops| <= U64_MAX && c == ConfigAt(c0, first, |first|)
    requires id in c.state.agreements && Stranded(c.state.agreements[id], c.state.now)
    ensures BookOf(ConfigAt(c0, first + ops, |first + ops|), id) == BookOf(c, id)
  {
    StrandedStart(c0, first, c, id);
    CountsOn(c, ops);
    RunEnd(c0, first, ops, c);
    StrandedThen(c, ops, id, BookOf(c, id));
  }

  function PlainTerms(amount: int, window: nat): Terms {
    Terms(ALICE, BOB, ARBITER, [AssetAmount(TOKEN, amount)], 10, 0, window, [], 0)
  }

  /** The contract holding one plain escrow of `amount` at time `now`. */
  function OneEscrow(amount: nat, window: nat, now: nat, status: Status): Config {
    var e := Draft(PlainTerms(amount, window), status, amount, NO_SCHEDULE);
    Config(State(now, 1, {TOKEN}, map[1 := Plain(e)], map[(ALICE, TOKEN) := 0, (SELF, TOKEN) := amount]),
           map[1 := Book([Move(TOKEN, ALICE, SELF, amount)], [])])
  }

  lemma OpenOne(amount: I128, window: nat)
    requires amount > 0
    ensures Next(Funds(amount), Open(NewEscrow(PlainTerms(amount, window)))) == OneEscrow(amount, window, 0, Funded)
  {
    PullSingle(amount);
    OneAssetValid(amount);
    var op := Open(NewEscrow(PlainTerms(amount, window)));
    assert Create(Funds(amount).state.ledger, {TOKEN}, 0, PlainTerms(amount, window)).Ok?;
    OpenIsRecord(Funds(amount), op);
    assert [] + [Move(TOKEN, ALICE, SELF, amount)] == [Move(TOKEN, ALICE, SELF, amount)];
  }

  lemma OneDeposit(amount: int)
    ensures Deposited([Move(TOKEN, ALICE, SELF, amount)], TOKEN) == amount
    ensures Paid([Move(TOKEN, ALICE, SELF, amount)], TOKEN) == 0
  {
    assert [] + [Move(TOKEN, ALICE, SELF, amount)] == [Move(TOKEN, ALICE, SELF, amount)];
    SnocSums([], Move(TOKEN, ALICE, SELF, amount), TOKEN, SELF);
  }

  const LARGE: I128 := 0x1_0000_0000_0000_0000

  const LARGE_ESCROW: Op := Open(NewEscrow(PlainTerms(LARGE, 0)))

  /** The claim that reclaiming guarantees funds cannot be stranded fails: 2^64 units of
      one token enter custody and, whatever is called afterwards, never leave it. */
  lemma StrandedExample(ops: seq<Op>)
    requires |ops| < U64_MAX
    ensures var run := [LARGE_ESCROW] + ops;
            var c := ConfigAt(Funds(LARGE), run, |run|);
            Deposited(BookOf(c, 1).log, TOKEN) == LARGE && Paid(BookOf(c, 1).log, TOKEN) == 0
  {
    OpenOne(LARGE, 0);
    OneDeposit(LARGE);
    assert ConfigAt(Funds(LARGE), [LARGE_ESCROW], 0) == Funds(LARGE);
    assert ConfigAt(Funds(LARGE), [LARGE_ESCROW], 1) == OneEscrow(LARGE, 0, 0, Funded);
    assert OneEscrow(LARGE, 0, 0, Funded).state.agreements[1].escrow.assets[0].amount * LARGE > I128_MAX;
    StrandedRun(Funds(LARGE), [LARGE_ESCROW], ops, OneEscrow(LARGE, 0, 0, Funded), 1);
  }

  /** One hundred units with a refund window of one second. */
  const SHORT_ESCROW: Op := Open(NewEscrow(PlainTerms(100, 1)))

  const SHORT_RUN: seq<Op> := [SHORT_ESCROW, Tick(11), Act(1, DoExpire)]

  lemma ShortExpiry()
    ensures Next(OneEscrow(100, 1, 11, Funded), Act(1, DoExpire)) == OneEscrow(100, 1, 11, Expired)
  {
    var c, op := OneEscrow(100, 1, 11, Funded), Act(1, DoExpire);
    NoMoves(c.books[1], c.state.ledger);
    assert Expire(c.state.agreements[1], c.state.ledger, 11).Ok?;
    ActIsRecord(c, op);
    assert Record(c, 1, 1, Expire(c.state.agreements[1], c.state.ledger, 11).value) == OneEscrow(100, 1, 11, Expired);
  }

  lemma ShortWait()
    ensures Next(OneEscrow(100, 1, 0, Funded), Tick(11)) == OneEscrow(100, 1, 11, Funded)
  {
  }

  lemma ShortRunExpires()
    ensures ConfigAt(Funds(100), SHORT_RUN, 3) == OneEscrow(100, 1, 11, Expired)
  {
    OpenOne(100, 1);
    ShortWait();
    ShortExpiry();
    RunOfThree(Funds(100), SHORT_RUN);
  }

  lemma RunOfThree(c: Config, ops: seq<Op>)
    requires |ops| == 3
    ensures ConfigAt(c, ops, 3) == Next(Next(Next(c, ops[0]), ops[1]), ops[2])
  {
    assert ConfigAt(c, ops, 1) == Next(ConfigAt(c, ops, 0), ops[0]);
    assert ConfigAt(c, ops, 2) == Next(ConfigAt(c, ops, 1), ops[1]);
    assert ConfigAt(c, ops, 3) == Next(ConfigAt(c, ops, 2), ops[2]);
  }

  /** Nor does it take large amounts: let the refund window of a small escrow close, and
      anybody's call of the permissionless marker strands it for good. */
  lemma ClosedWindowExample(ops: seq<Op>)
    requires |ops| <= U64_MAX - 3
    ensures var run := SHORT_RUN + ops;
            var c := ConfigAt(Funds(100), run, |run|);
            Deposited(BookOf(c, 1).log, TOKEN) == 100 && Paid(BookOf(c, 1).log, TOKEN) == 0
  {
    ShortRunExpires();
    OneDeposit(100);
    StrandedRun(Funds(100), SHORT_RUN, ops, OneEscrow(100, 1, 11, Expired), 1);
  }
}

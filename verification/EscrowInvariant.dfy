/** The accounting of one agreement: what its log of transfers and its list of payouts
    must say at every moment, and that every call keeps it so. */
module EscrowInvariant {
  import opened Common
  import opened Arith
  import opened EscrowModel
  import opened EscrowShares
  import opened EscrowVesting

  /** The observer's record of one escrow: every token transfer made on its behalf and the
      share paid by each payout operation. The contract keeps neither. */
  datatype Book = Book(log: seq<Move>, shares: seq<int>)

  const EMPTY: Book := Book([], [])

  function Entry(share: Option<int>): seq<int> { if share.Some? then [share.value] else [] }

  function Append(b: Book, moves: seq<Move>, share: Option<int>): Book {
    Book(b.log + moves, b.shares + Entry(share))
  }

  predicate Settled(e: Escrow) { e.status == Released || e.status == Refunded || e.status == Closed }

  /** The share of the funded amount already paid out, as the live contract knows it. */
  function Drawn(a: Agreement): int {
    if a.milestones.Some? then a.milestones.value.released else a.escrow.released
  }

  // ----- the parts of the invariant -----

  predicate TermsOk(e: Escrow) {
    && e.sender != e.recipient && e.sender != SELF
    && AssetsOk(e.assets)
    && WellFormed(e.schedule)
    && 0 <= e.funded <= I128_MAX
    && (e.funded == 0 || e.funded == Total(e.assets))
  }

  /** The log adds up, asset by asset: the full deposit came in, and exactly the floored
      shares went out. */
  ghost predicate BooksOk(e: Escrow, b: Book) {
    && NonNegative(b.shares)
    && (e.funded == 0 ==> b.shares == [])
    && (forall a :: Deposited(b.log, a) == if e.funded == 0 then 0 else AmountOf(e.assets, a))
    && (forall a :: Paid(b.log, a) == FloorSum(AmountOf(e.assets, a), b.shares, e.funded))
  }

  /** Tokens only travel sender -> custody -> recipient or sender. */
  ghost predicate RoutesOk(e: Escrow, log: seq<Move>) {
    forall i :: 0 <= i < |log| ==>
      || (log[i].from == e.sender && log[i].to == SELF)
      || (log[i].from == SELF && (log[i].to == e.recipient || log[i].to == e.sender))
  }

  ghost predicate ProgressOk(a: Agreement, b: Book) {
    var e := a.escrow;
    && (e.status == Created ==> e.funded == 0 && e.released == 0 && a.milestones.None?)
    && (e.status == Funded || e.status == Expired ==> e.funded > 0 && 0 <= Drawn(a) <= e.funded)
    && ((e.status == Funded || e.status == Expired) && a.milestones.None? ==> Drawn(a) < e.funded)
    && Sum(b.shares) == if Settled(e) then e.funded else Drawn(a)
  }

  /** A live escrow has released no more than has vested. */
  ghost predicate VestingOk(a: Agreement, now: nat) {
    var e := a.escrow;
    a.milestones.None? && (e.status == Funded || e.status == Expired) ==>
      WellFormed(e.schedule) && e.funded >= 0 && e.released <= Vested(e.funded, e.schedule, now)
  }

  /** The approval counter is the number of flags, all of them participants'. */
  ghost predicate ConditionOk(a: Agreement) {
    match a.condition
    case None => a.approved == {}
    case Some(c) =>
      && a.milestones.None?
      && Distinct(c.participants) && |c.participants| <= MAX_SIGNERS
      && 1 <= c.threshold <= |c.participants|
      && c.approvals == |a.approved|
      && (forall p :: p in a.approved ==> p in c.participants)
  }

  function Weights(items: seq<Milestone>): seq<int> {
    seq(|items|, i requires 0 <= i < |items| => items[i].bps)
  }

  /** What the floored shares of the completed milestones add up to. */
  function CompletedFloors(amount: int, items: seq<Milestone>, n: nat): int
    requires n <= |items|
  {
    if n == 0 then 0
    else CompletedFloors(amount, items, n - 1)
         + (if items[n - 1].status == Completed then Portion(amount, items[n - 1].bps, BPS) else 0)
  }

  ghost predicate ScheduleOfMilestones(items: seq<Milestone>) {
    && items != []
    && (forall i :: 0 <= i < |items| ==> items[i].index == i)
    && Sum(Weights(items)) == BPS
  }

  /** While open, exactly the floored shares of the completed milestones have been paid;
      completed in full, everything; cancelled, the rest went back to the sender. */
  ghost predicate MilestonesOk(a: Agreement, b: Book) {
    a.milestones.Some? ==>
      var e, ms := a.escrow, a.milestones.value;
      && |e.assets| == 1 && e.funded == e.assets[0].amount && e.funded > 0
      && ScheduleOfMilestones(ms.items)
      && 0 <= ms.released <= e.funded
      && PaidTo(b.log, e.assets[0].asset, e.recipient) == ms.released
      && PaidTo(b.log, e.assets[0].asset, e.sender) == (if ms.cancelled then e.funded - ms.released else 0)
      && (ms.cancelled ==> e.status == Refunded || e.status == Closed)
      && (!ms.cancelled && !Settled(e) ==>
            && (e.status == Funded || e.status == Expired)
            && !AllCompleted(ms.items)
            && ms.released == CompletedFloors(e.funded, ms.items, |ms.items|))
      && (!ms.cancelled && Settled(e) ==>
            e.status != Refunded && AllCompleted(ms.items) && ms.released == e.funded)
  }

  ghost predicate AgreementOk(a: Agreement, b: Book, now: nat) {
    && TermsOk(a.escrow)
    && BooksOk(a.escrow, b)
    && RoutesOk(a.escrow, b.log)
    && ProgressOk(a, b)
    && VestingOk(a, now)
    && ConditionOk(a)
    && MilestonesOk(a, b)
  }

  /** Custody changes by no less than what the moves say. */
  ghost predicate Covers(l: Ledger, post: Ledger, moves: seq<Move>) {
    forall a :: Balance(post, SELF, a) >= Balance(l, SELF, a) + Deposited(moves, a) - Paid(moves, a)
  }

  /** The facts about an outcome that every entrypoint must establish. */
  ghost predicate Keeps(b: Book, l: Ledger, now: nat, o: Outcome) {
    && AgreementOk(o.agreement, Append(b, o.moves, o.share), now)
    && Covers(l, o.ledger, o.moves)
  }

  // ----- what each agreement holds -----

  function Held(b: Book, a: Address): int { Deposited(b.log, a) - Paid(b.log, a) }

  /** No escrow ever owes tokens: whatever it paid, it had received. */
  lemma HeldIsNonNegative(a: Agreement, b: Book, now: nat, asset: Address)
    requires AgreementOk(a, b, now)
    ensures 0 <= Paid(b.log, asset) <= Deposited(b.log, asset)
  {
    AmountWithinTotal(a.escrow.assets, asset);
    if a.escrow.funded > 0 { NeverOverdraws(AmountOf(a.escrow.assets, asset), b.shares, a.escrow.funded); }
  }

  /** And what it still holds covers any share it has not yet paid. */
  lemma HeldCoversShare(a: Agreement, b: Book, now: nat, asset: Address, x: nat)
    requires AgreementOk(a, b, now) && a.escrow.funded > 0 && Sum(b.shares) + x <= a.escrow.funded
    ensures Portion(AmountOf(a.escrow.assets, asset), x, a.escrow.funded) <= Held(b, asset)
  {
    var amount := AmountOf(a.escrow.assets, asset);
    AmountWithinTotal(a.escrow.assets, asset);
    SnocShares(b.shares, x, amount, a.escrow.funded);
    NeverOverdraws(amount, b.shares + [x], a.escrow.funded);
  }

  // ----- payouts on a whole asset list -----

  predicate SameDeal(e: Escrow, f: Escrow) {
    && f.sender == e.sender && f.recipient == e.recipient
    && f.assets == e.assets && f.funded == e.funded && f.schedule == e.schedule
  }

  lemma NoMoves(b: Book, l: Ledger)
    ensures Append(b, [], None) == b
    ensures Covers(l, l, [])
  {
  }

  /** A payout loop keeps the books whatever else the call changes in the record. */
  lemma PayoutKeepsBooks(e: Escrow, b: Book, a: Agreement, l: Ledger, to: Address, x: nat, ret: int)
    requires TermsOk(e) && BooksOk(e, b) && RoutesOk(e, b.log) && e.funded > 0
    requires SameDeal(e, a.escrow) && (to == e.sender || to == e.recipient)
    requires Payout(a, l, to, x, ret).Ok?
    ensures var o := Payout(a, l, to, x, ret).value;
            var next := Append(b, o.moves, o.share);
            && o.agreement == a && o.share == Some(x)
            && BooksOk(a.escrow, next) && RoutesOk(a.escrow, next.log)
            && Sum(next.shares) == Sum(b.shares) + x
            && PaysTo(o.moves, to)
            && Covers(l, o.ledger, o.moves)
  {
    var o := Payout(a, l, to, x, ret).value;
    forall asset
      ensures Deposited(b.log + o.moves, asset) == AmountOf(e.assets, asset)
      ensures Paid(b.log + o.moves, asset) == FloorSum(AmountOf(e.assets, asset), b.shares + [x], e.funded)
      ensures Balance(o.ledger, SELF, asset)
           >= Balance(l, SELF, asset) + Deposited(o.moves, asset) - Paid(o.moves, asset)
      ensures PaysTo(o.moves, to)
    {
      PayEffect(l, to, e.assets, x, e.funded, |e.assets|, asset);
      ConcatSums(b.log, o.moves, asset, to);
      SnocShares(b.shares, x, AmountOf(e.assets, asset), e.funded);
    }
    assert PaysTo(o.moves, to) by { PayEffect(l, to, e.assets, x, e.funded, |e.assets|, SELF); }
    SnocShares(b.shares, x, 0, e.funded);
  }

  /** Paying out all that is left settles the escrow. */
  lemma SettlingPayout(a: Agreement, b: Book, now: nat, l: Ledger, e: Escrow, to: Address, ret: int, o: Outcome)
    requires AgreementOk(a, b, now) && a.milestones.None? && !Settled(a.escrow)
    requires SameDeal(a.escrow, e) && Settled(e) && (to == e.sender || to == e.recipient)
    requires var x := a.escrow.funded - a.escrow.released;
             Ok(o) == if x == 0 then Store(a.(escrow := e), l, ret) else Payout(a.(escrow := e), l, to, x, ret)
    ensures Keeps(b, l, now, o)
  {
    var x := a.escrow.funded - a.escrow.released;
    if x == 0 {
      NoMoves(b, l);
    } else {
      PayoutKeepsBooks(a.escrow, b, a.(escrow := e), l, to, x, ret);
    }
  }

  /** A partial payout keeps the invariant as long as it stays within what has vested. */
  lemma PartialPayout(a: Agreement, b: Book, now: nat, l: Ledger, x: nat, ret: int, o: Outcome)
    requires AgreementOk(a, b, now) && a.milestones.None? && a.escrow.status == Funded && x > 0
    requires a.escrow.released + x <= a.escrow.funded
    requires || a.escrow.released + x == a.escrow.funded
             || a.escrow.released + x <= Vested(a.escrow.funded, a.escrow.schedule, now)
    requires Ok(o) == Payout(a.(escrow := WithReleased(a.escrow, a.escrow.released + x)), l, a.escrow.recipient, x, ret)
    ensures Keeps(b, l, now, o)
  {
    var next := a.(escrow := WithReleased(a.escrow, a.escrow.released + x));
    PayoutKeepsBooks(a.escrow, b, next, l, a.escrow.recipient, x, ret);
  }

  lemma WithdrawKeeps(a: Agreement, b: Book, now: nat, l: Ledger, caller: Address, amount: int)
    requires AgreementOk(a, b, now) && amount > 0 && Withdraw(a, l, now, caller, amount).Ok?
    ensures Keeps(b, l, now, Withdraw(a, l, now, caller, amount).value)
  {
    ClaimableExact(a.escrow, now);
    PartialPayout(a, b, now, l, amount, a.escrow.released + amount, Withdraw(a, l, now, caller, amount).value);
  }

  lemma ClaimKeeps(a: Agreement, b: Book, now: nat, l: Ledger, caller: Address)
    requires AgreementOk(a, b, now) && Claim(a, l, now, caller).Ok?
    ensures Keeps(b, l, now, Claim(a, l, now, caller).value)
  {
    var e, o := a.escrow, Claim(a, l, now, caller).value;
    if e.status == Created {
      SettlingPayout(a, b, now, l, e.(status := Released), e.recipient, e.funded, o);
    } else if e.schedule.kind == Unscheduled {
      PartialPayout(a, b, now, l, e.funded - e.released, e.funded - e.released, o);
    } else {
      ClaimableExact(e, now);
      var x := CalcClaimable(e, now).value;
      PartialPayout(a, b, now, l, x, x, o);
    }
  }

  lemma ReleaseKeeps(a: Agreement, b: Book, now: nat, l: Ledger, caller: Address, amount: int)
    requires AgreementOk(a, b, now) && Release(a, l, now, caller, amount).Ok?
    ensures Keeps(b, l, now, Release(a, l, now, caller, amount).value)
  {
    var e := a.escrow;
    SettlingPayout(a, b, now, l, e.(released := e.funded, status := Released), e.recipient, 0,
                   Release(a, l, now, caller, amount).value);
  }

  lemma OverrideKeeps(a: Agreement, b: Book, now: nat, l: Ledger, nonce: nat, signatures: seq<Signature>)
    requires AgreementOk(a, b, now) && OverrideRelease(a, l, now, nonce, signatures).Ok?
    ensures Keeps(b, l, now, OverrideRelease(a, l, now, nonce, signatures).value)
  {
    var e := a.escrow;
    SettlingPayout(a, b, now, l, e.(overrideNonce := nonce, status := Released), e.recipient, 0,
                   OverrideRelease(a, l, now, nonce, signatures).value);
  }

  lemma RefundKeeps(a: Agreement, b: Book, now: nat, l: Ledger, caller: Address, o: Outcome)
    requires AgreementOk(a, b, now)
    requires || Ok(o) == Refund(a, l, now, caller)
             || Ok(o) == RefundTimelock(a, l, now, caller)
             || Ok(o) == Reclaim(a, l, now, caller)
    ensures Keeps(b, l, now, o)
  {
    SettlingPayout(a, b, now, l, a.escrow.(status := Refunded), a.escrow.sender, 0, o);
  }

  lemma CancelKeeps(a: Agreement, b: Book, now: nat, l: Ledger, caller: Address)
    requires AgreementOk(a, b, now) && a.milestones.None? && Cancel(a, l, now, caller).Ok?
    ensures Keeps(b, l, now, Cancel(a, l, now, caller).value)
  {
    SettlingPayout(a, b, now, l, a.escrow.(status := Refunded), a.escrow.sender, 0, Cancel(a, l, now, caller).value);
  }
}

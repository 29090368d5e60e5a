/** Milestone arithmetic, and that the milestone entrypoints keep the accounting. */
module EscrowMilestones {
  import opened Common
  import opened Arith
  import opened EscrowModel
  import opened EscrowShares
  import opened EscrowInvariant

  // ----- counting and summing over the schedule -----

  lemma {:induction false} OpenCountMeaning(items: seq<Milestone>, n: nat)
    requires n <= |items|
    ensures OpenCount(items, n) == 0 <==> forall i :: 0 <= i < n ==> items[i].status == Completed
  {
    if n > 0 { OpenCountMeaning(items, n - 1); }
  }

  /** The effect of setting the status of milestone `k` on the count of open ones and on
      the sum of completed shares. */
  lemma {:induction false} MarkEffect(items: seq<Milestone>, k: nat, status: MilestoneStatus, amount: int, n: nat)
    requires k < |items| && n <= |items| && items[k].status != Completed
    ensures var next := items[k := items[k].(status := status)];
            var hit := if k < n && status == Completed then 1 else 0;
            && OpenCount(next, n) == OpenCount(items, n) - hit
            && CompletedFloors(amount, next, n)
               == CompletedFloors(amount, items, n) + (if hit == 1 then Portion(amount, items[k].bps, BPS) else 0)
  {
    if n > 0 { MarkEffect(items, k, status, amount, n - 1); }
  }

  lemma MarkWeights(items: seq<Milestone>, k: nat, status: MilestoneStatus)
    requires k < |items| && ScheduleOfMilestones(items)
    ensures ScheduleOfMilestones(items[k := items[k].(status := status)])
  {
    assert Weights(items[k := items[k].(status := status)]) == Weights(items);
  }

  lemma FrozenWeights(items: seq<Milestone>)
    requires ScheduleOfMilestones(items)
    ensures ScheduleOfMilestones(Frozen(items))
  {
    assert Weights(Frozen(items)) == Weights(items);
  }

  /** The floored shares of the first `n` milestones, paid or not. */
  function AllFloors(amount: int, items: seq<Milestone>, n: nat): int
    requires n <= |items|
  {
    if n == 0 then 0 else AllFloors(amount, items, n - 1) + Portion(amount, items[n - 1].bps, BPS)
  }

  lemma {:induction false} AllFloorsIsFloorSum(amount: int, items: seq<Milestone>, n: nat)
    requires n <= |items|
    ensures AllFloors(amount, items, n) == FloorSum(amount, Weights(items)[..n], BPS)
  {
    if n > 0 {
      AllFloorsIsFloorSum(amount, items, n - 1);
      assert Weights(items)[..n] == Weights(items)[..n - 1] + [items[n - 1].bps];
      SnocShares(Weights(items)[..n - 1], items[n - 1].bps, amount, BPS);
    }
  }

  /** The completed shares together with one open milestone's never exceed what the floors
      of all milestones add up to, and reach it when that milestone is the last open one. */
  lemma {:induction false} RoomFor(items: seq<Milestone>, k: nat, amount: nat, n: nat)
    requires n <= |items| && k < |items| && items[k].status != Completed
    ensures var own := if k < n then Portion(amount, items[k].bps, BPS) else 0;
            && 0 <= CompletedFloors(amount, items, n) && own >= 0
            && CompletedFloors(amount, items, n) + own <= AllFloors(amount, items, n)
            && (OpenCount(items, n) == (if k < n then 1 else 0) ==>
                  CompletedFloors(amount, items, n) + own == AllFloors(amount, items, n))
            && (k < n ==> OpenCount(items, n) >= 1)
  {
    if n > 0 {
      RoomFor(items, k, amount, n - 1);
      PortionNonNegative(amount, items[n - 1].bps, BPS);
    }
  }

  /** A floored milestone share always fits the remaining balance; paying the remainder on
      the last open milestone exceeds its floored share by at most `n - 1`. */
  lemma PayoutWithinRemaining(items: seq<Milestone>, k: nat, amount: nat)
    requires ScheduleOfMilestones(items) && k < |items| && items[k].status != Completed
    ensures var gross := Portion(amount, items[k].bps, BPS);
            var remaining := amount - CompletedFloors(amount, items, |items|);
            && 0 <= gross <= remaining <= amount
            && (OpenCount(items, |items|) == 1 ==> remaining - gross <= |items| - 1)
  {
    var w := Weights(items);
    assert w[..|items|] == w;
    RoomFor(items, k, amount, |items|);
    PortionNonNegative(amount, items[k].bps, BPS);
    AllFloorsIsFloorSum(amount, items, |items|);
    DustBound(amount, w, BPS);
  }

  lemma {:induction false} BpsFirstIsSum(weights: seq<nat>, n: nat)
    requires n <= |weights| && BpsFirst(weights, n).Ok?
    ensures BpsFirst(weights, n).value == Sum(weights[..n])
  {
    if n > 0 {
      BpsFirstIsSum(weights, n - 1);
      assert weights[..n][..n - 1] == weights[..n - 1];
    }
  }

  // ----- the entrypoints -----

  /** What a successful approval pays, and the status it leaves. */
  lemma ReleaseMilestoneMeaning(a: Agreement, b: Book, now: nat, l: Ledger, caller: Address, index: nat)
    requires AgreementOk(a, b, now) && ReleaseMilestone(a, l, caller, index).Ok?
    ensures index < |a.milestones.value.items| && a.milestones.value.items[index].status == Pending
    ensures var e, ms, o := a.escrow, a.milestones.value, ReleaseMilestone(a, l, caller, index).value;
            var gross := Portion(e.funded, ms.items[index].bps, BPS);
            var remaining := e.funded - ms.released;
            var last := OpenCount(ms.items, |ms.items|) == 1;
            && o.share.Some?
            && o.share.value == (if last then remaining else gross)
            && 0 <= gross <= o.share.value <= remaining
            && (last ==> o.share.value - gross <= |ms.items| - 1)
            && o.moves == [Move(e.assets[0].asset, SELF, e.recipient, o.share.value)]
            && o.agreement == a.(milestones :=
                                   Some(Mark(ms.(released := ms.released + o.share.value), index, Completed)),
                                 escrow := if last then e.(released := e.funded, status := Released) else e)
            && (last <==> AllCompleted(o.agreement.milestones.value.items))
  {
    var e, ms := a.escrow, a.milestones.value;
    var k := SelectMilestone(a, caller, index, Pending).value;
    assert k == index;
    assert Total(e.assets) == e.funded by { assert e.assets[..0] == []; }
    PayoutWithinRemaining(ms.items, k, e.funded);
    CheckedPortion(e.funded, ms.items[k].bps, BPS);
    assert ShareOf(e.funded, ms.items[k].bps, BPS).Ok?;
    MarkEffect(ms.items, k, Completed, e.funded, |ms.items|);
    OpenCountMeaning(ms.items[k := ms.items[k].(status := Completed)], |ms.items|);
  }

  lemma OneMoveEffect(l: Ledger, m: Move, a: Address)
    requires Transfer(l, m).Ok? && m.from == SELF
    ensures Deposited([m], a) == 0 && Paid([m], a) == if m.asset == a then m.amount else 0
    ensures forall to :: PaidTo([m], a, to) == if m.asset == a && m.to == to then m.amount else 0
    ensures Balance(Transfer(l, m).value, SELF, a) >= Balance(l, SELF, a) - Paid([m], a)
  {
    TransferEffect(l, m, a);
    forall to ensures PaidTo([m], a, to) == if m.asset == a && m.to == to then m.amount else 0 {
      assert [] + [m] == [m];
      SnocSums([], m, a, to);
    }
    SnocSums([], m, a, SELF);
    assert [] + [m] == [m];
  }

  lemma SoleAmount(e: Escrow, a: Address)
    requires TermsOk(e) && |e.assets| == 1
    ensures AmountOf(e.assets, a) == if a == e.assets[0].asset then e.assets[0].amount else 0
  {
    if a == e.assets[0].asset { AmountAt(e.assets, 0, 1); } else { UnlistedAmount(e.assets, a, 1); }
  }

  lemma SolePortion(amount: nat, x: nat)
    requires amount > 0
    ensures Portion(amount, x, amount) == x
  {
    FloorOfMultiple(x, amount);
    assert x * amount == amount * x;
  }

  /** A direct transfer of the only asset is the payout of that share. */
  lemma MilestoneKeepsBooks(e: Escrow, b: Book, l: Ledger, x: nat)
    requires TermsOk(e) && BooksOk(e, b) && RoutesOk(e, b.log)
    requires |e.assets| == 1 && e.funded == e.assets[0].amount
    requires Transfer(l, Move(e.assets[0].asset, SELF, e.recipient, x)).Ok?
    ensures var m := Move(e.assets[0].asset, SELF, e.recipient, x);
            var next := Append(b, [m], Some(x));
            && BooksOk(e, next) && RoutesOk(e, next.log)
            && Sum(next.shares) == Sum(b.shares) + x
            && Covers(l, Transfer(l, m).value, [m])
            && PaidTo(next.log, m.asset, e.recipient) == PaidTo(b.log, m.asset, e.recipient) + x
            && PaidTo(next.log, m.asset, e.sender) == PaidTo(b.log, m.asset, e.sender)
  {
    var m := Move(e.assets[0].asset, SELF, e.recipient, x);
    forall a
      ensures Deposited(b.log + [m], a) == AmountOf(e.assets, a)
      ensures Paid(b.log + [m], a) == FloorSum(AmountOf(e.assets, a), b.shares + [x], e.funded)
      ensures Balance(Transfer(l, m).value, SELF, a) >= Balance(l, SELF, a) + Deposited([m], a) - Paid([m], a)
    {
      OneMoveEffect(l, m, a);
      ConcatSums(b.log, [m], a, SELF);
      SoleAmount(e, a);
      SnocShares(b.shares, x, AmountOf(e.assets, a), e.funded);
      SolePortion(e.funded, x);
      PortionOfNothing(x, e.funded);
    }
    SnocShares(b.shares, x, 0, e.funded);
    OneMoveEffect(l, m, m.asset);
    ConcatSums(b.log, [m], m.asset, e.recipient);
    ConcatSums(b.log, [m], m.asset, e.sender);
  }

  /** What paying a milestone makes of the schedule: everything completed and released, or
      the floors of what is completed. */
  ghost predicate PaidUpTo(funded: int, next: MilestoneSet, last: bool) {
    && ScheduleOfMilestones(next.items) && !next.cancelled && 0 <= next.released <= funded
    && (if last then AllCompleted(next.items) && next.released == funded
        else !AllCompleted(next.items) && next.released == CompletedFloors(funded, next.items, |next.items|))
  }

  function AfterMilestone(a: Agreement, next: MilestoneSet, last: bool): Agreement {
    a.(milestones := Some(next),
       escrow := if last then a.escrow.(released := a.escrow.funded, status := Released) else a.escrow)
  }

  lemma PaidMilestonesOk(a: Agreement, b: Book, next: MilestoneSet, x: nat, last: bool, paid: Book)
    requires MilestonesOk(a, b) && a.milestones.Some? && a.escrow.status == Funded && !a.milestones.value.cancelled
    requires PaidUpTo(a.escrow.funded, next, last) && next.released == a.milestones.value.released + x
    requires var e := a.escrow;
             && PaidTo(paid.log, e.assets[0].asset, e.recipient) == PaidTo(b.log, e.assets[0].asset, e.recipient) + x
             && PaidTo(paid.log, e.assets[0].asset, e.sender) == PaidTo(b.log, e.assets[0].asset, e.sender)
    ensures MilestonesOk(AfterMilestone(a, next, last), paid)
  {
  }

  lemma PaidMilestoneKeeps(a: Agreement, b: Book, now: nat, l: Ledger, next: MilestoneSet, x: nat, last: bool)
    requires AgreementOk(a, b, now) && a.milestones.Some? && a.escrow.status == Funded && !a.milestones.value.cancelled
    requires PaidUpTo(a.escrow.funded, next, last) && next.released == a.milestones.value.released + x
    requires Transfer(l, Move(a.escrow.assets[0].asset, SELF, a.escrow.recipient, x)).Ok?
    ensures var m := Move(a.escrow.assets[0].asset, SELF, a.escrow.recipient, x);
            Keeps(b, l, now, Outcome(AfterMilestone(a, next, last), Transfer(l, m).value, [m], Some(x), 0))
  {
    MilestoneKeepsBooks(a.escrow, b, l, x);
    var m := Move(a.escrow.assets[0].asset, SELF, a.escrow.recipient, x);
    PaidMilestonesOk(a, b, next, x, last, Append(b, [m], Some(x)));
  }

  lemma ReleaseMilestoneKeeps(a: Agreement, b: Book, now: nat, l: Ledger, caller: Address, index: nat)
    requires AgreementOk(a, b, now) && ReleaseMilestone(a, l, caller, index).Ok?
    ensures Keeps(b, l, now, ReleaseMilestone(a, l, caller, index).value)
  {
    ReleaseMilestoneMeaning(a, b, now, l, caller, index);
    var o := ReleaseMilestone(a, l, caller, index).value;
    var ms, x := a.milestones.value, o.share.value;
    MilestoneStateAfter(a, b, now, index, x);
    PaidMilestoneKeeps(a, b, now, l, Mark(ms.(released := ms.released + x), index, Completed), x,
                       OpenCount(ms.items, |ms.items|) == 1);
  }

  /** The milestone half of the invariant after paying `x` for milestone `index`. */
  lemma MilestoneStateAfter(a: Agreement, b: Book, now: nat, index: nat, x: nat)
    requires AgreementOk(a, b, now) && a.milestones.Some?
    requires var ms := a.milestones.value;
             && index < |ms.items| && ms.items[index].status != Completed
             && a.escrow.status == Funded && !ms.cancelled
             && x == if OpenCount(ms.items, |ms.items|) == 1 then a.escrow.funded - ms.released
                     else Portion(a.escrow.funded, ms.items[index].bps, BPS)
    ensures var ms := a.milestones.value;
            PaidUpTo(a.escrow.funded, Mark(ms.(released := ms.released + x), index, Completed),
                     OpenCount(ms.items, |ms.items|) == 1)
  {
    var ms := a.milestones.value;
    MarkEffect(ms.items, index, Completed, a.escrow.funded, |ms.items|);
    MarkWeights(ms.items, index, Completed);
    PayoutWithinRemaining(ms.items, index, a.escrow.funded);
    OpenCountMeaning(ms.items[index := ms.items[index].(status := Completed)], |ms.items|);
  }

  lemma FlagKeeps(a: Agreement, b: Book, now: nat, l: Ledger, caller: Address, index: nat, o: Outcome)
    requires AgreementOk(a, b, now)
    requires Ok(o) == DisputeMilestone(a, l, caller, index) || Ok(o) == ResolveMilestone(a, l, caller, index)
    ensures Keeps(b, l, now, o)
  {
    var ms := a.milestones.value;
    var k := index;
    var status := o.agreement.milestones.value.items[k].status;
    MarkEffect(ms.items, k, status, a.escrow.funded, |ms.items|);
    MarkWeights(ms.items, k, status);
    NoMoves(b, l);
  }

  /** Returning `x` of the only asset to the sender is seen by the sender alone. */
  lemma ReturnPayments(e: Escrow, b: Book, l: Ledger, x: nat)
    requires TermsOk(e) && |e.assets| == 1 && e.funded == e.assets[0].amount
    requires PayFirst(l, e.sender, e.assets, x, e.funded, 1).Ok?
    ensures var log := b.log + PayFirst(l, e.sender, e.assets, x, e.funded, 1).value.moves;
            var asset := e.assets[0].asset;
            && PaidTo(log, asset, e.sender) == PaidTo(b.log, asset, e.sender) + x
            && PaidTo(log, asset, e.recipient) == PaidTo(b.log, asset, e.recipient)
  {
    var moves, asset := PayFirst(l, e.sender, e.assets, x, e.funded, 1).value.moves, e.assets[0].asset;
    PayEffect(l, e.sender, e.assets, x, e.funded, 1, asset);
    SoleAmount(e, asset);
    SolePortion(e.funded, x);
    PaysToSums(moves, e.sender, asset, e.sender);
    PaysToSums(moves, e.sender, asset, e.recipient);
    ConcatSums(b.log, moves, asset, e.sender);
    ConcatSums(b.log, moves, asset, e.recipient);
  }

  lemma CancelledKeeps(a: Agreement, b: Book, now: nat, l: Ledger, o: Outcome)
    requires AgreementOk(a, b, now) && a.milestones.Some? && !Settled(a.escrow)
    requires var ms := a.milestones.value;
             var x := a.escrow.funded - ms.released;
             var next := a.(escrow := a.escrow.(status := Refunded),
                            milestones := Some(MilestoneSet(Frozen(ms.items), ms.released, true)));
             Ok(o) == if x == 0 then Store(next, l, x) else Payout(next, l, a.escrow.sender, x, x)
    ensures Keeps(b, l, now, o)
  {
    var e, ms := a.escrow, a.milestones.value;
    var x := e.funded - ms.released;
    FrozenWeights(ms.items);
    if x == 0 {
      NoMoves(b, l);
    } else {
      PayoutKeepsBooks(e, b, o.agreement, l, e.sender, x, x);
      ReturnPayments(e, b, l, x);
    }
  }

  lemma CancelMilestonesKeeps(a: Agreement, b: Book, now: nat, l: Ledger, caller: Address)
    requires AgreementOk(a, b, now) && CancelMilestones(a, l, caller).Ok?
    ensures Keeps(b, l, now, CancelMilestones(a, l, caller).value)
  {
    CancelledKeeps(a, b, now, l, CancelMilestones(a, l, caller).value);
  }
}

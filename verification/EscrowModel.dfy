/** The escrow contract (contracts/escrow/src/lib.rs): custody of many multi-asset
    agreements in one token balance, as value-level transitions. An entrypoint that fails
    is an `Err` and is rolled back; one that succeeds says what it stored, which tokens it
    moved and, for a payout, which pro-rata share it paid. */
module EscrowModel {
  import opened Common
  import opened Arith

  const MAX_ESCROW_ASSETS: nat := 10
  const MAX_SIGNERS: nat := 20

  /** The contract's own address. */
  const SELF: Address := Address(0)

  // ----- stored records (contracts/escrow/src/storage.rs) -----

  datatype AssetAmount = AssetAmount(asset: Address, amount: int)

  datatype ReleaseType = Unscheduled | Cliff | Linear

  datatype Schedule = Schedule(kind: ReleaseType, start: nat, cliff: nat, end: nat)

  const NO_SCHEDULE: Schedule := Schedule(Unscheduled, 0, 0, 0)

  datatype Status = Created | Funded | Released | Refunded | Expired | Closed

  datatype Escrow = Escrow(
    sender: Address, recipient: Address, arbiter: Address,
    assets: seq<AssetAmount>, status: Status,
    deadline: nat, gracePeriod: nat, refundWindow: nat,
    funded: int, schedule: Schedule, released: int,
    overrideSigners: seq<nat>, overrideThreshold: nat, overrideNonce: nat)

  datatype MilestoneStatus = Pending | Completed | Disputed

  datatype Milestone = Milestone(index: nat, bps: nat, status: MilestoneStatus)

  datatype MilestoneSet = MilestoneSet(items: seq<Milestone>, released: int, cancelled: bool)

  datatype Condition = Condition(participants: seq<Address>, threshold: nat, approvals: nat)

  /** Everything stored under one escrow id. `approved` holds the participants whose
      approval flag is set. */
  datatype Agreement = Agreement(
    escrow: Escrow, milestones: Option<MilestoneSet>, condition: Option<Condition>, approved: set<Address>)

  /** A signature over the override payload: whose key it names and the host's verdict. */
  datatype Signature = Signature(key: nat, valid: bool)

  // ----- tokens -----

  /** (holder, token) -> balance; an absent entry is a zero balance. */
  type Ledger = map<(Address, Address), nat>

  datatype Move = Move(asset: Address, from: Address, to: Address, amount: int)

  function Balance(l: Ledger, holder: Address, asset: Address): nat {
    if (holder, asset) in l then l[(holder, asset)] else 0
  }

  function Transfer(l: Ledger, m: Move): Result<Ledger> {
    if m.amount < 0 then Err(InvalidAmount) else
    :- Require(m.amount <= Balance(l, m.from, m.asset), InsufficientFunds);
    var debited := l[(m.from, m.asset) := Balance(l, m.from, m.asset) - m.amount];
    Ok(debited[(m.to, m.asset) := Balance(debited, m.to, m.asset) + m.amount])
  }

  /** A loop of transfers: the ledger after it, what moved and how much in total. */
  datatype Tally = Tally(ledger: Ledger, moves: seq<Move>, total: int)

  /** Pull one asset into custody and add it to the total. */
  function PullOne(t: Tally, m: Move): Result<Tally> {
    var next :- Transfer(t.ledger, m);
    var total :- CheckedAdd(t.total, m.amount);
    Ok(Tally(next, t.moves + [m], total))
  }

  /** The deposit loop after its first `n` assets. */
  function PullFirst(l: Ledger, sender: Address, assets: seq<AssetAmount>, n: nat): Result<Tally>
    requires n <= |assets|
  {
    if n == 0 then Ok(Tally(l, [], 0))
    else
      var t :- PullFirst(l, sender, assets, n - 1);
      PullOne(t, Move(assets[n - 1].asset, sender, SELF, assets[n - 1].amount))
  }

  /** The checked floored share `amount * x / funded`. */
  function ShareOf(amount: int, x: int, funded: int): Result<int> {
    var product :- CheckedMul(amount, x);
    CheckedDiv(product, funded)
  }

  /** Pay one asset out of custody; a share of zero is skipped. */
  function PayOne(t: Tally, m: Move): Result<Tally> {
    if m.amount <= 0 then Ok(t)
    else
      var next :- Transfer(t.ledger, m);
      Ok(Tally(next, t.moves + [m], t.total + m.amount))
  }

  /** The payout loop after its first `n` assets, each paying its floored share. */
  function PayFirst(l: Ledger, to: Address, assets: seq<AssetAmount>, x: int, funded: int, n: nat): Result<Tally>
    requires n <= |assets|
  {
    if n == 0 then Ok(Tally(l, [], 0))
    else
      var t :- PayFirst(l, to, assets, x, funded, n - 1);
      var send :- ShareOf(assets[n - 1].amount, x, funded);
      PayOne(t, Move(assets[n - 1].asset, SELF, to, send))
  }

  // ----- vesting -----

  function CalcVested(amount: int, s: Schedule, time: nat): Result<int> {
    match s.kind
    case Unscheduled => Ok(0)
    case Cliff =>
      :- Require(s.start <= s.end && s.start <= s.cliff <= s.end, InvalidInput);
      Ok(if time < s.cliff || time < s.start then 0 else if time >= s.end then amount else 0)
    case Linear =>
      :- Require(s.start < s.end && s.start <= s.cliff <= s.end, InvalidInput);
      if time < s.cliff || time < s.start then Ok(0)
      else if time >= s.end then Ok(amount)
      else
        var product :- CheckedMul(amount, time - s.start);
        CheckedDiv(product, s.end - s.start)
  }

  function CalcClaimable(e: Escrow, time: nat): Result<int> {
    if e.schedule.kind == Unscheduled then Ok(0)
    else
      var vested :- CalcVested(e.funded, e.schedule, time);
      var claimable :- CheckedSub(vested, e.released);
      Ok(if claimable < 0 then 0 else claimable)
  }

  // ----- windows -----

  /** Where the arbiter's time ends and the sender's begins; only 64 bits are kept. */
  function GraceEnd(e: Escrow): nat { TruncateU64(e.deadline + e.gracePeriod) }

  function ClosesAt(e: Escrow): nat {
    if e.refundWindow == 0 then 0 else SaturateU64(SaturateU64(e.deadline + e.gracePeriod) + e.refundWindow)
  }

  function RequireRefundWindowOpen(e: Escrow, now: nat): Guard {
    Require(!(ClosesAt(e) != 0 && now >= ClosesAt(e)), EscrowExpired)
  }

  // ----- validation -----

  function AssetsFrom(assets: seq<AssetAmount>, i: nat): Guard
    requires i <= |assets|
    decreases |assets| - i
  {
    if i == |assets| then Pass
    else if assets[i].amount <= 0 then Fail(InvalidAmount)
    else if exists j :: i < j < |assets| && assets[j].asset == assets[i].asset then Fail(InvalidInput)
    else AssetsFrom(assets, i + 1)
  }

  predicate TokensApproved(tokens: set<Address>, assets: seq<AssetAmount>) {
    forall i :: 0 <= i < |assets| ==> assets[i].asset in tokens
  }

  function ValidateAssets(tokens: set<Address>, assets: seq<AssetAmount>): Guard {
    if !TokensApproved(tokens, assets) then Fail(AssetNotAuthorized)
    else if assets == [] || |assets| > MAX_ESCROW_ASSETS then Fail(InvalidInput)
    else AssetsFrom(assets, 0)
  }

  /** A set of keys with a threshold: both empty, or distinct, bounded and attainable. */
  function ValidateThreshold<T(==)>(keys: seq<T>, threshold: nat): Guard {
    if keys == [] then Require(threshold == 0, InvalidThreshold)
    else if |keys| > MAX_SIGNERS then Fail(TooManySigners)
    else if threshold == 0 || threshold > |keys| then Fail(InvalidThreshold)
    else Require(Distinct(keys), InvalidInput)
  }

  function RequireApprovals(a: Agreement): Guard {
    Require(a.condition.Some? ==> a.condition.value.approvals >= a.condition.value.threshold, ThresholdNotMet)
  }

  // ----- opening an agreement -----

  datatype Outcome = Outcome(agreement: Agreement, ledger: Ledger, moves: seq<Move>, share: Option<int>, ret: int)

  datatype Terms = Terms(
    sender: Address, recipient: Address, arbiter: Address, assets: seq<AssetAmount>,
    deadline: nat, gracePeriod: nat, refundWindow: nat, overrideSigners: seq<nat>, overrideThreshold: nat)

  function Plain(e: Escrow): Agreement { Agreement(e, None, None, {}) }

  function Draft(t: Terms, status: Status, funded: int, schedule: Schedule): Escrow {
    Escrow(t.sender, t.recipient, t.arbiter, t.assets, status, t.deadline, t.gracePeriod, t.refundWindow,
           funded, schedule, 0, t.overrideSigners, t.overrideThreshold, 0)
  }

  /** Pull every asset from the sender and record the funded escrow. */
  function OpenFunded(l: Ledger, t: Terms, schedule: Schedule): Result<Outcome> {
    var pulled :- PullFirst(l, t.sender, t.assets, |t.assets|);
    Ok(Outcome(Plain(Draft(t, Funded, pulled.total, schedule)), pulled.ledger, pulled.moves, None, 0))
  }

  /** The host accepts no authorization from the contract's own address. */
  function RequireAuth(who: Address): Guard { Require(who != SELF, Unauthorized) }

  function Create(l: Ledger, tokens: set<Address>, now: nat, t: Terms): Result<Outcome> {
    var guard := RequireAuth(t.sender);
    :- guard;
    :- Require(t.recipient != t.sender, InvalidInput);
    :- Require(t.deadline > now, InvalidInput);
    :- ValidateAssets(tokens, t.assets);
    :- ValidateThreshold(t.overrideSigners, t.overrideThreshold);
    OpenFunded(l, t, NO_SCHEDULE)
  }

  function CreateConditioned(l: Ledger, tokens: set<Address>, now: nat, t: Terms, participants: seq<Address>,
                             threshold: nat): Result<Outcome> {
    var guard := ValidateThreshold(participants, threshold);
    :- guard;
    var o :- Create(l, tokens, now, t);
    Ok(if participants == [] then o
       else o.(agreement := o.agreement.(condition := Some(Condition(participants, threshold, 0)))))
  }

  function BulletTerms(sender: Address, recipient: Address, arbiter: Address, assets: seq<AssetAmount>,
                       deadline: nat, gracePeriod: nat): Terms {
    Terms(sender, recipient, arbiter, assets, deadline, gracePeriod, 0, [], 0)
  }

  function CreateTimelock(l: Ledger, tokens: set<Address>, now: nat, sender: Address, recipient: Address,
                          arbiter: Address, assets: seq<AssetAmount>, unlock: nat): Result<Outcome> {
    var guard := RequireAuth(sender);
    :- guard;
    :- Require(recipient != sender, InvalidInput);
    :- Require(unlock > now, InvalidInput);
    :- ValidateAssets(tokens, assets);
    OpenFunded(l, BulletTerms(sender, recipient, arbiter, assets, unlock, 0), Schedule(Cliff, now, unlock, unlock))
  }

  function CreateScheduled(l: Ledger, tokens: set<Address>, now: nat, sender: Address, recipient: Address,
                           arbiter: Address, assets: seq<AssetAmount>, s: Schedule, deadline: nat): Result<Outcome> {
    var guard := RequireAuth(sender);
    :- guard;
    :- Require(recipient != sender, InvalidInput);
    :- ValidateAssets(tokens, assets);
    :- Require(s.start <= s.cliff <= s.end && s.start < s.end, InvalidInput);
    :- Require(s.end > now, InvalidInput);
    var effective := if deadline == 0 then s.end else deadline;
    :- Require(effective >= s.end, InvalidInput);
    OpenFunded(l, BulletTerms(sender, recipient, arbiter, assets, effective, 0), s)
  }

  function InitializeTimelock(l: Ledger, tokens: set<Address>, now: nat, sender: Address, recipient: Address,
                              arbiter: Address, assets: seq<AssetAmount>, unlock: nat, grace: nat): Result<Outcome> {
    var guard := RequireAuth(sender);
    :- guard;
    :- Require(recipient != sender, InvalidInput);
    :- Require(unlock > now, InvalidInput);
    :- ValidateAssets(tokens, assets);
    var e := Draft(BulletTerms(sender, recipient, arbiter, assets, unlock, grace), Created, 0,
                   Schedule(Cliff, now, unlock, unlock));
    Ok(Outcome(Plain(e), l, [], None, 0))
  }

  /** The running basis-point total of the first `n` milestones, in 32 bits. */
  function BpsFirst(weights: seq<nat>, n: nat): Result<nat>
    requires n <= |weights|
  {
    if n == 0 then Ok(0)
    else
      var sum :- BpsFirst(weights, n - 1);
      :- Require(sum + weights[n - 1] <= U32_MAX, Overflow);
      Ok(sum + weights[n - 1])
  }

  function FreshMilestones(weights: seq<nat>): seq<Milestone> {
    seq(|weights|, i requires 0 <= i < |weights| => Milestone(i, weights[i], Pending))
  }

  function DepositMilestones(l: Ledger, tokens: set<Address>, now: nat, sender: Address, recipient: Address,
                             arbiter: Address, asset: Address, amount: I128, deadline: nat,
                             weights: seq<nat>): Result<Outcome> {
    var guard := RequireAuth(sender);
    :- guard;
    :- Require(amount > 0, InvalidAmount);
    :- Require(asset in tokens, AssetNotAuthorized);
    :- Require(recipient != sender, InvalidInput);
    :- Require(deadline > now, InvalidInput);
    :- Require(weights != [], InvalidInput);
    var bps :- BpsFirst(weights, |weights|);
    :- Require(bps == BPS, InvalidInput);
    var m := Move(asset, sender, SELF, amount);
    var ledger :- Transfer(l, m);
    var e := Draft(BulletTerms(sender, recipient, arbiter, [AssetAmount(asset, amount)], deadline, 0),
                   Funded, amount, NO_SCHEDULE);
    var items := MilestoneSet(FreshMilestones(weights), 0, false);
    Ok(Outcome(Agreement(e, Some(items), None, {}), ledger, [m], None, 0))
  }

  // ----- acting on an agreement -----

  /** Pay the share `x` of every asset to `to` and store `a`. */
  function Payout(a: Agreement, l: Ledger, to: Address, x: int, ret: int): Result<Outcome> {
    var e := a.escrow;
    var paid :- PayFirst(l, to, e.assets, x, e.funded, |e.assets|);
    Ok(Outcome(a, paid.ledger, paid.moves, Some(x), ret))
  }

  /** Store `a`; no token moves. */
  function Store(a: Agreement, l: Ledger, ret: int): Result<Outcome> { Ok(Outcome(a, l, [], None, ret)) }

  /** `transfer_all`: a zero remainder moves nothing. */
  function TransferAll(a: Agreement, l: Ledger, to: Address, remaining: int, ret: int): Result<Outcome> {
    if remaining == 0 then Store(a, l, ret) else Payout(a, l, to, remaining, ret)
  }

  /** The guarded loop of the refund paths. */
  function Return(a: Agreement, l: Ledger, remaining: int, ret: int): Result<Outcome> {
    if remaining > 0 then Payout(a, l, a.escrow.sender, remaining, ret) else Store(a, l, ret)
  }

  function ApproveRelease(a: Agreement, l: Ledger, caller: Address): Result<Outcome> {
    if a.escrow.status != Funded then Err(InvalidState) else
    :- Require(a.condition.Some?, NotFound);
    var c := a.condition.value;
    :- Require(caller in c.participants, NotASigner);
    :- Require(caller !in a.approved, AlreadySigned);
    var approvals := (c.approvals + 1) % (U32_MAX + 1);
    Store(a.(approved := a.approved + {caller}, condition := Some(c.(approvals := approvals))), l, approvals)
  }

  function Fund(a: Agreement, l: Ledger, tokens: set<Address>, caller: Address): Result<Outcome> {
    var e := a.escrow;
    :- Require(e.sender == caller, Unauthorized);
    :- Require(e.status == Created, InvalidState);
    :- Require(TokensApproved(tokens, e.assets), AssetNotAuthorized);
    var pulled :- PullFirst(l, caller, e.assets, |e.assets|);
    Ok(Outcome(a.(escrow := e.(funded := pulled.total, status := Funded)), pulled.ledger, pulled.moves, None, 0))
  }

  /** Record that `x` more has been released; a fully released escrow is settled. */
  function WithReleased(e: Escrow, released: int): Escrow {
    e.(released := released, status := if released == e.funded then Released else e.status)
  }

  function Withdraw(a: Agreement, l: Ledger, now: nat, caller: Address, amount: int): Result<Outcome> {
    var e := a.escrow;
    :- Require(a.milestones.None?, InvalidState);
    :- Require(e.recipient == caller, Unauthorized);
    :- Require(e.status == Funded, InvalidState);
    var claimable :- CalcClaimable(e, now);
    :- Require(claimable > 0, TimeLockActive);
    :- Require(amount <= claimable, InsufficientFunds);
    :- RequireApprovals(a);
    var released :- CheckedAdd(e.released, amount);
    Payout(a.(escrow := WithReleased(e, released)), l, e.recipient, amount, released)
  }

  function Claim(a: Agreement, l: Ledger, now: nat, caller: Address): Result<Outcome> {
    var e := a.escrow;
    :- Require(a.milestones.None?, InvalidState);
    :- Require(e.recipient == caller, Unauthorized);
    :- Require(e.status == Funded || e.status == Created, InvalidState);
    if e.status == Funded then
      :- Require(e.schedule.kind == Unscheduled ==> now >= GraceEnd(e), TimeLockActive);
      var claimable :-
        if e.schedule.kind != Unscheduled then CalcClaimable(e, now) else CheckedSub(e.funded, e.released);
      :- Require(claimable > 0, TimeLockActive);
      :- RequireApprovals(a);
      var released :- CheckedAdd(e.released, claimable);
      Payout(a.(escrow := WithReleased(e, released)), l, e.recipient, claimable, claimable)
    else
      :- Require(now >= GraceEnd(e), TimeLockActive);
      :- RequireApprovals(a);
      var remaining :- CheckedSub(e.funded, e.released);
      TransferAll(a.(escrow := e.(status := Released)), l, e.recipient, remaining, e.funded)
  }

  /** The schedule gate of the arbiter's `release`. */
  function ReleaseGate(e: Escrow, now: nat, amount: int): Result<int> {
    match e.schedule.kind
    case Unscheduled => Ok(0)
    case Cliff =>
      :- Require(now >= e.schedule.cliff, TimelockNotExpired);
      Ok(0)
    case Linear =>
      :- Require(now >= e.schedule.cliff, TimelockNotExpired);
      var vested :- CalcVested(e.funded, e.schedule, now);
      :- Require(amount <= vested, TimelockNotExpired);
      var remaining :- CheckedSub(e.funded, e.released);
      :- Require(remaining <= vested, TimelockNotExpired);
      Ok(vested)
  }

  function Release(a: Agreement, l: Ledger, now: nat, caller: Address, amount: int): Result<Outcome> {
    var e := a.escrow;
    :- Require(e.arbiter == caller, Unauthorized);
    :- Require(e.status == Funded, InvalidState);
    :- Require(a.milestones.None?, InvalidState);
    var _ :- ReleaseGate(e, now, amount);
    :- Require(now < GraceEnd(e), EscrowExpired);
    var remaining :- CheckedSub(e.funded, e.released);
    :- Require(amount <= remaining, InvalidAmount);
    :- RequireApprovals(a);
    TransferAll(a.(escrow := e.(released := e.funded, status := Released)), l, e.recipient, remaining, 0)
  }

  /** The schedule gate of the signature override. */
  function OverrideGate(e: Escrow, now: nat): Result<int> {
    match e.schedule.kind
    case Unscheduled => Ok(0)
    case Cliff =>
      :- Require(now >= e.schedule.cliff, TimelockNotExpired);
      Ok(0)
    case Linear =>
      :- Require(now >= e.schedule.cliff, TimelockNotExpired);
      var remaining :- CheckedSub(e.funded, e.released);
      var vested :- CalcVested(e.funded, e.schedule, now);
      :- Require(remaining <= vested, TimelockNotExpired);
      Ok(vested)
  }

  /** The keys accepted from the first `n` signatures; an invalid one aborts the call. */
  function KeysFirst(signers: seq<nat>, signatures: seq<Signature>, n: nat): Result<seq<nat>>
    requires n <= |signatures|
  {
    if n == 0 then Ok([])
    else
      var seen :- KeysFirst(signers, signatures, n - 1);
      var s := signatures[n - 1];
      :- Require(s.key in signers, NotASigner);
      :- Require(s.key !in seen, AlreadySigned);
      :- Require(s.valid, HostAbort);
      Ok(seen + [s.key])
  }

  function OverrideRelease(a: Agreement, l: Ledger, now: nat, nonce: nat, signatures: seq<Signature>): Result<Outcome> {
    var e := a.escrow;
    :- Require(a.milestones.None?, InvalidState);
    :- Require(e.overrideSigners != [] && e.overrideThreshold != 0, Unauthorized);
    :- Require(e.status == Funded, InvalidState);
    :- Require(now < e.deadline, EscrowExpired);
    var _ :- OverrideGate(e, now);
    :- Require(nonce > e.overrideNonce, InvalidNonce);
    :- Require(|signatures| >= e.overrideThreshold, ThresholdNotMet);
    var seen :- KeysFirst(e.overrideSigners, signatures, |signatures|);
    :- Require(|seen| >= e.overrideThreshold, ThresholdNotMet);
    :- RequireApprovals(a);
    var remaining :- CheckedSub(e.funded, e.released);
    TransferAll(a.(escrow := e.(overrideNonce := nonce, status := Released)), l, e.recipient, remaining, 0)
  }

  function Expire(a: Agreement, l: Ledger, now: nat): Result<Outcome> {
    if a.escrow.status != Funded then Err(InvalidState) else
    :- Require(now >= GraceEnd(a.escrow), InvalidState);
    Store(a.(escrow := a.escrow.(status := Expired)), l, 0)
  }

  function Refund(a: Agreement, l: Ledger, now: nat, caller: Address): Result<Outcome> {
    var e := a.escrow;
    :- Require(a.milestones.None?, InvalidState);
    :- Require(e.sender == caller, Unauthorized);
    :- Require(e.status == Funded || e.status == Expired, InvalidState);
    :- Require(now >= e.deadline, TimeLockActive);
    :- Require(now >= GraceEnd(e), GraceActive);
    :- RequireRefundWindowOpen(e, now);
    var remaining :- CheckedSub(e.funded, e.released);
    Return(a.(escrow := e.(status := Refunded)), l, remaining, 0)
  }

  function RefundTimelock(a: Agreement, l: Ledger, now: nat, caller: Address): Result<Outcome> {
    var e := a.escrow;
    :- Require(a.milestones.None?, InvalidState);
    :- Require(e.sender == caller, Unauthorized);
    :- Require(e.status == Created || e.status == Funded || e.status == Expired, InvalidState);
    :- Require(now >= GraceEnd(e), TimeLockActive);
    :- RequireRefundWindowOpen(e, now);
    var remaining :- CheckedSub(e.funded, e.released);
    Return(a.(escrow := e.(status := Refunded)), l, remaining, 0)
  }

  function Reclaim(a: Agreement, l: Ledger, now: nat, caller: Address): Result<Outcome> {
    var e := a.escrow;
    :- Require(a.milestones.None?, InvalidState);
    :- Require(e.sender == caller, Unauthorized);
    :- Require(e.status == Funded || e.status == Expired, InvalidState);
    :- Require(now >= e.deadline, TimeLockActive);
    :- Require(now >= GraceEnd(e), GraceActive);
    :- RequireRefundWindowOpen(e, now);
    var remaining :- CheckedSub(e.funded, e.released);
    TransferAll(a.(escrow := e.(status := Refunded)), l, e.sender, remaining, 0)
  }

  function Cancel(a: Agreement, l: Ledger, now: nat, caller: Address): Result<Outcome> {
    if a.milestones.Some? then
      var o :- CancelMilestones(a, l, caller);
      Ok(o.(ret := 0))
    else
      var e := a.escrow;
      :- Require(e.sender == caller || e.arbiter == caller, Unauthorized);
      :- Require(e.status == Funded || e.status == Created, InvalidState);
      :- Require(now < e.deadline, InvalidState);
      var vested :- if e.schedule.kind == Unscheduled then Ok(0) else CalcVested(e.funded, e.schedule, now);
      :- Require(vested <= 0, TimeLockActive);
      var remaining :- CheckedSub(e.funded, e.released);
      Return(a.(escrow := e.(status := Refunded)), l, remaining, 0)
  }

  function Close(a: Agreement, l: Ledger, caller: Address): Result<Outcome> {
    var e := a.escrow;
    :- Require(e.status == Released || e.status == Refunded, InvalidState);
    :- Require(caller == e.sender || caller == e.recipient || caller == e.arbiter, Unauthorized);
    Store(a.(escrow := e.(status := Closed)), l, 0)
  }

  // ----- milestones -----

  function Total(assets: seq<AssetAmount>): int {
    if assets == [] then 0 else Total(assets[..|assets| - 1]) + assets[|assets| - 1].amount
  }

  /** The last of the first `n` milestones that carries `index`. */
  function Locate(items: seq<Milestone>, index: nat, n: nat): (k: Option<nat>)
    requires n <= |items|
    ensures k.Some? ==> k.value < n && items[k.value].index == index
    ensures k.None? ==> forall i :: 0 <= i < n ==> items[i].index != index
  {
    if n == 0 then None else if items[n - 1].index == index then Some(n - 1) else Locate(items, index, n - 1)
  }

  /** How many of the first `n` milestones are not yet paid. */
  function OpenCount(items: seq<Milestone>, n: nat): nat
    requires n <= |items|
  {
    if n == 0 then 0 else OpenCount(items, n - 1) + (if items[n - 1].status != Completed then 1 else 0)
  }

  predicate AllCompleted(items: seq<Milestone>) {
    forall i :: 0 <= i < |items| ==> items[i].status == Completed
  }

  /** The shared front of the three arbiter entrypoints: the position of milestone `index`,
      which must have status `wanted`. */
  function SelectMilestone(a: Agreement, caller: Address, index: nat, wanted: MilestoneStatus): (k: Result<nat>)
    ensures k.Ok? ==> a.milestones.Some? && k.value < |a.milestones.value.items|
                      && a.milestones.value.items[k.value].status == wanted
                      && a.milestones.value.items[k.value].index == index
                      && a.escrow.status == Funded && !a.milestones.value.cancelled && a.escrow.arbiter == caller
  {
    if a.escrow.arbiter != caller then Err(Unauthorized) else
    :- Require(a.milestones.Some?, NotFound);
    var ms := a.milestones.value;
    :- Require(!ms.cancelled, InvalidState);
    var k := Locate(ms.items, index, |ms.items|);
    :- Require(k.Some?, InvalidMilestone);
    var status := ms.items[k.value].status;
    :- Require(status == wanted || status != Completed, MilestoneAlreadyCompleted);
    :- Require(status == wanted, InvalidMilestone);
    :- Require(a.escrow.status == Funded, InvalidState);
    Ok(k.value)
  }

  function Mark(ms: MilestoneSet, k: nat, status: MilestoneStatus): MilestoneSet
    requires k < |ms.items|
  {
    ms.(items := ms.items[k := ms.items[k].(status := status)])
  }

  function ReleaseMilestone(a: Agreement, l: Ledger, caller: Address, index: nat): Result<Outcome> {
    var k :- SelectMilestone(a, caller, index, Pending);
    var e, ms := a.escrow, a.milestones.value;
    var total := Total(e.assets);
    :- Require(InI128(total), HostAbort);
    var product :- CheckedMul(total, ms.items[k].bps);
    var gross :- CheckedDiv(product, BPS);
    var remaining :- CheckedSub(total, ms.released);
    var payout := if OpenCount(ms.items, |ms.items|) == 1 then remaining else gross;
    :- Require(e.assets != [], HostAbort);
    var m := Move(e.assets[0].asset, SELF, e.recipient, payout);
    var ledger :- Transfer(l, m);
    var released :- CheckedAdd(ms.released, payout);
    var next := Mark(ms.(released := released), k, Completed);
    var settled := if AllCompleted(next.items) then e.(released := released, status := Released) else e;
    Ok(Outcome(a.(escrow := settled, milestones := Some(next)), ledger, [m], Some(payout), 0))
  }

  function DisputeMilestone(a: Agreement, l: Ledger, caller: Address, index: nat): Result<Outcome> {
    var k :- SelectMilestone(a, caller, index, Pending);
    Store(a.(milestones := Some(Mark(a.milestones.value, k, Disputed))), l, 0)
  }

  function ResolveMilestone(a: Agreement, l: Ledger, caller: Address, index: nat): Result<Outcome> {
    var k :- SelectMilestone(a, caller, index, Disputed);
    Store(a.(milestones := Some(Mark(a.milestones.value, k, Pending))), l, 0)
  }

  function Freeze(m: Milestone): Milestone { if m.status == Pending then m.(status := Disputed) else m }

  function Frozen(items: seq<Milestone>): seq<Milestone> {
    seq(|items|, i requires 0 <= i < |items| => Freeze(items[i]))
  }

  function CancelMilestones(a: Agreement, l: Ledger, caller: Address): Result<Outcome> {
    var e := a.escrow;
    :- Require(e.sender == caller || e.arbiter == caller, Unauthorized);
    :- Require(a.milestones.Some?, NotFound);
    var ms := a.milestones.value;
    :- Require(!ms.cancelled, AlreadyExists);
    :- Require(e.status == Funded || e.status == Expired, InvalidState);
    var remaining :- CheckedSub(e.funded, ms.released);
    var frozen := MilestoneSet(Frozen(ms.items), ms.released, true);
    Return(a.(escrow := e.(status := Refunded), milestones := Some(frozen)), l, remaining, remaining)
  }

  // ----- the contract -----

  datatype State = State(now: nat, count: nat, tokens: set<Address>, agreements: map<nat, Agreement>, ledger: Ledger)

  datatype Opening =
    | NewEscrow(terms: Terms)
    | NewConditioned(terms: Terms, participants: seq<Address>, threshold: nat)
    | NewTimelock(sender: Address, recipient: Address, arbiter: Address, assets: seq<AssetAmount>, unlock: nat)
    | NewScheduled(sender: Address, recipient: Address, arbiter: Address, assets: seq<AssetAmount>,
                   schedule: Schedule, deadline: nat)
    | NewUnfunded(sender: Address, recipient: Address, arbiter: Address, assets: seq<AssetAmount>, unlock: nat,
                  grace: nat)
    | NewMilestones(sender: Address, recipient: Address, arbiter: Address, asset: Address, amount: I128,
                    deadline: nat, weights: seq<nat>)

  datatype Action =
    | DoApprove(caller: Address)
    | DoFund(caller: Address)
    | DoWithdraw(caller: Address, amount: int)
    | DoClaim(caller: Address)
    | DoRelease(caller: Address, amount: int)
    | DoOverride(nonce: nat, signatures: seq<Signature>)
    | DoExpire
    | DoRefund(caller: Address)
    | DoRefundTimelock(caller: Address)
    | DoReclaim(caller: Address)
    | DoCancel(caller: Address)
    | DoClose(caller: Address)
    | DoReleaseMilestone(caller: Address, index: nat)
    | DoDispute(caller: Address, index: nat)
    | DoResolve(caller: Address, index: nat)
    | DoCancelMilestones(caller: Address)

  /** One call on the contract, or something the world does around it: time passes, the
      administrator changes the whitelist, strangers move tokens of their own. */
  datatype Op =
    | Open(opening: Opening)
    | Act(id: nat, action: Action)
    | Tick(seconds: nat)
    | Whitelist(tokens: set<Address>)
    | External(move: Move)

  function Begin(l: Ledger, tokens: set<Address>, now: nat, op: Opening): Result<Outcome> {
    match op
    case NewEscrow(t) => Create(l, tokens, now, t)
    case NewConditioned(t, participants, threshold) => CreateConditioned(l, tokens, now, t, participants, threshold)
    case NewTimelock(s, r, a, assets, unlock) => CreateTimelock(l, tokens, now, s, r, a, assets, unlock)
    case NewScheduled(s, r, a, assets, schedule, deadline) =>
      CreateScheduled(l, tokens, now, s, r, a, assets, schedule, deadline)
    case NewUnfunded(s, r, a, assets, unlock, grace) =>
      InitializeTimelock(l, tokens, now, s, r, a, assets, unlock, grace)
    case NewMilestones(s, r, a, asset, amount, deadline, weights) =>
      DepositMilestones(l, tokens, now, s, r, a, asset, amount, deadline, weights)
  }

  function Perform(a: Agreement, l: Ledger, tokens: set<Address>, now: nat, action: Action): Result<Outcome> {
    match action
    case DoApprove(caller) => ApproveRelease(a, l, caller)
    case DoFund(caller) => Fund(a, l, tokens, caller)
    case DoWithdraw(caller, amount) => Withdraw(a, l, now, caller, amount)
    case DoClaim(caller) => Claim(a, l, now, caller)
    case DoRelease(caller, amount) => Release(a, l, now, caller, amount)
    case DoOverride(nonce, signatures) => OverrideRelease(a, l, now, nonce, signatures)
    case DoExpire => Expire(a, l, now)
    case DoRefund(caller) => Refund(a, l, now, caller)
    case DoRefundTimelock(caller) => RefundTimelock(a, l, now, caller)
    case DoReclaim(caller) => Reclaim(a, l, now, caller)
    case DoCancel(caller) => Cancel(a, l, now, caller)
    case DoClose(caller) => Close(a, l, caller)
    case DoReleaseMilestone(caller, index) => ReleaseMilestone(a, l, caller, index)
    case DoDispute(caller, index) => DisputeMilestone(a, l, caller, index)
    case DoResolve(caller, index) => ResolveMilestone(a, l, caller, index)
    case DoCancelMilestones(caller) => CancelMilestones(a, l, caller)
  }

  /** Argument checks an entrypoint makes before it loads the record. */
  function Early(action: Action): Guard {
    Require(action.DoWithdraw? ==> action.amount > 0, InvalidAmount)
  }

  /** A successful call: the new state, the escrow it was about (0 for none) and what it did. */
  datatype Step = Step(state: State, id: nat, moves: seq<Move>, share: Option<int>, ret: int)

  /** Only the escrow record is written under a new id; keys a previous holder of the id
      left behind stay. */
  function Install(agreements: map<nat, Agreement>, id: nat, a: Agreement): map<nat, Agreement> {
    agreements[id :=
      if id in agreements then
        Agreement(a.escrow,
                  if a.milestones.Some? then a.milestones else agreements[id].milestones,
                  if a.condition.Some? then a.condition else agreements[id].condition,
                  agreements[id].approved)
      else a]
  }

  function Exec(s: State, op: Op): Result<Step> {
    match op
    case Open(opening) =>
      var o :- Begin(s.ledger, s.tokens, s.now, opening);
      var id := TruncateU64(s.count + 1);
      Ok(Step(s.(count := id, agreements := Install(s.agreements, id, o.agreement), ledger := o.ledger),
              id, o.moves, o.share, id))
    case Act(id, action) =>
      :- Early(action);
      :- Require(id in s.agreements, NotFound);
      var o :- Perform(s.agreements[id], s.ledger, s.tokens, s.now, action);
      Ok(Step(s.(agreements := s.agreements[id := o.agreement], ledger := o.ledger), id, o.moves, o.share, o.ret))
    case Tick(seconds) => Ok(Step(s.(now := s.now + seconds), 0, [], None, 0))
    case Whitelist(tokens) => Ok(Step(s.(tokens := tokens), 0, [], None, 0))
    case External(m) =>
      :- RequireAuth(m.from);
      var ledger :- Transfer(s.ledger, m);
      Ok(Step(s.(ledger := ledger), 0, [], None, 0))
  }
}

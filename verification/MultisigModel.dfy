/** The weighted multisig as a transition system over values
    (contracts/multisig/src/lib.rs, storage.rs): one function per entrypoint, giving
    the committed state or the error that rolls the call back. */
module MultisigModel {
  import opened Common
  import opened Arith
  import opened Quorum

  const MAX_SIGNERS: int := 20
  const MIN_THRESHOLD: int := 1
  const MIN_TIMELOCK_DELAY: int := 86_400
  const MAX_TIMELOCK_DELAY: int := 30 * 86_400
  const GOVERNANCE_GRACE_PERIOD: int := 604_800
  const THRESHOLD_CHANGE_DELAY_LEDGERS: int := 17_280
  const MAX_BATCH_CALLS: int := 16

  datatype Change =
    | ThresholdTo(threshold: nat)
    | WeightTo(signer: Address, weight: nat)
    | Admit(signer: Address, weight: nat)
    | Drop(signer: Address)
    | DelayTo(delay: nat)

  datatype PendingChange = PendingChange(
    proposer: Address, change: Change, proposedAt: nat, eta: nat, expiresAt: nat, executed: bool, cancelled: bool)

  datatype PendingThreshold = PendingThreshold(newThreshold: nat, effectiveFrom: nat)

  datatype Proposal = Proposal(
    proposer: Address, action: string, approvalWeight: nat, executed: bool, unlockAt: nat)

  datatype State = State(
    signers: seq<Signer>,
    threshold: nat,
    locked: bool,
    proposalCount: nat,
    proposals: map<nat, Proposal>,
    approvals: set<(nat, Address)>,
    lastNonce: nat,
    delay: nat,
    changeCount: nat,
    changes: map<nat, PendingChange>,
    pending: Option<PendingThreshold>,
    now: nat,
    ledgerSeq: nat)

  /** A committed call: the new state and the value handed back to the caller. */
  datatype Outcome = Outcome(state: State, ret: nat)

  // ----- guards -----

  predicate IsSigner(s: State, who: Address) { who in AddressSet(s.signers) }

  function ValidateThreshold(threshold: nat, total: nat): Guard {
    Require(MIN_THRESHOLD <= threshold <= total, InvalidThreshold)
  }

  function ValidateChange(s: State, change: Change): Result<()> {
    var total :- TotalWeight(s.signers);
    match change
    case ThresholdTo(t) =>
      :- ValidateThreshold(t, total);
      Ok(())
    case WeightTo(signer, weight) =>
      :- Require(weight != 0, InvalidSignerWeight);
      var current :- WeightIn(s.signers, signer);
      var rest :- CheckedSub(total, current);
      var newTotal :- CheckedAdd(rest, weight);
      :- Require(newTotal <= U32_MAX, Overflow);
      :- Require(newTotal >= s.threshold, InvalidThreshold);
      Ok(())
    case Admit(signer, weight) =>
      :- Require(weight != 0, InvalidSignerWeight);
      :- Require(!IsSigner(s, signer), AlreadyExists);
      :- Require(|s.signers| < MAX_SIGNERS, TooManySigners);
      var newTotal :- CheckedAdd(total, weight);
      :- Require(newTotal <= U32_MAX, Overflow);
      Ok(())
    case Drop(signer) =>
      var removed :- WeightIn(s.signers, signer);
      var rest :- CheckedSub(total, removed);
      :- Require(rest >= s.threshold, InvalidThreshold);
      Ok(())
    case DelayTo(delay) =>
      :- Require(MIN_TIMELOCK_DELAY <= delay <= MAX_TIMELOCK_DELAY, InvalidInput);
      Ok(())
  }

  function WithoutIndex<T>(s: seq<T>, k: nat): seq<T>
    requires k < |s|
  {
    s[..k] + s[k + 1..]
  }

  function ApplyChange(s: State, change: Change): Result<State> {
    match change
    case ThresholdTo(t) => Ok(s.(threshold := t))
    case WeightTo(signer, weight) =>
      var k :- IndexOf(s.signers, signer);
      Ok(s.(signers := s.signers[k := s.signers[k].(weight := weight)]))
    case Admit(signer, weight) => Ok(s.(signers := s.signers + [Signer(signer, weight)]))
    case Drop(signer) =>
      var k :- IndexOf(s.signers, signer);
      Ok(s.(signers := WithoutIndex(s.signers, k)))
    case DelayTo(delay) => Ok(s.(delay := delay))
  }

  // ----- live tally -----

  /** The current signers carrying an approval flag on proposal `id`. */
  function Approvers(s: State, id: nat): set<Address> {
    set a | a in AddressSet(s.signers) && (id, a) in s.approvals
  }

  /** `live_tally`, narrowed: weight of the flagged current signers. */
  function LiveTally(s: State, id: nat): Result<nat> {
    Narrow(WeightOfSet(s.signers, Approvers(s, id)))
  }

  predicate IsGovernanceAction(action: string) {
    action in {"weight", "threshold", "signer", "quorum", "config"}
  }

  // ----- entrypoints -----

  ghost predicate SomeWeightless(signers: seq<Signer>) {
    exists i :: 0 <= i < |signers| && signers[i].weight == 0
  }

  ghost function ValidateSigners(signers: seq<Signer>): Guard {
    if |signers| == 0 || |signers| > MAX_SIGNERS then Fail(InvalidInput)
    else if SomeWeightless(signers) then Fail(InsufficientWeight)
    else Require(Unique(signers), InvalidInput)
  }

  ghost function Initialize(signers: seq<Signer>, threshold: nat, now: nat, ledgerSeq: nat): Result<State> {
    var guard := ValidateSigners(signers);
    :- guard;
    var total :- TotalWeight(signers);
    :- ValidateThreshold(threshold, total);
    Ok(State(signers, threshold, false, 0, map[], {}, 0, MIN_TIMELOCK_DELAY, 0, map[], None, now, ledgerSeq))
  }

  function AddSigner(s: State, caller: Address, signer: Address, weight: nat): Result<Outcome> {
    if !IsSigner(s, caller) then Err(NotASigner) else
    :- Require(weight != 0, InvalidSignerWeight);
    :- Require(!IsSigner(s, signer), AlreadyExists);
    :- Require(|s.signers| < MAX_SIGNERS, TooManySigners);
    var total :- TotalWeight(s.signers);
    var newTotal :- CheckedAdd(total, weight);
    :- Require(newTotal <= U32_MAX, Overflow);
    Ok(Outcome(s.(signers := s.signers + [Signer(signer, weight)]), 0))
  }

  function RemoveSigner(s: State, caller: Address, signer: Address): Result<Outcome> {
    if !IsSigner(s, caller) then Err(NotASigner) else
    var k :- IndexOf(s.signers, signer);
    var total :- TotalWeight(s.signers);
    var rest :- CheckedSub(total, s.signers[k].weight);
    :- Require(rest >= s.threshold, InvalidThreshold);
    Ok(Outcome(s.(signers := WithoutIndex(s.signers, k)), 0))
  }

  function SetThreshold(s: State, caller: Address, threshold: nat): Result<Outcome> {
    if !IsSigner(s, caller) then Err(NotASigner) else
    var total :- TotalWeight(s.signers);
    :- ValidateThreshold(threshold, total);
    :- Require(s.threshold != threshold, InvalidThreshold);
    Ok(Outcome(s.(pending := Some(PendingThreshold(threshold, s.ledgerSeq))), 0))
  }

  function FinalizeThreshold(s: State, caller: Address): Result<Outcome> {
    if !IsSigner(s, caller) then Err(NotASigner) else
    :- Require(s.pending.Some?, NotFound);
    var p := s.pending.value;
    :- Require(s.ledgerSeq >= p.effectiveFrom, TimelockNotExpired);
    :- Require(s.ledgerSeq - p.effectiveFrom >= THRESHOLD_CHANGE_DELAY_LEDGERS, TimelockNotExpired);
    var total :- TotalWeight(s.signers);
    :- ValidateThreshold(p.newThreshold, total);
    Ok(Outcome(s.(threshold := p.newThreshold, pending := None), 0))
  }

  function ProposeChange(s: State, caller: Address, change: Change): Result<Outcome> {
    if s.locked then Err(EmergencyLock) else
    :- Require(IsSigner(s, caller), UnauthorizedModification);
    var _ :- ValidateChange(s, change);
    var id := TruncateU64(s.changeCount + 1);
    var eta := s.now + s.delay;
    :- Require(eta <= U64_MAX, Overflow);
    var expiresAt := eta + GOVERNANCE_GRACE_PERIOD;
    :- Require(expiresAt <= U64_MAX, Overflow);
    var entry := PendingChange(caller, change, s.now, eta, expiresAt, false, false);
    Ok(Outcome(s.(changes := s.changes[id := entry], changeCount := id), id))
  }

  function ExecuteChange(s: State, caller: Address, id: nat): Result<Outcome> {
    if s.locked then Err(EmergencyLock) else
    :- Require(IsSigner(s, caller), UnauthorizedModification);
    :- Require(id in s.changes, NotFound);
    var p := s.changes[id];
    :- Require(!p.executed && !p.cancelled, InvalidProposalState);
    :- Require(s.now >= p.eta, TimelockNotExpired);
    :- Require(s.now < p.expiresAt, ProposalExpired);
    var _ :- ValidateChange(s, p.change);
    var applied :- ApplyChange(s, p.change);
    Ok(Outcome(applied.(changes := applied.changes[id := p.(executed := true)]), 0))
  }

  function CancelChange(s: State, caller: Address, id: nat): Result<Outcome> {
    if !IsSigner(s, caller) then Err(UnauthorizedModification) else
    :- Require(id in s.changes, NotFound);
    var p := s.changes[id];
    :- Require(!p.executed && !p.cancelled, InvalidProposalState);
    Ok(Outcome(s.(changes := s.changes[id := p.(cancelled := true)]), 0))
  }

  function SetEmergencyLock(s: State, caller: Address, locked: bool): Result<Outcome> {
    if !IsSigner(s, caller) then Err(NotASigner) else
    Ok(Outcome(s.(locked := locked), 0))
  }

  function Propose(s: State, proposer: Address, action: string, unlockAt: nat): Result<Outcome> {
    if s.locked then Err(EmergencyLock) else
    var weight :- WeightIn(s.signers, proposer);
    var id := TruncateU64(s.proposalCount + 1);
    var earliest := SaturateU64(s.now + s.delay);
    var effective := if IsGovernanceAction(action) && unlockAt < earliest then earliest else unlockAt;
    var entry := Proposal(proposer, action, weight, false, effective);
    var next := s.(proposals := s.proposals[id := entry],
                   approvals := s.approvals + {(id, proposer)},
                   proposalCount := id);
    var _ :- LiveTally(next, id);
    var _ :- TotalWeight(next.signers);
    Ok(Outcome(next, id))
  }

  function Approve(s: State, caller: Address, id: nat): Result<Outcome> {
    if s.locked then Err(EmergencyLock) else
    var _ :- WeightIn(s.signers, caller);
    :- Require(id in s.proposals, NotFound);
    :- Require(!s.proposals[id].executed, InvalidProposalState);
    :- Require((id, caller) !in s.approvals, AlreadySigned);
    var flagged := s.(approvals := s.approvals + {(id, caller)});
    var weight :- LiveTally(flagged, id);
    var _ :- TotalWeight(s.signers);
    Ok(Outcome(flagged.(proposals := s.proposals[id := s.proposals[id].(approvalWeight := weight)]), weight))
  }

  function Execute(s: State, caller: Address, id: nat): Result<Outcome> {
    if s.locked then Err(EmergencyLock) else
    :- Require(IsSigner(s, caller), NotASigner);
    :- Require(id in s.proposals, NotFound);
    var p := s.proposals[id];
    :- Require(!p.executed, InvalidProposalState);
    var weight :- LiveTally(s, id);
    var _ :- TotalWeight(s.signers);
    :- Require(weight >= s.threshold, InsufficientWeight);
    :- Require(p.unlockAt == 0 || s.now >= p.unlockAt, TimelockNotExpired);
    Ok(Outcome(s.(proposals := s.proposals[id := p.(approvalWeight := weight, executed := true)]), 0))
  }

  /** `callFailure` is the error the first failing sub-call surfaces, if any: the
      callees are foreign code, so their verdict is an input. */
  function ExecuteBatch(s: State, caller: Address, nonce: nat, calls: nat, approvers: seq<Address>,
                        callFailure: Option<Error>): Result<Outcome> {
    if s.locked then Err(EmergencyLock) else
    :- Require(IsSigner(s, caller), NotASigner);
    :- Require(0 < calls <= MAX_BATCH_CALLS, InvalidInput);
    :- Require(|approvers| <= MAX_SIGNERS, InvalidInput);
    :- Require(nonce > s.lastNonce, InvalidNonce);
    var weight :- AccumulateWeight(s.signers, caller, approvers);
    :- Require(weight >= s.threshold, ThresholdNotMet);
    var _ :- TotalWeight(s.signers);
    if callFailure.Some? then Err(callFailure.value)
    else Ok(Outcome(s.(lastNonce := nonce), 0))
  }

  function VerifyThreshold(s: State, caller: Address, signatories: seq<Address>): Result<int> {
    if s.locked then Err(EmergencyLock) else
    :- Require(|signatories| <= MAX_SIGNERS, InvalidInput);
    var weight :- AccumulateWeight(s.signers, caller, signatories);
    :- Require(weight >= s.threshold, ThresholdNotMet);
    Ok(weight)
  }

  // ----- runs -----

  datatype Op =
    | OpAddSigner(caller: Address, signer: Address, weight: nat)
    | OpRemoveSigner(caller: Address, signer: Address)
    | OpSetThreshold(caller: Address, threshold: nat)
    | OpFinalizeThreshold(caller: Address)
    | OpProposeChange(caller: Address, change: Change)
    | OpExecuteChange(caller: Address, id: nat)
    | OpCancelChange(caller: Address, id: nat)
    | OpSetEmergencyLock(caller: Address, lock: bool)
    | OpPropose(caller: Address, action: string, unlockAt: nat)
    | OpApprove(caller: Address, id: nat)
    | OpExecute(caller: Address, id: nat)
    | OpExecuteBatch(caller: Address, nonce: nat, calls: nat, approvers: seq<Address>, callFailure: Option<Error>)
    | OpTick(seconds: nat, ledgers: nat)

  function Exec(s: State, op: Op): Result<Outcome> {
    match op
    case OpAddSigner(caller, signer, weight) => AddSigner(s, caller, signer, weight)
    case OpRemoveSigner(caller, signer) => RemoveSigner(s, caller, signer)
    case OpSetThreshold(caller, threshold) => SetThreshold(s, caller, threshold)
    case OpFinalizeThreshold(caller) => FinalizeThreshold(s, caller)
    case OpProposeChange(caller, change) => ProposeChange(s, caller, change)
    case OpExecuteChange(caller, id) => ExecuteChange(s, caller, id)
    case OpCancelChange(caller, id) => CancelChange(s, caller, id)
    case OpSetEmergencyLock(caller, lock) => SetEmergencyLock(s, caller, lock)
    case OpPropose(caller, action, unlockAt) => Propose(s, caller, action, unlockAt)
    case OpApprove(caller, id) => Approve(s, caller, id)
    case OpExecute(caller, id) => Execute(s, caller, id)
    case OpExecuteBatch(caller, nonce, calls, approvers, callFailure) =>
      ExecuteBatch(s, caller, nonce, calls, approvers, callFailure)
    case OpTick(seconds, ledgers) => Ok(Outcome(s.(now := s.now + seconds, ledgerSeq := s.ledgerSeq + ledgers), 0))
  }

  /** An erring call is rolled back by the host. */
  function Next(s: State, op: Op): State {
    match Exec(s, op)
    case Ok(o) => o.state
    case Err(_) => s
  }

  /** The state just before the `i`-th call of a run. */
  function StateAt(s0: State, ops: seq<Op>, i: nat): State
    requires i <= |ops|
  {
    if i == 0 then s0 else Next(StateAt(s0, ops, i - 1), ops[i - 1])
  }

  predicate Succeeds(s0: State, ops: seq<Op>, i: nat)
    requires i < |ops|
  {
    Exec(StateAt(s0, ops, i), ops[i]).Ok?
  }
}

/** What every run of the multisig keeps: it can never be bricked, nothing executes
    without a live quorum, and the threshold never moves without its delay. */
module MultisigTheorems {
  import opened Common
  import opened Arith
  import opened Quorum
  import opened MultisigModel

  // ----- the configuration invariant -----

  ghost predicate SignersOk(signers: seq<Signer>, threshold: nat) {
    && 0 < |signers| <= MAX_SIGNERS
    && Unique(signers)
    && (forall i :: 0 <= i < |signers| ==> signers[i].weight > 0)
    && SumOfWeights(signers) <= U32_MAX
    && MIN_THRESHOLD <= threshold <= SumOfWeights(signers)
  }

  ghost predicate ChangeOk(p: PendingChange, now: nat) {
    && p.proposedAt <= now
    && p.proposedAt + MIN_TIMELOCK_DELAY <= p.eta <= p.proposedAt + MAX_TIMELOCK_DELAY
    && p.expiresAt == p.eta + GOVERNANCE_GRACE_PERIOD
    && !(p.executed && p.cancelled)
  }

  ghost predicate Inv(s: State) {
    && SignersOk(s.signers, s.threshold)
    && MIN_TIMELOCK_DELAY <= s.delay <= MAX_TIMELOCK_DELAY
    && (forall id :: id in s.changes ==> ChangeOk(s.changes[id], s.now))
    && (s.pending.Some? ==> s.pending.value.effectiveFrom <= s.ledgerSeq)
  }

  // ----- signer-set surgery -----

  lemma SumAppend(signers: seq<Signer>, extra: Signer)
    ensures SumOfWeights(signers + [extra]) == SumOfWeights(signers) + extra.weight
  {
    assert (signers + [extra])[..|signers|] == signers;
  }

  lemma {:induction false} SumWithout(signers: seq<Signer>, k: nat)
    requires k < |signers|
    ensures SumOfWeights(WithoutIndex(signers, k)) == SumOfWeights(signers) - signers[k].weight
  {
    var n := |signers| - 1;
    if k == n {
      assert WithoutIndex(signers, k) == signers[..n];
    } else {
      SumWithout(signers[..n], k);
      assert WithoutIndex(signers, k) == WithoutIndex(signers[..n], k) + [signers[n]];
      SumAppend(WithoutIndex(signers[..n], k), signers[n]);
    }
  }

  lemma {:induction false} SumUpdate(signers: seq<Signer>, k: nat, w: nat)
    requires k < |signers|
    ensures SumOfWeights(signers[k := signers[k].(weight := w)]) == SumOfWeights(signers) - signers[k].weight + w
  {
    var n := |signers| - 1;
    var updated := signers[k := signers[k].(weight := w)];
    if k == n {
      assert updated[..n] == signers[..n];
    } else {
      SumUpdate(signers[..n], k, w);
      assert updated[..n] == signers[..n][k := signers[..n][k].(weight := w)];
    }
  }

  /** Adding, dropping or re-weighting a signer under the contract's own checks
      leaves a signer set that can still reach the threshold. */
  lemma AdmitKeepsSignersOk(signers: seq<Signer>, threshold: nat, extra: Signer)
    requires SignersOk(signers, threshold) && extra.address !in AddressSet(signers)
    requires |signers| < MAX_SIGNERS && extra.weight > 0 && SumOfWeights(signers) + extra.weight <= U32_MAX
    ensures SignersOk(signers + [extra], threshold)
  {
    SumAppend(signers, extra);
  }

  lemma DropKeepsSignersOk(signers: seq<Signer>, threshold: nat, k: nat)
    requires SignersOk(signers, threshold) && k < |signers|
    requires SumOfWeights(signers) - signers[k].weight >= threshold
    ensures SignersOk(WithoutIndex(signers, k), threshold)
  {
    SumWithout(signers, k);
  }

  lemma ReweighKeepsSignersOk(signers: seq<Signer>, threshold: nat, k: nat, w: nat)
    requires SignersOk(signers, threshold) && k < |signers| && w > 0
    requires threshold <= SumOfWeights(signers) - signers[k].weight + w <= U32_MAX
    ensures SignersOk(signers[k := signers[k].(weight := w)], threshold)
  {
    SumUpdate(signers, k, w);
  }

  /** A change that validates against live state applies, and keeps the configuration sound. */
  lemma ValidatedChangeKeepsInv(s: State, change: Change)
    requires Inv(s) && ValidateChange(s, change).Ok?
    ensures ApplyChange(s, change).Ok? && Inv(ApplyChange(s, change).value)
    ensures ApplyChange(s, change).value.changes == s.changes
  {
    match change
    case ThresholdTo(_) =>
    case WeightTo(signer, weight) =>
      ReweighKeepsSignersOk(s.signers, s.threshold, IndexOf(s.signers, signer).value, weight);
    case Admit(signer, weight) => AdmitKeepsSignersOk(s.signers, s.threshold, Signer(signer, weight));
    case Drop(signer) => DropKeepsSignersOk(s.signers, s.threshold, IndexOf(s.signers, signer).value);
    case DelayTo(_) =>
  }

  /** The calls that may touch the signer set, the threshold or a governance change. */
  predicate Governs(op: Op) {
    || op.OpAddSigner? || op.OpRemoveSigner? || op.OpSetThreshold? || op.OpFinalizeThreshold?
    || op.OpProposeChange? || op.OpExecuteChange? || op.OpCancelChange?
  }

  lemma ApplyChangeFrame(s: State, change: Change)
    requires ApplyChange(s, change).Ok?
    ensures var t := ApplyChange(s, change).value;
            && t == s.(signers := t.signers, threshold := t.threshold, delay := t.delay)
            && (!change.ThresholdTo? ==> t.threshold == s.threshold)
  {
  }

  lemma GovernFrame(s: State, op: Op)
    requires Governs(op)
    ensures var t := Next(s, op);
            t == s.(signers := t.signers, threshold := t.threshold, delay := t.delay,
                    changeCount := t.changeCount, changes := t.changes, pending := t.pending)
  {
    if op.OpExecuteChange? && Exec(s, op).Ok? { ApplyChangeFrame(s, s.changes[op.id].change); }
  }

  lemma VoteFrame(s: State, op: Op)
    requires !Governs(op)
    ensures var t := Next(s, op);
            && t == s.(locked := t.locked, proposals := t.proposals, approvals := t.approvals,
                       proposalCount := t.proposalCount, lastNonce := t.lastNonce, now := t.now,
                       ledgerSeq := t.ledgerSeq)
            && t.now >= s.now && t.ledgerSeq >= s.ledgerSeq
  {
  }

  lemma SignerCallKeepsInv(s: State, op: Op)
    requires Inv(s) && (op.OpAddSigner? || op.OpRemoveSigner?)
    ensures Inv(Next(s, op))
  {
    if Exec(s, op).Ok? {
      match op
      case OpAddSigner(_, signer, weight) => AdmitKeepsSignersOk(s.signers, s.threshold, Signer(signer, weight));
      case OpRemoveSigner(_, signer) => DropKeepsSignersOk(s.signers, s.threshold, IndexOf(s.signers, signer).value);
    }
  }

  lemma GovernanceCallKeepsInv(s: State, op: Op)
    requires Inv(s) && Governs(op) && !op.OpAddSigner? && !op.OpRemoveSigner?
    ensures Inv(Next(s, op))
  {
    if op.OpExecuteChange? && Exec(s, op).Ok? { ValidatedChangeKeepsInv(s, s.changes[op.id].change); }
  }

  lemma NextKeepsInv(s: State, op: Op)
    requires Inv(s)
    ensures Inv(Next(s, op))
  {
    if op.OpAddSigner? || op.OpRemoveSigner? {
      SignerCallKeepsInv(s, op);
    } else if Governs(op) {
      GovernanceCallKeepsInv(s, op);
    } else {
      VoteFrame(s, op);
    }
  }

  /** Reachable: some successful initialization followed by any calls at all. */
  ghost predicate IsInitial(s0: State) {
    exists signers, threshold, now, ledgerSeq :: Initialize(signers, threshold, now, ledgerSeq) == Ok(s0)
  }

  /** The multisig can never be bricked: in every reachable state the signer set is
      non-empty, duplicate-free, bounded and positively weighted, its weight fits `u32`,
      the threshold is attainable, and the governance delay is within its bounds. */
  lemma {:induction false} NeverBricked(s0: State, ops: seq<Op>, i: nat)
    requires IsInitial(s0) && i <= |ops|
    ensures Inv(StateAt(s0, ops, i))
  {
    if i > 0 {
      NeverBricked(s0, ops, i - 1);
      NextKeepsInv(StateAt(s0, ops, i - 1), ops[i - 1]);
    }
  }

  /** And unanimity always suffices: if every signer has approved, the tally is
      defined and reaches the threshold. */
  lemma UnanimityMeetsThreshold(s: State, id: nat)
    requires Inv(s)
    requires forall i :: 0 <= i < |s.signers| ==> (id, s.signers[i].address) in s.approvals
    ensures LiveTally(s, id).Ok? && LiveTally(s, id).value >= s.threshold
  {
    SetWeightOfEverybody(s.signers, Approvers(s, id));
  }

  // ----- what one call can do to each record -----

  ghost predicate IsVote(s: State, op: Op, who: Address, id: nat) {
    && Exec(s, op).Ok?
    && (|| op == OpApprove(who, id)
        || (op.OpPropose? && op.caller == who && Exec(s, op).value.ret == id))
  }

  lemma StepApprovals(s: State, op: Op, id: nat, who: Address)
    requires (id, who) in Next(s, op).approvals
    ensures (id, who) in s.approvals || IsVote(s, op, who, id)
  {
    if Governs(op) { GovernFrame(s, op); }
  }

  lemma GovernIds(s: State, op: Op, i: nat)
    requires IdsInOrder(s, i) && i < U64_MAX && Governs(op)
    ensures IdsInOrder(Next(s, op), i + 1)
  {
    GovernFrame(s, op);
    if op.OpExecuteChange? && Exec(s, op).Ok? { ApplyChangeFrame(s, s.changes[op.id].change); }
  }

  lemma ProposalIds(s: State, op: Op, i: nat)
    requires IdsInOrder(s, i) && i < U64_MAX && (op.OpPropose? || op.OpApprove? || op.OpExecute?)
    ensures IdsInOrder(Next(s, op), i + 1)
  {
  }

  lemma StepIds(s: State, op: Op, i: nat)
    requires IdsInOrder(s, i) && i < U64_MAX
    ensures IdsInOrder(Next(s, op), i + 1)
  {
    if Governs(op) {
      GovernIds(s, op, i);
    } else if op.OpPropose? || op.OpApprove? || op.OpExecute? {
      ProposalIds(s, op, i);
    }
  }

  lemma StepExecuted(s: State, op: Op, i: nat, id: nat)
    requires IdsInOrder(s, i) && i < U64_MAX
    requires id in s.proposals && s.proposals[id].executed
    ensures id in Next(s, op).proposals && Next(s, op).proposals[id].executed
  {
    if Governs(op) { GovernFrame(s, op); }
  }

  lemma StepNonce(s: State, op: Op)
    ensures s.lastNonce <= Next(s, op).lastNonce
    ensures op.OpExecuteBatch? && Exec(s, op).Ok? ==> s.lastNonce < op.nonce == Next(s, op).lastNonce
  {
    if Governs(op) { GovernFrame(s, op); }
  }

  lemma StepPending(s: State, op: Op)
    ensures var t := Next(s, op);
            || t.pending == s.pending
            || t.pending.None?
            || (op.OpSetThreshold? && Exec(s, op).Ok? && t.pending == Some(PendingThreshold(op.threshold, s.ledgerSeq)))
  {
    if !Governs(op) {
      VoteFrame(s, op);
    } else if op.OpExecuteChange? && Exec(s, op).Ok? {
      ApplyChangeFrame(s, s.changes[op.id].change);
    }
  }

  lemma StepThreshold(s: State, op: Op)
    ensures var t := Next(s, op);
            || t.threshold == s.threshold
            || (Exec(s, op).Ok? && op.OpFinalizeThreshold?)
            || (Exec(s, op).Ok? && op.OpExecuteChange? && s.changes[op.id].change.ThresholdTo?)
  {
    if !Governs(op) {
      VoteFrame(s, op);
    } else if op.OpExecuteChange? && Exec(s, op).Ok? {
      ApplyChangeFrame(s, s.changes[op.id].change);
    }
  }

  /** A change record is born by its own proposal and afterwards only closes, once. */
  ghost predicate IsProposalOf(s: State, op: Op, id: nat, p: PendingChange) {
    && Exec(s, op).Ok?
    && op == OpProposeChange(p.proposer, p.change)
    && Exec(s, op).value.ret == id
    && p == PendingChange(p.proposer, p.change, s.now, s.now + s.delay,
                          s.now + s.delay + GOVERNANCE_GRACE_PERIOD, false, false)
  }

  ghost predicate SameTerms(p: PendingChange, q: PendingChange) {
    && q.(executed := p.executed, cancelled := p.cancelled) == p
    && (p.executed || p.cancelled ==> q == p)
  }

  lemma StepChanges(s: State, op: Op, id: nat)
    ensures var t := Next(s, op);
            && (id in t.changes ==>
                  || (id in s.changes && SameTerms(s.changes[id], t.changes[id]))
                  || IsProposalOf(s, op, id, t.changes[id]))
            && (id in s.changes ==> id in t.changes)
            && (id in s.changes && (!op.OpProposeChange? || Exec(s, op).Err? || Exec(s, op).value.ret != id) ==>
                  SameTerms(s.changes[id], t.changes[id]))
  {
    if !Governs(op) {
      VoteFrame(s, op);
    } else if op.OpExecuteChange? && Exec(s, op).Ok? {
      ApplyChangeFrame(s, s.changes[op.id].change);
    }
  }

  /** Proposal ids are handed out in order, so none is ever reused within the counter's range. */
  ghost predicate IdsInOrder(s: State, i: nat) {
    && s.proposalCount <= i && s.changeCount <= i
    && (forall id :: id in s.proposals ==> id <= s.proposalCount)
    && (forall id :: id in s.changes ==> id <= s.changeCount)
  }

  // ----- executed proposals are backed -----

  /** Call `j` of the run is `who`'s own vote for proposal `id`: an approval, or the
      creation of that very proposal. */
  ghost predicate VotedAt(s0: State, ops: seq<Op>, j: nat, who: Address, id: nat)
    requires j < |ops|
  {
    IsVote(StateAt(s0, ops, j), ops[j], who, id)
  }

  ghost predicate Voted(s0: State, ops: seq<Op>, i: nat, who: Address, id: nat)
    requires i <= |ops|
  {
    exists j :: 0 <= j < i && VotedAt(s0, ops, j, who, id)
  }

  /** No approval flag exists without its owner's own successful call. */
  lemma {:induction false} FlagsAreVotes(s0: State, ops: seq<Op>, i: nat, who: Address, id: nat)
    requires IsInitial(s0) && i <= |ops|
    requires (id, who) in StateAt(s0, ops, i).approvals
    ensures Voted(s0, ops, i, who, id)
  {
    if i > 0 {
      StepApprovals(StateAt(s0, ops, i - 1), ops[i - 1], id, who);
      if (id, who) in StateAt(s0, ops, i - 1).approvals {
        FlagsAreVotes(s0, ops, i - 1, who, id);
      } else {
        assert VotedAt(s0, ops, i - 1, who, id);
      }
    }
  }

  ghost predicate Backs(s0: State, ops: seq<Op>, i: nat, id: nat, backers: set<Address>)
    requires i <= |ops|
  {
    var s := StateAt(s0, ops, i);
    && (forall a :: a in backers ==> IsSigner(s, a) && Voted(s0, ops, i, a, id))
    && WeightOfSet(s.signers, backers) >= s.threshold
  }

  /** Every executed proposal is backed, at the moment it executes, by distinct current
      signers who each voted for it themselves and whose current weights reach the
      current threshold. A removed signer is not current, so it cannot be a backer. */
  lemma ExecutionIsBacked(s0: State, ops: seq<Op>, i: nat)
    requires IsInitial(s0) && i < |ops| && ops[i].OpExecute? && Succeeds(s0, ops, i)
    ensures exists backers :: Backs(s0, ops, i, ops[i].id, backers)
  {
    var s := StateAt(s0, ops, i);
    var backers := Approvers(s, ops[i].id);
    forall a | a in backers ensures IsSigner(s, a) && Voted(s0, ops, i, a, ops[i].id) {
      FlagsAreVotes(s0, ops, i, a, ops[i].id);
    }
    assert Backs(s0, ops, i, ops[i].id, backers);
  }

  /** A batch runs only on the combined weight of the distinct signers behind it. */
  lemma BatchIsBacked(s0: State, ops: seq<Op>, i: nat)
    requires IsInitial(s0) && i < |ops| && ops[i].OpExecuteBatch? && Succeeds(s0, ops, i)
    ensures var s := StateAt(s0, ops, i);
            && AllRegistered(s.signers, ops[i].caller, ops[i].approvers)
            && WeightOfSet(s.signers, SignerSet(ops[i].caller, ops[i].approvers)) >= s.threshold
  {
    NeverBricked(s0, ops, i);
    var s := StateAt(s0, ops, i);
    forall k | 0 <= k < |s.signers| ensures s.signers[k].weight <= U32_MAX {
      OneAtMostTotal(s.signers, k);
    }
    AccumulateIsSetWeight(s.signers, ops[i].caller, ops[i].approvers);
  }

  lemma OneAtMostTotal(signers: seq<Signer>, k: nat)
    requires k < |signers|
    ensures signers[k].weight <= SumOfWeights(signers)
  {
    if k < |signers| - 1 { OneAtMostTotal(signers[..|signers| - 1], k); }
  }

  lemma {:induction false} RunIdsInOrder(s0: State, ops: seq<Op>, i: nat)
    requires IsInitial(s0) && i <= |ops| && |ops| <= U64_MAX
    ensures IdsInOrder(StateAt(s0, ops, i), i)
  {
    if i > 0 {
      RunIdsInOrder(s0, ops, i - 1);
      StepIds(StateAt(s0, ops, i - 1), ops[i - 1], i - 1);
    }
  }

  lemma {:induction false} ExecutedStays(s0: State, ops: seq<Op>, i: nat, k: nat, id: nat)
    requires IsInitial(s0) && i <= k <= |ops| && |ops| <= U64_MAX
    requires id in StateAt(s0, ops, i).proposals && StateAt(s0, ops, i).proposals[id].executed
    ensures id in StateAt(s0, ops, k).proposals && StateAt(s0, ops, k).proposals[id].executed
    decreases k
  {
    if i < k {
      ExecutedStays(s0, ops, i, k - 1, id);
      RunIdsInOrder(s0, ops, k - 1);
      StepExecuted(StateAt(s0, ops, k - 1), ops[k - 1], k - 1, id);
    }
  }

  /** No proposal executes twice in any run. */
  lemma ExecutesAtMostOnce(s0: State, ops: seq<Op>, i: nat, k: nat)
    requires IsInitial(s0) && |ops| <= U64_MAX && i < k < |ops|
    requires ops[i].OpExecute? && ops[k].OpExecute? && ops[i].id == ops[k].id
    ensures !(Succeeds(s0, ops, i) && Succeeds(s0, ops, k))
  {
    if Succeeds(s0, ops, i) {
      ExecutedStays(s0, ops, i + 1, k, ops[i].id);
    }
  }

  // ----- governance proposals wait -----

  /** The record `p` of proposal `id` is the one this call created. */
  ghost predicate IsBirth(s: State, op: Op, id: nat, p: Proposal) {
    && Exec(s, op).Ok? && op.OpPropose? && Exec(s, op).value.ret == id
    && p.proposer == op.caller && p.action == op.action
    && p.unlockAt >= op.unlockAt
    && (IsGovernanceAction(p.action) ==> p.unlockAt >= SaturateU64(s.now + s.delay))
  }

  ghost predicate SameProposal(p: Proposal, q: Proposal) {
    q == p.(approvalWeight := q.approvalWeight, executed := q.executed)
  }

  lemma StepProposals(s: State, op: Op, id: nat)
    requires id in Next(s, op).proposals
    ensures var q := Next(s, op).proposals[id];
            (id in s.proposals && SameProposal(s.proposals[id], q)) || IsBirth(s, op, id, q)
  {
    if Governs(op) { GovernFrame(s, op); }
  }

  ghost predicate BornAt(s0: State, ops: seq<Op>, j: nat, id: nat, p: Proposal)
    requires j < |ops|
  {
    exists born :: IsBirth(StateAt(s0, ops, j), ops[j], id, born) && SameProposal(born, p)
  }

  lemma {:induction false} ProposalWasBorn(s0: State, ops: seq<Op>, i: nat, id: nat)
    requires IsInitial(s0) && i <= |ops| && id in StateAt(s0, ops, i).proposals
    ensures exists j :: 0 <= j < i && BornAt(s0, ops, j, id, StateAt(s0, ops, i).proposals[id])
  {
    if i > 0 {
      var s, q := StateAt(s0, ops, i - 1), StateAt(s0, ops, i).proposals[id];
      StepProposals(s, ops[i - 1], id);
      if IsBirth(s, ops[i - 1], id, q) {
        assert SameProposal(q, q);
        assert BornAt(s0, ops, i - 1, id, q);
      } else {
        ProposalWasBorn(s0, ops, i - 1, id);
        var j :| 0 <= j < i - 1 && BornAt(s0, ops, j, id, s.proposals[id]);
        var born :| IsBirth(StateAt(s0, ops, j), ops[j], id, born) && SameProposal(born, s.proposals[id]);
        assert SameProposal(born, q);
        assert BornAt(s0, ops, j, id, q);
      }
    }
  }

  /** Call `j` proposed `id` with a governance action, and `now` is no earlier than the delay
      then in force, or than the unlock time it asked for. */
  ghost predicate WaitedSince(s0: State, ops: seq<Op>, j: nat, id: nat, now: nat)
    requires j < |ops|
  {
    var s := StateAt(s0, ops, j);
    && Succeeds(s0, ops, j) && ops[j].OpPropose? && Exec(s, ops[j]).value.ret == id
    && (IsGovernanceAction(ops[j].action) ==> now >= SaturateU64(s.now + s.delay) && s.delay >= MIN_TIMELOCK_DELAY)
    && now >= ops[j].unlockAt
  }

  /** No proposal executes before the unlock time it asked for, and one with a governance
      action not before the delay in force when it was proposed, at least a day, has passed. */
  lemma ExecutionWaits(s0: State, ops: seq<Op>, i: nat)
    requires IsInitial(s0) && i < |ops| && ops[i].OpExecute? && Succeeds(s0, ops, i)
    ensures exists j :: 0 <= j < i && WaitedSince(s0, ops, j, ops[i].id, StateAt(s0, ops, i).now)
  {
    var id, s := ops[i].id, StateAt(s0, ops, i);
    ProposalWasBorn(s0, ops, i, id);
    var j :| 0 <= j < i && BornAt(s0, ops, j, id, s.proposals[id]);
    NeverBricked(s0, ops, j);
    assert WaitedSince(s0, ops, j, id, s.now);
  }

  lemma NonceStep(s0: State, ops: seq<Op>, i: nat)
    requires i < |ops|
    ensures StateAt(s0, ops, i).lastNonce <= StateAt(s0, ops, i + 1).lastNonce
  {
    StepNonce(StateAt(s0, ops, i), ops[i]);
  }

  /** Batch nonces only grow: a nonce that ran once is refused ever after. */
  lemma {:induction false} NonceMonotone(s0: State, ops: seq<Op>, i: nat, k: nat)
    requires i <= k <= |ops|
    ensures StateAt(s0, ops, i).lastNonce <= StateAt(s0, ops, k).lastNonce
    decreases k - i
  {
    if i < k {
      NonceStep(s0, ops, i);
      NonceMonotone(s0, ops, i + 1, k);
    }
  }

  lemma NonceRunsAtMostOnce(s0: State, ops: seq<Op>, i: nat, k: nat)
    requires i < k < |ops| && ops[i].OpExecuteBatch? && ops[k].OpExecuteBatch? && ops[k].nonce <= ops[i].nonce
    ensures !(Succeeds(s0, ops, i) && Succeeds(s0, ops, k))
  {
    NonceMonotone(s0, ops, i + 1, k);
    StepNonce(StateAt(s0, ops, i), ops[i]);
    StepNonce(StateAt(s0, ops, k), ops[k]);
  }

  // ----- the threshold never moves without its delay -----

  /** Call `j` parked the direct threshold change `p`. */
  ghost predicate ParkedAt(s0: State, ops: seq<Op>, j: nat, p: PendingThreshold)
    requires j < |ops|
  {
    && Succeeds(s0, ops, j)
    && ops[j].OpSetThreshold? && ops[j].threshold == p.newThreshold
    && StateAt(s0, ops, j).ledgerSeq == p.effectiveFrom
  }

  /** `p` is what is pending at every state after call `j` up to call `i`. */
  ghost predicate HeldSince(s0: State, ops: seq<Op>, j: nat, i: nat, p: PendingThreshold)
    requires j < i <= |ops|
  {
    StateAt(s0, ops, i).pending == Some(p) && (i == j + 1 || HeldSince(s0, ops, j, i - 1, p))
  }

  lemma {:induction false} HeldAt(s0: State, ops: seq<Op>, j: nat, i: nat, k: nat, p: PendingThreshold)
    requires j < k <= i <= |ops| && HeldSince(s0, ops, j, i, p)
    ensures StateAt(s0, ops, k).pending == Some(p)
  {
    if k < i { HeldAt(s0, ops, j, i - 1, k, p); }
  }

  lemma PendingStep(s0: State, ops: seq<Op>, i: nat)
    requires 0 < i <= |ops| && StateAt(s0, ops, i).pending.Some?
    ensures var p := StateAt(s0, ops, i).pending;
            StateAt(s0, ops, i - 1).pending == p || ParkedAt(s0, ops, i - 1, p.value)
  {
    StepPending(StateAt(s0, ops, i - 1), ops[i - 1]);
  }

  lemma {:induction false} PendingWasParked(s0: State, ops: seq<Op>, i: nat, p: PendingThreshold) returns (j: nat)
    requires IsInitial(s0) && i <= |ops| && StateAt(s0, ops, i).pending == Some(p)
    ensures j < i && ParkedAt(s0, ops, j, p) && HeldSince(s0, ops, j, i, p)
  {
    assert i > 0;
    PendingStep(s0, ops, i);
    j := i - 1;
    if StateAt(s0, ops, i - 1).pending == Some(p) {
      j := PendingWasParked(s0, ops, i - 1, p);
    }
  }

  /** Call `j` proposed the governance change recorded as `p`. */
  ghost predicate ProposedAt(s0: State, ops: seq<Op>, j: nat, id: nat, p: PendingChange)
    requires j < |ops|
  {
    exists born :: IsProposalOf(StateAt(s0, ops, j), ops[j], id, born) && SameTerms(born, p)
  }

  lemma {:induction false} ChangeWasProposed(s0: State, ops: seq<Op>, i: nat, id: nat)
    requires IsInitial(s0) && i <= |ops| && id in StateAt(s0, ops, i).changes
    ensures exists j :: 0 <= j < i && ProposedAt(s0, ops, j, id, StateAt(s0, ops, i).changes[id])
  {
    if i > 0 {
      var s, p := StateAt(s0, ops, i - 1), StateAt(s0, ops, i).changes[id];
      StepChanges(s, ops[i - 1], id);
      if IsProposalOf(s, ops[i - 1], id, p) {
        assert SameTerms(p, p);
        assert ProposedAt(s0, ops, i - 1, id, p);
      } else {
        ChangeWasProposed(s0, ops, i - 1, id);
        var j :| 0 <= j < i - 1 && ProposedAt(s0, ops, j, id, s.changes[id]);
        var born :| IsProposalOf(StateAt(s0, ops, j), ops[j], id, born) && SameTerms(born, s.changes[id]);
        assert SameTerms(born, p);
        assert ProposedAt(s0, ops, j, id, p);
      }
    }
  }

  ghost predicate WritesThreshold(s0: State, ops: seq<Op>, i: nat)
    requires i < |ops|
  {
    && Succeeds(s0, ops, i)
    && (|| ops[i].OpFinalizeThreshold?
        || (ops[i].OpExecuteChange? && StateAt(s0, ops, i).changes[ops[i].id].change.ThresholdTo?))
  }

  /** Parked by an earlier `set_threshold`, pending without interruption since then, and for
      at least 17 280 ledgers. */
  ghost predicate LedgerDelayed(s0: State, ops: seq<Op>, i: nat, j: nat, value: nat)
    requires j < i < |ops|
  {
    var p := PendingThreshold(value, StateAt(s0, ops, j).ledgerSeq);
    && ParkedAt(s0, ops, j, p)
    && (forall k :: j < k <= i ==> StateAt(s0, ops, k).pending == Some(p))
    && StateAt(s0, ops, j).ledgerSeq + THRESHOLD_CHANGE_DELAY_LEDGERS <= StateAt(s0, ops, i).ledgerSeq
  }

  /** Call `i` executes the very change that call `j` proposed, inside the window
      [eta, expires_at) fixed at the proposal from the delay then in force, at least a day. */
  ghost predicate TimeDelayed(s0: State, ops: seq<Op>, i: nat, j: nat, value: nat)
    requires j < i < |ops|
  {
    var proposal, s := StateAt(s0, ops, j), StateAt(s0, ops, i);
    && Succeeds(s0, ops, j) && ops[j].OpProposeChange? && ops[j].change == ThresholdTo(value)
    && ops[i].OpExecuteChange? && Exec(proposal, ops[j]).value.ret == ops[i].id && ops[i].id in s.changes
    && proposal.delay >= MIN_TIMELOCK_DELAY
    && s.changes[ops[i].id].eta == proposal.now + proposal.delay
    && s.changes[ops[i].id].expiresAt == proposal.now + proposal.delay + GOVERNANCE_GRACE_PERIOD
    && s.changes[ops[i].id].eta <= s.now < s.changes[ops[i].id].expiresAt
  }

  ghost predicate Delayed(s0: State, ops: seq<Op>, i: nat, j: nat, value: nat)
    requires j < i < |ops|
  {
    LedgerDelayed(s0, ops, i, j, value) || TimeDelayed(s0, ops, i, j, value)
  }

  lemma FinalizeIsDelayed(s0: State, ops: seq<Op>, i: nat) returns (j: nat)
    requires IsInitial(s0) && i < |ops| && ops[i].OpFinalizeThreshold? && Succeeds(s0, ops, i)
    ensures j < i && LedgerDelayed(s0, ops, i, j, StateAt(s0, ops, i + 1).threshold)
  {
    var p := StateAt(s0, ops, i).pending.value;
    j := PendingWasParked(s0, ops, i, p);
    forall k | j < k <= i ensures StateAt(s0, ops, k).pending == Some(p) { HeldAt(s0, ops, j, i, k, p); }
  }

  lemma ExecutedChangeIsDelayed(s0: State, ops: seq<Op>, i: nat) returns (j: nat)
    requires IsInitial(s0) && i < |ops| && ops[i].OpExecuteChange? && Succeeds(s0, ops, i)
    requires StateAt(s0, ops, i).changes[ops[i].id].change.ThresholdTo?
    ensures j < i && TimeDelayed(s0, ops, i, j, StateAt(s0, ops, i + 1).threshold)
  {
    var s, id := StateAt(s0, ops, i), ops[i].id;
    ChangeWasProposed(s0, ops, i, id);
    j :| 0 <= j < i && ProposedAt(s0, ops, j, id, s.changes[id]);
    NeverBricked(s0, ops, j);
  }

  /** Threshold changes are always delayed: in any run, a call either leaves the threshold
      alone or installs a value that one particular earlier call of the run had parked: it
      stayed pending for the whole ledger delay, or it is the change whose own timelock
      window is now open. */
  lemma ThresholdChangesAreDelayed(s0: State, ops: seq<Op>, i: nat)
    requires IsInitial(s0) && i < |ops|
    ensures !WritesThreshold(s0, ops, i) ==> StateAt(s0, ops, i + 1).threshold == StateAt(s0, ops, i).threshold
    ensures WritesThreshold(s0, ops, i) ==>
              var installed := StateAt(s0, ops, i + 1).threshold;
              exists j :: 0 <= j < i && Delayed(s0, ops, i, j, installed)
  {
    if WritesThreshold(s0, ops, i) {
      var j;
      if ops[i].OpFinalizeThreshold? {
        j := FinalizeIsDelayed(s0, ops, i);
      } else {
        j := ExecutedChangeIsDelayed(s0, ops, i);
      }
      assert Delayed(s0, ops, i, j, StateAt(s0, ops, i + 1).threshold);
    } else {
      StepThreshold(StateAt(s0, ops, i), ops[i]);
    }
  }

  /** The change `id` exists in `s` with the terms of `p`. */
  ghost predicate KeepsTerms(s: State, id: nat, p: PendingChange) {
    id in s.changes && SameTerms(p, s.changes[id])
  }

  lemma TermsStep(s: State, op: Op, i: nat, id: nat, p: PendingChange)
    requires IdsInOrder(s, i) && i < U64_MAX && KeepsTerms(s, id, p)
    ensures KeepsTerms(Next(s, op), id, p)
  {
    StepChanges(s, op, id);
  }

  lemma {:induction false} TermsStay(s0: State, ops: seq<Op>, i: nat, k: nat, id: nat, p: PendingChange)
    requires IsInitial(s0) && i <= k <= |ops| && |ops| <= U64_MAX && KeepsTerms(StateAt(s0, ops, i), id, p)
    ensures KeepsTerms(StateAt(s0, ops, k), id, p)
    decreases k
  {
    if i < k {
      TermsStay(s0, ops, i, k - 1, id, p);
      RunIdsInOrder(s0, ops, k - 1);
      TermsStep(StateAt(s0, ops, k - 1), ops[k - 1], k - 1, id, p);
    }
  }

  /** Once proposed, a change's content and its eta are fixed: no later call, delay
      changes included, moves them, and a closed change stays as it was closed. */
  lemma ChangesAreImmutable(s0: State, ops: seq<Op>, i: nat, k: nat, id: nat)
    requires IsInitial(s0) && i <= k <= |ops| && |ops| <= U64_MAX
    requires id in StateAt(s0, ops, i).changes
    ensures id in StateAt(s0, ops, k).changes
    ensures var p, q := StateAt(s0, ops, i).changes[id], StateAt(s0, ops, k).changes[id];
            && SameTerms(p, q)
            && !(q.executed && q.cancelled)
  {
    TermsStay(s0, ops, i, k, id, StateAt(s0, ops, i).changes[id]);
    NeverBricked(s0, ops, k);
  }
}

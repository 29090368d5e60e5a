/** The multisig contract as the source writes it: storage fields updated in place by
    the entrypoints. Every method is proved to commit exactly the transition of
    `MultisigModel`, so all theorems about runs apply to sequences of these calls. */
module MultisigContract {
  import opened Common
  import opened Arith
  import opened Quorum
  import M = MultisigModel

  /** A call either fails and changes nothing, or commits the model's outcome. */
  ghost predicate Commits(initialized: bool, pre: M.State, o: Result<M.Outcome>, post: M.State, r: Result<nat>) {
    if !initialized then post == pre && r == Err(NotInitialized)
    else match o
      case Err(e) => post == pre && r == Err(e)
      case Ok(out) => post == out.state && r == Ok(out.ret)
  }

  class MultiSigContract {
    var initialized: bool
    var signers: seq<Signer>
    var threshold: nat
    var locked: bool
    var proposalCount: nat
    var proposals: map<nat, M.Proposal>
    var approvals: set<(nat, Address)>
    var lastNonce: nat
    var delay: nat
    var changeCount: nat
    var changes: map<nat, M.PendingChange>
    var pending: Option<M.PendingThreshold>
    // The host's clock and ledger sequence.
    var now: nat
    var ledgerSeq: nat

    ghost function View(): M.State
      reads this
    {
      M.State(signers, threshold, locked, proposalCount, proposals, approvals, lastNonce, delay,
              changeCount, changes, pending, now, ledgerSeq)
    }

    constructor (now: nat, ledgerSeq: nat)
      ensures !initialized && this.now == now && this.ledgerSeq == ledgerSeq
    {
      initialized, this.now, this.ledgerSeq := false, now, ledgerSeq;
      signers, threshold, locked, delay := [], 0, false, 0;
      proposalCount, proposals, approvals, lastNonce := 0, map[], {}, 0;
      changeCount, changes, pending := 0, map[], None;
    }

    method Initialize(signers: seq<Signer>, threshold: nat) returns (r: Result<nat>)
      modifies this
      ensures old(initialized) ==> r == Err(AlreadyInitialized) && View() == old(View()) && initialized
      ensures !old(initialized) ==>
                match M.Initialize(signers, threshold, now, ledgerSeq)
                case Ok(s) => initialized && View() == s && r == Ok(0)
                case Err(e) => !initialized && View() == old(View()) && r == Err(e)
    {
      if initialized { return Err(AlreadyInitialized); }
      var valid := ValidateSigners(signers);
      :- valid;
      var total := ComputeTotalWeight(signers);
      var weight :- total;
      :- M.ValidateThreshold(threshold, weight);
      Install(signers, threshold);
      return Ok(0);
    }

    /** Write the instance keys of a fresh multisig. */
    method Install(signers: seq<Signer>, threshold: nat)
      modifies this
      ensures initialized
      ensures View() == M.State(signers, threshold, false, 0, map[], {}, 0, M.MIN_TIMELOCK_DELAY, 0, map[], None,
                                old(now), old(ledgerSeq))
    {
      ClearRecords();
      this.signers, this.threshold, locked := signers, threshold, false;
      delay := M.MIN_TIMELOCK_DELAY;
      initialized := true;
    }

    method ClearRecords()
      modifies this
      ensures View() == old(View()).(proposalCount := 0, proposals := map[], approvals := {}, lastNonce := 0,
                                     changeCount := 0, changes := map[], pending := None)
    {
      proposalCount, proposals, approvals, lastNonce := 0, map[], {}, 0;
      changeCount, changes, pending := 0, map[], None;
    }

    method AddSigner(caller: Address, signer: Address, weight: nat) returns (r: Result<nat>)
      modifies this
      ensures Commits(old(initialized), old(View()), M.AddSigner(old(View()), caller, signer, weight), View(), r)
    {
      if !initialized { return Err(NotInitialized); }
      :- Require(caller in AddressSet(signers), NotASigner);
      :- Require(weight != 0, InvalidSignerWeight);
      :- Require(signer !in AddressSet(signers), AlreadyExists);
      :- Require(|signers| < M.MAX_SIGNERS, TooManySigners);
      var sum := ComputeTotalWeight(signers);
      var total :- sum;
      var newTotal :- CheckedAdd(total, weight);
      :- Require(newTotal <= U32_MAX, Overflow);
      signers := signers + [Signer(signer, weight)];
      return Ok(0);
    }

    method RemoveSigner(caller: Address, signer: Address) returns (r: Result<nat>)
      modifies this
      ensures Commits(old(initialized), old(View()), M.RemoveSigner(old(View()), caller, signer), View(), r)
    {
      if !initialized { return Err(NotInitialized); }
      :- Require(caller in AddressSet(signers), NotASigner);
      var k :- IndexOf(signers, signer);
      var sum := ComputeTotalWeight(signers);
      var total :- sum;
      var rest :- CheckedSub(total, signers[k].weight);
      :- Require(rest >= threshold, InvalidThreshold);
      signers := signers[..k] + signers[k + 1..];
      return Ok(0);
    }

    method SetThreshold(caller: Address, newThreshold: nat) returns (r: Result<nat>)
      modifies this
      ensures Commits(old(initialized), old(View()), M.SetThreshold(old(View()), caller, newThreshold), View(), r)
    {
      if !initialized { return Err(NotInitialized); }
      :- Require(caller in AddressSet(signers), NotASigner);
      var sum := ComputeTotalWeight(signers);
      var total :- sum;
      :- M.ValidateThreshold(newThreshold, total);
      :- Require(threshold != newThreshold, InvalidThreshold);
      pending := Some(M.PendingThreshold(newThreshold, ledgerSeq));
      return Ok(0);
    }

    method FinalizeThreshold(caller: Address) returns (r: Result<nat>)
      modifies this
      ensures Commits(old(initialized), old(View()), M.FinalizeThreshold(old(View()), caller), View(), r)
    {
      if !initialized { return Err(NotInitialized); }
      :- Require(caller in AddressSet(signers), NotASigner);
      :- Require(pending.Some?, NotFound);
      var p := pending.value;
      :- Require(ledgerSeq >= p.effectiveFrom, TimelockNotExpired);
      :- Require(ledgerSeq - p.effectiveFrom >= M.THRESHOLD_CHANGE_DELAY_LEDGERS, TimelockNotExpired);
      var sum := ComputeTotalWeight(signers);
      var total :- sum;
      :- M.ValidateThreshold(p.newThreshold, total);
      threshold := p.newThreshold;
      pending := None;
      return Ok(0);
    }

    method ProposeChange(caller: Address, change: M.Change) returns (r: Result<nat>)
      modifies this
      ensures Commits(old(initialized), old(View()), M.ProposeChange(old(View()), caller, change), View(), r)
    {
      if !initialized { return Err(NotInitialized); }
      :- Require(!locked, EmergencyLock);
      :- Require(caller in AddressSet(signers), UnauthorizedModification);
      var valid := ValidateChange(change);
      var _ :- valid;
      var id := TruncateU64(changeCount + 1);
      var eta := now + delay;
      :- Require(eta <= U64_MAX, Overflow);
      var expiresAt := eta + M.GOVERNANCE_GRACE_PERIOD;
      :- Require(expiresAt <= U64_MAX, Overflow);
      StoreChange(id, M.PendingChange(caller, change, now, eta, expiresAt, false, false));
      return Ok(id);
    }

    method StoreChange(id: nat, entry: M.PendingChange)
      modifies this
      ensures initialized == old(initialized)
      ensures View() == old(View()).(changes := old(changes)[id := entry], changeCount := id)
    {
      changes := changes[id := entry];
      changeCount := id;
    }

    /** The live check run at proposal time and again immediately before execution. */
    method ValidateChange(change: M.Change) returns (r: Result<()>)
      ensures r == M.ValidateChange(View(), change)
    {
      var sum := ComputeTotalWeight(signers);
      var total :- sum;
      match change {
        case ThresholdTo(t) =>
          :- M.ValidateThreshold(t, total);
        case WeightTo(signer, weight) =>
          :- Require(weight != 0, InvalidSignerWeight);
          var current :- WeightIn(signers, signer);
          var rest :- CheckedSub(total, current);
          var newTotal :- CheckedAdd(rest, weight);
          :- Require(newTotal <= U32_MAX, Overflow);
          :- Require(newTotal >= threshold, InvalidThreshold);
        case Admit(signer, weight) =>
          :- Require(weight != 0, InvalidSignerWeight);
          :- Require(signer !in AddressSet(signers), AlreadyExists);
          :- Require(|signers| < M.MAX_SIGNERS, TooManySigners);
          var newTotal :- CheckedAdd(total, weight);
          :- Require(newTotal <= U32_MAX, Overflow);
        case Drop(signer) =>
          var removed :- WeightIn(signers, signer);
          var rest :- CheckedSub(total, removed);
          :- Require(rest >= threshold, InvalidThreshold);
        case DelayTo(newDelay) =>
          :- Require(M.MIN_TIMELOCK_DELAY <= newDelay <= M.MAX_TIMELOCK_DELAY, InvalidInput);
      }
      return Ok(());
    }

    method ExecuteChange(caller: Address, id: nat) returns (r: Result<nat>)
      modifies this
      ensures Commits(old(initialized), old(View()), M.ExecuteChange(old(View()), caller, id), View(), r)
    {
      if !initialized { return Err(NotInitialized); }
      :- Require(!locked, EmergencyLock);
      :- Require(caller in AddressSet(signers), UnauthorizedModification);
      :- Require(id in changes, NotFound);
      var p := changes[id];
      :- Require(!p.executed && !p.cancelled, InvalidProposalState);
      :- Require(now >= p.eta, TimelockNotExpired);
      :- Require(now < p.expiresAt, ProposalExpired);
      var valid := ValidateChange(p.change);
      var _ :- valid;
      ApplyChange(p.change);
      changes := changes[id := p.(executed := true)];
      return Ok(0);
    }

    /** Commit a change that has just been validated against live state. */
    method ApplyChange(change: M.Change)
      requires M.ValidateChange(View(), change).Ok?
      modifies this
      ensures M.ApplyChange(old(View()), change) == Ok(View()) && initialized == old(initialized)
    {
      match change {
        case ThresholdTo(t) => threshold := t;
        case WeightTo(signer, weight) =>
          var k := IndexOf(signers, signer).value;
          signers := signers[k := signers[k].(weight := weight)];
        case Admit(signer, weight) => signers := signers + [Signer(signer, weight)];
        case Drop(signer) =>
          var k := IndexOf(signers, signer).value;
          signers := signers[..k] + signers[k + 1..];
        case DelayTo(newDelay) => delay := newDelay;
      }
    }

    method CancelChange(caller: Address, id: nat) returns (r: Result<nat>)
      modifies this
      ensures Commits(old(initialized), old(View()), M.CancelChange(old(View()), caller, id), View(), r)
    {
      if !initialized { return Err(NotInitialized); }
      :- Require(caller in AddressSet(signers), UnauthorizedModification);
      :- Require(id in changes, NotFound);
      var p := changes[id];
      :- Require(!p.executed && !p.cancelled, InvalidProposalState);
      changes := changes[id := p.(cancelled := true)];
      return Ok(0);
    }

    method SetEmergencyLock(caller: Address, lock: bool) returns (r: Result<nat>)
      modifies this
      ensures Commits(old(initialized), old(View()), M.SetEmergencyLock(old(View()), caller, lock), View(), r)
    {
      if !initialized { return Err(NotInitialized); }
      :- Require(caller in AddressSet(signers), NotASigner);
      locked := lock;
      return Ok(0);
    }

    /** `live_tally`: rebuilt from the approval flags of the current signer set. */
    method LiveTally(id: nat, flags: set<(nat, Address)>) returns (r: Result<nat>)
      ensures r == M.LiveTally(View().(approvals := flags), id)
    {
      ghost var approvers := M.Approvers(View().(approvals := flags), id);
      var total := 0;
      for i := 0 to |signers|
        invariant total == WeightOfSet(signers[..i], approvers)
      {
        assert signers[..i + 1][..i] == signers[..i];
        PrefixWeight(signers, approvers, i + 1);
        if (id, signers[i].address) in flags {
          total :- CheckedAdd(total, signers[i].weight);
        }
      }
      assert signers[..|signers|] == signers;
      return Narrow(total);
    }

    method Propose(proposer: Address, action: string, unlockAt: nat) returns (r: Result<nat>)
      modifies this
      ensures Commits(old(initialized), old(View()), M.Propose(old(View()), proposer, action, unlockAt), View(), r)
    {
      if !initialized { return Err(NotInitialized); }
      :- Require(!locked, EmergencyLock);
      var weight :- WeightIn(signers, proposer);
      var id := TruncateU64(proposalCount + 1);
      var earliest := SaturateU64(now + delay);
      var effective := if M.IsGovernanceAction(action) && unlockAt < earliest then earliest else unlockAt;
      var flags := approvals + {(id, proposer)};
      var tally := LiveTally(id, flags);
      var _ :- tally;
      var sum := ComputeTotalWeight(signers);
      var _ :- sum;
      StoreProposal(id, M.Proposal(proposer, action, weight, false, effective), flags);
      return Ok(id);
    }

    method StoreProposal(id: nat, entry: M.Proposal, flags: set<(nat, Address)>)
      modifies this
      ensures initialized == old(initialized)
      ensures View() == old(View()).(proposals := old(proposals)[id := entry], approvals := flags, proposalCount := id)
    {
      proposals := proposals[id := entry];
      approvals := flags;
      proposalCount := id;
    }

    method Approve(caller: Address, id: nat) returns (r: Result<nat>)
      modifies this
      ensures Commits(old(initialized), old(View()), M.Approve(old(View()), caller, id), View(), r)
    {
      if !initialized { return Err(NotInitialized); }
      :- Require(!locked, EmergencyLock);
      var _ :- WeightIn(signers, caller);
      :- Require(id in proposals, NotFound);
      :- Require(!proposals[id].executed, InvalidProposalState);
      :- Require((id, caller) !in approvals, AlreadySigned);
      var flags := approvals + {(id, caller)};
      var tally := LiveTally(id, flags);
      var weight :- tally;
      var sum := ComputeTotalWeight(signers);
      var _ :- sum;
      approvals := flags;
      proposals := proposals[id := proposals[id].(approvalWeight := weight)];
      return Ok(weight);
    }

    method Execute(caller: Address, id: nat) returns (r: Result<nat>)
      modifies this
      ensures Commits(old(initialized), old(View()), M.Execute(old(View()), caller, id), View(), r)
    {
      if !initialized { return Err(NotInitialized); }
      :- Require(!locked, EmergencyLock);
      :- Require(caller in AddressSet(signers), NotASigner);
      :- Require(id in proposals, NotFound);
      var p := proposals[id];
      :- Require(!p.executed, InvalidProposalState);
      var tally := LiveTally(id, approvals);
      var weight :- tally;
      var sum := ComputeTotalWeight(signers);
      var _ :- sum;
      :- Require(weight >= threshold, InsufficientWeight);
      :- Require(p.unlockAt == 0 || now >= p.unlockAt, TimelockNotExpired);
      proposals := proposals[id := p.(approvalWeight := weight, executed := true)];
      return Ok(0);
    }

    method ExecuteBatch(caller: Address, nonce: nat, calls: nat, approvers: seq<Address>, callFailure: Option<Error>)
      returns (r: Result<nat>)
      modifies this
      ensures Commits(old(initialized), old(View()),
                      M.ExecuteBatch(old(View()), caller, nonce, calls, approvers, callFailure), View(), r)
    {
      if !initialized { return Err(NotInitialized); }
      :- Require(!locked, EmergencyLock);
      :- Require(caller in AddressSet(signers), NotASigner);
      :- Require(0 < calls <= M.MAX_BATCH_CALLS, InvalidInput);
      :- Require(|approvers| <= M.MAX_SIGNERS, InvalidInput);
      :- Require(nonce > lastNonce, InvalidNonce);
      var counted := ComputeAccumulatedWeight(signers, caller, approvers);
      var weight :- counted;
      :- Require(weight >= threshold, ThresholdNotMet);
      var sum := ComputeTotalWeight(signers);
      var _ :- sum;
      if callFailure.Some? { return Err(callFailure.value); }
      lastNonce := nonce;
      return Ok(0);
    }

    method VerifyThreshold(caller: Address, signatories: seq<Address>) returns (r: Result<int>)
      ensures initialized ==> r == M.VerifyThreshold(View(), caller, signatories)
      ensures !initialized ==>
                r == Err(if locked then EmergencyLock
                         else if |signatories| > M.MAX_SIGNERS then InvalidInput
                         else NotInitialized)
    {
      if locked { return Err(EmergencyLock); }
      :- Require(|signatories| <= M.MAX_SIGNERS, InvalidInput);
      :- Require(initialized, NotInitialized);
      var counted := ComputeAccumulatedWeight(signers, caller, signatories);
      var weight :- counted;
      :- Require(weight >= threshold, ThresholdNotMet);
      return Ok(weight);
    }

    /** The host moves its clock and ledger sequence forward between calls. */
    method Tick(seconds: nat, ledgers: nat)
      modifies this
      ensures View() == M.Next(old(View()), M.OpTick(seconds, ledgers)) && initialized == old(initialized)
    {
      now := now + seconds;
      ledgerSeq := ledgerSeq + ledgers;
    }
  }

  lemma PrefixWeight(signers: seq<Signer>, who: set<Address>, n: nat)
    requires n <= |signers|
    ensures WeightOfSet(signers[..n], who) <= WeightOfSet(signers, who)
  {
    if n < |signers| {
      PrefixWeight(signers[..|signers| - 1], who, n);
      assert signers[..|signers| - 1][..n] == signers[..n];
    } else {
      assert signers[..n] == signers;
    }
  }

  method ValidateSigners(signers: seq<Signer>) returns (g: Guard)
    ensures g == M.ValidateSigners(signers)
  {
    if |signers| == 0 || |signers| > M.MAX_SIGNERS { return Fail(InvalidInput); }
    for i := 0 to |signers|
      invariant forall k :: 0 <= k < i ==> signers[k].weight != 0
    {
      if signers[i].weight == 0 { return Fail(InsufficientWeight); }
    }
    var duplicate := HasDuplicate(Addresses(signers));
    SameAddresses(signers);
    return Require(!duplicate, InvalidInput);
  }
}

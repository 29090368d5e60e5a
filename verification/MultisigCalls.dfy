/** When the multisig accepts a call and what an accepted call does, stated on the roster of
    weights and on the votes of the run, apart from the transitions themselves. */
module MultisigCalls {
  import opened Common
  import opened Arith
  import opened Quorum
  import opened MultisigModel
  import opened MultisigTheorems

  // ----- the signer list read as a table -----

  /** Who carries which weight. */
  function Roster(signers: seq<Signer>): map<Address, nat> {
    map a | a in AddressSet(signers) :: WeightOfSet(signers, {a})
  }

  lemma RosterAt(signers: seq<Signer>, k: nat)
    requires Unique(signers) && k < |signers|
    ensures signers[k].address in Roster(signers) && Roster(signers)[signers[k].address] == signers[k].weight
  {
    SetWeightOfNobody(signers, {});
    SetWeightAdd(signers, {}, k);
    assert {} + {signers[k].address} == {signers[k].address};
  }

  /** A table with the same entries is the roster. */
  lemma RosterIs(signers: seq<Signer>, table: map<Address, nat>)
    requires Unique(signers) && table.Keys == AddressSet(signers)
    requires forall k :: 0 <= k < |signers| ==> table[signers[k].address] == signers[k].weight
    ensures Roster(signers) == table
  {
    forall a | a in table ensures Roster(signers)[a] == table[a] {
      var k :| 0 <= k < |signers| && signers[k].address == a;
      RosterAt(signers, k);
    }
  }

  lemma RosterAdmits(signers: seq<Signer>, extra: Signer)
    requires Unique(signers) && extra.address !in AddressSet(signers)
    ensures Roster(signers + [extra]) == Roster(signers)[extra.address := extra.weight]
  {
    var after, table := signers + [extra], Roster(signers)[extra.address := extra.weight];
    forall a | a in table ensures a in AddressSet(after) {
      if a in AddressSet(signers) {
        var k :| 0 <= k < |signers| && signers[k].address == a;
        assert after[k].address == a;
      } else {
        assert after[|signers|].address == a;
      }
    }
    forall k | 0 <= k < |after| ensures after[k].address in table && table[after[k].address] == after[k].weight {
      if k < |signers| { RosterAt(signers, k); }
    }
    RosterIs(after, table);
  }

  lemma RosterReweighs(signers: seq<Signer>, k: nat, w: nat)
    requires Unique(signers) && k < |signers|
    ensures Roster(signers[k := signers[k].(weight := w)]) == Roster(signers)[signers[k].address := w]
  {
    var after, table := signers[k := signers[k].(weight := w)], Roster(signers)[signers[k].address := w];
    RosterAt(signers, k);
    forall j | 0 <= j < |after| ensures after[j].address in table && table[after[j].address] == after[j].weight {
      RosterAt(signers, j);
    }
    forall a | a in table ensures a in AddressSet(after) {
      var j :| 0 <= j < |signers| && signers[j].address == a;
      assert after[j].address == a;
    }
    RosterIs(after, table);
  }

  lemma RosterDrops(signers: seq<Signer>, k: nat)
    requires Unique(signers) && k < |signers|
    ensures Roster(WithoutIndex(signers, k)) == Roster(signers) - {signers[k].address}
  {
    var after, table := WithoutIndex(signers, k), Roster(signers) - {signers[k].address};
    forall j | 0 <= j < |after| ensures after[j].address in table && table[after[j].address] == after[j].weight {
      RosterAt(signers, if j < k then j else j + 1);
    }
    forall a | a in table ensures a in AddressSet(after) {
      var j :| 0 <= j < |signers| && signers[j].address == a;
      assert after[if j < k then j else j - 1].address == a;
    }
    RosterIs(after, table);
  }

  lemma RosterLookup(signers: seq<Signer>, who: Address)
    requires Unique(signers)
    ensures WeightIn(signers, who) == if who in Roster(signers) then Ok(Roster(signers)[who]) else Err(NotASigner)
    ensures who in Roster(signers) ==> Roster(signers)[who] <= SumOfWeights(signers)
  {
    if who in Roster(signers) {
      RosterAt(signers, IndexOf(signers, who).value);
      OneAtMostTotal(signers, IndexOf(signers, who).value);
    }
  }

  // ----- governance changes -----

  /** The refusals `change` meets on the live configuration. */
  ghost predicate Flawed(s: State, change: Change, e: Error) {
    var roster, total := Roster(s.signers), SumOfWeights(s.signers);
    match change
    case ThresholdTo(t) => e == InvalidThreshold && !(1 <= t <= total)
    case WeightTo(who, weight) =>
      || (e == InvalidSignerWeight && weight == 0)
      || (e == NotASigner && who !in roster)
      || (e == Overflow && who in roster && total - roster[who] + weight > U32_MAX)
      || (e == InvalidThreshold && who in roster && total - roster[who] + weight < s.threshold)
    case Admit(who, weight) =>
      || (e == InvalidSignerWeight && weight == 0)
      || (e == AlreadyExists && who in roster)
      || (e == TooManySigners && |s.signers| >= 20)
      || (e == Overflow && total + weight > U32_MAX)
    case Drop(who) =>
      || (e == NotASigner && who !in roster)
      || (e == InvalidThreshold && who in roster && total - roster[who] < s.threshold)
    case DelayTo(delay) => e == InvalidInput && !(86_400 <= delay <= 2_592_000)
  }

  /** What the change names is what `t` differs from `s` in. */
  ghost predicate Enacted(s: State, change: Change, t: State) {
    match change
    case ThresholdTo(threshold) => t == s.(threshold := threshold)
    case WeightTo(who, weight) =>
      && t == s.(signers := t.signers) && who in Roster(s.signers)
      && Roster(t.signers) == Roster(s.signers)[who := weight]
    case Admit(who, weight) =>
      && t == s.(signers := t.signers) && who !in Roster(s.signers)
      && Roster(t.signers) == Roster(s.signers)[who := weight]
    case Drop(who) =>
      && t == s.(signers := t.signers) && who in Roster(s.signers)
      && Roster(t.signers) == Roster(s.signers) - {who}
    case DelayTo(delay) => t == s.(delay := delay)
  }

  /** A check fails exactly when a flaw applies, with one that does. */
  ghost predicate Checked(s: State, change: Change) {
    match ValidateChange(s, change)
    case Ok(_) => forall e :: !Flawed(s, change, e)
    case Err(e) => Flawed(s, change, e)
  }

  lemma ReweighDecided(s: State, who: Address, weight: nat)
    requires Inv(s)
    ensures Checked(s, WeightTo(who, weight))
  {
    RosterLookup(s.signers, who);
  }

  lemma AdmitDecided(s: State, who: Address, weight: nat)
    requires Inv(s)
    ensures Checked(s, Admit(who, weight))
  {
  }

  lemma DropDecided(s: State, who: Address)
    requires Inv(s)
    ensures Checked(s, Drop(who))
  {
    RosterLookup(s.signers, who);
  }

  lemma ChangeDecided(s: State, change: Change)
    requires Inv(s)
    ensures Checked(s, change)
  {
    match change
    case ThresholdTo(_) =>
    case WeightTo(who, weight) => ReweighDecided(s, who, weight);
    case Admit(who, weight) => AdmitDecided(s, who, weight);
    case Drop(who) => DropDecided(s, who);
    case DelayTo(_) =>
  }

  lemma ChangeEnacts(s: State, change: Change)
    requires Inv(s) && ValidateChange(s, change).Ok?
    ensures ApplyChange(s, change).Ok? && Enacted(s, change, ApplyChange(s, change).value)
  {
    ChangeDecided(s, change);
    match change
    case WeightTo(who, weight) => RosterReweighs(s.signers, IndexOf(s.signers, who).value, weight);
    case Admit(who, weight) => RosterAdmits(s.signers, Signer(who, weight));
    case Drop(who) => RosterDrops(s.signers, IndexOf(s.signers, who).value);
    case _ =>
  }

  // ----- every call -----

  /** The combined weight of the current signers carrying a flag on proposal `id`. */
  ghost function FlaggedWeight(s: State, flags: set<(nat, Address)>, id: nat): nat {
    WeightOfSet(s.signers, set a | a in Roster(s.signers) && (id, a) in flags)
  }

  /** The signatories are registered, and their combined weight is short of the threshold. */
  ghost predicate Short(s: State, caller: Address, signatories: seq<Address>) {
    AllRegistered(s.signers, caller, signatories)
    && WeightOfSet(s.signers, SignerSet(caller, signatories)) < s.threshold
  }

  /** The refusals a call on the signer set or the threshold meets. */
  ghost predicate RefusedSetup(s: State, op: Op, e: Error) {
    var total := SumOfWeights(s.signers);
    match op
    case OpAddSigner(caller, signer, weight) =>
      (e == NotASigner && caller !in Roster(s.signers)) || Flawed(s, Admit(signer, weight), e)
    case OpRemoveSigner(caller, signer) =>
      (e == NotASigner && caller !in Roster(s.signers)) || Flawed(s, Drop(signer), e)
    case OpSetThreshold(caller, threshold) =>
      || (e == NotASigner && caller !in Roster(s.signers))
      || (e == InvalidThreshold && (!(1 <= threshold <= total) || threshold == s.threshold))
    case OpFinalizeThreshold(caller) =>
      || (e == NotASigner && caller !in Roster(s.signers))
      || (e == NotFound && s.pending.None?)
      || (s.pending.Some? && e == TimelockNotExpired && s.ledgerSeq < s.pending.value.effectiveFrom + 17_280)
      || (s.pending.Some? && e == InvalidThreshold && !(1 <= s.pending.value.newThreshold <= total))
    case OpProposeChange(caller, change) =>
      || (e == EmergencyLock && s.locked)
      || (e == UnauthorizedModification && caller !in Roster(s.signers))
      || Flawed(s, change, e)
      || (e == Overflow && s.now + s.delay + 604_800 > U64_MAX)
    case OpExecuteChange(caller, id) =>
      || (e == EmergencyLock && s.locked)
      || (e == UnauthorizedModification && caller !in Roster(s.signers))
      || (e == NotFound && id !in s.changes)
      || (id in s.changes && var p := s.changes[id];
          || (e == InvalidProposalState && (p.executed || p.cancelled))
          || (e == TimelockNotExpired && s.now < p.eta)
          || (e == ProposalExpired && s.now >= p.expiresAt)
          || Flawed(s, p.change, e))
    case OpCancelChange(caller, id) =>
      || (e == UnauthorizedModification && caller !in Roster(s.signers))
      || (e == NotFound && id !in s.changes)
      || (e == InvalidProposalState && id in s.changes && (s.changes[id].executed || s.changes[id].cancelled))
    case _ => false
  }

  /** The refusals a call of the proposal and batch flows meets. */
  ghost predicate RefusedVote(s: State, op: Op, e: Error) {
    match op
    case OpSetEmergencyLock(caller, _) => e == NotASigner && caller !in Roster(s.signers)
    case OpPropose(caller, _, _) =>
      (e == EmergencyLock && s.locked) || (e == NotASigner && caller !in Roster(s.signers))
    case OpApprove(caller, id) =>
      || (e == EmergencyLock && s.locked)
      || (e == NotASigner && caller !in Roster(s.signers))
      || (e == NotFound && id !in s.proposals)
      || (e == InvalidProposalState && id in s.proposals && s.proposals[id].executed)
      || (e == AlreadySigned && (id, caller) in s.approvals)
    case OpExecute(caller, id) =>
      || (e == EmergencyLock && s.locked)
      || (e == NotASigner && caller !in Roster(s.signers))
      || (e == NotFound && id !in s.proposals)
      || (e == InvalidProposalState && id in s.proposals && s.proposals[id].executed)
      || (e == InsufficientWeight && FlaggedWeight(s, s.approvals, id) < s.threshold)
      || (e == TimelockNotExpired && id in s.proposals && s.now < s.proposals[id].unlockAt)
    case OpExecuteBatch(caller, nonce, calls, approvers, callFailure) =>
      || (e == EmergencyLock && s.locked)
      || (e == NotASigner && !AllRegistered(s.signers, caller, approvers))
      || (e == InvalidInput && (calls == 0 || calls > 16 || |approvers| > 20))
      || (e == InvalidNonce && nonce <= s.lastNonce)
      || (e == ThresholdNotMet && Short(s, caller, approvers))
      || callFailure == Some(e)
    case _ => false
  }

  ghost predicate Refused(s: State, op: Op, e: Error) {
    if Governs(op) then RefusedSetup(s, op, e) else RefusedVote(s, op, e)
  }

  /** What an accepted call stores and answers. */
  ghost predicate Accepted(s: State, op: Op, t: State, ret: nat) {
    match op
    case OpAddSigner(_, signer, weight) => Enacted(s, Admit(signer, weight), t) && ret == 0
    case OpRemoveSigner(_, signer) => Enacted(s, Drop(signer), t) && ret == 0
    case OpSetThreshold(_, threshold) =>
      t == s.(pending := Some(PendingThreshold(threshold, s.ledgerSeq))) && ret == 0
    case OpFinalizeThreshold(_) =>
      s.pending.Some? && t == s.(threshold := s.pending.value.newThreshold, pending := None) && ret == 0
    case OpProposeChange(caller, change) =>
      && ret == (s.changeCount + 1) % 0x1_0000_0000_0000_0000
      && t == s.(changeCount := ret, changes := s.changes[ret := PendingChange(
                 caller, change, s.now, s.now + s.delay, s.now + s.delay + 604_800, false, false)])
    case OpExecuteChange(_, id) =>
      && id in s.changes && Enacted(s, s.changes[id].change, t.(changes := s.changes)) && ret == 0
      && t.changes == s.changes[id := s.changes[id].(executed := true)]
    case OpCancelChange(_, id) =>
      id in s.changes && t == s.(changes := s.changes[id := s.changes[id].(cancelled := true)]) && ret == 0
    case OpSetEmergencyLock(_, lock) => t == s.(locked := lock) && ret == 0
    case OpPropose(caller, action, unlockAt) =>
      && ret == (s.proposalCount + 1) % 0x1_0000_0000_0000_0000
      && caller in Roster(s.signers)
      && var earliest := if action in {"weight", "threshold", "signer", "quorum", "config"}
                         then Min(s.now + s.delay, U64_MAX) else 0;
         t == s.(proposalCount := ret, approvals := s.approvals + {(ret, caller)},
                 proposals := s.proposals[ret := Proposal(caller, action, Roster(s.signers)[caller], false,
                                                          Max(unlockAt, earliest))])
    case OpApprove(caller, id) =>
      && id in s.proposals && ret == FlaggedWeight(s, t.approvals, id)
      && t == s.(approvals := s.approvals + {(id, caller)},
                 proposals := s.proposals[id := s.proposals[id].(approvalWeight := ret)])
    case OpExecute(_, id) =>
      && id in s.proposals && ret == 0
      && t == s.(proposals := s.proposals[id := s.proposals[id].(
                   executed := true, approvalWeight := FlaggedWeight(s, s.approvals, id))])
    case OpExecuteBatch(_, nonce, _, _, _) => t == s.(lastNonce := nonce) && ret == 0
    case OpTick(seconds, ledgers) =>
      t == s.(now := s.now + seconds, ledgerSeq := s.ledgerSeq + ledgers) && ret == 0
  }

  /** The call fails exactly when a refusal applies, with one that does; otherwise it commits
      what it should. */
  ghost predicate Decided(s: State, op: Op) {
    match Exec(s, op)
    case Err(e) => Refused(s, op, e)
    case Ok(o) => (forall e :: !Refused(s, op, e)) && Accepted(s, op, o.state, o.ret)
  }

  lemma FlagsAreLive(s: State, flags: set<(nat, Address)>, id: nat)
    requires Inv(s)
    ensures LiveTally(s.(approvals := flags), id) == Ok(FlaggedWeight(s, flags, id))
  {
    var approvers := set a | a in Roster(s.signers) && (id, a) in flags;
    assert Approvers(s.(approvals := flags), id) == approvers;
    SetWeightAtMostTotal(s.signers, approvers);
  }

  lemma SignaturesDecided(s: State, caller: Address, signatories: seq<Address>)
    requires Inv(s)
    ensures AccumulateWeight(s.signers, caller, signatories) ==
            if AllRegistered(s.signers, caller, signatories)
            then Ok(WeightOfSet(s.signers, SignerSet(caller, signatories))) else Err(NotASigner)
  {
    forall k | 0 <= k < |s.signers| ensures s.signers[k].weight <= U32_MAX { OneAtMostTotal(s.signers, k); }
    AccumulateIsSetWeight(s.signers, caller, signatories);
  }

  lemma AddSignerDecided(s: State, op: Op)
    requires Inv(s) && op.OpAddSigner?
    ensures Decided(s, op)
  {
    if Exec(s, op).Ok? { RosterAdmits(s.signers, Signer(op.signer, op.weight)); }
  }

  lemma RemoveSignerDecided(s: State, op: Op)
    requires Inv(s) && op.OpRemoveSigner?
    ensures Decided(s, op)
  {
    RosterLookup(s.signers, op.signer);
    if Exec(s, op).Ok? { RosterDrops(s.signers, IndexOf(s.signers, op.signer).value); }
  }

  lemma ThresholdDecided(s: State, op: Op)
    requires Inv(s) && (op.OpSetThreshold? || op.OpFinalizeThreshold?)
    ensures Decided(s, op)
  {
  }

  lemma ProposeChangeDecided(s: State, op: Op)
    requires Inv(s) && op.OpProposeChange?
    ensures Decided(s, op)
  {
    ChangeDecided(s, op.change);
  }

  lemma CancelChangeDecided(s: State, op: Op)
    requires Inv(s) && op.OpCancelChange?
    ensures Decided(s, op)
  {
  }

  lemma SetupDecided(s: State, op: Op)
    requires Inv(s) && Governs(op)
    ensures Decided(s, op)
  {
    match op
    case OpAddSigner(_, _, _) => AddSignerDecided(s, op);
    case OpRemoveSigner(_, _) => RemoveSignerDecided(s, op);
    case OpProposeChange(_, _) => ProposeChangeDecided(s, op);
    case OpExecuteChange(_, _) => ExecuteChangeDecided(s, op);
    case OpCancelChange(_, _) => CancelChangeDecided(s, op);
    case _ => ThresholdDecided(s, op);
  }

  lemma ExecuteChangeDecided(s: State, op: Op)
    requires Inv(s) && op.OpExecuteChange?
    ensures Decided(s, op)
  {
    if op.id in s.changes {
      var change := s.changes[op.id].change;
      ChangeDecided(s, change);
      if ValidateChange(s, change).Ok? { ChangeEnacts(s, change); }
    }
  }

  lemma ApproveDecided(s: State, op: Op)
    requires Inv(s) && op.OpApprove?
    ensures Decided(s, op)
  {
    RosterLookup(s.signers, op.caller);
    FlagsAreLive(s, s.approvals + {(op.id, op.caller)}, op.id);
  }

  lemma ExecuteDecided(s: State, op: Op)
    requires Inv(s) && op.OpExecute?
    ensures Decided(s, op)
  {
    assert s.(approvals := s.approvals) == s;
    FlagsAreLive(s, s.approvals, op.id);
  }

  lemma ProposeDecided(s: State, op: Op)
    requires Inv(s) && op.OpPropose?
    ensures Decided(s, op)
  {
    RosterLookup(s.signers, op.caller);
    var id := TruncateU64(s.proposalCount + 1);
    var flags := s.approvals + {(id, op.caller)};
    FlagsAreLive(s, flags, id);
    var next := Propose(s, op.caller, op.action, op.unlockAt);
    assert next.Ok? ==> Approvers(next.value.state, id) == Approvers(s.(approvals := flags), id);
  }

  lemma BatchDecided(s: State, op: Op)
    requires Inv(s) && op.OpExecuteBatch?
    ensures Decided(s, op)
  {
    SignaturesDecided(s, op.caller, op.approvers);
  }

  lemma AnyCallDecided(s: State, op: Op)
    requires Inv(s)
    ensures Decided(s, op)
  {
    if Governs(op) {
      SetupDecided(s, op);
    } else {
      match op
      case OpPropose(_, _, _) => ProposeDecided(s, op);
      case OpApprove(_, _) => ApproveDecided(s, op);
      case OpExecute(_, _) => ExecuteDecided(s, op);
      case OpExecuteBatch(_, _, _, _, _) => BatchDecided(s, op);
      case _ =>
    }
  }

  /** In every reachable state, every call fails exactly when a refusal applies, with one that
      does, and otherwise stores and answers what it should. */
  lemma CallDecided(s0: State, ops: seq<Op>, i: nat)
    requires IsInitial(s0) && i < |ops|
    ensures Decided(StateAt(s0, ops, i), ops[i])
  {
    NeverBricked(s0, ops, i);
    AnyCallDecided(StateAt(s0, ops, i), ops[i]);
  }

  /** The read-only threshold check answers the combined weight, or one of its refusals. */
  lemma VerifyThresholdDecided(s0: State, ops: seq<Op>, i: nat, caller: Address, signatories: seq<Address>)
    requires IsInitial(s0) && i <= |ops|
    ensures var s := StateAt(s0, ops, i);
            match VerifyThreshold(s, caller, signatories)
            case Ok(weight) =>
              && !s.locked && |signatories| <= 20 && AllRegistered(s.signers, caller, signatories)
              && weight == WeightOfSet(s.signers, SignerSet(caller, signatories)) >= s.threshold
            case Err(e) =>
              || (e == EmergencyLock && s.locked)
              || (e == InvalidInput && |signatories| > 20)
              || (e == NotASigner && !AllRegistered(s.signers, caller, signatories))
              || (e == ThresholdNotMet && Short(s, caller, signatories))
  {
    NeverBricked(s0, ops, i);
    SignaturesDecided(StateAt(s0, ops, i), caller, signatories);
  }

  /** Initialization accepts exactly the signer sets that can reach their threshold. */
  lemma InitializeDecided(signers: seq<Signer>, threshold: nat, now: nat, ledgerSeq: nat)
    ensures Initialize(signers, threshold, now, ledgerSeq).Ok? <==>
            && 1 <= |signers| <= 20 && Unique(signers)
            && (forall k :: 0 <= k < |signers| ==> signers[k].weight > 0)
            && SumOfWeights(signers) <= U32_MAX && 1 <= threshold <= SumOfWeights(signers)
    ensures match Initialize(signers, threshold, now, ledgerSeq)
            case Ok(s) =>
              s == State(signers, threshold, false, 0, map[], {}, 0, 86_400, 0, map[], None, now, ledgerSeq)
            case Err(e) =>
              || (e == InvalidInput && (!(1 <= |signers| <= 20) || !Unique(signers)))
              || (e == InsufficientWeight && exists k :: 0 <= k < |signers| && signers[k].weight == 0)
              || (e == Overflow && SumOfWeights(signers) > U32_MAX)
              || (e == InvalidThreshold && !(1 <= threshold <= SumOfWeights(signers)))
  {
  }

  // ----- execution is decided by the votes of the run -----

  lemma FlagsGrow(s: State, op: Op)
    ensures s.approvals <= Next(s, op).approvals
    ensures forall id: nat, who :: IsVote(s, op, who, id) ==> (id, who) in Next(s, op).approvals
  {
    if Governs(op) { GovernFrame(s, op); }
  }

  lemma FlagStep(s0: State, ops: seq<Op>, i: nat)
    requires i < |ops|
    ensures StateAt(s0, ops, i).approvals <= StateAt(s0, ops, i + 1).approvals
  {
    FlagsGrow(StateAt(s0, ops, i), ops[i]);
  }

  lemma {:induction false} FlagsStay(s0: State, ops: seq<Op>, i: nat, k: nat, flags: set<(nat, Address)>)
    requires i <= k <= |ops| && flags <= StateAt(s0, ops, i).approvals
    ensures flags <= StateAt(s0, ops, k).approvals
    decreases k - i
  {
    if i < k {
      FlagStep(s0, ops, i);
      FlagsStay(s0, ops, i + 1, k, flags);
    }
  }

  /** Every vote of the run is a flag from then on. */
  lemma VotesAreFlags(s0: State, ops: seq<Op>, j: nat, i: nat, who: Address, id: nat)
    requires j < i <= |ops| && VotedAt(s0, ops, j, who, id)
    ensures (id, who) in StateAt(s0, ops, i).approvals
  {
    FlagsGrow(StateAt(s0, ops, j), ops[j]);
    FlagsStay(s0, ops, j + 1, i, {(id, who)});
  }

  /** The current signers who voted for proposal `id` themselves earlier in the run. */
  ghost function Voters(s0: State, ops: seq<Op>, i: nat, id: nat): set<Address>
    requires i <= |ops|
  {
    set a | a in Roster(StateAt(s0, ops, i).signers) && Voted(s0, ops, i, a, id)
  }

  /** Over every run: an execution succeeds if and only if the contract is unlocked, the caller
      is a signer, the proposal exists, has not run, is past its unlock time, and the current
      weights of the current signers who voted for it themselves reach the threshold. It then
      marks the proposal executed. */
  lemma ExecutionDecidedByVotes(s0: State, ops: seq<Op>, i: nat)
    requires IsInitial(s0) && i < |ops| && ops[i].OpExecute?
    ensures var s, id := StateAt(s0, ops, i), ops[i].id;
            Succeeds(s0, ops, i) <==>
            && !s.locked && ops[i].caller in Roster(s.signers)
            && id in s.proposals && !s.proposals[id].executed && s.now >= s.proposals[id].unlockAt
            && WeightOfSet(s.signers, Voters(s0, ops, i, id)) >= s.threshold
    ensures Succeeds(s0, ops, i) ==>
              ops[i].id in StateAt(s0, ops, i + 1).proposals && StateAt(s0, ops, i + 1).proposals[ops[i].id].executed
  {
    var s, id := StateAt(s0, ops, i), ops[i].id;
    CallDecided(s0, ops, i);
    forall a | a in Roster(s.signers) ensures (id, a) in s.approvals <==> Voted(s0, ops, i, a, id) {
      if (id, a) in s.approvals { FlagsAreVotes(s0, ops, i, a, id); }
      if Voted(s0, ops, i, a, id) {
        var j :| 0 <= j < i && VotedAt(s0, ops, j, a, id);
        VotesAreFlags(s0, ops, j, i, a, id);
      }
    }
    assert (set a | a in Roster(s.signers) && (id, a) in s.approvals) == Voters(s0, ops, i, id);
    ExecuteRefusals(s, ops[i]);
  }

  lemma ExecuteRefusals(s: State, op: Op)
    requires op.OpExecute? && Decided(s, op)
    ensures Exec(s, op).Ok? <==>
            && !s.locked && op.caller in Roster(s.signers)
            && op.id in s.proposals && !s.proposals[op.id].executed && s.now >= s.proposals[op.id].unlockAt
            && FlaggedWeight(s, s.approvals, op.id) >= s.threshold
  {
    ExecuteRefused(s, op);
    if Exec(s, op).Ok? {
      assert !Refused(s, op, EmergencyLock) && !Refused(s, op, NotASigner) && !Refused(s, op, NotFound);
      assert !Refused(s, op, InvalidProposalState) && !Refused(s, op, InsufficientWeight);
      assert !Refused(s, op, TimelockNotExpired);
    }
  }

  /** The refusals of an execution, written out. */
  lemma ExecuteRefused(s: State, op: Op)
    requires op.OpExecute?
    ensures forall e :: Refused(s, op, e) <==>
              || (e == EmergencyLock && s.locked)
              || (e == NotASigner && op.caller !in Roster(s.signers))
              || (e == NotFound && op.id !in s.proposals)
              || (e == InvalidProposalState && op.id in s.proposals && s.proposals[op.id].executed)
              || (e == InsufficientWeight && FlaggedWeight(s, s.approvals, op.id) < s.threshold)
              || (e == TimelockNotExpired && op.id in s.proposals && s.now < s.proposals[op.id].unlockAt)
  {
  }

  // ----- a change closes by its own call and for good -----

  ghost predicate ClosedAt(s0: State, ops: seq<Op>, j: nat, id: nat)
    requires j < |ops|
  {
    Succeeds(s0, ops, j) && (ops[j].OpExecuteChange? || ops[j].OpCancelChange?) && ops[j].id == id
  }

  /** After a successful execution or cancellation the change carries exactly that mark at every
      later state, and no later execution or cancellation of it succeeds. */
  lemma ClosedForGood(s0: State, ops: seq<Op>, j: nat, k: nat, id: nat)
    requires IsInitial(s0) && j < k <= |ops| <= U64_MAX && ClosedAt(s0, ops, j, id)
    ensures var t := StateAt(s0, ops, k);
            && id in t.changes
            && t.changes[id].cancelled == ops[j].OpCancelChange?
            && t.changes[id].executed == ops[j].OpExecuteChange?
    ensures k < |ops| ==> !ClosedAt(s0, ops, k, id)
  {
    CallDecided(s0, ops, j);
    ClosingMark(StateAt(s0, ops, j), ops[j]);
    TermsStay(s0, ops, j + 1, k, id, StateAt(s0, ops, j + 1).changes[id]);
    if k < |ops| && ClosedAt(s0, ops, k, id) {
      CallDecided(s0, ops, k);
      ClosingMark(StateAt(s0, ops, k), ops[k]);
    }
  }

  lemma ClosingMark(s: State, op: Op)
    requires (op.OpExecuteChange? || op.OpCancelChange?) && Exec(s, op).Ok? && Decided(s, op)
    ensures op.id in s.changes && !s.changes[op.id].executed && !s.changes[op.id].cancelled
    ensures op.id in Next(s, op).changes
    ensures Next(s, op).changes[op.id] ==
            s.changes[op.id].(executed := op.OpExecuteChange?, cancelled := op.OpCancelChange?)
  {
    assert !Refused(s, op, NotFound) && !Refused(s, op, InvalidProposalState);
  }

  ghost predicate Marked(s: State, id: nat) { id in s.changes && (s.changes[id].executed || s.changes[id].cancelled) }

  /** And no mark appears without such a call. */
  lemma {:induction false} MarksAreCalls(s0: State, ops: seq<Op>, i: nat, id: nat)
    requires IsInitial(s0) && i <= |ops| && Marked(StateAt(s0, ops, i), id)
    ensures exists j :: 0 <= j < i && ClosedAt(s0, ops, j, id)
  {
    if i > 0 {
      if Marked(StateAt(s0, ops, i - 1), id) {
        MarksAreCalls(s0, ops, i - 1, id);
      } else {
        MarkStep(StateAt(s0, ops, i - 1), ops[i - 1], id);
        assert ClosedAt(s0, ops, i - 1, id);
      }
    }
  }

  lemma MarkStep(s: State, op: Op, id: nat)
    requires Marked(Next(s, op), id) && !Marked(s, id)
    ensures Exec(s, op).Ok? && (op.OpExecuteChange? || op.OpCancelChange?) && op.id == id
  {
    if !Governs(op) {
      VoteFrame(s, op);
    } else if op.OpExecuteChange? && Exec(s, op).Ok? {
      ApplyChangeFrame(s, s.changes[op.id].change);
    }
  }

  /** Over every run: an execution of change `id` succeeds if and only if the contract is
      unlocked, the caller is a signer, the change was proposed, no earlier call executed or
      cancelled it, its window is open, and it is still sound against the live configuration.
      The configuration then takes exactly the value the change names. */
  lemma ChangeExecutionDecided(s0: State, ops: seq<Op>, i: nat)
    requires IsInitial(s0) && i < |ops| <= U64_MAX && ops[i].OpExecuteChange?
    ensures var s, id := StateAt(s0, ops, i), ops[i].id;
            Succeeds(s0, ops, i) <==>
            && !s.locked && ops[i].caller in Roster(s.signers) && id in s.changes
            && (forall j :: 0 <= j < i ==> !ClosedAt(s0, ops, j, id))
            && s.changes[id].eta <= s.now < s.changes[id].expiresAt
            && (forall e :: !Flawed(s, s.changes[id].change, e))
    ensures Succeeds(s0, ops, i) ==>
              var s, t := StateAt(s0, ops, i), StateAt(s0, ops, i + 1);
              ops[i].id in s.changes && Enacted(s, s.changes[ops[i].id].change, t.(changes := s.changes))
  {
    var s, id := StateAt(s0, ops, i), ops[i].id;
    CallDecided(s0, ops, i);
    ExecuteChangeRefusals(s, ops[i]);
    if Marked(s, id) { MarksAreCalls(s0, ops, i, id); }
    forall j | 0 <= j < i && ClosedAt(s0, ops, j, id) ensures Marked(s, id) {
      ClosedForGood(s0, ops, j, i, id);
    }
  }

  lemma ExecuteChangeRefusals(s: State, op: Op)
    requires op.OpExecuteChange? && Decided(s, op)
    ensures Exec(s, op).Ok? <==>
            && !s.locked && op.caller in Roster(s.signers) && op.id in s.changes
            && !s.changes[op.id].executed && !s.changes[op.id].cancelled
            && s.changes[op.id].eta <= s.now < s.changes[op.id].expiresAt
            && (forall e :: !Flawed(s, s.changes[op.id].change, e))
  {
    ExecuteChangeRefused(s, op);
    if Exec(s, op).Ok? {
      assert !Refused(s, op, EmergencyLock) && !Refused(s, op, UnauthorizedModification) && !Refused(s, op, NotFound);
      assert !Refused(s, op, InvalidProposalState) && !Refused(s, op, TimelockNotExpired);
      assert !Refused(s, op, ProposalExpired);
      forall e ensures !Flawed(s, s.changes[op.id].change, e) { assert !Refused(s, op, e); }
    }
  }

  /** The refusals of an execution, written out. */
  lemma ExecuteChangeRefused(s: State, op: Op)
    requires op.OpExecuteChange?
    ensures forall e :: Refused(s, op, e) <==>
              || (e == EmergencyLock && s.locked)
              || (e == UnauthorizedModification && op.caller !in Roster(s.signers))
              || (e == NotFound && op.id !in s.changes)
              || (op.id in s.changes && var p := s.changes[op.id];
                  || (e == InvalidProposalState && (p.executed || p.cancelled))
                  || (e == TimelockNotExpired && s.now < p.eta)
                  || (e == ProposalExpired && s.now >= p.expiresAt)
                  || Flawed(s, p.change, e))
  {
  }
}

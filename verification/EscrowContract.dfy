/** The escrow contract as the source writes it: records loaded, changed step by step and
    stored back, tokens moved by loops. Every method is proved to commit exactly the
    transition `Exec` of `EscrowModel`, so all theorems about runs apply to sequences of
    these calls. */
module EscrowContract {
  import opened Common
  import opened Arith
  import M = EscrowModel
  import S = EscrowSteps
  import opened EscrowLoops

  /** A call either fails and changes nothing, or commits the model's step. */
  ghost predicate Commits(pre: M.State, op: M.Op, post: M.State, r: Result<int>) {
    match M.Exec(pre, op)
    case Err(e) => post == pre && r == Err(e)
    case Ok(step) => post == step.state && r == Ok(step.ret)
  }

  /** The step with a release condition recorded under its escrow. */
  function WithCondition(step: M.Step, k: M.Condition): M.Step
    requires step.id in step.state.agreements
  {
    var a := step.state.agreements;
    step.(state := step.state.(agreements := a[step.id := a[step.id].(condition := Some(k))]))
  }

  /** Creating with a condition is creating plainly and then recording the condition. */
  lemma ConditionedIsCreatePlus(s: M.State, t: M.Terms, participants: seq<Address>, threshold: nat)
    requires M.ValidateThreshold(participants, threshold).Pass?
    ensures var conditioned := M.Exec(s, M.Open(M.NewConditioned(t, participants, threshold)));
            match M.Exec(s, M.Open(M.NewEscrow(t)))
            case Err(e) => conditioned == Err(e)
            case Ok(step) =>
              && step.id in step.state.agreements
              && conditioned == Ok(if participants == [] then step
                                   else WithCondition(step, M.Condition(participants, threshold, 0)))
  {
    var created := M.Create(s.ledger, s.tokens, s.now, t);
    if created.Ok? {
      var id, a := TruncateU64(s.count + 1), created.value.agreement;
      var k := Some(M.Condition(participants, threshold, 0));
      var plain := M.Install(s.agreements, id, a);
      assert plain[id := plain[id].(condition := k)] == M.Install(s.agreements, id, a.(condition := k));
    }
  }

  class EscrowContract {
    // The host's clock.
    var now: nat
    var count: nat
    // Token contracts approved for escrow.
    var tokens: set<Address>
    var agreements: map<nat, M.Agreement>
    // The token contracts' balances.
    var ledger: M.Ledger

    ghost function View(): M.State
      reads this
    {
      M.State(now, count, tokens, agreements, ledger)
    }

    constructor (now: nat, tokens: set<Address>, ledger: M.Ledger)
      ensures View() == M.State(now, 0, tokens, map[], ledger)
    {
      this.now, count, this.tokens, agreements, this.ledger := now, 0, tokens, map[], ledger;
    }

    // ----- openings -----

    /** Number a new agreement, store it and move on to the ledger that paid for it. */
    method StoreNew(a: M.Agreement, l: M.Ledger) returns (id: nat)
      modifies this
      ensures id == TruncateU64(old(count) + 1)
      ensures View() == old(View()).(count := id, agreements := M.Install(old(agreements), id, a), ledger := l)
    {
      id := TruncateU64(count + 1);
      count := id;
      agreements := M.Install(agreements, id, a);
      ledger := l;
    }

    method Create(t: M.Terms) returns (r: Result<int>)
      modifies this
      ensures Commits(old(View()), M.Open(M.NewEscrow(t)), View(), r)
    {
      var guard := M.RequireAuth(t.sender);
      :- guard;
      :- Require(t.recipient != t.sender, InvalidInput);
      :- Require(t.deadline > now, InvalidInput);
      var assetsOk := CheckAssets(tokens, t.assets);
      :- assetsOk;
      var signersOk := CheckThreshold(t.overrideSigners, t.overrideThreshold);
      :- signersOk;
      var pulled := PullAll(ledger, t.sender, t.assets);
      var tally :- pulled;
      var id := StoreNew(M.Plain(M.Draft(t, M.Funded, tally.total, M.NO_SCHEDULE)), tally.ledger);
      return Ok(id);
    }

    method CreateWithReleaseCondition(t: M.Terms, participants: seq<Address>, threshold: nat) returns (r: Result<int>)
      modifies this
      ensures Commits(old(View()), M.Open(M.NewConditioned(t, participants, threshold)), View(), r)
    {
      var valid := CheckThreshold(participants, threshold);
      :- valid;
      ConditionedIsCreatePlus(View(), t, participants, threshold);
      var created := Create(t);
      var id: nat :- created;
      if |participants| > 0 {
        var condition := M.Condition(participants, threshold, 0);
        agreements := agreements[id := agreements[id].(condition := Some(condition))];
      }
      return Ok(id);
    }

    method CreateTimelock(sender: Address, recipient: Address, arbiter: Address, assets: seq<M.AssetAmount>,
                          unlock: nat) returns (r: Result<int>)
      modifies this
      ensures Commits(old(View()), M.Open(M.NewTimelock(sender, recipient, arbiter, assets, unlock)), View(), r)
    {
      var guard := M.RequireAuth(sender);
      :- guard;
      :- Require(recipient != sender, InvalidInput);
      :- Require(unlock > now, InvalidInput);
      var assetsOk := CheckAssets(tokens, assets);
      :- assetsOk;
      var pulled := PullAll(ledger, sender, assets);
      var tally :- pulled;
      var schedule := M.Schedule(M.Cliff, now, unlock, unlock);
      var terms := M.BulletTerms(sender, recipient, arbiter, assets, unlock, 0);
      var id := StoreNew(M.Plain(M.Draft(terms, M.Funded, tally.total, schedule)), tally.ledger);
      return Ok(id);
    }

    method CreateScheduled(sender: Address, recipient: Address, arbiter: Address, assets: seq<M.AssetAmount>,
                           schedule: M.Schedule, deadline: nat) returns (r: Result<int>)
      modifies this
      ensures Commits(old(View()), M.Open(M.NewScheduled(sender, recipient, arbiter, assets, schedule, deadline)),
                      View(), r)
    {
      var guard := M.RequireAuth(sender);
      :- guard;
      :- Require(recipient != sender, InvalidInput);
      var assetsOk := CheckAssets(tokens, assets);
      :- assetsOk;
      :- Require(schedule.start <= schedule.cliff <= schedule.end && schedule.start < schedule.end, InvalidInput);
      :- Require(schedule.end > now, InvalidInput);
      var effective := if deadline == 0 then schedule.end else deadline;
      :- Require(effective >= schedule.end, InvalidInput);
      var pulled := PullAll(ledger, sender, assets);
      var tally :- pulled;
      var terms := M.BulletTerms(sender, recipient, arbiter, assets, effective, 0);
      var id := StoreNew(M.Plain(M.Draft(terms, M.Funded, tally.total, schedule)), tally.ledger);
      return Ok(id);
    }

    method InitializeTimelock(sender: Address, recipient: Address, arbiter: Address, assets: seq<M.AssetAmount>,
                              unlock: nat, grace: nat) returns (r: Result<int>)
      modifies this
      ensures Commits(old(View()), M.Open(M.NewUnfunded(sender, recipient, arbiter, assets, unlock, grace)), View(), r)
    {
      var guard := M.RequireAuth(sender);
      :- guard;
      :- Require(recipient != sender, InvalidInput);
      :- Require(unlock > now, InvalidInput);
      var assetsOk := CheckAssets(tokens, assets);
      :- assetsOk;
      var schedule := M.Schedule(M.Cliff, now, unlock, unlock);
      var terms := M.BulletTerms(sender, recipient, arbiter, assets, unlock, grace);
      var id := StoreNew(M.Plain(M.Draft(terms, M.Created, 0, schedule)), ledger);
      return Ok(id);
    }

    method DepositWithMilestones(sender: Address, recipient: Address, arbiter: Address, asset: Address, amount: I128,
                                 deadline: nat, weights: seq<nat>) returns (r: Result<int>)
      modifies this
      ensures Commits(old(View()),
                      M.Open(M.NewMilestones(sender, recipient, arbiter, asset, amount, deadline, weights)), View(), r)
    {
      var guard := M.RequireAuth(sender);
      :- guard;
      :- Require(amount > 0, InvalidAmount);
      :- Require(asset in tokens, AssetNotAuthorized);
      :- Require(recipient != sender, InvalidInput);
      :- Require(deadline > now, InvalidInput);
      :- Require(|weights| > 0, InvalidInput);
      var sum := SumBps(weights);
      var bps :- sum;
      :- Require(bps == BPS, InvalidInput);
      var l :- M.Transfer(ledger, M.Move(asset, sender, M.SELF, amount));
      var items := BuildMilestones(weights);
      var terms := M.BulletTerms(sender, recipient, arbiter, [M.AssetAmount(asset, amount)], deadline, 0);
      var escrow := M.Draft(terms, M.Funded, amount, M.NO_SCHEDULE);
      var id := StoreNew(M.Agreement(escrow, Some(M.MilestoneSet(items, 0, false)), None, {}), l);
      return Ok(id);
    }

    // ----- actions -----

    method Save(id: nat, a: M.Agreement, l: M.Ledger)
      modifies this
      ensures View() == old(View()).(agreements := old(agreements)[id := a], ledger := l)
    {
      agreements := agreements[id := a];
      ledger := l;
    }

    method ApproveRelease(caller: Address, id: nat) returns (r: Result<int>)
      modifies this
      ensures Commits(old(View()), M.Act(id, M.DoApprove(caller)), View(), r)
    {
      if id !in agreements { return Err(NotFound); }
      var record := agreements[id];
      :- Require(record.escrow.status == M.Funded, InvalidState);
      :- Require(record.condition.Some?, NotFound);
      var condition := record.condition.value;
      :- Require(caller in condition.participants, NotASigner);
      :- Require(caller !in record.approved, AlreadySigned);
      record := record.(approved := record.approved + {caller});
      condition := condition.(approvals := (condition.approvals + 1) % (U32_MAX + 1));
      record := record.(condition := Some(condition));
      Save(id, record, ledger);
      return Ok(condition.approvals);
    }

    /** The participants who have approved, in declaration order. */
    method ReleaseApprovals(id: nat) returns (r: Result<seq<Address>>)
      ensures id !in agreements || agreements[id].condition.None? ==> r == Err(NotFound)
      ensures id in agreements && agreements[id].condition.Some? ==>
                var c := agreements[id].condition.value;
                r == Ok(S.ApprovalsFirst(c.participants, agreements[id].approved, |c.participants|))
    {
      if !(id in agreements && agreements[id].condition.Some?) { return Err(NotFound); }
      var listed := ListApprovals(agreements[id].condition.value.participants, agreements[id].approved);
      return Ok(listed);
    }

    method Fund(caller: Address, id: nat) returns (r: Result<int>)
      modifies this
      ensures Commits(old(View()), M.Act(id, M.DoFund(caller)), View(), r)
    {
      if id !in agreements { return Err(NotFound); }
      var record := agreements[id];
      var escrow := record.escrow;
      :- Require(escrow.sender == caller, Unauthorized);
      :- Require(escrow.status == M.Created, InvalidState);
      :- Require(M.TokensApproved(tokens, escrow.assets), AssetNotAuthorized);
      var pulled := PullAll(ledger, caller, escrow.assets);
      var tally :- pulled;
      escrow := escrow.(funded := tally.total);
      escrow := escrow.(status := M.Funded);
      Save(id, record.(escrow := escrow), tally.ledger);
      return Ok(0);
    }

    method Withdraw(caller: Address, id: nat, amount: int) returns (r: Result<int>)
      modifies this
      ensures Commits(old(View()), M.Act(id, M.DoWithdraw(caller, amount)), View(), r)
    {
      if amount <= 0 { return Err(InvalidAmount); }
      :- Require(id in agreements, NotFound);
      var record := agreements[id];
      var escrow := record.escrow;
      :- Require(record.milestones.None?, InvalidState);
      :- Require(escrow.recipient == caller, Unauthorized);
      :- Require(escrow.status == M.Funded, InvalidState);
      var claimable :- M.CalcClaimable(escrow, now);
      :- Require(claimable > 0, TimeLockActive);
      :- Require(amount <= claimable, InsufficientFunds);
      :- M.RequireApprovals(record);
      var released :- CheckedAdd(escrow.released, amount);
      escrow := escrow.(released := released);
      if escrow.released == escrow.funded { escrow := escrow.(status := M.Released); }
      var paid := PayAll(ledger, escrow.recipient, escrow.assets, amount, escrow.funded);
      var tally :- paid;
      Save(id, record.(escrow := escrow), tally.ledger);
      return Ok(released);
    }

    method Claim(caller: Address, id: nat) returns (r: Result<int>)
      modifies this
      ensures Commits(old(View()), M.Act(id, M.DoClaim(caller)), View(), r)
    {
      if id !in agreements { return Err(NotFound); }
      var record := agreements[id];
      var escrow := record.escrow;
      :- Require(record.milestones.None?, InvalidState);
      :- Require(escrow.recipient == caller, Unauthorized);
      :- Require(escrow.status == M.Funded || escrow.status == M.Created, InvalidState);
      var claimable;
      if escrow.status == M.Funded {
        if escrow.schedule.kind != M.Unscheduled {
          claimable :- M.CalcClaimable(escrow, now);
        } else {
          :- Require(now >= M.GraceEnd(escrow), TimeLockActive);
          claimable :- CheckedSub(escrow.funded, escrow.released);
        }
        :- Require(claimable > 0, TimeLockActive);
        :- M.RequireApprovals(record);
        var released :- CheckedAdd(escrow.released, claimable);
        escrow := escrow.(released := released);
        if escrow.released == escrow.funded { escrow := escrow.(status := M.Released); }
        var paid := PayAll(ledger, escrow.recipient, escrow.assets, claimable, escrow.funded);
        var tally :- paid;
        Save(id, record.(escrow := escrow), tally.ledger);
        return Ok(claimable);
      }
      :- Require(now >= M.GraceEnd(escrow), TimeLockActive);
      :- M.RequireApprovals(record);
      escrow := escrow.(status := M.Released);
      var remaining :- CheckedSub(escrow.funded, escrow.released);
      var moved := TransferAll(escrow, escrow.recipient, remaining);
      var l :- moved;
      Save(id, record.(escrow := escrow), l);
      return Ok(escrow.funded);
    }

    /** Move `remaining` out of custody pro rata; nothing when nothing remains. */
    method TransferAll(escrow: M.Escrow, to: Address, remaining: int) returns (r: Result<M.Ledger>)
      ensures remaining == 0 ==> r == Ok(ledger)
      ensures remaining != 0 ==>
                match M.PayFirst(ledger, to, escrow.assets, remaining, escrow.funded, |escrow.assets|)
                case Ok(t) => r == Ok(t.ledger)
                case Err(e) => r == Err(e)
    {
      if remaining == 0 { return Ok(ledger); }
      var paid := PayAll(ledger, to, escrow.assets, remaining, escrow.funded);
      var tally :- paid;
      return Ok(tally.ledger);
    }

    method Release(caller: Address, id: nat, amount: int) returns (r: Result<int>)
      modifies this
      ensures Commits(old(View()), M.Act(id, M.DoRelease(caller, amount)), View(), r)
    {
      if id !in agreements { return Err(NotFound); }
      var record := agreements[id];
      var escrow := record.escrow;
      :- Require(escrow.arbiter == caller, Unauthorized);
      :- Require(escrow.status == M.Funded, InvalidState);
      :- Require(record.milestones.None?, InvalidState);
      var gate := ReleaseGate(escrow, amount);
      :- gate;
      :- Require(now < M.GraceEnd(escrow), EscrowExpired);
      var remaining :- CheckedSub(escrow.funded, escrow.released);
      :- Require(amount <= remaining, InvalidAmount);
      :- M.RequireApprovals(record);
      escrow := escrow.(released := escrow.funded);
      escrow := escrow.(status := M.Released);
      var moved := TransferAll(escrow, escrow.recipient, remaining);
      var l :- moved;
      Save(id, record.(escrow := escrow), l);
      return Ok(0);
    }

    method ReleaseGate(escrow: M.Escrow, amount: int) returns (r: Guard)
      ensures match M.ReleaseGate(escrow, now, amount)
              case Ok(_) => r == Pass
              case Err(e) => r == Fail(e)
    {
      if escrow.schedule.kind == M.Unscheduled { return Pass; }
      if now < escrow.schedule.cliff { return Fail(TimelockNotExpired); }
      if escrow.schedule.kind == M.Cliff { return Pass; }
      var vested := M.CalcVested(escrow.funded, escrow.schedule, now);
      if vested.Err? { return Fail(vested.error); }
      if amount > vested.value { return Fail(TimelockNotExpired); }
      var remaining := CheckedSub(escrow.funded, escrow.released);
      if remaining.Err? { return Fail(remaining.error); }
      return Require(remaining.value <= vested.value, TimelockNotExpired);
    }

    method OverrideRelease(id: nat, nonce: nat, signatures: seq<M.Signature>) returns (r: Result<int>)
      modifies this
      ensures Commits(old(View()), M.Act(id, M.DoOverride(nonce, signatures)), View(), r)
    {
      if id !in agreements { return Err(NotFound); }
      var record := agreements[id];
      var escrow := record.escrow;
      :- Require(record.milestones.None?, InvalidState);
      :- Require(|escrow.overrideSigners| > 0 && escrow.overrideThreshold != 0, Unauthorized);
      :- Require(escrow.status == M.Funded, InvalidState);
      :- Require(now < escrow.deadline, EscrowExpired);
      var _ :- M.OverrideGate(escrow, now);
      :- Require(nonce > escrow.overrideNonce, InvalidNonce);
      :- Require(|signatures| >= escrow.overrideThreshold, ThresholdNotMet);
      var verified := VerifySignatures(escrow.overrideSigners, signatures);
      var seen :- verified;
      :- Require(|seen| >= escrow.overrideThreshold, ThresholdNotMet);
      :- M.RequireApprovals(record);
      escrow := escrow.(overrideNonce := nonce);
      var remaining :- CheckedSub(escrow.funded, escrow.released);
      escrow := escrow.(status := M.Released);
      var moved := TransferAll(escrow, escrow.recipient, remaining);
      var l :- moved;
      Save(id, record.(escrow := escrow), l);
      return Ok(0);
    }

    method Expire(id: nat) returns (r: Result<int>)
      modifies this
      ensures Commits(old(View()), M.Act(id, M.DoExpire), View(), r)
    {
      if id !in agreements { return Err(NotFound); }
      var record := agreements[id];
      :- Require(record.escrow.status == M.Funded, InvalidState);
      :- Require(now >= M.GraceEnd(record.escrow), InvalidState);
      Save(id, record.(escrow := record.escrow.(status := M.Expired)), ledger);
      return Ok(0);
    }

    /** The guarded refund loop shared by the refund paths. */
    method ReturnRemaining(escrow: M.Escrow, remaining: int) returns (r: Result<M.Ledger>)
      ensures remaining <= 0 ==> r == Ok(ledger)
      ensures remaining > 0 ==>
                match M.PayFirst(ledger, escrow.sender, escrow.assets, remaining, escrow.funded, |escrow.assets|)
                case Ok(t) => r == Ok(t.ledger)
                case Err(e) => r == Err(e)
    {
      if remaining > 0 {
        var paid := PayAll(ledger, escrow.sender, escrow.assets, remaining, escrow.funded);
        var tally :- paid;
        return Ok(tally.ledger);
      }
      return Ok(ledger);
    }

    method Refund(caller: Address, id: nat) returns (r: Result<int>)
      modifies this
      ensures Commits(old(View()), M.Act(id, M.DoRefund(caller)), View(), r)
    {
      if id !in agreements { return Err(NotFound); }
      var record := agreements[id];
      var escrow := record.escrow;
      :- Require(record.milestones.None?, InvalidState);
      :- Require(escrow.sender == caller, Unauthorized);
      :- Require(escrow.status == M.Funded || escrow.status == M.Expired, InvalidState);
      :- Require(now >= escrow.deadline, TimeLockActive);
      :- Require(now >= M.GraceEnd(escrow), GraceActive);
      :- M.RequireRefundWindowOpen(escrow, now);
      var remaining :- CheckedSub(escrow.funded, escrow.released);
      escrow := escrow.(status := M.Refunded);
      var moved := ReturnRemaining(escrow, remaining);
      var l :- moved;
      Save(id, record.(escrow := escrow), l);
      return Ok(0);
    }

    method RefundTimelock(caller: Address, id: nat) returns (r: Result<int>)
      modifies this
      ensures Commits(old(View()), M.Act(id, M.DoRefundTimelock(caller)), View(), r)
    {
      if id !in agreements { return Err(NotFound); }
      var record := agreements[id];
      var escrow := record.escrow;
      :- Require(record.milestones.None?, InvalidState);
      :- Require(escrow.sender == caller, Unauthorized);
      :- Require(escrow.status == M.Created || escrow.status == M.Funded || escrow.status == M.Expired, InvalidState);
      :- Require(now >= M.GraceEnd(escrow), TimeLockActive);
      :- M.RequireRefundWindowOpen(escrow, now);
      var remaining :- CheckedSub(escrow.funded, escrow.released);
      escrow := escrow.(status := M.Refunded);
      var moved := ReturnRemaining(escrow, remaining);
      var l :- moved;
      Save(id, record.(escrow := escrow), l);
      return Ok(0);
    }

    method Reclaim(caller: Address, id: nat) returns (r: Result<int>)
      modifies this
      ensures Commits(old(View()), M.Act(id, M.DoReclaim(caller)), View(), r)
    {
      if id !in agreements { return Err(NotFound); }
      var record := agreements[id];
      var escrow := record.escrow;
      :- Require(record.milestones.None?, InvalidState);
      :- Require(escrow.sender == caller, Unauthorized);
      :- Require(escrow.status == M.Funded || escrow.status == M.Expired, InvalidState);
      :- Require(now >= escrow.deadline, TimeLockActive);
      :- Require(now >= M.GraceEnd(escrow), GraceActive);
      :- M.RequireRefundWindowOpen(escrow, now);
      var remaining :- CheckedSub(escrow.funded, escrow.released);
      escrow := escrow.(status := M.Refunded);
      var moved := TransferAll(escrow, escrow.sender, remaining);
      var l :- moved;
      Save(id, record.(escrow := escrow), l);
      return Ok(0);
    }

    method Cancel(caller: Address, id: nat) returns (r: Result<int>)
      modifies this
      ensures Commits(old(View()), M.Act(id, M.DoCancel(caller)), View(), r)
    {
      if id !in agreements { return Err(NotFound); }
      var record := agreements[id];
      if record.milestones.Some? {
        var cancelled := CancelRemainingMilestones(caller, id);
        var _ :- cancelled;
        return Ok(0);
      }
      r := CancelPlain(caller, id);
    }

    /** The cancellation of an escrow without milestones. */
    method CancelPlain(caller: Address, id: nat) returns (r: Result<int>)
      requires id in agreements && agreements[id].milestones.None?
      modifies this
      ensures Commits(old(View()), M.Act(id, M.DoCancel(caller)), View(), r)
    {
      var record := agreements[id];
      var escrow := record.escrow;
      :- Require(escrow.sender == caller || escrow.arbiter == caller, Unauthorized);
      :- Require(escrow.status == M.Funded || escrow.status == M.Created, InvalidState);
      :- Require(now < escrow.deadline, InvalidState);
      if escrow.schedule.kind != M.Unscheduled {
        var vested :- M.CalcVested(escrow.funded, escrow.schedule, now);
        :- Require(vested <= 0, TimeLockActive);
      }
      var remaining :- CheckedSub(escrow.funded, escrow.released);
      var moved := ReturnRemaining(escrow, remaining);
      var l :- moved;
      escrow := escrow.(status := M.Refunded);
      Save(id, record.(escrow := escrow), l);
      return Ok(0);
    }

    method Close(caller: Address, id: nat) returns (r: Result<int>)
      modifies this
      ensures Commits(old(View()), M.Act(id, M.DoClose(caller)), View(), r)
    {
      if id !in agreements { return Err(NotFound); }
      var record := agreements[id];
      var escrow := record.escrow;
      :- Require(escrow.status == M.Released || escrow.status == M.Refunded, InvalidState);
      :- Require(caller == escrow.sender || caller == escrow.recipient || caller == escrow.arbiter, Unauthorized);
      Save(id, record.(escrow := escrow.(status := M.Closed)), ledger);
      return Ok(0);
    }

    // ----- milestones -----

    /** The arbiter's milestone `index`, provided it has status `wanted` and is still live. */
    method SelectMilestone(record: M.Agreement, caller: Address, index: nat, wanted: M.MilestoneStatus)
      returns (r: Result<nat>)
      ensures r == M.SelectMilestone(record, caller, index, wanted)
    {
      if record.escrow.arbiter != caller { return Err(Unauthorized); }
      :- Require(record.milestones.Some?, NotFound);
      var ms := record.milestones.value;
      :- Require(!ms.cancelled, InvalidState);
      var found := FindMilestone(ms.items, index);
      :- Require(found.Some?, InvalidMilestone);
      var status := ms.items[found.value].status;
      if status != wanted {
        return Err(if status == M.Completed then MilestoneAlreadyCompleted else InvalidMilestone);
      }
      :- Require(record.escrow.status == M.Funded, InvalidState);
      return Ok(found.value);
    }

    method ReleaseMilestone(caller: Address, id: nat, index: nat) returns (r: Result<int>)
      modifies this
      ensures Commits(old(View()), M.Act(id, M.DoReleaseMilestone(caller, index)), View(), r)
    {
      if id !in agreements { return Err(NotFound); }
      var record := agreements[id];
      var selected := SelectMilestone(record, caller, index, M.Pending);
      var k :- selected;
      var escrow, ms := record.escrow, record.milestones.value;
      var total := SumAmounts(escrow.assets);
      :- Require(InI128(total), HostAbort);
      var unreleased := CountOpen(ms.items);
      var product :- CheckedMul(total, ms.items[k].bps);
      var gross :- CheckedDiv(product, BPS);
      var remaining :- CheckedSub(total, ms.released);
      var payout := if unreleased == 1 then remaining else gross;
      :- Require(|escrow.assets| > 0, HostAbort);
      var l :- M.Transfer(ledger, M.Move(escrow.assets[0].asset, M.SELF, escrow.recipient, payout));
      var released :- CheckedAdd(ms.released, payout);
      ms := ms.(released := released);
      ms := ms.(items := ms.items[k := ms.items[k].(status := M.Completed)]);
      if M.AllCompleted(ms.items) {
        escrow := escrow.(released := ms.released, status := M.Released);
      }
      Save(id, record.(escrow := escrow, milestones := Some(ms)), l);
      return Ok(0);
    }

    method DisputeMilestone(caller: Address, id: nat, index: nat) returns (r: Result<int>)
      modifies this
      ensures Commits(old(View()), M.Act(id, M.DoDispute(caller, index)), View(), r)
    {
      if id !in agreements { return Err(NotFound); }
      var record := agreements[id];
      var selected := SelectMilestone(record, caller, index, M.Pending);
      var k :- selected;
      Save(id, record.(milestones := Some(M.Mark(record.milestones.value, k, M.Disputed))), ledger);
      return Ok(0);
    }

    method ResolveMilestone(caller: Address, id: nat, index: nat) returns (r: Result<int>)
      modifies this
      ensures Commits(old(View()), M.Act(id, M.DoResolve(caller, index)), View(), r)
    {
      if id !in agreements { return Err(NotFound); }
      var record := agreements[id];
      var selected := SelectMilestone(record, caller, index, M.Disputed);
      var k :- selected;
      Save(id, record.(milestones := Some(M.Mark(record.milestones.value, k, M.Pending))), ledger);
      return Ok(0);
    }

    method CancelRemainingMilestones(caller: Address, id: nat) returns (r: Result<int>)
      modifies this
      ensures Commits(old(View()), M.Act(id, M.DoCancelMilestones(caller)), View(), r)
    {
      if id !in agreements { return Err(NotFound); }
      var record := agreements[id];
      var escrow := record.escrow;
      :- Require(escrow.sender == caller || escrow.arbiter == caller, Unauthorized);
      :- Require(record.milestones.Some?, NotFound);
      var ms := record.milestones.value;
      :- Require(!ms.cancelled, AlreadyExists);
      :- Require(escrow.status == M.Funded || escrow.status == M.Expired, InvalidState);
      var remaining :- CheckedSub(escrow.funded, ms.released);
      var frozen := FreezeAll(ms.items);
      ms := M.MilestoneSet(frozen, ms.released, true);
      var moved := ReturnRemaining(escrow, remaining);
      var l :- moved;
      escrow := escrow.(status := M.Refunded);
      Save(id, record.(escrow := escrow, milestones := Some(ms)), l);
      return Ok(remaining);
    }
  }
}

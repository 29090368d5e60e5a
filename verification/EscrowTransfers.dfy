/** What a call does to the token ledger is what its log of transfers says: replaying the log
    from the old ledger gives the new one, holder by holder and token by token. */
module EscrowTransfers {
  import opened Common
  import opened Arith
  import opened EscrowModel
  import opened EscrowShares
  import opened EscrowTheorems
  import opened EscrowPromises

  /** What `holder` gains of `asset` over a log. */
  function Gain(moves: seq<Move>, holder: Address, asset: Address): int {
    if moves == [] then 0
    else
      var m := moves[|moves| - 1];
      Gain(moves[..|moves| - 1], holder, asset)
      + (if m.asset == asset && m.to == holder then m.amount else 0)
      - (if m.asset == asset && m.from == holder then m.amount else 0)
  }

  /** The ledger moved from `l` to `post` by exactly these transfers. */
  ghost predicate Replays(l: Ledger, post: Ledger, moves: seq<Move>) {
    forall holder, asset :: Balance(post, holder, asset) == Balance(l, holder, asset) + Gain(moves, holder, asset)
  }

  lemma TransferReplays(l: Ledger, mid: Ledger, moves: seq<Move>, m: Move)
    requires Replays(l, mid, moves) && Transfer(mid, m).Ok?
    ensures Replays(l, Transfer(mid, m).value, moves + [m])
  {
    assert (moves + [m])[..|moves|] == moves;
  }

  /** A transfer fails exactly on a negative amount or a short balance. */
  lemma TransferDecided(l: Ledger, m: Move)
    ensures match Transfer(l, m)
            case Ok(post) => 0 <= m.amount <= Balance(l, m.from, m.asset) && Replays(l, post, [m])
            case Err(err) =>
              || (err == InvalidAmount && m.amount < 0)
              || (err == InsufficientFunds && m.amount > Balance(l, m.from, m.asset))
  {
    if Transfer(l, m).Ok? {
      assert [] + [m] == [m];
      TransferReplays(l, l, [], m);
    }
  }

  lemma {:induction false} PullReplays(l: Ledger, sender: Address, assets: seq<AssetAmount>, n: nat)
    requires n <= |assets| && PullFirst(l, sender, assets, n).Ok?
    ensures var t := PullFirst(l, sender, assets, n).value; Replays(l, t.ledger, t.moves)
  {
    if n > 0 {
      PullReplays(l, sender, assets, n - 1);
      var t := PullFirst(l, sender, assets, n - 1).value;
      TransferReplays(l, t.ledger, t.moves, Move(assets[n - 1].asset, sender, SELF, assets[n - 1].amount));
    }
  }

  lemma PayOneReplays(l: Ledger, t: Tally, m: Move)
    requires Replays(l, t.ledger, t.moves) && PayOne(t, m).Ok?
    ensures Replays(l, PayOne(t, m).value.ledger, PayOne(t, m).value.moves)
  {
    if m.amount > 0 { TransferReplays(l, t.ledger, t.moves, m); }
  }

  lemma {:induction false} PayReplays(l: Ledger, to: Address, assets: seq<AssetAmount>, x: int, funded: int, n: nat)
    requires n <= |assets| && PayFirst(l, to, assets, x, funded, n).Ok?
    ensures var t := PayFirst(l, to, assets, x, funded, n).value; Replays(l, t.ledger, t.moves)
  {
    if n > 0 {
      PayReplays(l, to, assets, x, funded, n - 1);
      var send := ShareOf(assets[n - 1].amount, x, funded).value;
      PayOneReplays(l, PayFirst(l, to, assets, x, funded, n - 1).value, Move(assets[n - 1].asset, SELF, to, send));
    }
  }

  lemma NothingReplays(l: Ledger)
    ensures Replays(l, l, [])
  {
  }

  lemma AnyPayoutReplays(l: Ledger)
    ensures forall a, to, x, ret :: Payout(a, l, to, x, ret).Ok? ==>
              Replays(l, Payout(a, l, to, x, ret).value.ledger, Payout(a, l, to, x, ret).value.moves)
  {
    forall a: Agreement, to, x, ret: int | Payout(a, l, to, x, ret).Ok?
      ensures Replays(l, Payout(a, l, to, x, ret).value.ledger, Payout(a, l, to, x, ret).value.moves)
    {
      PayReplays(l, to, a.escrow.assets, x, a.escrow.funded, |a.escrow.assets|);
    }
  }

  lemma PaymentReplays(a: Agreement, l: Ledger, tokens: set<Address>, now: nat, action: Action)
    requires PaysOut(action) && Perform(a, l, tokens, now, action).Ok?
    ensures var o := Perform(a, l, tokens, now, action).value; Replays(l, o.ledger, o.moves)
  {
    AnyPayoutReplays(l);
    NothingReplays(l);
  }

  lemma ReturnReplays(a: Agreement, l: Ledger, tokens: set<Address>, now: nat, action: Action)
    requires IsReturn(action) && Perform(a, l, tokens, now, action).Ok?
    ensures var o := Perform(a, l, tokens, now, action).value; Replays(l, o.ledger, o.moves)
  {
    AnyPayoutReplays(l);
    NothingReplays(l);
  }

  lemma ApprovedMilestoneMove(a: Agreement, l: Ledger, caller: Address, index: nat)
    requires ReleaseMilestone(a, l, caller, index).Ok?
    ensures var o := ReleaseMilestone(a, l, caller, index).value;
            |o.moves| == 1 && Transfer(l, o.moves[0]) == Ok(o.ledger)
  {
  }

  lemma MilestoneReplays(a: Agreement, l: Ledger, caller: Address, index: nat)
    requires ReleaseMilestone(a, l, caller, index).Ok?
    ensures var o := ReleaseMilestone(a, l, caller, index).value; Replays(l, o.ledger, o.moves)
  {
    ApprovedMilestoneMove(a, l, caller, index);
    var moves := ReleaseMilestone(a, l, caller, index).value.moves;
    assert moves == [moves[0]];
    TransferDecided(l, moves[0]);
  }

  lemma CancellingReplays(a: Agreement, l: Ledger, caller: Address)
    requires CancelMilestones(a, l, caller).Ok?
    ensures var o := CancelMilestones(a, l, caller).value; Replays(l, o.ledger, o.moves)
  {
    AnyPayoutReplays(l);
    NothingReplays(l);
  }

  lemma FundReplays(a: Agreement, l: Ledger, tokens: set<Address>, caller: Address)
    requires Fund(a, l, tokens, caller).Ok?
    ensures var o := Fund(a, l, tokens, caller).value; Replays(l, o.ledger, o.moves)
  {
    PullReplays(l, caller, a.escrow.assets, |a.escrow.assets|);
  }

  /** The calls that move no token at all. */
  predicate Moveless(action: Action) {
    action.DoApprove? || action.DoExpire? || action.DoClose? || action.DoDispute? || action.DoResolve?
  }

  lemma MovelessKeeps(a: Agreement, l: Ledger, tokens: set<Address>, now: nat, action: Action)
    requires Moveless(action) && Perform(a, l, tokens, now, action).Ok?
    ensures var o := Perform(a, l, tokens, now, action).value; o.ledger == l && o.moves == []
  {
  }

  lemma OtherReplays(a: Agreement, l: Ledger, tokens: set<Address>, now: nat, action: Action)
    requires !PaysOut(action) && !IsReturn(action) && Perform(a, l, tokens, now, action).Ok?
    ensures var o := Perform(a, l, tokens, now, action).value; Replays(l, o.ledger, o.moves)
  {
    match action
    case DoFund(caller) => FundReplays(a, l, tokens, caller);
    case DoReleaseMilestone(caller, index) => MilestoneReplays(a, l, caller, index);
    case DoCancelMilestones(caller) => CancellingReplays(a, l, caller);
    case _ =>
      MovelessKeeps(a, l, tokens, now, action);
      NothingReplays(l);
  }

  lemma FundedReplays(l: Ledger, t: Terms, schedule: Schedule)
    requires OpenFunded(l, t, schedule).Ok?
    ensures var o := OpenFunded(l, t, schedule).value; Replays(l, o.ledger, o.moves)
  {
    PullReplays(l, t.sender, t.assets, |t.assets|);
  }

  /** Every other opening pulls one listed deposit, or nothing. */
  lemma OpeningPulls(l: Ledger, tokens: set<Address>, now: nat, op: Opening, kept: (Ledger, seq<Move>) -> bool)
    requires !op.NewMilestones? && Begin(l, tokens, now, op).Ok? && kept(l, [])
    requires forall t, schedule {:trigger OpenFunded(l, t, schedule)} :: OpenFunded(l, t, schedule).Ok? ==>
               kept(OpenFunded(l, t, schedule).value.ledger, OpenFunded(l, t, schedule).value.moves)
    ensures kept(Begin(l, tokens, now, op).value.ledger, Begin(l, tokens, now, op).value.moves)
  {
  }

  lemma OpeningReplays(l: Ledger, tokens: set<Address>, now: nat, op: Opening, kept: (Ledger, seq<Move>) -> bool)
    requires !op.NewMilestones? && Begin(l, tokens, now, op).Ok?
    requires forall post, moves :: kept(post, moves) <==> Replays(l, post, moves)
    ensures kept(Begin(l, tokens, now, op).value.ledger, Begin(l, tokens, now, op).value.moves)
  {
    NothingReplays(l);
    forall t, schedule | OpenFunded(l, t, schedule).Ok?
      ensures kept(OpenFunded(l, t, schedule).value.ledger, OpenFunded(l, t, schedule).value.moves)
    {
      FundedReplays(l, t, schedule);
    }
    OpeningPulls(l, tokens, now, op, kept);
  }

  lemma MilestonesOpeningReplays(l: Ledger, tokens: set<Address>, now: nat, op: Opening)
    requires op.NewMilestones? && Begin(l, tokens, now, op).Ok?
    ensures var o := Begin(l, tokens, now, op).value; Replays(l, o.ledger, o.moves)
  {
    var m := Move(op.asset, op.sender, SELF, op.amount);
    TransferDecided(l, m);
  }

  /** Every successful call on the contract changes every balance by exactly what its own log
      of transfers says. */
  lemma CallReplays(s: State, op: Op)
    requires Concerns(op) && Exec(s, op).Ok?
    ensures Replays(s.ledger, Exec(s, op).value.state.ledger, Exec(s, op).value.moves)
  {
    match op
    case Open(opening) =>
      if opening.NewMilestones? {
        MilestonesOpeningReplays(s.ledger, s.tokens, s.now, opening);
      } else {
        OpeningReplays(s.ledger, s.tokens, s.now, opening, (post, moves) => Replays(s.ledger, post, moves));
      }
    case Act(id, action) =>
      var a := s.agreements[id];
      if PaysOut(action) {
        PaymentReplays(a, s.ledger, s.tokens, s.now, action);
      } else if IsReturn(action) {
        ReturnReplays(a, s.ledger, s.tokens, s.now, action);
      } else {
        OtherReplays(a, s.ledger, s.tokens, s.now, action);
      }
  }
}

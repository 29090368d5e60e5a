/** The loops of the escrow contract, each proved to compute what the model says. */
module EscrowLoops {
  import opened Common
  import opened Arith
  import M = EscrowModel
  import S = EscrowSteps

  lemma {:induction false} PullFailureIsFinal(l: M.Ledger, sender: Address, assets: seq<M.AssetAmount>, k: nat, n: nat)
    requires k <= n <= |assets| && M.PullFirst(l, sender, assets, k).Err?
    ensures M.PullFirst(l, sender, assets, n) == M.PullFirst(l, sender, assets, k)
  {
    if k < n { PullFailureIsFinal(l, sender, assets, k, n - 1); }
  }

  /** Pull every listed asset into custody. */
  method PullAll(l: M.Ledger, sender: Address, assets: seq<M.AssetAmount>) returns (r: Result<M.Tally>)
    ensures r == M.PullFirst(l, sender, assets, |assets|)
  {
    var tally := M.Tally(l, [], 0);
    for i := 0 to |assets|
      invariant M.PullFirst(l, sender, assets, i) == Ok(tally)
    {
      var m := M.Move(assets[i].asset, sender, M.SELF, assets[i].amount);
      if M.PullFirst(l, sender, assets, i + 1).Err? { PullFailureIsFinal(l, sender, assets, i + 1, |assets|); }
      var ledger :- M.Transfer(tally.ledger, m);
      var total :- CheckedAdd(tally.total, m.amount);
      tally := M.Tally(ledger, tally.moves + [m], total);
    }
    return Ok(tally);
  }

  lemma {:induction false} PayFailureIsFinal(l: M.Ledger, to: Address, assets: seq<M.AssetAmount>, x: int, funded: int,
                                             k: nat, n: nat)
    requires k <= n <= |assets| && M.PayFirst(l, to, assets, x, funded, k).Err?
    ensures M.PayFirst(l, to, assets, x, funded, n) == M.PayFirst(l, to, assets, x, funded, k)
  {
    if k < n { PayFailureIsFinal(l, to, assets, x, funded, k, n - 1); }
  }

  /** Pay the share `x` of every listed asset out of custody. */
  method PayAll(l: M.Ledger, to: Address, assets: seq<M.AssetAmount>, x: int, funded: int) returns (r: Result<M.Tally>)
    ensures r == M.PayFirst(l, to, assets, x, funded, |assets|)
  {
    var tally := M.Tally(l, [], 0);
    for i := 0 to |assets|
      invariant M.PayFirst(l, to, assets, x, funded, i) == Ok(tally)
    {
      var share := M.ShareOf(assets[i].amount, x, funded);
      if M.PayFirst(l, to, assets, x, funded, i + 1).Err? {
        PayFailureIsFinal(l, to, assets, x, funded, i + 1, |assets|);
      }
      var send :- share;
      if send > 0 {
        var m := M.Move(assets[i].asset, M.SELF, to, send);
        var ledger :- M.Transfer(tally.ledger, m);
        tally := M.Tally(ledger, tally.moves + [m], tally.total + send);
      }
    }
    return Ok(tally);
  }

  method CheckAssets(tokens: set<Address>, assets: seq<M.AssetAmount>) returns (r: Guard)
    ensures r == M.ValidateAssets(tokens, assets)
  {
    for i := 0 to |assets|
      invariant forall k :: 0 <= k < i ==> assets[k].asset in tokens
    {
      if assets[i].asset !in tokens { return Fail(AssetNotAuthorized); }
    }
    if |assets| == 0 || |assets| > M.MAX_ESCROW_ASSETS { return Fail(InvalidInput); }
    for i := 0 to |assets|
      invariant M.AssetsFrom(assets, 0) == M.AssetsFrom(assets, i)
    {
      if assets[i].amount <= 0 { return Fail(InvalidAmount); }
      for j := i + 1 to |assets|
        invariant forall k :: i < k < j ==> assets[k].asset != assets[i].asset
      {
        if assets[j].asset == assets[i].asset { return Fail(InvalidInput); }
      }
    }
    return Pass;
  }

  method CheckThreshold<T(==)>(keys: seq<T>, threshold: nat) returns (r: Guard)
    ensures r == M.ValidateThreshold(keys, threshold)
  {
    if |keys| == 0 { return Require(threshold == 0, InvalidThreshold); }
    if |keys| > M.MAX_SIGNERS { return Fail(TooManySigners); }
    if threshold == 0 || threshold > |keys| { return Fail(InvalidThreshold); }
    var duplicate := HasDuplicate(keys);
    return Require(!duplicate, InvalidInput);
  }

  lemma {:induction false} BpsFailureIsFinal(weights: seq<nat>, k: nat, n: nat)
    requires k <= n <= |weights| && M.BpsFirst(weights, k).Err?
    ensures M.BpsFirst(weights, n) == M.BpsFirst(weights, k)
  {
    if k < n { BpsFailureIsFinal(weights, k, n - 1); }
  }

  method SumBps(weights: seq<nat>) returns (r: Result<nat>)
    ensures r == M.BpsFirst(weights, |weights|)
  {
    var total := 0;
    for i := 0 to |weights|
      invariant M.BpsFirst(weights, i) == Ok(total)
    {
      if total + weights[i] > U32_MAX {
        BpsFailureIsFinal(weights, i + 1, |weights|);
        return Err(Overflow);
      }
      total := total + weights[i];
    }
    return Ok(total);
  }

  method BuildMilestones(weights: seq<nat>) returns (items: seq<M.Milestone>)
    ensures items == M.FreshMilestones(weights)
  {
    items := [];
    for i := 0 to |weights|
      invariant items == M.FreshMilestones(weights)[..i]
    {
      items := items + [M.Milestone(i, weights[i], M.Pending)];
    }
  }

  method FindMilestone(items: seq<M.Milestone>, index: nat) returns (k: Option<nat>)
    ensures k == M.Locate(items, index, |items|)
  {
    k := None;
    for i := 0 to |items|
      invariant k == M.Locate(items, index, i)
    {
      if items[i].index == index { k := Some(i); }
    }
  }

  method CountOpen(items: seq<M.Milestone>) returns (open: nat)
    ensures open == M.OpenCount(items, |items|)
  {
    open := 0;
    for i := 0 to |items|
      invariant open == M.OpenCount(items, i)
    {
      if items[i].status != M.Completed { open := open + 1; }
    }
  }

  method FreezeAll(items: seq<M.Milestone>) returns (frozen: seq<M.Milestone>)
    ensures frozen == M.Frozen(items)
  {
    frozen := [];
    for i := 0 to |items|
      invariant frozen == M.Frozen(items)[..i]
    {
      var m := items[i];
      if m.status == M.Pending { m := m.(status := M.Disputed); }
      frozen := frozen + [m];
    }
  }

  method SumAmounts(assets: seq<M.AssetAmount>) returns (total: int)
    ensures total == M.Total(assets)
  {
    total := 0;
    for i := 0 to |assets|
      invariant total == M.Total(assets[..i])
    {
      total := total + assets[i].amount;
      assert assets[..i + 1][..i] == assets[..i];
    }
    assert assets[..|assets|] == assets;
  }

  lemma {:induction false} KeyFailureIsFinal(signers: seq<nat>, signatures: seq<M.Signature>, k: nat, n: nat)
    requires k <= n <= |signatures| && M.KeysFirst(signers, signatures, k).Err?
    ensures M.KeysFirst(signers, signatures, n) == M.KeysFirst(signers, signatures, k)
  {
    if k < n { KeyFailureIsFinal(signers, signatures, k, n - 1); }
  }

  method VerifySignatures(signers: seq<nat>, signatures: seq<M.Signature>) returns (r: Result<seq<nat>>)
    ensures r == M.KeysFirst(signers, signatures, |signatures|)
  {
    var seen: seq<nat> := [];
    for i := 0 to |signatures|
      invariant M.KeysFirst(signers, signatures, i) == Ok(seen)
    {
      var s := signatures[i];
      if M.KeysFirst(signers, signatures, i + 1).Err? { KeyFailureIsFinal(signers, signatures, i + 1, |signatures|); }
      :- Require(s.key in signers, NotASigner);
      :- Require(s.key !in seen, AlreadySigned);
      :- Require(s.valid, HostAbort);
      seen := seen + [s.key];
    }
    return Ok(seen);
  }

  method ListApprovals(participants: seq<Address>, approved: set<Address>) returns (listed: seq<Address>)
    ensures listed == S.ApprovalsFirst(participants, approved, |participants|)
  {
    listed := [];
    for i := 0 to |participants|
      invariant listed == S.ApprovalsFirst(participants, approved, i)
    {
      if participants[i] in approved { listed := listed + [participants[i]]; }
    }
  }
}

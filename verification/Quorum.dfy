/** Weighted quorums: the multisig's tallies over its signer set
    (contracts/multisig/src/lib.rs, quorum.rs) and the independent slice-based
    check of shared/src/validation.rs. */
module Quorum {
  import opened Common
  import opened Arith

  datatype Signer = Signer(address: Address, weight: nat)

  function Addresses(signers: seq<Signer>): (r: seq<Address>)
    ensures |r| == |signers|
    ensures forall i :: 0 <= i < |signers| ==> r[i] == signers[i].address
  {
    seq(|signers|, i requires 0 <= i < |signers| => signers[i].address)
  }

  function Weights(signers: seq<Signer>): (r: seq<nat>)
    ensures |r| == |signers|
    ensures forall i :: 0 <= i < |signers| ==> r[i] == signers[i].weight
  {
    seq(|signers|, i requires 0 <= i < |signers| => signers[i].weight)
  }

  function AddressSet(signers: seq<Signer>): set<Address> {
    set i | 0 <= i < |signers| :: signers[i].address
  }

  ghost predicate Unique(signers: seq<Signer>) {
    forall i, j :: 0 <= i < j < |signers| ==> signers[i].address != signers[j].address
  }

  /** Weights and list lengths are `u32` values in the source. */
  ghost predicate Representable(signers: seq<Signer>) {
    |signers| <= U32_MAX && forall i :: 0 <= i < |signers| ==> signers[i].weight <= U32_MAX
  }

  function Elements(s: seq<Address>): set<Address> { set a | a in s }

  // ----- reference meaning of a tally -----

  /** Combined weight of the signers whose address is in `who`. Being indexed by a
      set, it cannot depend on order or repetition. */
  function WeightOfSet(signers: seq<Signer>, who: set<Address>): nat {
    if signers == [] then 0
    else
      var last := signers[|signers| - 1];
      WeightOfSet(signers[..|signers| - 1], who) + (if last.address in who then last.weight else 0)
  }

  function SumOfWeights(signers: seq<Signer>): nat {
    if signers == [] then 0
    else SumOfWeights(signers[..|signers| - 1]) + signers[|signers| - 1].weight
  }

  lemma SetWeightAtMostTotal(signers: seq<Signer>, who: set<Address>)
    ensures WeightOfSet(signers, who) <= SumOfWeights(signers)
  {
  }

  lemma SetWeightOfNobody(signers: seq<Signer>, who: set<Address>)
    requires forall i :: 0 <= i < |signers| ==> signers[i].address !in who
    ensures WeightOfSet(signers, who) == 0
  {
  }

  lemma SetWeightOfEverybody(signers: seq<Signer>, who: set<Address>)
    requires forall i :: 0 <= i < |signers| ==> signers[i].address in who
    ensures WeightOfSet(signers, who) == SumOfWeights(signers)
  {
  }

  /** Admitting one registered address adds exactly its own weight. */
  lemma {:induction false} SetWeightAdd(signers: seq<Signer>, who: set<Address>, k: nat)
    requires Unique(signers) && k < |signers| && signers[k].address !in who
    ensures WeightOfSet(signers, who + {signers[k].address}) == WeightOfSet(signers, who) + signers[k].weight
  {
    var n := |signers| - 1;
    var front, a := signers[..n], signers[k].address;
    if k == n {
      SetWeightUnaffected(front, who, a);
    } else {
      SetWeightAdd(front, who, k);
    }
  }

  lemma SetWeightUnaffected(signers: seq<Signer>, who: set<Address>, a: Address)
    requires forall i :: 0 <= i < |signers| ==> signers[i].address != a
    ensures WeightOfSet(signers, who + {a}) == WeightOfSet(signers, who)
  {
  }

  lemma SumBounded(signers: seq<Signer>)
    requires Representable(signers)
    ensures SumOfWeights(signers) <= |signers| * U32_MAX
  {
    if signers != [] { SumBounded(signers[..|signers| - 1]); }
  }

  // ----- the contract's own loops -----

  function Narrow(total: int): Result<nat>
    requires total >= 0
  {
    if total > U32_MAX then Err(Overflow) else Ok(total)
  }

  /** Position of `who`, scanning from the front. */
  function IndexOf(signers: seq<Signer>, who: Address): (r: Result<nat>)
    ensures r.Ok? ==> r.value < |signers| && signers[r.value].address == who
    ensures r.Ok? <==> who in AddressSet(signers)
    ensures r.Err? ==> r == Err(NotASigner)
  {
    if signers == [] then Err(NotASigner)
    else if signers[0].address == who then Ok(0)
    else
      assert AddressSet(signers) == {signers[0].address} + AddressSet(signers[1..]) by {
        assert forall i :: 0 < i < |signers| ==> signers[i] == signers[1..][i - 1];
      }
      match IndexOf(signers[1..], who)
      case Ok(k) => Ok(k + 1)
      case Err(e) => Err(e)
  }

  function WeightIn(signers: seq<Signer>, who: Address): Result<nat> {
    var k :- IndexOf(signers, who);
    Ok(signers[k].weight)
  }

  /** `total_weight`: the running sum, narrowed to `u32` at the end. */
  function TotalWeight(signers: seq<Signer>): Result<nat> {
    Narrow(SumOfWeights(signers))
  }

  lemma PrefixSumAtMostTotal(signers: seq<Signer>, n: nat)
    requires n <= |signers|
    ensures SumOfWeights(signers[..n]) <= SumOfWeights(signers)
  {
    if n < |signers| {
      PrefixSumAtMostTotal(signers[..|signers| - 1], n);
      assert signers[..|signers| - 1][..n] == signers[..n];
    } else {
      assert signers[..n] == signers;
    }
  }

  method ComputeTotalWeight(signers: seq<Signer>) returns (r: Result<nat>)
    ensures r == TotalWeight(signers)
  {
    var total := 0;
    var i := 0;
    while i < |signers|
      invariant 0 <= i <= |signers|
      invariant total == SumOfWeights(signers[..i])
    {
      assert signers[..i + 1][..i] == signers[..i];
      PrefixSumAtMostTotal(signers, i + 1);
      total :- CheckedAdd(total, signers[i].weight);
      i := i + 1;
    }
    assert signers[..i] == signers;
    r := Narrow(total);
  }

  /** The state of `accumulate_weight` after some signatories: who was counted and
      the weight so far. */
  datatype Counted = Counted(seen: seq<Address>, total: int)

  function CountFirst(signers: seq<Signer>, caller: Address, signatories: seq<Address>, n: nat): Result<Counted>
    requires n <= |signatories|
  {
    if n == 0 then
      var w :- WeightIn(signers, caller);
      Ok(Counted([caller], w))
    else
      var c :- CountFirst(signers, caller, signatories, n - 1);
      var who := signatories[n - 1];
      if who in c.seen then Ok(c)
      else
        var w :- WeightIn(signers, who);
        var total :- CheckedAdd(c.total, w);
        Ok(Counted(c.seen + [who], total))
  }

  function AccumulateWeight(signers: seq<Signer>, caller: Address, signatories: seq<Address>): Result<int> {
    var c :- CountFirst(signers, caller, signatories, |signatories|);
    if c.total > U32_MAX then Err(Overflow) else Ok(c.total)
  }

  method ComputeAccumulatedWeight(signers: seq<Signer>, caller: Address, signatories: seq<Address>)
    returns (r: Result<int>)
    ensures r == AccumulateWeight(signers, caller, signatories)
  {
    if CountFirst(signers, caller, signatories, 0).Err? {
      CountFailureIsFinal(signers, caller, signatories, 0, |signatories|);
    }
    var callerWeight :- WeightIn(signers, caller);
    var total: int := callerWeight;
    var seen := [caller];
    for i := 0 to |signatories|
      invariant CountFirst(signers, caller, signatories, i) == Ok(Counted(seen, total))
    {
      var who := signatories[i];
      ghost var failure := CountFirst(signers, caller, signatories, i + 1);
      assert failure.Err? ==> AccumulateWeight(signers, caller, signatories) == failure.PropagateFailure() by {
        if failure.Err? { CountFailureIsFinal(signers, caller, signatories, i + 1, |signatories|); }
      }
      if who in seen {
        continue;
      }
      var weight :- WeightIn(signers, who);
      total :- CheckedAdd(total, weight);
      seen := seen + [who];
    }
    if total > U32_MAX { return Err(Overflow); }
    return Ok(total);
  }

  lemma CountFailureIsFinal(signers: seq<Signer>, caller: Address, signatories: seq<Address>, m: nat, n: nat)
    requires m <= n <= |signatories|
    requires CountFirst(signers, caller, signatories, m).Err?
    ensures CountFirst(signers, caller, signatories, n) == CountFirst(signers, caller, signatories, m)
    decreases n - m
  {
    if m < n { CountFailureIsFinal(signers, caller, signatories, m, n - 1); }
  }

  ghost predicate AllRegistered(signers: seq<Signer>, caller: Address, signatories: seq<Address>) {
    caller in AddressSet(signers) && forall a :: a in signatories ==> a in AddressSet(signers)
  }

  /** The addresses behind a signature set. */
  function SignerSet(caller: Address, signatories: seq<Address>): set<Address> {
    {caller} + Elements(signatories)
  }

  lemma {:induction false} CountFirstMeaning(signers: seq<Signer>, caller: Address, signatories: seq<Address>, n: nat)
    requires n <= |signatories|
    requires Representable(signers) && Unique(signers)
    ensures CountFirst(signers, caller, signatories, n).Ok? <==> AllRegistered(signers, caller, signatories[..n])
    ensures CountFirst(signers, caller, signatories, n).Err? ==>
              CountFirst(signers, caller, signatories, n) == Err(NotASigner)
    ensures CountFirst(signers, caller, signatories, n).Ok? ==>
              var c := CountFirst(signers, caller, signatories, n).value;
              && Elements(c.seen) == SignerSet(caller, signatories[..n])
              && c.total == WeightOfSet(signers, SignerSet(caller, signatories[..n]))
  {
    if n == 0 {
      assert signatories[..0] == [];
      assert SignerSet(caller, []) == {} + {caller};
      if caller in AddressSet(signers) {
        SetWeightOfNobody(signers, {});
        SetWeightAdd(signers, {}, IndexOf(signers, caller).value);
      }
    } else {
      CountFirstMeaning(signers, caller, signatories, n - 1);
      var who := signatories[n - 1];
      assert signatories[..n] == signatories[..n - 1] + [who];
      var before, after := SignerSet(caller, signatories[..n - 1]), SignerSet(caller, signatories[..n]);
      assert after == before + {who};
      if who in before {
        assert after == before;
      } else if who in AddressSet(signers) {
        SetWeightAdd(signers, before, IndexOf(signers, who).value);
        SetWeightAtMostTotal(signers, after);
        SumBounded(signers);
      }
    }
  }

  /** `accumulate_weight` is the weight of the *set* of signatories, whatever their
      order and multiplicity; it refuses exactly when somebody is unregistered or the
      weight does not fit `u32`, and it can never pass the total weight. */
  lemma AccumulateIsSetWeight(signers: seq<Signer>, caller: Address, signatories: seq<Address>)
    requires Representable(signers) && Unique(signers)
    ensures !AllRegistered(signers, caller, signatories) ==>
              AccumulateWeight(signers, caller, signatories) == Err(NotASigner)
    ensures AllRegistered(signers, caller, signatories) ==>
              var w := WeightOfSet(signers, SignerSet(caller, signatories));
              && w <= SumOfWeights(signers)
              && AccumulateWeight(signers, caller, signatories) == if w > U32_MAX then Err(Overflow) else Ok(w)
  {
    CountFirstMeaning(signers, caller, signatories, |signatories|);
    assert signatories[..|signatories|] == signatories;
    SetWeightAtMostTotal(signers, SignerSet(caller, signatories));
  }

  /** Reordering or repeating signatories never changes the verdict. */
  lemma AccumulateOrderInsensitive(signers: seq<Signer>, caller: Address, xs: seq<Address>, ys: seq<Address>)
    requires Representable(signers) && Unique(signers)
    requires SignerSet(caller, xs) == SignerSet(caller, ys)
    ensures AccumulateWeight(signers, caller, xs) == AccumulateWeight(signers, caller, ys)
  {
    AccumulateIsSetWeight(signers, caller, xs);
    AccumulateIsSetWeight(signers, caller, ys);
    RegisteredBySet(signers, caller, xs);
    RegisteredBySet(signers, caller, ys);
  }

  lemma RegisteredBySet(signers: seq<Signer>, caller: Address, xs: seq<Address>)
    ensures AllRegistered(signers, caller, xs) <==> forall a :: a in SignerSet(caller, xs) ==> a in AddressSet(signers)
  {
    assert caller in SignerSet(caller, xs);
    assert forall a :: a in xs ==> a in SignerSet(caller, xs);
  }

  // ----- the shared slice check -----

  function Lookup(signers: seq<Address>, who: Address): (r: Option<nat>)
    ensures r.Some? ==> r.value < |signers| && signers[r.value] == who
    ensures r.Some? <==> who in signers
  {
    if signers == [] then None
    else if signers[0] == who then Some(0)
    else match Lookup(signers[1..], who)
      case Some(k) => Some(k + 1)
      case None => None
  }

  function ApprovedFirst(signers: seq<Address>, weights: seq<nat>, approvals: seq<Address>, n: nat): Result<nat>
    requires |signers| == |weights| && n <= |approvals|
  {
    if n == 0 then Ok(0)
    else
      var total :- ApprovedFirst(signers, weights, approvals, n - 1);
      match Lookup(signers, approvals[n - 1])
      case None => Err(NotASigner)
      case Some(k) => if total + weights[k] > U32_MAX then Err(Overflow) else Ok(total + weights[k])
  }

  function VerifyQuorum(signers: seq<Address>, weights: seq<nat>, approvals: seq<Address>,
                        threshold: nat): Result<()> {
    if |signers| != |weights| || |signers| == 0 then Err(InvalidInput)
    else if threshold == 0 then Err(InvalidThreshold)
    else if !Distinct(signers) then Err(InvalidInput)
    else if !Distinct(approvals) then Err(AlreadySigned)
    else
      var total :- ApprovedFirst(signers, weights, approvals, |approvals|);
      if total < threshold then Err(ThresholdNotMet) else Ok(())
  }

  method ComputeVerifyQuorum(signers: seq<Address>, weights: seq<nat>, approvals: seq<Address>, threshold: nat)
    returns (r: Result<()>)
    requires forall i :: 0 <= i < |weights| ==> weights[i] <= U32_MAX
    ensures r == VerifyQuorum(signers, weights, approvals, threshold)
  {
    if |signers| != |weights| || |signers| == 0 { return Err(InvalidInput); }
    if threshold == 0 { return Err(InvalidThreshold); }
    var duplicateSigner := HasDuplicate(signers);
    if duplicateSigner { return Err(InvalidInput); }
    var duplicateApproval := HasDuplicate(approvals);
    if duplicateApproval { return Err(AlreadySigned); }
    var total: nat := 0;
    for i := 0 to |approvals|
      invariant ApprovedFirst(signers, weights, approvals, i) == Ok(total)
      invariant total <= U32_MAX
    {
      ghost var next := ApprovedFirst(signers, weights, approvals, i + 1);
      assert next.Err? ==> ApprovedFirst(signers, weights, approvals, |approvals|) == next by {
        if next.Err? { ApprovedFailureIsFinal(signers, weights, approvals, i + 1, |approvals|); }
      }
      var found := false;
      var idx := 0;
      while idx < |signers| && !found
        invariant 0 <= idx <= |signers|
        invariant !found ==> approvals[i] !in signers[..idx]
        invariant !found ==> ApprovedFirst(signers, weights, approvals, i) == Ok(total) && total <= U32_MAX
        invariant found ==> next == Ok(total) && total <= U32_MAX
        decreases |signers| - idx, !found
      {
        if approvals[i] == signers[idx] {
          found := true;
          LookupUnique(signers, idx);
          if total + weights[idx] > U32_MAX { return Err(Overflow); }
          total := total + weights[idx];
        } else {
          idx := idx + 1;
        }
      }
      if !found {
        assert signers[..idx] == signers;
        return Err(NotASigner);
      }
    }
    if total < threshold { return Err(ThresholdNotMet); }
    return Ok(());
  }

  lemma LookupUnique(signers: seq<Address>, k: nat)
    requires Distinct(signers) && k < |signers|
    ensures Lookup(signers, signers[k]) == Some(k)
  {
    var found := Lookup(signers, signers[k]);
    assert signers[k] in signers;
    assert signers[found.value] == signers[k];
  }

  lemma ApprovedFailureIsFinal(signers: seq<Address>, weights: seq<nat>, approvals: seq<Address>, m: nat, n: nat)
    requires |signers| == |weights| && m <= n <= |approvals|
    requires ApprovedFirst(signers, weights, approvals, m).Err?
    ensures ApprovedFirst(signers, weights, approvals, n) == ApprovedFirst(signers, weights, approvals, m)
    decreases n - m
  {
    if m < n { ApprovedFailureIsFinal(signers, weights, approvals, m, n - 1); }
  }

  lemma SameAddresses(signers: seq<Signer>)
    ensures forall a :: a in Addresses(signers) <==> a in AddressSet(signers)
    ensures Distinct(Addresses(signers)) <==> Unique(signers)
  {
    var addresses := Addresses(signers);
    forall a | a in AddressSet(signers) ensures a in addresses {
      var i :| 0 <= i < |signers| && signers[i].address == a;
      assert addresses[i] == a;
    }
    if Distinct(addresses) {
      forall i, j | 0 <= i < j < |signers| ensures signers[i].address != signers[j].address {
        assert addresses[i] != addresses[j];
      }
    }
  }

  lemma {:induction false} ApprovedFirstMeaning(signers: seq<Signer>, approvals: seq<Address>, n: nat)
    requires n <= |approvals| && Distinct(approvals) && Unique(signers)
    ensures var r := ApprovedFirst(Addresses(signers), Weights(signers), approvals, n);
            var registered := forall a :: a in approvals[..n] ==> a in AddressSet(signers);
            var weight := WeightOfSet(signers, Elements(approvals[..n]));
            && (r.Ok? <==> registered && weight <= U32_MAX)
            && (r.Ok? ==> r.value == weight)
            && (r.Err? ==> (r.error == NotASigner && !registered) || (r.error == Overflow && weight > U32_MAX))
  {
    if n == 0 {
      assert approvals[..0] == [];
      SetWeightOfNobody(signers, Elements(approvals[..0]));
    } else {
      ApprovedFirstMeaning(signers, approvals, n - 1);
      var who := approvals[n - 1];
      assert approvals[..n] == approvals[..n - 1] + [who];
      var before := Elements(approvals[..n - 1]);
      assert Elements(approvals[..n]) == before + {who};
      SameAddresses(signers);
      if who in AddressSet(signers) {
        var k := Lookup(Addresses(signers), who).value;
        assert who !in before;
        SetWeightAdd(signers, before, k);
      } else {
        SetWeightUnaffected(signers, before, who);
      }
    }
  }

  /** On every input the shared check fails exactly when one of its refusals applies, with one
      that does: otherwise distinct registered approvals carry the threshold within `u32`. */
  lemma VerifyQuorumDecided(signers: seq<Signer>, approvals: seq<Address>, threshold: nat)
    ensures var weight := WeightOfSet(signers, Elements(approvals));
            var registered := forall a :: a in approvals ==> a in AddressSet(signers);
            match VerifyQuorum(Addresses(signers), Weights(signers), approvals, threshold)
            case Ok(_) =>
              && signers != [] && Unique(signers) && Distinct(approvals) && registered
              && 1 <= threshold <= weight <= U32_MAX
            case Err(e) =>
              || (e == InvalidInput && (signers == [] || !Unique(signers)))
              || (e == InvalidThreshold && threshold == 0)
              || (e == AlreadySigned && !Distinct(approvals))
              || (e == NotASigner && !registered)
              || (e == Overflow && weight > U32_MAX)
              || (e == ThresholdNotMet && weight < threshold)
  {
    SameAddresses(signers);
    if Unique(signers) && Distinct(approvals) {
      ApprovedFirstMeaning(signers, approvals, |approvals|);
      assert approvals[..|approvals|] == approvals;
    }
  }

  /** Lists of different lengths are no quorum. */
  lemma VerifyQuorumNeedsWeights(signers: seq<Address>, weights: seq<nat>, approvals: seq<Address>, threshold: nat)
    requires |signers| != |weights|
    ensures VerifyQuorum(signers, weights, approvals, threshold) == Err(InvalidInput)
  {
  }

  /** Two independent quorum checks, one verdict: on a duplicate-free signature list
      over a valid signer set, the multisig's accumulation reaches the threshold
      exactly when the shared `verify_quorum` accepts. */
  lemma QuorumChecksAgree(signers: seq<Signer>, caller: Address, signatories: seq<Address>, threshold: nat)
    requires Unique(signers) && SumOfWeights(signers) <= U32_MAX && Representable(signers)
    requires signers != [] && threshold > 0
    requires Distinct([caller] + signatories)
    ensures VerifyQuorum(Addresses(signers), Weights(signers), [caller] + signatories, threshold).Ok? <==>
            && AccumulateWeight(signers, caller, signatories).Ok?
            && AccumulateWeight(signers, caller, signatories).value >= threshold
  {
    var approvals := [caller] + signatories;
    SameAddresses(signers);
    AccumulateIsSetWeight(signers, caller, signatories);
    ApprovedFirstMeaning(signers, approvals, |approvals|);
    assert approvals[..|approvals|] == approvals;
    SetWeightAtMostTotal(signers, Elements(approvals));
    assert Elements(approvals) == SignerSet(caller, signatories);
    assert AllRegistered(signers, caller, signatories) <==> forall a :: a in approvals ==> a in AddressSet(signers) by {
      assert forall a :: a in approvals <==> a == caller || a in signatories;
    }
  }
}

/** Per-asset balance maps (shared/src/balance.rs): crediting and debiting in place, merging,
    subtracting, aggregating lists and reconciling two books. A map is visited in whatever
    order the host iterates it; no result here depends on that order. */
module BalanceMaps {
  import opened Common
  import opened Arith

  const MAX_BALANCE_ENTRIES: nat := 32

  type Balances = map<Address, I128>

  datatype BalanceEntry = BalanceEntry(asset: Address, amount: I128)

  /** A missing entry is a zero balance. */
  function Get(m: Balances, a: Address): I128 { if a in m then m[a] else 0 }

  predicate NonNegative(m: Balances) { forall a :: a in m ==> m[a] >= 0 }

  predicate Positive(m: Balances) { forall a :: a in m ==> m[a] > 0 }

  // ----- single balances (shared/src/math.rs) -----

  function BalanceAdd(balance: I128, amount: I128): Result<I128> {
    if balance < 0 || amount < 0 then Err(InvalidAmount)
    else if InI128(balance + amount) then Ok(balance + amount)
    else Err(Overflow)
  }

  function BalanceSub(balance: I128, amount: I128): Result<I128> {
    if balance < 0 || amount < 0 then Err(InvalidAmount)
    else if balance < amount then Err(InsufficientFunds)
    else if InI128(balance - amount) then Ok(balance - amount)
    else Err(Overflow)
  }

  function LedgerDelta(inside: I128, outside: I128): Result<I128> {
    if inside < 0 || outside < 0 then Err(InvalidAmount)
    else if InI128(outside - inside) then Ok(outside - inside)
    else Err(Overflow)
  }

  /** Room for one more key. */
  predicate Full(m: Balances, a: Address) { |m| >= MAX_BALANCE_ENTRIES && a !in m }

  // ----- what merging and subtracting mean -----

  predicate Addable(dst: Balances, src: Balances, a: Address)
    requires a in src
  {
    Get(dst, a) >= 0 && src[a] >= 0 && Get(dst, a) + src[a] <= I128_MAX
  }

  /** The keys of `src` are known already, or all of them together fit. */
  ghost predicate Roomy(dst: Balances, src: Balances) {
    src.Keys <= dst.Keys || |dst.Keys + src.Keys| <= MAX_BALANCE_ENTRIES
  }

  /** Every balance of `src` can be added to `dst`, and the union of keys fits. */
  ghost predicate Mergeable(dst: Balances, src: Balances) {
    (forall a :: a in src ==> Addable(dst, src, a)) && Roomy(dst, src)
  }

  ghost predicate IsMerge(dst: Balances, src: Balances, out: Balances) {
    && out.Keys == dst.Keys + src.Keys
    && (forall a :: Get(out, a) == Get(dst, a) + Get(src, a))
  }

  ghost predicate Subtractable(dst: Balances, src: Balances) {
    forall a :: a in src ==> 0 <= src[a] <= Get(dst, a)
  }

  /** Only the balances `src` names change, and one that becomes zero is dropped. */
  ghost predicate IsDifference(dst: Balances, src: Balances, out: Balances) {
    && (forall a :: Get(out, a) == Get(dst, a) - Get(src, a))
    && (forall a :: a in src ==> (a in out <==> Get(dst, a) != src[a]))
    && (forall a :: a !in src ==> (a in out <==> a in dst))
  }

  predicate Sufficient(available: Balances, required: Balances) {
    forall a :: a in required ==> Get(available, a) >= required[a]
  }

  /** A partly merged map that is full has no room for the whole of `src`. */
  lemma NoRoom(dst: Balances, src: Balances, out: Balances, a: Address)
    requires forall k :: k in out ==> k in dst || k in src
    requires a in src && a !in dst && a !in out && |out| >= MAX_BALANCE_ENTRIES
    ensures !Roomy(dst, src)
  {
    assert |out.Keys + {a}| == |out| + 1;
    SubsetSize(out.Keys + {a}, dst.Keys + src.Keys);
  }

  lemma {:induction false} SubsetSize(x: set<Address>, y: set<Address>)
    requires x <= y
    ensures |x| <= |y|
  {
    if a :| a in x {
      SubsetSize(x - {a}, y - {a});
    }
  }

  // ----- the map, changed in place -----

  class BalanceMap {
    var entries: Balances

    constructor ()
      ensures entries == map[]
    {
      entries := map[];
    }

    method Credit(asset: Address, amount: I128) returns (r: Result<I128>)
      modifies this
      ensures amount < 0 ==> r == Err(InvalidAmount) && entries == old(entries)
      ensures amount == 0 ==> r == Ok(Get(entries, asset)) && entries == old(entries)
      ensures amount > 0 ==>
                var next := BalanceAdd(Get(old(entries), asset), amount);
                if Full(old(entries), asset) then r == Err(InvalidInput) && entries == old(entries)
                else r == next && entries == if next.Ok? then old(entries)[asset := next.value] else old(entries)
    {
      if amount < 0 { return Err(InvalidAmount); }
      if amount == 0 { return Ok(Get(entries, asset)); }
      :- Require(!Full(entries, asset), InvalidInput);
      var next :- BalanceAdd(Get(entries, asset), amount);
      entries := entries[asset := next];
      return Ok(next);
    }

    method Debit(asset: Address, amount: I128) returns (r: Result<I128>)
      modifies this
      ensures amount < 0 ==> r == Err(InvalidAmount) && entries == old(entries)
      ensures amount == 0 ==> r == Ok(Get(entries, asset)) && entries == old(entries)
      ensures amount > 0 ==>
                var next := BalanceSub(Get(old(entries), asset), amount);
                && r == next
                && Get(entries, asset) == (if next.Ok? then next.value else Get(old(entries), asset))
                && (forall a :: a != asset ==>
                      (a in entries <==> a in old(entries)) && Get(entries, a) == Get(old(entries), a))
                && (next.Ok? ==> (asset in entries <==> next.value != 0))
    {
      if amount < 0 { return Err(InvalidAmount); }
      if amount == 0 { return Ok(Get(entries, asset)); }
      var next :- BalanceSub(Get(entries, asset), amount);
      if next == 0 {
        entries := entries - {asset};
      } else {
        entries := entries[asset := next];
      }
      return Ok(next);
    }

    method SetBalance(asset: Address, amount: I128) returns (r: Result<I128>)
      modifies this
      ensures r.Ok? <==> amount == 0 || (amount > 0 && !Full(old(entries), asset))
      ensures r.Err? ==> entries == old(entries) && r.error == if amount < 0 then InvalidAmount else InvalidInput
      ensures r.Ok? ==> r.value == amount == Get(entries, asset) && (asset in entries <==> amount != 0)
      ensures forall a :: a != asset ==>
                (a in entries <==> a in old(entries)) && Get(entries, a) == Get(old(entries), a)
    {
      if amount < 0 { return Err(InvalidAmount); }
      if amount == 0 {
        entries := entries - {asset};
      } else {
        :- Require(!Full(entries, asset), InvalidInput);
        entries := entries[asset := amount];
      }
      return Ok(amount);
    }

    /** `merge_maps`. After a failure some balances may already have been added: the host
        rolls the whole invocation back. */
    method Merge(src: Balances) returns (r: Guard)
      modifies this
      ensures r.Pass? <==> Mergeable(old(entries), src)
      ensures r.Pass? ==> IsMerge(old(entries), src, entries)
      ensures r.Fail? ==> r.error in {InvalidAmount, Overflow, InvalidInput}
    {
      r, entries := MergeInto(entries, src);
    }

    /** `subtract_maps`, with the same remark about failures. */
    method Subtract(src: Balances) returns (r: Guard)
      modifies this
      ensures r.Pass? <==> Subtractable(old(entries), src)
      ensures r.Pass? ==> IsDifference(old(entries), src, entries)
      ensures r.Fail? ==> r.error in {InvalidAmount, InsufficientFunds}
    {
      r, entries := SubtractFrom(entries, src);
    }
  }

  /** One round of the merge loop. */
  function AddOne(out: Balances, a: Address, amount: I128): Result<Balances> {
    var next :- BalanceAdd(Get(out, a), amount);
    :- Require(!Full(out, a), InvalidInput);
    Ok(out[a := next])
  }

  /** `out` is `dst` with the balances of `src` outside `todo` merged in. */
  ghost predicate Merging(dst: Balances, src: Balances, todo: set<Address>, out: Balances) {
    && todo <= src.Keys
    && (forall a :: a in out <==> a in dst || (a in src && a !in todo))
    && (forall a :: a in todo || a !in src ==> Get(out, a) == Get(dst, a))
    && (forall a :: a in src && a !in todo ==> Addable(dst, src, a) && Get(out, a) == Get(dst, a) + src[a])
    && (|out| <= MAX_BALANCE_ENTRIES || out.Keys == dst.Keys)
  }

  lemma MergeStep(dst: Balances, src: Balances, todo: set<Address>, out: Balances, a: Address)
    requires Merging(dst, src, todo, out) && a in todo
    ensures var next := AddOne(out, a, src[a]);
            match next
            case Ok(grown) => Merging(dst, src, todo - {a}, grown)
            case Err(e) => !Mergeable(dst, src) && e in {InvalidAmount, Overflow, InvalidInput}
  {
    if Full(out, a) && BalanceAdd(Get(out, a), src[a]).Ok? { NoRoom(dst, src, out, a); }
  }

  lemma MergeStart(dst: Balances, src: Balances)
    ensures Merging(dst, src, src.Keys, dst)
  {
  }

  lemma MergeDone(dst: Balances, src: Balances, out: Balances)
    requires Merging(dst, src, {}, out)
    ensures Mergeable(dst, src) && IsMerge(dst, src, out)
  {
    assert out.Keys == dst.Keys + src.Keys;
  }

  /** The merge loop on the map under construction. */
  method MergeInto(dst: Balances, src: Balances) returns (r: Guard, out: Balances)
    ensures r.Pass? <==> Mergeable(dst, src)
    ensures r.Pass? ==> IsMerge(dst, src, out)
    ensures r.Fail? ==> r.error in {InvalidAmount, Overflow, InvalidInput}
  {
    out := dst;
    var todo := src.Keys;
    MergeStart(dst, src);
    while todo != {}
      invariant Merging(dst, src, todo, out)
      decreases |todo|
    {
      var a :| a in todo;
      MergeStep(dst, src, todo, out, a);
      var next := AddOne(out, a, src[a]);
      if next.Err? { return Fail(next.error), out; }
      out, todo := next.value, todo - {a};
    }
    MergeDone(dst, src, out);
    r := Pass;
  }

  /** One round of the subtraction loop. */
  function TakeOne(out: Balances, a: Address, amount: I128): Result<Balances> {
    var next :- BalanceSub(Get(out, a), amount);
    Ok(if next == 0 then out - {a} else out[a := next])
  }

  /** `out` is `dst` with the balances of `src` outside `todo` taken off. */
  ghost predicate Subtracting(dst: Balances, src: Balances, todo: set<Address>, out: Balances) {
    && todo <= src.Keys
    && (forall a :: a in todo || a !in src ==> Get(out, a) == Get(dst, a) && (a in out <==> a in dst))
    && (forall a :: a in src && a !in todo ==> 0 <= src[a] <= Get(dst, a))
    && (forall a :: a in src && a !in todo ==> Get(out, a) == Get(dst, a) - src[a])
    && (forall a :: a in src && a !in todo ==> (a in out <==> Get(dst, a) != src[a]))
  }

  lemma SubtractStep(dst: Balances, src: Balances, todo: set<Address>, out: Balances, a: Address)
    requires Subtracting(dst, src, todo, out) && a in todo
    ensures match TakeOne(out, a, src[a])
            case Ok(shrunk) => Subtracting(dst, src, todo - {a}, shrunk)
            case Err(e) => !Subtractable(dst, src) && e in {InvalidAmount, InsufficientFunds}
  {
  }

  method SubtractFrom(dst: Balances, src: Balances) returns (r: Guard, out: Balances)
    ensures r.Pass? <==> Subtractable(dst, src)
    ensures r.Pass? ==> IsDifference(dst, src, out)
    ensures r.Fail? ==> r.error in {InvalidAmount, InsufficientFunds}
  {
    out := dst;
    var todo := src.Keys;
    while todo != {}
      invariant Subtracting(dst, src, todo, out)
      decreases |todo|
    {
      var a :| a in todo;
      SubtractStep(dst, src, todo, out, a);
      var next := TakeOne(out, a, src[a]);
      if next.Err? { return Fail(next.error), out; }
      out, todo := next.value, todo - {a};
    }
    r := Pass;
  }

  method EnsureSufficient(available: Balances, required: Balances) returns (r: Guard)
    ensures r == Require(Sufficient(available, required), InsufficientFunds)
  {
    var todo := required.Keys;
    while todo != {}
      invariant todo <= required.Keys
      invariant forall a :: a in required && a !in todo ==> Get(available, a) >= required[a]
      decreases |todo|
    {
      var a :| a in todo;
      if Get(available, a) < required[a] { return Fail(InsufficientFunds); }
      todo := todo - {a};
    }
    return Pass;
  }

  // ----- the algebra -----

  lemma MergedIsSubtractable(dst: Balances, src: Balances, merged: Balances)
    requires NonNegative(dst) && NonNegative(src) && IsMerge(dst, src, merged)
    ensures Subtractable(merged, src)
  {
    forall a | a in src ensures 0 <= src[a] <= Get(merged, a) {
      assert Get(merged, a) == Get(dst, a) + Get(src, a);
    }
  }

  /** Two maps with the same keys and the same balances are the same map. */
  lemma SameBalances(m: Balances, n: Balances)
    requires forall a :: (a in m <==> a in n) && Get(m, a) == Get(n, a)
    ensures m == n
  {
    forall a | a in m ensures m[a] == n[a] { assert Get(m, a) == Get(n, a); }
  }

  /** Merging a non-negative map and then subtracting it restores a map without zero
      entries. */
  lemma MergeThenSubtract(dst: Balances, src: Balances, merged: Balances, back: Balances)
    requires Positive(dst) && NonNegative(src) && IsMerge(dst, src, merged) && IsDifference(merged, src, back)
    ensures back == dst
  {
    forall a ensures (a in back <==> a in dst) && Get(back, a) == Get(dst, a) {
      assert Get(merged, a) == Get(dst, a) + Get(src, a);
      assert Get(back, a) == Get(merged, a) - Get(src, a);
    }
    SameBalances(back, dst);
  }

  /** On non-negative maps the cheap check predicts the subtraction exactly. */
  lemma SufficientIffSubtractable(dst: Balances, src: Balances)
    requires NonNegative(src)
    ensures Sufficient(dst, src) <==> Subtractable(dst, src)
  {
  }

  // ----- reconciliation -----

  ghost predicate Agree(m: Balances, n: Balances) { forall a :: Get(m, a) == Get(n, a) }

  /** `out` holds exactly the non-zero differences. */
  ghost predicate IsDelta(inside: Balances, outside: Balances, out: Balances) {
    && (forall a :: a in out <==> Get(outside, a) != Get(inside, a))
    && (forall a :: a in out ==> out[a] == Get(outside, a) - Get(inside, a))
  }

  method ReconcileMaps(m: Balances, n: Balances) returns (r: Guard)
    ensures r.Pass? <==> Agree(m, n)
    ensures r.Fail? ==> r.error == InvalidState
  {
    var todo := m.Keys;
    while todo != {}
      invariant todo <= m.Keys
      invariant forall a :: a in m && a !in todo ==> m[a] == Get(n, a)
      decreases |todo|
    {
      var a :| a in todo;
      if m[a] != Get(n, a) {
        assert Get(m, a) != Get(n, a);
        return Fail(InvalidState);
      }
      todo := todo - {a};
    }
    todo := n.Keys;
    while todo != {}
      invariant todo <= n.Keys
      invariant forall a :: a in n && a !in todo ==> a in m || n[a] == 0
      decreases |todo|
    {
      var a :| a in todo;
      if a !in m && n[a] != 0 {
        assert Get(m, a) != Get(n, a);
        return Fail(InvalidState);
      }
      todo := todo - {a};
    }
    return Pass;
  }

  /** The first loop of `deltas`: every asset of the outside book. */
  method OutsideDeltas(inside: Balances, outside: Balances) returns (r: Result<Balances>)
    ensures r.Ok? <==> NonNegative(outside) && forall a :: a in outside ==> Get(inside, a) >= 0
    ensures r.Err? ==> r.error == InvalidAmount
    ensures r.Ok? ==> forall a :: a in r.value <==> a in outside && outside[a] != Get(inside, a)
    ensures r.Ok? ==> forall a :: a in r.value ==> r.value[a] == outside[a] - Get(inside, a)
  {
    var out: Balances := map[];
    var todo := outside.Keys;
    while todo != {}
      invariant todo <= outside.Keys
      invariant forall a :: a in outside && a !in todo ==> outside[a] >= 0 && Get(inside, a) >= 0
      invariant forall a :: a in out <==> a in outside && a !in todo && outside[a] != Get(inside, a)
      invariant forall a :: a in out ==> out[a] == outside[a] - Get(inside, a)
      decreases |todo|
    {
      var a :| a in todo;
      var d := LedgerDelta(Get(inside, a), outside[a]);
      if d.Err? { return Err(d.error); }
      if d.value != 0 { out := out[a := d.value]; }
      todo := todo - {a};
    }
    return Ok(out);
  }

  /** `deltas`: what has to be added to the inside book to reach the outside one. */
  method Deltas(inside: Balances, outside: Balances) returns (r: Result<Balances>)
    ensures r.Ok? <==> NonNegative(inside) && NonNegative(outside)
    ensures r.Ok? ==> IsDelta(inside, outside, r.value)
    ensures r.Err? ==> r.error == InvalidAmount
  {
    var first := OutsideDeltas(inside, outside);
    if first.Err? { return first; }
    var out := first.value;
    var todo := inside.Keys;
    while todo != {}
      invariant todo <= inside.Keys
      invariant forall a :: a in inside && a !in todo ==> inside[a] >= 0
      invariant forall a :: a in out <==> (a in outside || a !in todo) && Get(outside, a) != Get(inside, a)
      invariant forall a :: a in out ==> out[a] == Get(outside, a) - Get(inside, a)
      decreases |todo|
    {
      var a :| a in todo;
      if a !in outside {
        var d := LedgerDelta(inside[a], 0);
        if d.Err? { return Err(d.error); }
        if d.value != 0 { out := out[a := d.value]; }
      } else {
        assert Get(inside, a) >= 0;
      }
      todo := todo - {a};
    }
    return Ok(out);
  }

  /** The outside book is the inside book plus the deltas, at every asset. */
  lemma DeltasExplainTheGap(inside: Balances, outside: Balances, out: Balances, a: Address)
    requires IsDelta(inside, outside, out)
    ensures Get(outside, a) == Get(inside, a) + Get(out, a)
  {
    assert a in out <==> Get(outside, a) != Get(inside, a);
  }

  /** Two books reconcile exactly when there is no delta between them. */
  lemma ReconcilesIffNoDelta(inside: Balances, outside: Balances, out: Balances)
    requires IsDelta(inside, outside, out)
    ensures Agree(inside, outside) <==> out == map[]
  {
    if out == map[] {
      forall a ensures Get(inside, a) == Get(outside, a) { assert a !in out; }
    } else {
      var a :| a in out;
      assert Get(outside, a) != Get(inside, a);
    }
  }

  // ----- lists -----

  /** One round of the aggregation loop: a zero entry is skipped. */
  function AddEntry(totals: Balances, e: BalanceEntry): Result<Balances> {
    if e.amount < 0 then Err(InvalidAmount) else
    if e.amount == 0 then Ok(totals) else AddOne(totals, e.asset, e.amount)
  }

  /** The aggregation loop after its first `n` entries. */
  function AggregateFirst(entries: seq<BalanceEntry>, n: nat): Result<Balances>
    requires n <= |entries|
  {
    if n == 0 then Ok(map[])
    else
      var totals :- AggregateFirst(entries, n - 1);
      AddEntry(totals, entries[n - 1])
  }

  lemma {:induction false} AggregateFailureIsFinal(entries: seq<BalanceEntry>, k: nat, n: nat)
    requires k <= n <= |entries| && AggregateFirst(entries, k).Err?
    ensures AggregateFirst(entries, n) == AggregateFirst(entries, k)
  {
    if k < n { AggregateFailureIsFinal(entries, k, n - 1); }
  }

  method AggregateEntries(entries: seq<BalanceEntry>) returns (r: Result<Balances>)
    ensures r == AggregateFirst(entries, |entries|)
  {
    var totals: Balances := map[];
    for i := 0 to |entries|
      invariant AggregateFirst(entries, i) == Ok(totals)
    {
      var e := entries[i];
      if AggregateFirst(entries, i + 1).Err? { AggregateFailureIsFinal(entries, i + 1, |entries|); }
      :- Require(e.amount >= 0, InvalidAmount);
      if e.amount == 0 { continue; }
      var next :- BalanceAdd(Get(totals, e.asset), e.amount);
      :- Require(!Full(totals, e.asset), InvalidInput);
      totals := totals[e.asset := next];
    }
    return Ok(totals);
  }

  function SumFor(entries: seq<BalanceEntry>, a: Address, n: nat): int
    requires n <= |entries|
  {
    if n == 0 then 0 else SumFor(entries, a, n - 1) + (if entries[n - 1].asset == a then entries[n - 1].amount else 0)
  }

  /** Aggregation adds up every asset, keeps no zero entry and no more than 32 assets. */
  lemma {:induction false} AggregateMeaning(entries: seq<BalanceEntry>, n: nat)
    requires n <= |entries| && AggregateFirst(entries, n).Ok?
    ensures var m := AggregateFirst(entries, n).value;
            && Positive(m) && |m| <= MAX_BALANCE_ENTRIES
            && (forall a :: Get(m, a) == SumFor(entries, a, n))
  {
    if n > 0 { AggregateMeaning(entries, n - 1); }
  }

  /** Each entry is a balance of `m`, and none is listed twice. */
  ghost predicate Sublist(entries: seq<BalanceEntry>, m: Balances) {
    && (forall i :: 0 <= i < |entries| ==> entries[i].asset in m && entries[i].amount == m[entries[i].asset])
    && (forall i, j :: 0 <= i < j < |entries| ==> entries[i].asset != entries[j].asset)
  }

  /** `entries` lists the whole map, each asset once, in some order. */
  ghost predicate Lists(entries: seq<BalanceEntry>, m: Balances) {
    && Sublist(entries, m)
    && (forall a :: a in m ==> exists i :: 0 <= i < |entries| && entries[i].asset == a)
  }

  method ToEntries(m: Balances) returns (entries: seq<BalanceEntry>)
    ensures Lists(entries, m)
  {
    entries := [];
    var todo := m.Keys;
    while todo != {}
      invariant todo <= m.Keys
      invariant forall i :: 0 <= i < |entries| ==>
        entries[i].asset in m && entries[i].asset !in todo && entries[i].amount == m[entries[i].asset]
      invariant forall a :: a in m && a !in todo ==> exists i :: 0 <= i < |entries| && entries[i].asset == a
      invariant forall i, j :: 0 <= i < j < |entries| ==> entries[i].asset != entries[j].asset
      decreases |todo|
    {
      var a :| a in todo;
      ghost var before := entries;
      entries := entries + [BalanceEntry(a, m[a])];
      todo := todo - {a};
      forall b | b in m && b !in todo ensures exists i :: 0 <= i < |entries| && entries[i].asset == b {
        if b == a {
          assert entries[|before|].asset == b;
        } else {
          var i :| 0 <= i < |before| && before[i].asset == b;
          assert entries[i].asset == b;
        }
      }
    }
  }

  ghost function AssetsOf(entries: seq<BalanceEntry>, n: nat): set<Address>
    requires n <= |entries|
  {
    if n == 0 then {} else AssetsOf(entries, n - 1) + {entries[n - 1].asset}
  }

  lemma {:induction false} AssetsOfMeaning(entries: seq<BalanceEntry>, n: nat, a: Address)
    requires n <= |entries|
    ensures a in AssetsOf(entries, n) <==> exists i :: 0 <= i < n && entries[i].asset == a
  {
    if n > 0 { AssetsOfMeaning(entries, n - 1, a); }
  }

  lemma AddNewEntry(totals: Balances, e: BalanceEntry)
    requires e.amount > 0 && e.asset !in totals && |totals| < MAX_BALANCE_ENTRIES
    ensures AddEntry(totals, e) == Ok(totals[e.asset := e.amount])
  {
  }

  /** The map the first `n` entries of a listing spell out. */
  ghost function Spelled(entries: seq<BalanceEntry>, n: nat): Balances
    requires n <= |entries|
  {
    if n == 0 then map[] else Spelled(entries, n - 1)[entries[n - 1].asset := entries[n - 1].amount]
  }

  /** It is the part of `m` that those entries list. */
  lemma {:induction false} SpelledIsPart(entries: seq<BalanceEntry>, m: Balances, n: nat)
    requires n <= |entries|
    requires forall i :: 0 <= i < |entries| ==> entries[i].asset in m && entries[i].amount == m[entries[i].asset]
    ensures Spelled(entries, n).Keys == AssetsOf(entries, n) <= m.Keys
    ensures forall a :: a in Spelled(entries, n) ==> Spelled(entries, n)[a] == m[a]
  {
    if n > 0 { SpelledIsPart(entries, m, n - 1); }
  }

  lemma NextIsNew(entries: seq<BalanceEntry>, m: Balances, n: nat)
    requires Sublist(entries, m) && n < |entries|
    ensures entries[n].asset !in AssetsOf(entries, n)
  {
    AssetsOfMeaning(entries, n, entries[n].asset);
  }

  lemma RoomForOne(totals: Balances, m: Balances, a: Address)
    requires totals.Keys <= m.Keys && a in m && a !in totals
    ensures |totals| < |m|
  {
    assert |totals.Keys + {a}| == |totals| + 1;
    SubsetSize(totals.Keys + {a}, m.Keys);
  }

  /** Adding the next entry of a listing spells it out a step further. */
  lemma ListingStep(entries: seq<BalanceEntry>, m: Balances, n: nat)
    requires Sublist(entries, m) && Positive(m) && |m| <= MAX_BALANCE_ENTRIES && n < |entries|
    ensures AddEntry(Spelled(entries, n), entries[n]) == Ok(Spelled(entries, n + 1))
  {
    SpelledIsPart(entries, m, n);
    NextIsNew(entries, m, n);
    RoomForOne(Spelled(entries, n), m, entries[n].asset);
    AddNewEntry(Spelled(entries, n), entries[n]);
  }

  /** Aggregating the first `n` entries of a listing rebuilds that part of the map. */
  lemma {:induction false} AggregateListing(entries: seq<BalanceEntry>, m: Balances, n: nat)
    requires Sublist(entries, m) && Positive(m) && |m| <= MAX_BALANCE_ENTRIES && n <= |entries|
    ensures AggregateFirst(entries, n) == Ok(Spelled(entries, n))
  {
    if n > 0 {
      AggregateListing(entries, m, n - 1);
      ListingStep(entries, m, n - 1);
    }
  }

  /** Listing a positive map of at most 32 entries and aggregating the list, in any order,
      gives the map back. */
  lemma AggregateRoundTrip(entries: seq<BalanceEntry>, m: Balances)
    requires Lists(entries, m) && Positive(m) && |m| <= MAX_BALANCE_ENTRIES
    ensures AggregateFirst(entries, |entries|) == Ok(m)
  {
    AggregateListing(entries, m, |entries|);
    SpelledIsPart(entries, m, |entries|);
    forall a | a in m ensures a in AssetsOf(entries, |entries|) { AssetsOfMeaning(entries, |entries|, a); }
    assert Spelled(entries, |entries|) == m;
  }
}

/** What the transfer loops move and what repeated floored shares add up to. */
module EscrowShares {
  import opened Common
  import opened Arith
  import opened EscrowModel

  // ----- reading a transfer log -----

  /** What outsiders put into custody. */
  function Deposited(moves: seq<Move>, a: Address): int {
    if moves == [] then 0
    else
      var m := moves[|moves| - 1];
      Deposited(moves[..|moves| - 1], a) + (if m.asset == a && m.from != SELF then m.amount else 0)
  }

  /** What left custody towards `to`. */
  function PaidTo(moves: seq<Move>, a: Address, to: Address): int {
    if moves == [] then 0
    else
      var m := moves[|moves| - 1];
      PaidTo(moves[..|moves| - 1], a, to) + (if m.asset == a && m.from == SELF && m.to == to then m.amount else 0)
  }

  /** What left custody towards anybody. */
  function Paid(moves: seq<Move>, a: Address): int {
    if moves == [] then 0
    else
      var m := moves[|moves| - 1];
      Paid(moves[..|moves| - 1], a) + (if m.asset == a && m.from == SELF then m.amount else 0)
  }

  lemma SnocSums(moves: seq<Move>, m: Move, a: Address, to: Address)
    ensures Deposited(moves + [m], a) == Deposited(moves, a) + (if m.asset == a && m.from != SELF then m.amount else 0)
    ensures Paid(moves + [m], a) == Paid(moves, a) + (if m.asset == a && m.from == SELF then m.amount else 0)
    ensures PaidTo(moves + [m], a, to)
         == PaidTo(moves, a, to) + (if m.asset == a && m.from == SELF && m.to == to then m.amount else 0)
  {
    assert (moves + [m])[..|moves|] == moves;
  }

  lemma {:induction false} ConcatSums(log: seq<Move>, moves: seq<Move>, a: Address, to: Address)
    ensures Deposited(log + moves, a) == Deposited(log, a) + Deposited(moves, a)
    ensures Paid(log + moves, a) == Paid(log, a) + Paid(moves, a)
    ensures PaidTo(log + moves, a, to) == PaidTo(log, a, to) + PaidTo(moves, a, to)
  {
    if moves == [] {
      assert log + moves == log;
    } else {
      var n := |moves| - 1;
      ConcatSums(log, moves[..n], a, to);
      assert (log + moves)[..|log + moves| - 1] == log + moves[..n];
    }
  }

  // ----- asset lists -----

  predicate AssetsOk(assets: seq<AssetAmount>) {
    && 0 < |assets| <= MAX_ESCROW_ASSETS
    && (forall i :: 0 <= i < |assets| ==> assets[i].amount > 0)
    && (forall i, j :: 0 <= i < j < |assets| ==> assets[i].asset != assets[j].asset)
  }

  lemma {:induction false} AssetsFromMeaning(assets: seq<AssetAmount>, i: nat)
    requires i <= |assets|
    ensures AssetsFrom(assets, i).Pass? <==>
            && (forall k :: i <= k < |assets| ==> assets[k].amount > 0)
            && (forall k, j :: i <= k < j < |assets| ==> assets[k].asset != assets[j].asset)
    decreases |assets| - i
  {
    if i < |assets| { AssetsFromMeaning(assets, i + 1); }
  }

  /** How much of asset `a` the first `n` entries list. */
  function AmountFirst(assets: seq<AssetAmount>, a: Address, n: nat): int
    requires n <= |assets|
  {
    if n == 0 then 0
    else AmountFirst(assets, a, n - 1) + (if assets[n - 1].asset == a then assets[n - 1].amount else 0)
  }

  function AmountOf(assets: seq<AssetAmount>, a: Address): int { AmountFirst(assets, a, |assets|) }

  /** An asset not listed before position `n` has nothing listed there. */
  lemma {:induction false} UnlistedAmount(assets: seq<AssetAmount>, a: Address, n: nat)
    requires n <= |assets| && forall i :: 0 <= i < n ==> assets[i].asset != a
    ensures AmountFirst(assets, a, n) == 0
  {
    if n > 0 { UnlistedAmount(assets, a, n - 1); }
  }

  lemma {:induction false} AmountBounds(assets: seq<AssetAmount>, a: Address, n: nat)
    requires n <= |assets| && forall i :: 0 <= i < |assets| ==> assets[i].amount > 0
    ensures 0 <= AmountFirst(assets, a, n) <= Total(assets[..n])
    ensures n > 0 ==> Total(assets[..n]) > 0
  {
    if n > 0 {
      AmountBounds(assets, a, n - 1);
      assert assets[..n][..n - 1] == assets[..n - 1];
    }
  }

  lemma AmountWithinTotal(assets: seq<AssetAmount>, a: Address)
    requires AssetsOk(assets)
    ensures 0 <= AmountOf(assets, a) <= Total(assets) && Total(assets) > 0
  {
    AmountBounds(assets, a, |assets|);
    assert assets[..|assets|] == assets;
  }

  /** The amount an entry lists is all there is of its asset. */
  lemma {:induction false} AmountAt(assets: seq<AssetAmount>, k: nat, n: nat)
    requires AssetsOk(assets) && k < n <= |assets|
    ensures AmountFirst(assets, assets[k].asset, n) == assets[k].amount
  {
    if k == n - 1 {
      UnlistedAmount(assets, assets[k].asset, k);
    } else {
      AmountAt(assets, k, n - 1);
    }
  }

  // ----- the deposit loop -----

  lemma TransferEffect(l: Ledger, m: Move, a: Address)
    requires Transfer(l, m).Ok?
    ensures var post := Transfer(l, m).value;
            && (m.from != SELF ==> Balance(post, SELF, a)
                                   == Balance(l, SELF, a) + (if m.asset == a && m.to == SELF then m.amount else 0))
            && (m.from == SELF ==> Balance(post, SELF, a)
                                   >= Balance(l, SELF, a) - (if m.asset == a then m.amount else 0))
  {
  }

  ghost predicate ComesFrom(moves: seq<Move>, sender: Address) {
    forall i :: 0 <= i < |moves| ==> moves[i].from == sender && moves[i].to == SELF
  }

  /** Moves into custody pay nobody. */
  lemma {:induction false} InboundPaysNobody(moves: seq<Move>, sender: Address, a: Address, to: Address)
    requires ComesFrom(moves, sender) && sender != SELF
    ensures Paid(moves, a) == 0 && PaidTo(moves, a, to) == 0
  {
    if moves != [] { InboundPaysNobody(moves[..|moves| - 1], sender, a, to); }
  }

  /** What a deposit loop has achieved for asset `a`: all moves come from the sender, `got`
      of the asset came in, and custody holds it. */
  ghost predicate PulledSoFar(l: Ledger, sender: Address, t: Tally, a: Address, got: int) {
    && ComesFrom(t.moves, sender)
    && Deposited(t.moves, a) == got
    && Balance(t.ledger, SELF, a) == Balance(l, SELF, a) + got
  }

  lemma PullOneMore(l: Ledger, t: Tally, m: Move, a: Address, got: int)
    requires m.from != SELF && m.to == SELF && PullOne(t, m).Ok? && PulledSoFar(l, m.from, t, a, got)
    ensures PulledSoFar(l, m.from, PullOne(t, m).value, a, got + if m.asset == a then m.amount else 0)
  {
    TransferEffect(t.ledger, m, a);
    SnocSums(t.moves, m, a, SELF);
  }

  /** Of every asset the loop brings in exactly what is listed. */
  lemma {:induction false} PullEffect(l: Ledger, sender: Address, assets: seq<AssetAmount>, n: nat, a: Address)
    requires sender != SELF && n <= |assets| && PullFirst(l, sender, assets, n).Ok?
    ensures PulledSoFar(l, sender, PullFirst(l, sender, assets, n).value, a, AmountFirst(assets, a, n))
  {
    if n > 0 {
      PullEffect(l, sender, assets, n - 1, a);
      PullOneMore(l, PullFirst(l, sender, assets, n - 1).value,
                  Move(assets[n - 1].asset, sender, SELF, assets[n - 1].amount), a, AmountFirst(assets, a, n - 1));
    }
  }

  lemma PullOneTotal(t: Tally, m: Move)
    requires PullOne(t, m).Ok?
    ensures PullOne(t, m).value.total == t.total + m.amount && InI128(t.total + m.amount)
  {
  }

  /** And it totals the list, within the range of the sum. */
  lemma {:induction false} PullTotals(l: Ledger, sender: Address, assets: seq<AssetAmount>, n: nat)
    requires n <= |assets| && PullFirst(l, sender, assets, n).Ok?
    ensures PullFirst(l, sender, assets, n).value.total == Total(assets[..n])
    ensures InI128(Total(assets[..n]))
  {
    if n > 0 {
      PullTotals(l, sender, assets, n - 1);
      PullOneTotal(PullFirst(l, sender, assets, n - 1).value,
                   Move(assets[n - 1].asset, sender, SELF, assets[n - 1].amount));
      assert assets[..n][..n - 1] == assets[..n - 1];
    }
  }

  // ----- the payout loop -----

  /** Whenever the checked share is computed at all it is the floored one. */
  lemma CheckedPortion(amount: nat, x: nat, funded: nat)
    requires funded > 0
    ensures ShareOf(amount, x, funded)
         == if amount * x <= I128_MAX then Ok(Portion(amount, x, funded)) else Err(Overflow)
  {
    var p := amount * x;
    assert p >= 0;
    FloorBounds(p, funded);
    assert p / funded <= p by { MulMonotone(p / funded, 1, funded); }
  }

  ghost predicate PaysTo(moves: seq<Move>, to: Address) {
    forall i :: 0 <= i < |moves| ==> moves[i].from == SELF && moves[i].to == to && moves[i].amount >= 0
  }

  lemma PayOneEffect(t: Tally, m: Move, a: Address)
    requires m.from == SELF && m.amount >= 0 && PayOne(t, m).Ok?
    requires PaysTo(t.moves, m.to)
    ensures var u := PayOne(t, m).value;
            && PaysTo(u.moves, m.to)
            && Deposited(u.moves, a) == Deposited(t.moves, a)
            && Paid(u.moves, a) == Paid(t.moves, a) + (if m.asset == a then m.amount else 0)
            && Balance(u.ledger, SELF, a) >= Balance(t.ledger, SELF, a) - (if m.asset == a then m.amount else 0)
  {
    if m.amount > 0 {
      TransferEffect(t.ledger, m, a);
      SnocSums(t.moves, m, a, m.to);
    }
  }

  /** One round of the loop, free of the checked arithmetic. */
  lemma PayRound(l: Ledger, to: Address, assets: seq<AssetAmount>, x: nat, funded: nat, n: nat)
    requires funded > 0 && n < |assets| && assets[n].amount >= 0
    ensures var before := PayFirst(l, to, assets, x, funded, n);
            PayFirst(l, to, assets, x, funded, n + 1) ==
            if before.Err? then before
            else if assets[n].amount * x > I128_MAX then Err(Overflow)
            else PayOne(before.value, Move(assets[n].asset, SELF, to, Portion(assets[n].amount, x, funded)))
    ensures Portion(assets[n].amount, x, funded) >= 0
  {
    CheckedPortion(assets[n].amount, x, funded);
    PortionNonNegative(assets[n].amount, x, funded);
  }

  /** A round that succeeds pays the floored share. */
  lemma PaidRound(l: Ledger, to: Address, assets: seq<AssetAmount>, x: nat, funded: nat, n: nat)
    requires funded > 0 && n < |assets| && assets[n].amount >= 0 && PayFirst(l, to, assets, x, funded, n + 1).Ok?
    ensures PayFirst(l, to, assets, x, funded, n).Ok?
    ensures PayFirst(l, to, assets, x, funded, n + 1)
         == PayOne(PayFirst(l, to, assets, x, funded, n).value,
                   Move(assets[n].asset, SELF, to, Portion(assets[n].amount, x, funded)))
    ensures Portion(assets[n].amount, x, funded) >= 0
  {
    PayRound(l, to, assets, x, funded, n);
  }

  /** What a payout loop has achieved for asset `a` after `n` rounds: all moves go to `to`,
      `paid` of the asset has left, and custody lost no more. */
  ghost predicate PaidSoFar(l: Ledger, to: Address, t: Tally, a: Address, paid: int) {
    && PaysTo(t.moves, to)
    && Deposited(t.moves, a) == 0
    && Paid(t.moves, a) == paid
    && Balance(t.ledger, SELF, a) >= Balance(l, SELF, a) - paid
  }

  lemma PayOneMore(l: Ledger, t: Tally, m: Move, a: Address, paid: int)
    requires m.from == SELF && m.amount >= 0 && PayOne(t, m).Ok? && PaidSoFar(l, m.to, t, a, paid)
    ensures PaidSoFar(l, m.to, PayOne(t, m).value, a, paid + if m.asset == a then m.amount else 0)
  {
    PayOneEffect(t, m, a);
  }

  /** The next entry adds its share to what has been paid of its asset, which was nothing. */
  lemma NextShare(assets: seq<AssetAmount>, x: nat, funded: nat, n: nat, a: Address)
    requires AssetsOk(assets) && n < |assets|
    ensures Portion(AmountFirst(assets, a, n + 1), x, funded)
         == Portion(AmountFirst(assets, a, n), x, funded)
            + (if assets[n].asset == a then Portion(assets[n].amount, x, funded) else 0)
  {
    if assets[n].asset == a {
      UnlistedAmount(assets, a, n);
      PortionOfNothing(x, funded);
    }
  }

  /** Custody loses no more than what the moves say, all of it goes to `to`, and of every
      asset it is exactly the floored share. */
  lemma {:induction false} PayEffect(l: Ledger, to: Address, assets: seq<AssetAmount>, x: nat, funded: nat, n: nat,
                                     a: Address)
    requires AssetsOk(assets) && funded > 0 && n <= |assets| && PayFirst(l, to, assets, x, funded, n).Ok?
    ensures PaidSoFar(l, to, PayFirst(l, to, assets, x, funded, n).value, a,
                      Portion(AmountFirst(assets, a, n), x, funded))
  {
    if n == 0 {
      PortionOfNothing(x, funded);
    } else {
      PaidRound(l, to, assets, x, funded, n - 1);
      PayEffect(l, to, assets, x, funded, n - 1, a);
      NextShare(assets, x, funded, n - 1, a);
      PayOneMore(l, PayFirst(l, to, assets, x, funded, n - 1).value,
                 Move(assets[n - 1].asset, SELF, to, Portion(assets[n - 1].amount, x, funded)), a,
                 Portion(AmountFirst(assets, a, n - 1), x, funded));
    }
  }

  lemma {:induction false} PaysToSums(moves: seq<Move>, to: Address, a: Address, other: Address)
    requires PaysTo(moves, to)
    ensures PaidTo(moves, a, other) == if other == to then Paid(moves, a) else 0
  {
    if moves != [] { PaysToSums(moves[..|moves| - 1], to, a, other); }
  }

  predicate ProductsFit(assets: seq<AssetAmount>, x: int, n: nat)
    requires n <= |assets|
  {
    forall i :: 0 <= i < n ==> assets[i].amount * x <= I128_MAX
  }

  /** With the shares covered by custody, the loop never meets a missing token: it fails
      exactly when some product leaves the `i128` range. */
  lemma {:induction false} PayNeverBounces(l: Ledger, to: Address, assets: seq<AssetAmount>, x: nat, funded: nat,
                                           n: nat)
    requires AssetsOk(assets) && funded > 0 && n <= |assets|
    requires forall a :: Balance(l, SELF, a) >= Portion(AmountOf(assets, a), x, funded)
    ensures ProductsFit(assets, x, n) ==> PayFirst(l, to, assets, x, funded, n).Ok?
    ensures !ProductsFit(assets, x, n) ==> PayFirst(l, to, assets, x, funded, n) == Err(Overflow)
  {
    if n > 0 {
      PayNeverBounces(l, to, assets, x, funded, n - 1);
      PayRound(l, to, assets, x, funded, n - 1);
      var entry := assets[n - 1];
      if ProductsFit(assets, x, n - 1) {
        PayEffect(l, to, assets, x, funded, n - 1, entry.asset);
        UnlistedAmount(assets, entry.asset, n - 1);
        PortionOfNothing(x, funded);
        AmountAt(assets, n - 1, |assets|);
      }
    }
  }

  // ----- sums of floored shares -----

  function Sum(shares: seq<int>): int {
    if shares == [] then 0 else Sum(shares[..|shares| - 1]) + shares[|shares| - 1]
  }

  /** What a sequence of payouts has paid of an asset deposited with `amount`. */
  function FloorSum(amount: int, shares: seq<int>, funded: int): int {
    if shares == [] then 0
    else FloorSum(amount, shares[..|shares| - 1], funded) + Portion(amount, shares[|shares| - 1], funded)
  }

  predicate NonNegative(shares: seq<int>) { forall i :: 0 <= i < |shares| ==> shares[i] >= 0 }

  lemma SnocShares(shares: seq<int>, x: int, amount: int, funded: int)
    ensures Sum(shares + [x]) == Sum(shares) + x
    ensures FloorSum(amount, shares + [x], funded) == FloorSum(amount, shares, funded) + Portion(amount, x, funded)
  {
    assert (shares + [x])[..|shares|] == shares;
  }

  lemma OneMoreShare(amount: nat, funded: nat, sum: int, floors: int, count: nat, x: nat)
    requires funded > 0
    requires funded * floors <= amount * sum <= funded * floors + count * (funded - 1)
    ensures var p := Portion(amount, x, funded);
            && p >= 0
            && funded * (floors + p) <= amount * (sum + x) <= funded * (floors + p) + (count + 1) * (funded - 1)
  {
    var p := Portion(amount, x, funded);
    PortionNonNegative(amount, x, funded);
    assert amount * x >= 0;
    FloorBounds(amount * x, funded);
    assert amount * (sum + x) == amount * sum + amount * x;
    assert funded * (floors + p) == funded * floors + funded * p;
    assert (count + 1) * (funded - 1) == count * (funded - 1) + (funded - 1);
  }

  /** Each payout loses less than one unit, and none gains. */
  lemma {:induction false} FloorSumBounds(amount: nat, shares: seq<int>, funded: nat)
    requires funded > 0 && NonNegative(shares)
    ensures FloorSum(amount, shares, funded) >= 0
    ensures funded * FloorSum(amount, shares, funded) <= amount * Sum(shares)
    ensures amount * Sum(shares) <= funded * FloorSum(amount, shares, funded) + |shares| * (funded - 1)
  {
    if shares != [] {
      var before, x := shares[..|shares| - 1], shares[|shares| - 1];
      FloorSumBounds(amount, before, funded);
      OneMoreShare(amount, funded, Sum(before), FloorSum(amount, before, funded), |before|, x);
    }
  }

  /** Cancelling a positive factor. */
  lemma CancelFactor(d: nat, a: int, b: int)
    requires d > 0 && d * a <= d * b
    ensures a <= b
  {
    if b < a { MulMonotone(d, b + 1, a); }
  }

  /** Shares that do not exceed the whole never overdraw any asset. */
  lemma NeverOverdraws(amount: nat, shares: seq<int>, funded: nat)
    requires funded > 0 && NonNegative(shares) && Sum(shares) <= funded
    ensures 0 <= FloorSum(amount, shares, funded) <= amount
  {
    FloorSumBounds(amount, shares, funded);
    MulMonotone(amount, Sum(shares), funded);
    assert amount * funded == funded * amount;
    CancelFactor(funded, FloorSum(amount, shares, funded), amount);
  }

  /** Once the shares add up to the whole, `k` payouts leave at most `k - 1` units of each
      asset behind. */
  lemma DustBound(amount: nat, shares: seq<int>, funded: nat)
    requires funded > 0 && NonNegative(shares) && Sum(shares) == funded
    ensures 0 <= amount - FloorSum(amount, shares, funded) <= |shares| - 1
  {
    NeverOverdraws(amount, shares, funded);
    FloorSumBounds(amount, shares, funded);
    var f, k := FloorSum(amount, shares, funded), |shares|;
    assert shares != [];
    assert k * (funded - 1) == funded * k - k;
    assert funded * (amount - f) == amount * funded - funded * f;
    if amount - f >= k {
      MulMonotone(funded, k, amount - f);
    }
  }

  /** The only asset of an escrow is paid without any rounding. */
  lemma {:induction false} SoleAssetIsExact(shares: seq<int>, funded: nat)
    requires funded > 0 && NonNegative(shares)
    ensures FloorSum(funded, shares, funded) == Sum(shares)
  {
    if shares != [] {
      var x := shares[|shares| - 1];
      SoleAssetIsExact(shares[..|shares| - 1], funded);
      FloorOfMultiple(x, funded);
      assert x * funded == funded * x;
    }
  }
}

/** What every run of the escrow contract keeps, over any interleaving of calls on any
    number of agreements: solvency, finality, the dust bound, vesting, approvals and the
    conservation of milestone money. */
module EscrowTheorems {
  import opened Common
  import opened Arith
  import opened EscrowModel
  import opened EscrowShares
  import opened EscrowVesting
  import opened EscrowInvariant
  import opened EscrowMilestones
  import opened EscrowSteps

  // ----- runs with an observer -----

  /** The contract together with the observer's book of every escrow. */
  datatype Config = Config(state: State, books: map<nat, Book>)

  function BookOf(c: Config, id: nat): Book { if id in c.books then c.books[id] else EMPTY }

  predicate Concerns(op: Op) { op.Open? || op.Act? }

  /** An erring call is rolled back; a successful one is entered in the book of its escrow. */
  function Next(c: Config, op: Op): Config {
    match Exec(c.state, op)
    case Err(_) => c
    case Ok(step) =>
      Config(step.state,
             if Concerns(op) then c.books[step.id := Append(BookOf(c, step.id), step.moves, step.share)] else c.books)
  }

  /** The configuration just before the `i`-th call of a run. */
  function ConfigAt(c0: Config, ops: seq<Op>, i: nat): Config
    requires i <= |ops|
  {
    if i == 0 then c0 else Next(ConfigAt(c0, ops, i - 1), ops[i - 1])
  }

  /** A contract with no escrows yet; the clock, the whitelist and all balances are arbitrary. */
  predicate Fresh(c: Config) { c.state.count == 0 && c.state.agreements == map[] && c.books == map[] }

  /** A run the 64-bit id counter can number. */
  predicate IsRun(c0: Config, ops: seq<Op>, i: nat) { Fresh(c0) && i <= |ops| <= U64_MAX }

  /** What every numbered call keeps, a run keeps. */
  lemma {:induction false} Preserved(c0: Config, ops: seq<Op>, i: nat, j: nat, kept: Config -> bool)
    requires i <= j <= |ops| && kept(ConfigAt(c0, ops, i))
    requires forall c, op {:trigger Next(c, op)} :: kept(c) && Numbers(c, op) ==> kept(Next(c, op))
    requires forall k :: i <= k < j ==> Numbers(ConfigAt(c0, ops, k), ops[k])
    ensures kept(ConfigAt(c0, ops, j))
    decreases j
  {
    if i < j { Preserved(c0, ops, i, j - 1, kept); }
  }

  // ----- the invariant -----

  /** What all escrows up to `n` still hold of an asset. */
  function TotalHeld(books: map<nat, Book>, a: Address, n: nat): int {
    if n == 0 then 0 else TotalHeld(books, a, n - 1) + (if n in books then Held(books[n], a) else 0)
  }

  /** Ids are handed out from 1 upward, and every escrow has its book. */
  ghost predicate Numbered(c: Config) {
    && (forall id :: id in c.state.agreements <==> 1 <= id <= c.state.count)
    && (forall id :: id in c.books <==> 1 <= id <= c.state.count)
  }

  ghost predicate Sound(c: Config)
    requires Numbered(c)
  {
    forall id :: id in c.state.agreements ==> AgreementOk(c.state.agreements[id], c.books[id], c.state.now)
  }

  ghost predicate Solvent(c: Config) {
    forall a :: Balance(c.state.ledger, SELF, a) >= TotalHeld(c.books, a, c.state.count)
  }

  ghost predicate Inv(c: Config) { Numbered(c) && Sound(c) && Solvent(c) }

  lemma {:induction false} HeldUpdate(books: map<nat, Book>, id: nat, b: Book, a: Address, n: nat)
    requires id > 0
    ensures TotalHeld(books[id := b], a, n)
         == TotalHeld(books, a, n)
            + (if id <= n then Held(b, a) - (if id in books then Held(books[id], a) else 0) else 0)
  {
    if n > 0 { HeldUpdate(books, id, b, a, n - 1); }
  }

  /** One escrow holds no more than all of them together. */
  lemma {:induction false} HeldWithinTotal(books: map<nat, Book>, id: nat, a: Address, n: nat)
    requires forall k :: k in books ==> Held(books[k], a) >= 0
    ensures 0 <= TotalHeld(books, a, n)
    ensures id in books && 1 <= id <= n ==> Held(books[id], a) <= TotalHeld(books, a, n)
  {
    if n > 0 { HeldWithinTotal(books, id, a, n - 1); }
  }

  lemma AllHeldNonNegative(c: Config, a: Address)
    requires Inv(c)
    ensures forall id :: id in c.books ==> 0 <= Paid(c.books[id].log, a) <= Deposited(c.books[id].log, a)
  {
    forall id | id in c.books ensures 0 <= Paid(c.books[id].log, a) <= Deposited(c.books[id].log, a) {
      HeldIsNonNegative(c.state.agreements[id], c.books[id], c.state.now, a);
    }
  }

  lemma AppendHeld(b: Book, moves: seq<Move>, share: Option<int>, a: Address)
    ensures Held(Append(b, moves, share), a) == Held(b, a) + Deposited(moves, a) - Paid(moves, a)
  {
    ConcatSums(b.log, moves, a, SELF);
  }

  /** Solvency survives entering moves in one book when custody covers them. */
  lemma SolvencyStep(c: Config, o: Outcome, id: nat, count: nat, a: Address)
    requires (id in c.books && 1 <= id <= count == c.state.count) || id == count == c.state.count + 1
    requires forall i :: i in c.books ==> 1 <= i <= c.state.count
    requires Balance(c.state.ledger, SELF, a) >= TotalHeld(c.books, a, c.state.count)
    requires Covers(c.state.ledger, o.ledger, o.moves)
    ensures Balance(o.ledger, SELF, a) >= TotalHeld(c.books[id := Append(BookOf(c, id), o.moves, o.share)], a, count)
  {
    AppendHeld(BookOf(c, id), o.moves, o.share, a);
    HeldUpdate(c.books, id, Append(BookOf(c, id), o.moves, o.share), a, count);
  }

  /** The configuration after storing an outcome under `id`. */
  function Record(c: Config, id: nat, count: nat, o: Outcome): Config {
    Config(c.state.(count := count, agreements := c.state.agreements[id := o.agreement], ledger := o.ledger),
           c.books[id := Append(BookOf(c, id), o.moves, o.share)])
  }

  /** `id` is an escrow already there, or the next one. */
  ghost predicate Slot(c: Config, id: nat, count: nat) {
    (id in c.books && count == c.state.count) || id == count == c.state.count + 1
  }

  lemma RecordNumbered(c: Config, id: nat, count: nat, o: Outcome)
    requires Numbered(c) && Slot(c, id, count)
    ensures Numbered(Record(c, id, count, o))
  {
  }

  lemma RecordSound(c: Config, id: nat, count: nat, o: Outcome)
    requires Numbered(c) && Sound(c) && Numbered(Record(c, id, count, o))
    requires AgreementOk(o.agreement, Append(BookOf(c, id), o.moves, o.share), c.state.now)
    ensures Sound(Record(c, id, count, o))
  {
    var d := Record(c, id, count, o);
    forall k | k in d.state.agreements ensures AgreementOk(d.state.agreements[k], d.books[k], d.state.now) {
      if k != id { assert AgreementOk(c.state.agreements[k], c.books[k], c.state.now); }
    }
  }

  lemma RecordSolvent(c: Config, id: nat, count: nat, o: Outcome)
    requires Numbered(c) && Solvent(c) && Slot(c, id, count) && Covers(c.state.ledger, o.ledger, o.moves)
    ensures Solvent(Record(c, id, count, o))
  {
    forall a ensures Balance(o.ledger, SELF, a) >= TotalHeld(Record(c, id, count, o).books, a, count) {
      SolvencyStep(c, o, id, count, a);
    }
  }

  lemma RecordKeepsInv(c: Config, id: nat, count: nat, o: Outcome)
    requires Inv(c) && Slot(c, id, count) && Keeps(BookOf(c, id), c.state.ledger, c.state.now, o)
    ensures Inv(Record(c, id, count, o))
  {
    RecordNumbered(c, id, count, o);
    RecordSound(c, id, count, o);
    RecordSolvent(c, id, count, o);
  }

  lemma NextId(count: nat)
    requires count < U64_MAX
    ensures TruncateU64(count + 1) == count + 1
  {
  }

  /** An opening takes the next id and stores its agreement under it. */
  lemma ExecOpens(s: State, op: Op)
    requires s.count + 1 !in s.agreements && op.Open? && Exec(s, op).Ok? && s.count < U64_MAX
    ensures Begin(s.ledger, s.tokens, s.now, op.opening).Ok?
    ensures var o, id := Begin(s.ledger, s.tokens, s.now, op.opening).value, s.count + 1;
            Exec(s, op) == Ok(Step(s.(count := id, agreements := s.agreements[id := o.agreement], ledger := o.ledger),
                                   id, o.moves, o.share, id))
  {
    NextId(s.count);
  }

  lemma OpenEntersBook(c: Config, op: Op, o: Outcome)
    requires var s, id := c.state, c.state.count + 1;
             op.Open? && Exec(s, op) == Ok(Step(s.(count := id, agreements := s.agreements[id := o.agreement],
                                                   ledger := o.ledger), id, o.moves, o.share, id))
    ensures Next(c, op) == Record(c, c.state.count + 1, c.state.count + 1, o)
  {
  }

  lemma OpenIsRecord(c: Config, op: Op)
    requires c.state.count + 1 !in c.state.agreements && op.Open? && Exec(c.state, op).Ok? && c.state.count < U64_MAX
    ensures Begin(c.state.ledger, c.state.tokens, c.state.now, op.opening).Ok?
    ensures Next(c, op) == Record(c, c.state.count + 1, c.state.count + 1,
                                  Begin(c.state.ledger, c.state.tokens, c.state.now, op.opening).value)
  {
    ExecOpens(c.state, op);
    OpenEntersBook(c, op, Begin(c.state.ledger, c.state.tokens, c.state.now, op.opening).value);
  }

  lemma ActIsRecord(c: Config, op: Op)
    requires op.Act? && Exec(c.state, op).Ok?
    ensures op.id in c.state.agreements
    ensures Perform(c.state.agreements[op.id], c.state.ledger, c.state.tokens, c.state.now, op.action).Ok?
    ensures var s := c.state;
            Next(c, op) == Record(c, op.id, s.count,
                                  Perform(s.agreements[op.id], s.ledger, s.tokens, s.now, op.action).value)
  {
  }

  lemma NewRecordKeepsInv(c: Config, o: Outcome)
    requires Inv(c) && Keeps(EMPTY, c.state.ledger, c.state.now, o)
    ensures Inv(Record(c, c.state.count + 1, c.state.count + 1, o))
  {
    RecordKeepsInv(c, c.state.count + 1, c.state.count + 1, o);
  }

  lemma OpenKeepsInv(c: Config, op: Op)
    requires Inv(c) && op.Open? && Exec(c.state, op).Ok? && c.state.count < U64_MAX
    ensures Inv(Next(c, op)) && Next(c, op).state.count == c.state.count + 1
  {
    var s := c.state;
    OpenIsRecord(c, op);
    BeginKeeps(s.ledger, s.tokens, s.now, op.opening);
    NewRecordKeepsInv(c, Begin(s.ledger, s.tokens, s.now, op.opening).value);
  }

  lemma ActKeepsInv(c: Config, op: Op)
    requires Inv(c) && op.Act? && Exec(c.state, op).Ok?
    ensures Inv(Next(c, op)) && Next(c, op).state.count == c.state.count
  {
    var s := c.state;
    PerformKeeps(s.agreements[op.id], c.books[op.id], s.ledger, s.tokens, s.now, op.action);
    ActIsRecord(c, op);
    RecordKeepsInv(c, op.id, s.count, Perform(s.agreements[op.id], s.ledger, s.tokens, s.now, op.action).value);
  }

  lemma LaterOk(a: Agreement, b: Book, now: nat, later: nat)
    requires AgreementOk(a, b, now) && now <= later
    ensures AgreementOk(a, b, later)
  {
    VestedMonotone(a.escrow.funded, a.escrow.schedule, now, later);
  }

  lemma WorldKeepsInv(c: Config, op: Op)
    requires Inv(c) && !Concerns(op) && Exec(c.state, op).Ok?
    ensures Inv(Next(c, op)) && Next(c, op).state.count == c.state.count
  {
    var s, d := c.state, Next(c, op);
    match op
    case Tick(seconds) =>
      forall id | id in s.agreements ensures AgreementOk(s.agreements[id], c.books[id], d.state.now) {
        LaterOk(s.agreements[id], c.books[id], s.now, d.state.now);
      }
    case Whitelist(_) =>
    case External(m) =>
      forall a ensures Balance(d.state.ledger, SELF, a) >= Balance(s.ledger, SELF, a) {
        TransferEffect(s.ledger, m, a);
      }
  }

  /** The call takes no id from an exhausted counter. */
  predicate Numbers(c: Config, op: Op) { op.Open? ==> c.state.count < U64_MAX }

  lemma StepKeepsInv(c: Config, op: Op)
    requires Inv(c) && Numbers(c, op)
    ensures Inv(Next(c, op)) && Next(c, op).state.count <= c.state.count + 1
  {
    if Exec(c.state, op).Ok? {
      if op.Open? {
        OpenKeepsInv(c, op);
      } else if op.Act? {
        ActKeepsInv(c, op);
      } else {
        WorldKeepsInv(c, op);
      }
    }
  }

  /** Every reachable configuration is sound, and each call opens at most one escrow. */
  lemma {:induction false} RunInv(c0: Config, ops: seq<Op>, i: nat)
    requires IsRun(c0, ops, i)
    ensures Inv(ConfigAt(c0, ops, i)) && ConfigAt(c0, ops, i).state.count <= i
  {
    if i > 0 {
      RunInv(c0, ops, i - 1);
      StepKeepsInv(ConfigAt(c0, ops, i - 1), ops[i - 1]);
    }
  }

  lemma RunCount(c0: Config, ops: seq<Op>, i: nat)
    requires IsRun(c0, ops, i)
    ensures ConfigAt(c0, ops, i).state.count <= i
  {
    RunInv(c0, ops, i);
  }

  lemma RunNumbers(c0: Config, ops: seq<Op>, k: nat)
    requires IsRun(c0, ops, k) && k < |ops|
    ensures Numbers(ConfigAt(c0, ops, k), ops[k])
  {
    RunCount(c0, ops, k);
  }

  // ----- solvency -----

  /** Over every run and for every asset, custody holds at least what all escrows are still
      owed, and every escrow is owed a non-negative amount: no payout is ever made from
      another escrow's money. */
  lemma Solvency(c0: Config, ops: seq<Op>, i: nat, a: Address)
    requires IsRun(c0, ops, i)
    ensures var c := ConfigAt(c0, ops, i);
            && Balance(c.state.ledger, SELF, a) >= TotalHeld(c.books, a, c.state.count) >= 0
            && (forall id :: id in c.books ==> 0 <= Paid(c.books[id].log, a) <= Deposited(c.books[id].log, a))
  {
    RunInv(c0, ops, i);
    var c := ConfigAt(c0, ops, i);
    AllHeldNonNegative(c, a);
    HeldWithinTotal(c.books, 1, a, c.state.count);
  }

  /** The money of an escrow only ever travels from its sender into custody and from there
      to its recipient or back. */
  lemma MoneyStaysOnRoute(c0: Config, ops: seq<Op>, i: nat, id: nat)
    requires IsRun(c0, ops, i) && id in ConfigAt(c0, ops, i).state.agreements
    ensures id in ConfigAt(c0, ops, i).books
    ensures RoutesOk(ConfigAt(c0, ops, i).state.agreements[id].escrow, ConfigAt(c0, ops, i).books[id].log)
  {
    RunInv(c0, ops, i);
  }

  // ----- finality -----

  /** A call on one escrow, or on none, leaves the records of the others alone. */
  lemma OthersUntouched(c: Config, op: Op, id: nat)
    requires Numbered(c) && Numbers(c, op) && id in c.state.agreements
    requires Exec(c.state, op).Err? || !op.Act? || op.id != id
    ensures id in Next(c, op).state.agreements && Next(c, op).state.agreements[id] == c.state.agreements[id]
    ensures id in Next(c, op).books && Next(c, op).books[id] == c.books[id]
    ensures Next(c, op).state.now >= c.state.now
  {
    if Exec(c.state, op).Ok? {
      if op.Act? { ActIsRecord(c, op); } else if op.Open? { OpenIsRecord(c, op); }
    }
  }

  /** A settled escrow stays settled and no call moves a token for it. */
  lemma SettledStaysPut(a: Agreement, b: Book, l: Ledger, tokens: set<Address>, now: nat, action: Action)
    requires MilestonesOk(a, b) && Settled(a.escrow) && Perform(a, l, tokens, now, action).Ok?
    ensures var o := Perform(a, l, tokens, now, action).value;
            o.agreement == a.(escrow := a.escrow.(status := Closed)) && o.ledger == l && o.moves == [] && o.share.None?
  {
  }

  /** The escrow is settled and its book is `book`. */
  ghost predicate FinalWith(c: Config, id: nat, book: Book) {
    && Inv(c) && id in c.state.agreements
    && Settled(c.state.agreements[id].escrow) && c.books[id] == book
  }

  lemma FinalAct(c: Config, op: Op, id: nat, book: Book)
    requires FinalWith(c, id, book) && op.Act? && op.id == id && Exec(c.state, op).Ok?
    ensures id in Next(c, op).books && Next(c, op).books[id] == book
    ensures id in Next(c, op).state.agreements && Settled(Next(c, op).state.agreements[id].escrow)
  {
    var s := c.state;
    ActIsRecord(c, op);
    SettledStaysPut(s.agreements[id], book, s.ledger, s.tokens, s.now, op.action);
    NoMoves(book, s.ledger);
  }

  lemma FinalStep(c: Config, op: Op, id: nat, book: Book)
    requires FinalWith(c, id, book) && Numbers(c, op)
    ensures FinalWith(Next(c, op), id, book)
  {
    StepKeepsInv(c, op);
    if op.Act? && op.id == id && Exec(c.state, op).Ok? {
      FinalAct(c, op, id, book);
    } else {
      OthersUntouched(c, op, id);
    }
  }

  lemma FinalFrom(c0: Config, ops: seq<Op>, i: nat, j: nat, id: nat, book: Book)
    requires i <= j <= |ops| && FinalWith(ConfigAt(c0, ops, i), id, book)
    requires forall k :: i <= k < j ==> Numbers(ConfigAt(c0, ops, k), ops[k])
    ensures FinalWith(ConfigAt(c0, ops, j), id, book)
  {
    var kept := (c: Config) => FinalWith(c, id, book);
    forall c, op {:trigger Next(c, op)} | kept(c) && Numbers(c, op) ensures kept(Next(c, op)) {
      FinalStep(c, op, id, book);
    }
    Preserved(c0, ops, i, j, kept);
  }

  /** Once released, refunded or closed, an escrow's book is closed for ever. */
  lemma Finality(c0: Config, ops: seq<Op>, i: nat, j: nat, id: nat)
    requires IsRun(c0, ops, j) && i <= j
    requires id in ConfigAt(c0, ops, i).state.agreements && Settled(ConfigAt(c0, ops, i).state.agreements[id].escrow)
    ensures id in ConfigAt(c0, ops, j).state.agreements && Settled(ConfigAt(c0, ops, j).state.agreements[id].escrow)
    ensures BookOf(ConfigAt(c0, ops, j), id) == BookOf(ConfigAt(c0, ops, i), id)
  {
    RunInv(c0, ops, i);
    forall k | i <= k < j ensures Numbers(ConfigAt(c0, ops, k), ops[k]) { RunNumbers(c0, ops, k); }
    FinalFrom(c0, ops, i, j, id, BookOf(ConfigAt(c0, ops, i), id));
  }

  // ----- dust -----

  /** What is left of the `n`-th asset once `b` says the escrow is settled. */
  ghost predicate DustOk(e: Escrow, b: Book, n: nat)
    requires n < |e.assets|
  {
    var entry := e.assets[n];
    var unpaid := entry.amount - Paid(b.log, entry.asset);
    && Deposited(b.log, entry.asset) == entry.amount
    && 0 <= unpaid <= |b.shares| - 1
    && (|e.assets| == 1 || |b.shares| == 1 ==> unpaid == 0)
  }

  lemma DustOfSettled(e: Escrow, b: Book, n: nat)
    requires TermsOk(e) && BooksOk(e, b) && Sum(b.shares) == e.funded > 0 && n < |e.assets|
    ensures DustOk(e, b, n)
  {
    AmountAt(e.assets, n, |e.assets|);
    DustBound(e.assets[n].amount, b.shares, e.funded);
    if |e.assets| == 1 {
      assert Total(e.assets) == Total(e.assets[..0]) + e.assets[0].amount;
      SoleAssetIsExact(b.shares, e.funded);
    }
  }

  /** When a funded escrow has settled after `k` payouts, between 0 and `k - 1` units of each
      asset remain unpaid, and none at all if it had one asset or one payout. */
  lemma SettlementDust(c0: Config, ops: seq<Op>, i: nat, id: nat, n: nat)
    requires IsRun(c0, ops, i) && id in ConfigAt(c0, ops, i).state.agreements
    requires var e := ConfigAt(c0, ops, i).state.agreements[id].escrow;
             Settled(e) && e.funded > 0 && n < |e.assets|
    ensures DustOk(ConfigAt(c0, ops, i).state.agreements[id].escrow, BookOf(ConfigAt(c0, ops, i), id), n)
  {
    RunInv(c0, ops, i);
    var c := ConfigAt(c0, ops, i);
    DustOfSettled(c.state.agreements[id].escrow, c.books[id], n);
  }

  // ----- payouts and custody -----

  /** A payout of the share `x` succeeds exactly when its products fit `i128`. */
  ghost predicate DecidedByRange<T>(e: Escrow, x: int, r: Result<T>) {
    if ProductsFit(e.assets, x, |e.assets|) then r.Ok? else r == Err(Overflow)
  }

  /** In a sound configuration no payout within the undrawn share of an escrow can meet an
      empty custody: it fails exactly when one of its products leaves the `i128` range. */
  lemma PayoutNeverBounces(c: Config, id: nat, to: Address, x: nat)
    requires Inv(c) && id in c.state.agreements
    requires c.state.agreements[id].escrow.funded > 0
    requires Sum(c.books[id].shares) + x <= c.state.agreements[id].escrow.funded
    ensures var e := c.state.agreements[id].escrow;
            DecidedByRange(e, x, PayFirst(c.state.ledger, to, e.assets, x, e.funded, |e.assets|))
  {
    var a, b := c.state.agreements[id], c.books[id];
    var e := a.escrow;
    forall asset ensures Balance(c.state.ledger, SELF, asset) >= Portion(AmountOf(e.assets, asset), x, e.funded) {
      HeldCoversShare(a, b, c.state.now, asset, x);
      AllHeldNonNegative(c, asset);
      HeldWithinTotal(c.books, id, asset, c.state.count);
    }
    PayNeverBounces(c.state.ledger, to, e.assets, x, e.funded, |e.assets|);
  }

  predicate Live(e: Escrow) { e.status == Funded || e.status == Expired }

  /** The grace period is over and the refund window has not closed. */
  predicate RefundsOpen(e: Escrow, now: nat) {
    now >= GraceEnd(e) && RequireRefundWindowOpen(e, now).Pass?
  }

  /** Who may take the remainder back now: the sender by any refund path inside the refund
      window, sender or arbiter by cancelling before the deadline while nothing has vested. */
  predicate MayExit(e: Escrow, now: nat, action: Action) {
    match action
    case DoRefund(caller) => caller == e.sender && Live(e) && now >= e.deadline && RefundsOpen(e, now)
    case DoReclaim(caller) => caller == e.sender && Live(e) && now >= e.deadline && RefundsOpen(e, now)
    case DoRefundTimelock(caller) => caller == e.sender && Live(e) && RefundsOpen(e, now)
    case DoCancel(caller) =>
      && (caller == e.sender || caller == e.arbiter)
      && e.status == Funded && now < e.deadline && CalcVested(e.funded, e.schedule, now) == Ok(0)
    case _ => false
  }

  /** The sender's exits differ only in their guards: past those, they pay the remainder. */
  lemma ExitPaths(a: Agreement, l: Ledger, tokens: set<Address>, now: nat, action: Action, x: int)
    requires a.milestones.None? && MayExit(a.escrow, now, action)
    requires 0 < x == a.escrow.funded - a.escrow.released <= I128_MAX
    requires DecidedByRange(a.escrow, x,
                            PayFirst(l, a.escrow.sender, a.escrow.assets, x, a.escrow.funded, |a.escrow.assets|))
    ensures DecidedByRange(a.escrow, x, Perform(a, l, tokens, now, action))
  {
  }

  lemma LiveRemainder(c: Config, id: nat)
    requires Inv(c) && id in c.state.agreements && c.state.agreements[id].milestones.None?
    requires Live(c.state.agreements[id].escrow)
    ensures var e := c.state.agreements[id].escrow;
            0 < e.funded - e.released <= e.funded <= I128_MAX && Sum(c.books[id].shares) == e.released
  {
  }

  /** The sender's way out: a refund inside the refund window, or a cancellation before the
      deadline, succeeds exactly when the products `amount * remaining` fit `i128`, whatever
      the other escrows do and whoever has or has not approved. */
  lemma SenderExit(c: Config, id: nat, action: Action, remaining: int)
    requires Inv(c) && id in c.state.agreements && c.state.agreements[id].milestones.None?
    requires MayExit(c.state.agreements[id].escrow, c.state.now, action)
    requires remaining == c.state.agreements[id].escrow.funded - c.state.agreements[id].escrow.released
    ensures DecidedByRange(c.state.agreements[id].escrow, remaining,
                           Perform(c.state.agreements[id], c.state.ledger, c.state.tokens, c.state.now, action))
  {
    LiveRemainder(c, id);
    PayoutNeverBounces(c, id, c.state.agreements[id].escrow.sender, remaining);
    ExitPaths(c.state.agreements[id], c.state.ledger, c.state.tokens, c.state.now, action, remaining);
  }
}

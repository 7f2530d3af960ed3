/** Whole runs of the billing store: any sequence of calls in any order and repetition. */
module LedgerRuns {
  import opened Common
  import opened Billing
  import opened Sums
  import opened Tables
  import opened Transactions
  import opened Projection

  datatype Op =
    | Reserve(q: Reservation)
    | Settle(id: string, peer: string, usage: Usage, feeBps: int)
    | Release(id: string)
    | Sweep(before: int, limit: int, picked: seq<string>)
    | Observe(k: AllowanceKey, raw: int64, ref: string)
    | SettlementMove(k: AllowanceKey, raw: int64)
    | RecordDeposit(d: DepositKey, fromWallet: string, amount: int)
    | SkipDeposit(d: DepositKey)
    | ApplyDeposit(d: DepositKey, account: string)
    | ReconcileWallet(wallet: string, account: string, events: seq<DepositKey>)
    | ReserveWithdrawal(account: string, key: string, destination: string, amount: int)
    | MarkWithdrawal(wid: nat, to: WithdrawalState)
    | RestoreWithdrawal(wid: nat)
    | EnsureAccount(account: string)

  /** One ShortfallRaw an observation reported. */
  datatype Report = Report(account: string, shortfall: int)

  /** The tables, the shortfalls reported so far, and the accounts on which a grant overflowed int64. */
  datatype World = World(db: DB, reports: seq<Report>, overflowed: set<string>)

  const START := World(EMPTY_DB, [], {})

  function ReportedTo(reports: seq<Report>, a: string): int {
    if reports == [] then 0
    else
      var last := reports[|reports| - 1];
      ReportedTo(reports[..|reports| - 1], a) + (if last.account == a then last.shortfall else 0)
  }

  function ReportedTotal(reports: seq<Report>): int {
    if reports == [] then 0 else ReportedTotal(reports[..|reports| - 1]) + reports[|reports| - 1].shortfall
  }

  /** A claim consuming or a restore refunding an allowance row: it never creates or revokes one. */
  function MoveAllowance(db: DB, k: AllowanceKey, raw: int64): DB {
    if k in db.allowances && raw >= 0 then db.(allowances := db.allowances[k := db.allowances[k].(raw := raw)]) else db
  }

  /** An operator marking an unassigned event as never to be credited. */
  function SkipEvent(db: DB, d: DepositKey): DB {
    if d in db.deposits && db.deposits[d].state == Unassigned
    then db.(deposits := db.deposits[d := db.deposits[d].(state := Skipped)]) else db
  }

  /** EnsureAccountCredit, and the balance side of SetAccountCaps: a zero row where there is none. */
  function EnsureCredit(db: DB, a: string): (r: DB)
    ensures a != "" ==> a in r.credits
    ensures r == db.(credits := r.credits) && forall b :: CreditOf(r.credits, b) == CreditOf(db.credits, b)
  {
    if a == "" || a in db.credits then db else db.(credits := db.credits[a := Credit(0, 0)])
  }

  ghost function NextDb(db: DB, op: Op): DB {
    match op
    case Reserve(q) => ReserveTx(db, q).0
    case Settle(id, peer, usage, feeBps) => SettleTx(db, id, peer, usage, feeBps).0
    case Release(id) => ReleaseTx(db, id).0
    case Sweep(before, limit, picked) => if SweepSelects(db, before, limit, picked) then SweepTx(db, picked).0 else db
    case Observe(k, raw, ref) => UpsertTx(db, k, raw, ref).0
    case SettlementMove(k, raw) => MoveAllowance(db, k, raw)
    case RecordDeposit(d, w, amount) => InsertDepositTx(db, d, w, amount).0
    case SkipDeposit(d) => SkipEvent(db, d)
    case ApplyDeposit(d, a) => ApplyDepositTx(db, d, a).0
    case ReconcileWallet(w, a, events) => if WalletSelects(db, w, events) then ReconcileDepositsTx(db, w, a, events).0 else db
    case ReserveWithdrawal(a, key, dest, amount) => ReserveWithdrawalTx(db, a, key, dest, amount).0
    case MarkWithdrawal(wid, to) => MarkWithdrawalTx(db, wid, to).0
    case RestoreWithdrawal(wid) => RestoreWithdrawalTx(db, wid).0
    case EnsureAccount(a) => EnsureCredit(db, a)
  }

  ghost function Next(w: World, op: Op): World {
    var db' := NextDb(w.db, op);
    match op
    case Observe(k, raw, ref) =>
      var r := UpsertTx(w.db, k, raw, ref).1;
      World(db', if r.Ok? then w.reports + [Report(k.0, r.value.shortfall)] else w.reports,
            if GrantOverflows(w.db, k, raw, ref) then w.overflowed + {k.0} else w.overflowed)
    case _ => w.(db := db')
  }

  ghost function Run(w: World, ops: seq<Op>): World {
    if ops == [] then w else Next(Run(w, ops[..|ops| - 1]), ops[|ops| - 1])
  }

  // ---------- what a run keeps ----------

  ghost predicate AllowancesOk(db: DB) {
    forall k | k in db.allowances :: db.allowances[k].raw >= 0
  }

  /** Drifts are exactly the reported shortfalls. */
  ghost predicate DriftsExplained(w: World) {
    && (forall a | a !in w.overflowed :: Drift(w.db, a) == ReportedTo(w.reports, a))
    && (w.overflowed == {} ==> TotalDrift(w.db) == ReportedTotal(w.reports))
    && (forall i :: 0 <= i < |w.reports| && w.reports[i].account !in w.overflowed ==> w.reports[i].shortfall >= 0)
  }

  ghost predicate Good(w: World) {
    Inv(w.db) && AllowancesOk(w.db) && DriftsExplained(w)
  }

  lemma ReportAppend(reports: seq<Report>, r: Report)
    ensures forall a :: ReportedTo(reports + [r], a) == ReportedTo(reports, a) + (if r.account == a then r.shortfall else 0)
    ensures ReportedTotal(reports + [r]) == ReportedTotal(reports) + r.shortfall
  {
    assert (reports + [r])[..|reports|] == reports;
  }

  lemma ObserveAllowances(db: DB, k: AllowanceKey, raw: int64, ref: string)
    requires AllowancesOk(db)
    ensures AllowancesOk(UpsertTx(db, k, raw, ref).0)
  {}

  /** One account's drift after an observation: the shortfall, if the observation is about the account. */
  lemma DriftAfter(db: DB, k: AllowanceKey, raw: int64, ref: string, a: string)
    requires Inv(db) && AllowancesOk(db) && (a == k.0 ==> !GrantOverflows(db, k, raw, ref))
    ensures var (db', r) := UpsertTx(db, k, raw, ref);
      Drift(db', a) == Drift(db, a) + (if r.Ok? && a == k.0 then r.value.shortfall else 0)
  {
    var (db', r) := UpsertTx(db, k, raw, ref);
    if a != k.0 {
      UpsertKeeps(db, k, raw, ref);
    } else if r.Ok? {
      ShortfallExact(db, k, raw, ref);
    }
  }

  lemma ObserveDrift(w: World, k: AllowanceKey, raw: int64, ref: string, a: string)
    requires Good(w) && a !in Next(w, Observe(k, raw, ref)).overflowed
    ensures Drift(Next(w, Observe(k, raw, ref)).db, a) == ReportedTo(Next(w, Observe(k, raw, ref)).reports, a)
  {
    var r := UpsertTx(w.db, k, raw, ref).1;
    DriftAfter(w.db, k, raw, ref, a);
    if r.Ok? { ReportAppend(w.reports, Report(k.0, r.value.shortfall)); }
  }

  lemma ObserveTotal(w: World, k: AllowanceKey, raw: int64, ref: string)
    requires Good(w) && Next(w, Observe(k, raw, ref)).overflowed == {}
    ensures TotalDrift(Next(w, Observe(k, raw, ref)).db) == ReportedTotal(Next(w, Observe(k, raw, ref)).reports)
  {
    var r := UpsertTx(w.db, k, raw, ref).1;
    UpsertKeeps(w.db, k, raw, ref);
    if r.Ok? {
      ReportAppend(w.reports, Report(k.0, r.value.shortfall));
      ShortfallExact(w.db, k, raw, ref);
    }
  }

  lemma ObserveReports(w: World, k: AllowanceKey, raw: int64, ref: string, i: nat)
    requires Good(w)
    requires var w' := Next(w, Observe(k, raw, ref)); i < |w'.reports| && w'.reports[i].account !in w'.overflowed
    ensures Next(w, Observe(k, raw, ref)).reports[i].shortfall >= 0
  {
    if UpsertTx(w.db, k, raw, ref).1.Ok? { ShortfallExact(w.db, k, raw, ref); }
  }

  lemma ObserveKeeps(w: World, k: AllowanceKey, raw: int64, ref: string)
    requires Good(w)
    ensures Good(Next(w, Observe(k, raw, ref)))
  {
    var w' := Next(w, Observe(k, raw, ref));
    UpsertKeeps(w.db, k, raw, ref);
    ObserveAllowances(w.db, k, raw, ref);
    forall a | a !in w'.overflowed ensures Drift(w'.db, a) == ReportedTo(w'.reports, a) {
      ObserveDrift(w, k, raw, ref, a);
    }
    if w'.overflowed == {} { ObserveTotal(w, k, raw, ref); }
    forall i: nat | i < |w'.reports| && w'.reports[i].account !in w'.overflowed ensures w'.reports[i].shortfall >= 0 {
      ObserveReports(w, k, raw, ref, i);
    }
  }

  /** What every transaction but an observation leaves: the invariant, all drifts and the registry. */
  ghost predicate Kept(db: DB, db': DB) {
    Inv(db') && SameDrift(db, db') && db'.allowances == db.allowances
  }

  lemma ReconcileAllowances(db: DB, wallet: string, a: string, events: seq<DepositKey>)
    requires forall k | k in events :: k in db.deposits
    ensures ReconcileDepositsTx(db, wallet, a, events).0.allowances == db.allowances
  {
    var lock := ApplyDelta(db.credits, a, 0, 0);
    if lock.Some? { CreditAllAllowances(db.(credits := lock.value), events, a); }
  }

  lemma {:induction false} CreditAllAllowances(db: DB, picked: seq<DepositKey>, a: string)
    requires forall k | k in picked :: k in db.deposits
    ensures CreditAll(db, picked, a).Some? ==> CreditAll(db, picked, a).value.allowances == db.allowances
    decreases |picked|
  {
    if picked != [] && CreditDeposit(db, picked[0], a).Some? {
      CreditAllAllowances(CreditDeposit(db, picked[0], a).value, picked[1..], a);
    }
  }

  lemma SettleAllowances(db: DB, id: string, peer: string, usage: Usage, feeBps: int)
    ensures SettleTx(db, id, peer, usage, feeBps).0.allowances == db.allowances
  {}

  lemma WithdrawalAllowances(db: DB, op: Op)
    requires op.ReserveWithdrawal? || op.MarkWithdrawal? || op.RestoreWithdrawal?
    ensures NextDb(db, op).allowances == db.allowances
  {}

  lemma RecordKept(db: DB, d: DepositKey, wallet: string, amount: int)
    requires Inv(db)
    ensures Kept(db, InsertDepositTx(db, d, wallet, amount).0)
  {
    SameLedgerKeeps(db, InsertDepositTx(db, d, wallet, amount).0);
  }

  lemma SkipKept(db: DB, d: DepositKey)
    requires Inv(db)
    ensures Kept(db, SkipEvent(db, d))
  {
    SameLedgerKeeps(db, SkipEvent(db, d));
  }

  lemma ApplyKept(db: DB, d: DepositKey, a: string)
    requires Inv(db)
    ensures Kept(db, ApplyDepositTx(db, d, a).0)
  {
    if ApplyDepositTx(db, d, a).0 != db { CreditDepositKeeps(db, d, a); }
  }

  lemma ReconcileKept(db: DB, wallet: string, a: string, events: seq<DepositKey>)
    requires Inv(db) && WalletSelects(db, wallet, events)
    ensures Kept(db, ReconcileDepositsTx(db, wallet, a, events).0)
  {
    ReconcileDepositsKeeps(db, wallet, a, events);
    ReconcileAllowances(db, wallet, a, events);
  }

  lemma ReserveKept(db: DB, q: Reservation)
    requires Inv(db)
    ensures Kept(db, ReserveTx(db, q).0)
  {
    ReserveKeeps(db, q);
  }

  lemma SettleKept(db: DB, id: string, peer: string, usage: Usage, feeBps: int)
    requires Inv(db)
    ensures Kept(db, SettleTx(db, id, peer, usage, feeBps).0)
  {
    SettleKeeps(db, id, peer, usage, feeBps);
    SettleAllowances(db, id, peer, usage, feeBps);
  }

  lemma ReleaseKept(db: DB, id: string)
    requires Inv(db)
    ensures Kept(db, ReleaseTx(db, id).0)
  {
    if id in db.requests && db.requests[id].state == Reserved { ReleaseKeeps(db, id); }
  }

  lemma SweepKept(db: DB, before: int, limit: int, picked: seq<string>)
    requires Inv(db) && SweepSelects(db, before, limit, picked)
    ensures Kept(db, SweepTx(db, picked).0)
  {
    ReleaseAllKeeps(db, picked);
    ReleaseAllEffect(db, picked);
  }

  /** A zero row is what locking an account inserts. */
  lemma EnsureKept(db: DB, a: string)
    requires Inv(db)
    ensures Kept(db, EnsureCredit(db, a))
  {
    if a != "" && a !in db.credits {
      LockAccountKeeps(db, a);
      assert EnsureCredit(db, a).credits == ApplyDelta(db.credits, a, 0, 0).value;
    }
  }

  lemma WithdrawalKeeps(db: DB, op: Op)
    requires Inv(db) && (op.ReserveWithdrawal? || op.MarkWithdrawal? || op.RestoreWithdrawal?)
    ensures Inv(NextDb(db, op)) && SameDrift(db, NextDb(db, op))
  {
    match op
    case ReserveWithdrawal(a, key, dest, amount) => ReserveWithdrawalKeeps(db, a, key, dest, amount);
    case MarkWithdrawal(wid, to) => MarkWithdrawalKeeps(db, wid, to);
    case RestoreWithdrawal(wid) => RestoreWithdrawalKeeps(db, wid);
  }

  lemma MoveKept(db: DB, k: AllowanceKey, raw: int64)
    requires Inv(db) && AllowancesOk(db)
    ensures var db' := MoveAllowance(db, k, raw); Inv(db') && SameDrift(db, db') && AllowancesOk(db')
  {
    SameLedgerKeeps(db, MoveAllowance(db, k, raw));
  }

  lemma NextKept(db: DB, op: Op)
    requires Inv(db) && !op.Observe? && !op.SettlementMove?
    ensures Kept(db, NextDb(db, op))
  {
    match op
    case Reserve(q) => ReserveKept(db, q);
    case Settle(id, peer, usage, feeBps) => SettleKept(db, id, peer, usage, feeBps);
    case Release(id) => ReleaseKept(db, id);
    case Sweep(before, limit, picked) =>
      if SweepSelects(db, before, limit, picked) { SweepKept(db, before, limit, picked); }
    case RecordDeposit(d, wallet, amount) => RecordKept(db, d, wallet, amount);
    case SkipDeposit(d) => SkipKept(db, d);
    case ApplyDeposit(d, a) => ApplyKept(db, d, a);
    case ReconcileWallet(wallet, a, events) =>
      if WalletSelects(db, wallet, events) { ReconcileKept(db, wallet, a, events); }
    case EnsureAccount(a) => EnsureKept(db, a);
    case _ => WithdrawalKeeps(db, op); WithdrawalAllowances(db, op);
  }

  lemma NextKeeps(w: World, op: Op)
    requires Good(w)
    ensures Good(Next(w, op))
  {
    match op
    case Observe(k, raw, ref) => ObserveKeeps(w, k, raw, ref);
    case SettlementMove(k, raw) => MoveKept(w.db, k, raw);
    case _ => NextKept(w.db, op);
  }

  lemma {:induction false} RunKeeps(w: World, ops: seq<Op>)
    requires Good(w)
    ensures Good(Run(w, ops))
  {
    if ops != [] {
      RunKeeps(w, ops[..|ops| - 1]);
      NextKeeps(Run(w, ops[..|ops| - 1]), ops[|ops| - 1]);
    }
  }

  lemma StartGood()
    ensures Good(START)
  {
    EmptyInv();
  }

  lemma {:induction false} NoReportsNoDrift(reports: seq<Report>, a: string)
    requires forall i :: 0 <= i < |reports| && reports[i].account == a ==> reports[i].shortfall >= 0
    ensures ReportedTo(reports, a) >= 0
    ensures ReportedTo(reports, a) == 0
       <==> forall i :: 0 <= i < |reports| && reports[i].account == a ==> reports[i].shortfall == 0
  {
    if reports != [] {
      var init := reports[..|reports| - 1];
      NoReportsNoDrift(init, a);
      forall i | 0 <= i < |reports| ensures i < |init| ==> init[i] == reports[i] {}
      if ReportedTo(reports, a) != 0 {
        if ReportedTo(init, a) != 0 {
          var i :| 0 <= i < |init| && init[i].account == a && init[i].shortfall != 0;
          assert reports[i].account == a && reports[i].shortfall != 0;
        } else {
          assert reports[|reports| - 1].account == a && reports[|reports| - 1].shortfall != 0;
        }
      }
    }
  }

  // ---------- main results ----------

  /** account_credits is a projection: in every run, and for every account on which no grant
      overflowed, reconciliation finds no drift in the reservations, a credit drift equal to the
      shortfalls reported, and that is zero exactly when no revocation was clamped. */
  lemma ProjectionHolds(ops: seq<Op>, a: string)
    ensures var w := Run(START, ops);
      var rec := ReconcileTx(w.db, a);
      && rec.invariantHeld && rec.driftReserved == 0
      && (a !in w.overflowed ==>
            && CreditOf(w.db.credits, a).credit - LedgerSum(w.db.ledger, a) == ReportedTo(w.reports, a)
            && (a in w.db.credits ==> rec.driftCredit == ReportedTo(w.reports, a))
            && (rec.driftCredit == 0 || a in w.db.credits)
            && ((forall i :: 0 <= i < |w.reports| && w.reports[i].account == a ==> w.reports[i].shortfall == 0)
                <==> CreditOf(w.db.credits, a).credit == LedgerSum(w.db.ledger, a)))
  {
    StartGood();
    RunKeeps(START, ops);
    var w := Run(START, ops);
    assert CheckRow(CreditOf(w.db.credits, a));
    if a !in w.overflowed {
      assert Drift(w.db, a) == ReportedTo(w.reports, a);
      NoReportsNoDrift(w.reports, a);
    }
  }

  /** No money is made by the market: over all accounts, credit is what deposits, mirrored
      delegations and withdrawals put in, plus the clamped shortfalls. */
  lemma CreditConserved(ops: seq<Op>)
    requires Run(START, ops).overflowed == {}
    ensures TotalCredit(Run(START, ops).db.credits)
         == ExternalSum(Run(START, ops).db.ledger) + ReportedTotal(Run(START, ops).reports)
  {
    StartGood();
    RunKeeps(START, ops);
  }

  predicate SameLeg(ledger: seq<Row>, i: int, j: int)
    requires 0 <= i < |ledger| && 0 <= j < |ledger|
  {
    ledger[i].ref == ledger[j].ref && ledger[i].leg == ledger[j].leg
  }

  /** Every request is charged at most once, whatever the order and repetition of settle, release
      and sweep: it is settled exactly when its buyer leg is in the ledger, that leg is the only one,
      debits the recorded cost, and the request's legs sum to zero. */
  lemma ChargedAtMostOnce(ops: seq<Op>, id: string)
    ensures var db := Run(START, ops).db;
      && (HasLeg(db.ledger, id, BuyerLeg) <==> id in db.requests && db.requests[id].state == Settled)
      && (forall i, j :: 0 <= i < |db.ledger| && 0 <= j < |db.ledger| && SameLeg(db.ledger, i, j) ==> i == j)
      && (forall i :: 0 <= i < |db.ledger| && db.ledger[i].ref == id && db.ledger[i].leg == BuyerLeg ==>
            && id in db.requests && db.requests[id].charge.Some?
            && db.ledger[i].account == db.requests[id].buyer && db.ledger[i].delta == -db.requests[id].charge.value.cost < 0)
      && UsageSum(db.ledger, id) == 0
  {
    StartGood();
    RunKeeps(START, ops);
    var db := Run(START, ops).db;
    forall i | 0 <= i < |db.ledger| && db.ledger[i].ref == id && db.ledger[i].leg == BuyerLeg
      ensures id in db.requests && db.requests[id].charge.Some? && db.requests[id].state == Settled
      ensures db.ledger[i].account == db.requests[id].buyer && db.ledger[i].delta == -db.requests[id].charge.value.cost < 0
    {
      assert UsageRowOk(db, db.ledger[i]);
      assert RequestOk(db.requests[id]);
    }
    if id in db.requests && db.requests[id].state == Settled {
      assert RequestOk(db.requests[id]);
      assert ChargePosted(db, id);
    }
  }

  /** Every deposit event is credited at most once, over all retries of the watcher and the wallet
      reconciler: it is assigned exactly when its ledger leg exists, and every leg carries the
      event's own account and amount. */
  lemma DepositCreditedAtMostOnce(ops: seq<Op>, k: DepositKey)
    ensures var db := Run(START, ops).db;
      && (HasLeg(db.ledger, DepositRef(k), DepositLeg) <==> k in db.deposits && db.deposits[k].state.Assigned?)
      && (forall i :: 0 <= i < |db.ledger| && db.ledger[i].leg == DepositLeg && db.ledger[i].ref == DepositRef(k) ==>
            Records(db, db.ledger[i], k)
            && forall j :: 0 <= j < |db.ledger| && SameLeg(db.ledger, i, j) ==> i == j)
  {
    StartGood();
    RunKeeps(START, ops);
    var db := Run(START, ops).db;
    if k in db.deposits && !db.deposits[k].state.Assigned? { UnassignedHasNoLeg(db, k); }
    if k in db.deposits { assert DepositPosted(db, k); }
    forall i | 0 <= i < |db.ledger| && db.ledger[i].leg == DepositLeg && db.ledger[i].ref == DepositRef(k)
      ensures Records(db, db.ledger[i], k)
    {
      assert DepositRowOk(db, db.ledger[i]);
      var x :| Records(db, db.ledger[i], x);
      DepositRefInjective(x, k);
    }
  }

  // ---------- the reservation really covers the charge ----------

  /** A request with no charge has no usage leg, so the "leg exists" conflicts of a settlement
      cannot happen. */
  lemma UnsettledHasNoLegs(db: DB, id: string, leg: Leg)
    requires UsageOk(db) && id in db.requests && db.requests[id].charge.None? && leg.Usage()
    ensures !HasLeg(db.ledger, id, leg)
  {
    forall i | 0 <= i < |db.ledger| && db.ledger[i].ref == id ensures db.ledger[i].leg != leg {
      assert UsageRowOk(db, db.ledger[i]);
    }
  }

  lemma SettleLegsInsert(ledger: seq<Row>, r: Request, c: Charge, id: string)
    requires forall leg: Leg | leg.Usage() :: !HasLeg(ledger, id, leg)
    ensures SettleLegs(ledger, r, c, id).Some?
  {
    HasLegAppend(ledger, UsageRow(r, c, id, BuyerLeg));
    HasLegAppend(ledger + [UsageRow(r, c, id, BuyerLeg)], UsageRow(r, c, id, SellerLeg));
  }

  /** The account's balance after the charge: less the cost, plus its share and its fee. */
  function BalanceAfter(credits: map<string, Credit>, buyer: string, c: Charge, a: string): int {
    CreditOf(credits, a).credit - (if a == buyer then c.cost else 0)
      + (if a == c.seller then c.sellerRaw else 0) + (if a == TREASURY then c.fee else 0)
  }

  /** Both receivers can hold what the charge gives them. */
  predicate Receivable(credits: map<string, Credit>, buyer: string, c: Charge) {
    BalanceAfter(credits, buyer, c, c.seller) <= MAX_INT64 && BalanceAfter(credits, buyer, c, TREASURY) <= MAX_INT64
  }

  /** A covered charge passes the balance checks exactly when its receivers can hold it. */
  lemma CoveredDebitsIff(db: DB, r: Request, c: Charge)
    requires Balanced(db) && ChargeOk(c) && c.cost <= r.reserved <= CreditOf(db.credits, r.buyer).reserved
    ensures SettleCredits(db.credits, r, c).Some? <==> Receivable(db.credits, r.buyer, c)
  {
    assert CheckRow(CreditOf(db.credits, r.buyer)) && CheckRow(CreditOf(db.credits, c.seller)) && CheckRow(CreditOf(db.credits, TREASURY));
  }

  /** The charge a quoted peer's usage within the ceilings makes: computable, and within the reservation. */
  lemma CoveredCharge(db: DB, id: string, peer: string, usage: Usage, feeBps: int, inputCeil: int64, outputCeil: int64)
    returns (c: Charge)
    requires Inv(db) && id in db.requests && FindQuote(db.requests[id].quotes, peer).Some?
    requires ReserveOf(db.requests[id].quotes, inputCeil, outputCeil) == Ok(db.requests[id].reserved)
    requires WithinCeilings(usage, inputCeil, outputCeil)
    ensures var q := FindQuote(db.requests[id].quotes, peer).value;
      && Cost(usage, q.inRate, q.cachedRate, q.outRate) == Ok(c.cost) && Fee(c.cost, feeBps) == Ok((c.fee, c.sellerRaw))
      && c.peer == q.peer && c.seller == q.seller
    ensures 0 <= c.cost <= db.requests[id].reserved && c.cost <= MAX_COST
  {
    var r := db.requests[id];
    assert RequestOk(r);
    var q := FindQuote(r.quotes, peer).value;
    assert QuoteOk(q);
    var k :| 0 <= k < |r.quotes| && r.quotes[k] == q;
    ReserveCovers(r.quotes, inputCeil, outputCeil, k, usage);
    var cost := Cost(usage, q.inRate, q.cachedRate, q.outRate).value;
    var split := Fee(cost, feeBps).value;
    c := Charge(q.peer, q.seller, cost, split.0, split.1);
  }

  lemma SettleRefusedIff(db: DB, id: string, peer: string, usage: Usage, feeBps: int, c: Charge)
    requires Inv(db) && id in db.requests && db.requests[id].state == Reserved && TokensFit(usage)
    requires FindQuote(db.requests[id].quotes, peer).Some?
    requires var q := FindQuote(db.requests[id].quotes, peer).value;
      && Cost(usage, q.inRate, q.cachedRate, q.outRate) == Ok(c.cost) && Fee(c.cost, feeBps) == Ok((c.fee, c.sellerRaw))
      && c.peer == q.peer && c.seller == q.seller
    requires 0 <= c.cost <= db.requests[id].reserved
    ensures var (db', res) := SettleTx(db, id, peer, usage, feeBps);
      && (res.Ok? <==> Receivable(db.credits, db.requests[id].buyer, c))
      && (res.Err? ==> db' == db)
      && (res.Ok? ==> res.value == db.requests[id].(state := if c.cost == 0 then Released else Settled,
                                                    charge := if c.cost == 0 then db.requests[id].charge else Some(c)))
  {
    var r := db.requests[id];
    ReservationCovered(db, id);
    assert RequestOk(r);
    assert CheckRow(CreditOf(db.credits, c.seller)) && CheckRow(CreditOf(db.credits, TREASURY));
    if c.cost > 0 {
      CoveredDebitsIff(db, r, c);
      forall leg: Leg | leg.Usage() ensures !HasLeg(db.ledger, id, leg) { UnsettledHasNoLegs(db, id, leg); }
      SettleLegsInsert(db.ledger, r, c, id);
    }
  }

  /** Whichever quoted peer served it and whatever it used within the ceilings it was reserved for,
      settling an open request charges at most the reservation and finalizes it. The one refusal left is
      that the seller's or the treasury's new balance would leave int64, and then nothing changes. */
  lemma SettleCannotOverdraw(ops: seq<Op>, id: string, peer: string, usage: Usage, feeBps: int,
                             inputCeil: int64, outputCeil: int64) returns (c: Charge)
    requires id in Run(START, ops).db.requests && Run(START, ops).db.requests[id].state == Reserved
    requires ReserveOf(Run(START, ops).db.requests[id].quotes, inputCeil, outputCeil)
          == Ok(Run(START, ops).db.requests[id].reserved)
    requires WithinCeilings(usage, inputCeil, outputCeil) && TokensFit(usage)
    requires FindQuote(Run(START, ops).db.requests[id].quotes, peer).Some?
    ensures c.cost <= Run(START, ops).db.requests[id].reserved
    ensures var db := Run(START, ops).db;
      var (db', res) := SettleTx(db, id, peer, usage, feeBps);
      && (res.Ok? <==> Receivable(db.credits, db.requests[id].buyer, c))
      && (res.Ok? ==> res.value.state != Reserved && (res.value.state == Settled ==> res.value.charge == Some(c)))
      && (res.Err? ==> db' == db)
    ensures var q := FindQuote(Run(START, ops).db.requests[id].quotes, peer).value;
      && c.seller == q.seller && Cost(usage, q.inRate, q.cachedRate, q.outRate) == Ok(c.cost)
      && Fee(c.cost, feeBps) == Ok((c.fee, c.sellerRaw))
  {
    StartGood();
    RunKeeps(START, ops);
    var db := Run(START, ops).db;
    c := CoveredCharge(db, id, peer, usage, feeBps, inputCeil, outputCeil);
    SettleRefusedIff(db, id, peer, usage, feeBps, c);
  }
}

/** What no later call of a run can change, and that a repeated call finds the first one's record. */
module LedgerHistory {
  import opened Common
  import opened Billing
  import opened Tables
  import opened Transactions
  import opened Projection
  import opened LedgerRuns

  // ---------- nothing is ever undone ----------

  predicate RequestLater(r: Request, r': Request) {
    && (r.state != Reserved ==> r' == r)
    && r'.quotes == r.quotes && r'.reserved == r.reserved
  }

  ghost predicate RequestsLater(m: map<string, Request>, m': map<string, Request>) {
    forall id | id in m :: id in m' && RequestLater(m[id], m'[id])
  }

  predicate DepositLater(d: Deposit, d': Deposit) {
    && d'.fromWallet == d.fromWallet && d'.amount == d.amount
    && (d.state != Unassigned ==> d' == d)
  }

  ghost predicate DepositsLater(m: map<DepositKey, Deposit>, m': map<DepositKey, Deposit>) {
    forall k | k in m :: k in m' && DepositLater(m[k], m'[k])
  }

  predicate WithdrawalLater(w: Withdrawal, w': Withdrawal) {
    w' == w.(state := w'.state) && (!w.state.Open() ==> w' == w)
  }

  predicate WithdrawalsLater(s: seq<Withdrawal>, s': seq<Withdrawal>) {
    |s| <= |s'| && forall i :: 0 <= i < |s| ==> WithdrawalLater(s[i], s'[i])
  }

  ghost predicate Later(db: DB, db': DB) {
    && db.ledger <= db'.ledger && RequestsLater(db.requests, db'.requests)
    && DepositsLater(db.deposits, db'.deposits) && WithdrawalsLater(db.withdrawals, db'.withdrawals)
  }

  lemma LaterTransitive(a: DB, b: DB, c: DB)
    requires Later(a, b) && Later(b, c)
    ensures Later(a, c)
  {}

  lemma SettleLegsGrow(ledger: seq<Row>, r: Request, c: Charge, id: string)
    ensures SettleLegs(ledger, r, c, id).Some? ==> ledger <= SettleLegs(ledger, r, c, id).value
  {}

  lemma ChargeLater(db: DB, id: string, usage: Usage, c: Charge)
    requires id in db.requests && db.requests[id].state == Reserved
    ensures Later(db, ChargeTx(db, id, usage, c).0)
  {
    SettleLegsGrow(db.ledger, db.requests[id], c, id);
  }

  lemma ReleaseLater(db: DB, id: string)
    requires id in db.requests && db.requests[id].state == Reserved
    ensures ReleaseLocked(db, id).Some? ==> Later(db, ReleaseLocked(db, id).value)
  {}

  lemma SettleLater(db: DB, id: string, peer: string, usage: Usage, feeBps: int)
    ensures Later(db, SettleTx(db, id, peer, usage, feeBps).0)
  {
    if id in db.requests && db.requests[id].state == Reserved {
      ReleaseLater(db, id);
      var q := FindQuote(db.requests[id].quotes, peer);
      if q.Some? {
        var cost := Cost(usage, q.value.inRate, q.value.cachedRate, q.value.outRate);
        if cost.Ok? && cost.value > 0 {
          var split := Fee(cost.value, feeBps).value;
          ChargeLater(db, id, usage, Charge(q.value.peer, q.value.seller, cost.value, split.0, split.1));
        }
      }
    }
  }

  lemma {:induction false} ReleaseAllLater(db: DB, picked: seq<string>)
    requires forall id | id in picked :: id in db.requests && db.requests[id].state == Reserved
    requires forall i, j :: 0 <= i < j < |picked| ==> picked[i] != picked[j]
    ensures ReleaseAll(db, picked).Some? ==> Later(db, ReleaseAll(db, picked).value)
    decreases |picked|
  {
    if picked != [] && ReleaseLocked(db, picked[0]).Some? {
      var id := picked[0];
      var mid := ReleaseLocked(db, id).value;
      ReleaseLater(db, id);
      forall x | x in picked[1..] ensures x in mid.requests && mid.requests[x].state == Reserved {
        assert x in picked && x != id;
      }
      ReleaseAllLater(mid, picked[1..]);
      if ReleaseAll(mid, picked[1..]).Some? { LaterTransitive(db, mid, ReleaseAll(mid, picked[1..]).value); }
    }
  }

  lemma CreditLater(db: DB, k: DepositKey, a: string)
    requires k in db.deposits && db.deposits[k].state == Unassigned
    ensures CreditDeposit(db, k, a).Some? ==> Later(db, CreditDeposit(db, k, a).value)
  {}

  lemma {:induction false} CreditAllLater(db: DB, picked: seq<DepositKey>, a: string)
    requires forall k | k in picked :: k in db.deposits && db.deposits[k].state == Unassigned
    requires forall i, j :: 0 <= i < j < |picked| ==> picked[i] != picked[j]
    ensures CreditAll(db, picked, a).Some? ==> Later(db, CreditAll(db, picked, a).value)
    decreases |picked|
  {
    if picked != [] && CreditDeposit(db, picked[0], a).Some? {
      var k := picked[0];
      var mid := CreditDeposit(db, k, a).value;
      CreditLater(db, k, a);
      forall x | x in picked[1..] ensures x in mid.deposits && mid.deposits[x].state == Unassigned {
        assert x in picked && x != k;
      }
      CreditAllLater(mid, picked[1..], a);
      if CreditAll(mid, picked[1..], a).Some? { LaterTransitive(db, mid, CreditAll(mid, picked[1..], a).value); }
    }
  }

  lemma ReconcileLater(db: DB, w: string, a: string, events: seq<DepositKey>)
    requires WalletSelects(db, w, events)
    ensures Later(db, ReconcileDepositsTx(db, w, a, events).0)
  {
    var lock := ApplyDelta(db.credits, a, 0, 0);
    if lock.Some? { CreditAllLater(db.(credits := lock.value), events, a); }
  }

  lemma ObserveLater(db: DB, k: AllowanceKey, raw: int64, ref: string)
    ensures Later(db, UpsertTx(db, k, raw, ref).0)
  {}

  lemma ReserveLater(db: DB, q: Reservation)
    ensures Later(db, ReserveTx(db, q).0)
  {}

  lemma MarketLater(db: DB, op: Op)
    requires op.Reserve? || op.Settle? || op.Release? || op.Sweep?
    ensures Later(db, NextDb(db, op))
  {
    match op
    case Reserve(q) => ReserveLater(db, q);
    case Settle(id, peer, usage, feeBps) => SettleLater(db, id, peer, usage, feeBps);
    case Release(id) =>
      if id in db.requests && db.requests[id].state == Reserved { ReleaseLater(db, id); }
    case Sweep(before, limit, picked) =>
      if SweepSelects(db, before, limit, picked) { ReleaseAllLater(db, picked); }
  }

  lemma ApplyLater(db: DB, d: DepositKey, a: string)
    ensures Later(db, ApplyDepositTx(db, d, a).0)
  {
    if d in db.deposits && db.deposits[d].state == Unassigned { CreditLater(db, d, a); }
  }

  lemma RecordLater(db: DB, op: Op)
    requires op.RecordDeposit? || op.SkipDeposit?
    ensures Later(db, NextDb(db, op))
  {}

  lemma DepositOpLater(db: DB, op: Op)
    requires op.RecordDeposit? || op.SkipDeposit? || op.ApplyDeposit? || op.ReconcileWallet?
    ensures Later(db, NextDb(db, op))
  {
    match op
    case ApplyDeposit(d, a) => ApplyLater(db, d, a);
    case ReconcileWallet(w, a, events) =>
      if WalletSelects(db, w, events) { ReconcileLater(db, w, a, events); }
    case _ => RecordLater(db, op);
  }

  lemma ReserveWithdrawalLater(db: DB, a: string, key: string, destination: string, amount: int)
    ensures Later(db, ReserveWithdrawalTx(db, a, key, destination, amount).0)
  {}

  lemma MarkLater(db: DB, id: nat, to: WithdrawalState)
    ensures Later(db, MarkWithdrawalTx(db, id, to).0)
  {}

  lemma RestoreLater(db: DB, id: nat)
    ensures Later(db, RestoreWithdrawalTx(db, id).0)
  {}

  lemma WithdrawalOpLater(db: DB, op: Op)
    requires op.ReserveWithdrawal? || op.MarkWithdrawal? || op.RestoreWithdrawal?
    ensures Later(db, NextDb(db, op))
  {
    match op
    case ReserveWithdrawal(a, key, destination, amount) => ReserveWithdrawalLater(db, a, key, destination, amount);
    case MarkWithdrawal(id, to) => MarkLater(db, id, to);
    case RestoreWithdrawal(id) => RestoreLater(db, id);
  }

  lemma NextLater(db: DB, op: Op)
    ensures Later(db, NextDb(db, op))
  {
    if op.Observe? {
      ObserveLater(db, op.k, op.raw, op.ref);
    } else if op.RecordDeposit? || op.SkipDeposit? || op.ApplyDeposit? || op.ReconcileWallet? {
      DepositOpLater(db, op);
    } else if op.ReserveWithdrawal? || op.MarkWithdrawal? || op.RestoreWithdrawal? {
      WithdrawalOpLater(db, op);
    } else if !op.SettlementMove? && !op.EnsureAccount? {
      MarketLater(db, op);
    }
  }

  /** The ledger is append-only, a settled or released request never changes again, a request's
      quotes and reservation are frozen, a deposit keeps its wallet and amount and, once assigned or
      skipped, everything, and a withdrawal changes at most its state, until it is closed. */
  lemma {:induction false} NothingUndone(w: World, ops: seq<Op>)
    ensures Later(w.db, Run(w, ops).db)
  {
    if ops != [] {
      var mid := Run(w, ops[..|ops| - 1]);
      NothingUndone(w, ops[..|ops| - 1]);
      NextLater(mid.db, ops[|ops| - 1]);
      LaterTransitive(w.db, mid.db, Run(w, ops).db);
    }
  }

  // ---------- once per key ----------

  predicate KeysUnique(ws: seq<Withdrawal>) {
    forall i, j :: 0 <= i < j < |ws| ==> ws[i].key != ws[j].key
  }

  lemma FindKeyIs(ws: seq<Withdrawal>, i: nat)
    requires KeysUnique(ws) && i < |ws|
    ensures FindKey(ws, ws[i].key) == Some(i)
  {
    assert ws[i] in ws;
  }

  lemma NoWithdrawalOp(db: DB, op: Op)
    requires !(op.ReserveWithdrawal? || op.MarkWithdrawal? || op.RestoreWithdrawal?)
    ensures NextDb(db, op).withdrawals == db.withdrawals
  {
    match op
    case Settle(id, peer, usage, feeBps) => SettleWithdrawals(db, id, peer, usage, feeBps);
    case Sweep(before, limit, picked) =>
      if SweepSelects(db, before, limit, picked) { ReleaseAllEffect(db, picked); }
    case ReconcileWallet(w, a, events) =>
      if WalletSelects(db, w, events) { ReconcileWithdrawals(db, w, a, events); }
    case _ =>
  }

  lemma SettleWithdrawals(db: DB, id: string, peer: string, usage: Usage, feeBps: int)
    ensures SettleTx(db, id, peer, usage, feeBps).0.withdrawals == db.withdrawals
  {}

  lemma ReconcileWithdrawals(db: DB, wallet: string, a: string, events: seq<DepositKey>)
    requires forall k | k in events :: k in db.deposits
    ensures ReconcileDepositsTx(db, wallet, a, events).0.withdrawals == db.withdrawals
  {
    var lock := ApplyDelta(db.credits, a, 0, 0);
    if lock.Some? { CreditAllWithdrawals(db.(credits := lock.value), events, a); }
  }

  lemma {:induction false} CreditAllWithdrawals(db: DB, picked: seq<DepositKey>, a: string)
    requires forall k | k in picked :: k in db.deposits
    ensures CreditAll(db, picked, a).Some? ==> CreditAll(db, picked, a).value.withdrawals == db.withdrawals
    decreases |picked|
  {
    if picked != [] && CreditDeposit(db, picked[0], a).Some? {
      CreditAllWithdrawals(CreditDeposit(db, picked[0], a).value, picked[1..], a);
    }
  }

  lemma NextKeys(db: DB, op: Op)
    requires KeysUnique(db.withdrawals)
    ensures KeysUnique(NextDb(db, op).withdrawals)
  {
    match op
    case ReserveWithdrawal(a, key, dest, amount) =>
      if FindKey(db.withdrawals, key).None? {
        forall i | 0 <= i < |db.withdrawals| ensures db.withdrawals[i].key != key {
          assert db.withdrawals[i] in db.withdrawals;
        }
      }
    case MarkWithdrawal(_, _) =>
    case RestoreWithdrawal(_) =>
    case _ => NoWithdrawalOp(db, op);
  }

  lemma {:induction false} RunKeys(w: World, ops: seq<Op>)
    requires KeysUnique(w.db.withdrawals)
    ensures KeysUnique(Run(w, ops).db.withdrawals)
  {
    if ops != [] {
      RunKeys(w, ops[..|ops| - 1]);
      NextKeys(Run(w, ops[..|ops| - 1]).db, ops[|ops| - 1]);
    }
  }

  /** A withdraw leg of a withdrawal's ref is its own debit. */
  lemma WithdrawLegIs(db: DB, i: nat, x: nat)
    requires WithdrawalsOk(db) && i < |db.withdrawals| && x < |db.ledger|
    requires db.ledger[x].ref == WithdrawalRef(i + 1) && db.ledger[x].leg == WithdrawLeg
    ensures db.ledger[x].account == db.withdrawals[i].account && db.ledger[x].delta == -db.withdrawals[i].amount < 0
  {
    assert WithdrawalRowOk(db, db.ledger[x]);
    var id :| WithdrawalRow(db, db.ledger[x], id);
    WithdrawalRefInjective(id, i + 1);
    assert WithdrawalPosted(db, i);
  }

  /** In every run each idempotency key names at most one withdrawal, each withdrawal has exactly one
      withdraw leg, and that leg takes exactly its amount from its account. */
  lemma OneWithdrawalPerKey(ops: seq<Op>, i: nat, j: nat)
    requires var ws := Run(START, ops).db.withdrawals; i < |ws| && j < |ws| && ws[i].key == ws[j].key
    ensures var db := Run(START, ops).db;
      && i == j
      && HasLeg(db.ledger, WithdrawalRef(i + 1), WithdrawLeg)
      && (forall x :: 0 <= x < |db.ledger| && db.ledger[x].ref == WithdrawalRef(i + 1) && db.ledger[x].leg == WithdrawLeg ==>
            && db.ledger[x].account == db.withdrawals[i].account && db.ledger[x].delta == -db.withdrawals[i].amount < 0
            && forall y :: 0 <= y < |db.ledger| && SameLeg(db.ledger, x, y) ==> x == y)
  {
    StartGood();
    LedgerRuns.RunKeeps(START, ops);
    RunKeys(START, ops);
    var db := Run(START, ops).db;
    assert WithdrawalPosted(db, i);
    forall x | 0 <= x < |db.ledger| && db.ledger[x].ref == WithdrawalRef(i + 1) && db.ledger[x].leg == WithdrawLeg
      ensures db.ledger[x].account == db.withdrawals[i].account && db.ledger[x].delta == -db.withdrawals[i].amount < 0
      ensures forall y :: 0 <= y < |db.ledger| && SameLeg(db.ledger, x, y) ==> x == y
    {
      WithdrawLegIs(db, i, x);
    }
  }

  /** A withdrawal on record answers every later request with its key. */
  lemma KeyAnswers(db: DB, i: nat, b: string, destination: string, amount: int)
    requires KeysUnique(db.withdrawals) && i < |db.withdrawals| && db.withdrawals[i].key != ""
    requires b != "" && destination != "" && amount > 0
    ensures ReserveWithdrawalTx(db, b, db.withdrawals[i].key, destination, amount)
         == (db, if b == db.withdrawals[i].account then Ok(i + 1) else Err(Conflict))
  {
    FindKeyIs(db.withdrawals, i);
  }

  /** A successful request leaves a record under its key and account. */
  lemma RequestRecorded(db: DB, a: string, key: string, destination: string, amount: int) returns (i: nat)
    requires ReserveWithdrawalTx(db, a, key, destination, amount).1.Ok?
    ensures var (db', res) := ReserveWithdrawalTx(db, a, key, destination, amount);
      key != "" && res == Ok(i + 1) && i < |db'.withdrawals| && db'.withdrawals[i].key == key && db'.withdrawals[i].account == a
  {
    i := ReserveWithdrawalTx(db, a, key, destination, amount).1.value - 1;
  }

  /** Repeating a withdrawal request, at any later point and with whatever amount and destination,
      returns the first one and moves nothing; another account is refused. */
  lemma WithdrawalRepeats(before: seq<Op>, a: string, key: string, destination: string, amount: int, between: seq<Op>,
                          b: string, destination': string, amount': int)
    requires ReserveWithdrawalTx(Run(START, before).db, a, key, destination, amount).1.Ok?
    requires b != "" && destination' != "" && amount' > 0
    ensures var first := ReserveWithdrawalTx(Run(START, before).db, a, key, destination, amount);
      var db := Run(World(first.0, [], {}), between).db;
      ReserveWithdrawalTx(db, b, key, destination', amount') == (db, if b == a then first.1 else Err(Conflict))
  {
    var db0 := Run(START, before).db;
    var i := RequestRecorded(db0, a, key, destination, amount);
    var w := World(ReserveWithdrawalTx(db0, a, key, destination, amount).0, [], {});
    RunKeys(START, before);
    NextKeys(db0, ReserveWithdrawal(a, key, destination, amount));
    RunKeys(w, between);
    NothingUndone(w, between);
    var db := Run(w, between).db;
    assert WithdrawalLater(w.db.withdrawals[i], db.withdrawals[i]);
    KeyAnswers(db, i, b, destination', amount');
  }

  /** A deposit event recorded once keeps its wallet and amount over every later run, and recording the
      same transfer instruction again changes nothing, whatever it claims. */
  lemma EventRecordedOnce(db: DB, k: DepositKey, wallet: string, amount: int, between: seq<Op>, wallet': string, amount': int)
    requires InsertDepositTx(db, k, wallet, amount).1 == Ok(true) && wallet' != "" && amount' > 0
    ensures var later := Run(World(InsertDepositTx(db, k, wallet, amount).0, [], {}), between).db;
      && k in later.deposits && later.deposits[k].fromWallet == wallet && later.deposits[k].amount == amount
      && InsertDepositTx(later, k, wallet', amount') == (later, Ok(false))
  {
    var w := World(InsertDepositTx(db, k, wallet, amount).0, [], {});
    NothingUndone(w, between);
    assert DepositLater(w.db.deposits[k], Run(w, between).db.deposits[k]);
  }
}

/** What every transaction keeps: the balance table is a projection of the ledger and the open
    reservations, and every ledger leg is matched by the record that caused it. */
module Projection {
  import opened Common
  import opened Billing
  import opened Sums
  import opened Tables
  import opened Transactions

  // ---------- the invariant ----------

  ghost predicate CreditsOk(db: DB) {
    forall a :: CheckRow(CreditOf(db.credits, a))
  }

  ghost predicate ReservedExact(db: DB) {
    forall a :: CreditOf(db.credits, a).reserved == OpenSum(db.requests, a)
  }

  predicate ChargeOk(c: Charge) {
    0 < c.cost <= MAX_COST && 0 <= c.fee && 0 <= c.sellerRaw && c.cost == c.fee + c.sellerRaw
  }

  predicate RequestOk(r: Request) {
    && 0 <= r.reserved
    && (forall q | q in r.quotes :: QuoteOk(q))
    && (r.state == Settled <==> r.charge.Some?)
    && (r.charge.Some? ==> ChargeOk(r.charge.value))
  }

  ghost predicate RequestsOk(db: DB) {
    forall id {:trigger RequestOk(db.requests[id])} | id in db.requests :: RequestOk(db.requests[id])
  }

  /** The legs of a settled request are exactly the ones its charge calls for. */
  predicate UsageRowOk(db: DB, row: Row) {
    row.leg.Usage() ==>
      && row.ref in db.requests
      && db.requests[row.ref].charge.Some?
      && row == UsageRow(db.requests[row.ref], db.requests[row.ref].charge.value, row.ref, row.leg)
      && (row.leg == FeeLeg ==> row.delta > 0)
  }

  predicate ChargePosted(db: DB, id: string)
    requires id in db.requests
  {
    db.requests[id].charge.Some? ==>
      && HasLeg(db.ledger, id, BuyerLeg) && HasLeg(db.ledger, id, SellerLeg)
      && (db.requests[id].charge.value.fee > 0 ==> HasLeg(db.ledger, id, FeeLeg))
  }

  ghost predicate UsageOk(db: DB) {
    && (forall i {:trigger UsageRowOk(db, db.ledger[i])} :: 0 <= i < |db.ledger| ==> UsageRowOk(db, db.ledger[i]))
    && (forall id {:trigger ChargePosted(db, id)} | id in db.requests :: ChargePosted(db, id))
    && (forall ref :: UsageSum(db.ledger, ref) == 0)
  }

  /** k is the deposit event a deposit leg records. */
  predicate Records(db: DB, row: Row, k: DepositKey) {
    && k in db.deposits && db.deposits[k].state.Assigned?
    && row == Row(db.deposits[k].state.account, db.deposits[k].amount, DepositLeg, db.deposits[k].fromWallet, DepositRef(k))
  }

  ghost predicate DepositRowOk(db: DB, row: Row) {
    row.leg == DepositLeg ==> exists k :: Records(db, row, k)
  }

  predicate DepositPosted(db: DB, k: DepositKey)
    requires k in db.deposits
  {
    db.deposits[k].amount > 0 && (db.deposits[k].state.Assigned? ==> HasLeg(db.ledger, DepositRef(k), DepositLeg))
  }

  ghost predicate DepositsOk(db: DB) {
    && (forall k {:trigger DepositPosted(db, k)} | k in db.deposits :: DepositPosted(db, k))
    && (forall i {:trigger DepositRowOk(db, db.ledger[i])} :: 0 <= i < |db.ledger| ==> DepositRowOk(db, db.ledger[i]))
  }

  /** The row a withdrawal's debit or refund leaves behind. */
  predicate WithdrawalRow(db: DB, row: Row, id: nat) {
    && 1 <= id <= |db.withdrawals|
    && var w := db.withdrawals[id - 1];
       || row == Row(w.account, -w.amount, WithdrawLeg, w.destination, WithdrawalRef(id))
       || (w.state == WRestored && row == Row(w.account, w.amount, RestoreLeg, w.destination, WithdrawalRef(id)))
  }

  ghost predicate WithdrawalRowOk(db: DB, row: Row) {
    (row.leg == WithdrawLeg || row.leg == RestoreLeg) ==> exists id :: WithdrawalRow(db, row, id)
  }

  predicate WithdrawalPosted(db: DB, i: nat)
    requires i < |db.withdrawals|
  {
    && db.withdrawals[i].amount > 0
    && HasLeg(db.ledger, WithdrawalRef(i + 1), WithdrawLeg)
    && (db.withdrawals[i].state == WRestored ==> HasLeg(db.ledger, WithdrawalRef(i + 1), RestoreLeg))
  }

  ghost predicate WithdrawalsOk(db: DB) {
    && (forall i: nat {:trigger WithdrawalPosted(db, i)} | i < |db.withdrawals| :: WithdrawalPosted(db, i))
    && (forall i {:trigger WithdrawalRowOk(db, db.ledger[i])} :: 0 <= i < |db.ledger| ==> WithdrawalRowOk(db, db.ledger[i]))
  }

  /** Every ledger leg is unique and matched by its record, and the other way round. */
  ghost predicate LegsOk(db: DB) {
    UniqueLegs(db.ledger) && UsageOk(db) && DepositsOk(db) && WithdrawalsOk(db)
  }

  ghost predicate Balanced(db: DB) {
    CreditsOk(db) && ReservedExact(db)
  }

  ghost predicate Inv(db: DB) {
    Balanced(db) && RequestsOk(db) && LegsOk(db)
  }

  /** credit minus ledger sum. */
  function Drift(db: DB, a: string): int {
    CreditOf(db.credits, a).credit - LedgerSum(db.ledger, a)
  }

  /** Total credit minus what came from outside the market. */
  ghost function TotalDrift(db: DB): int {
    TotalCredit(db.credits) - ExternalSum(db.ledger)
  }

  /** The balance side of a transaction: no account's drift moves, and neither does the total's. */
  ghost predicate SameDrift(db: DB, db': DB) {
    && (forall a :: Drift(db', a) == Drift(db, a))
    && TotalDrift(db') == TotalDrift(db)
  }

  lemma EmptyInv()
    ensures Inv(EMPTY_DB)
    ensures forall a :: Drift(EMPTY_DB, a) == 0
    ensures TotalDrift(EMPTY_DB) == 0
  {
    forall a ensures OpenSum(EMPTY_DB.requests, a) == 0 {
      assert OpenWeights(EMPTY_DB.requests, a) == map[];
    }
    assert CreditValues(EMPTY_DB.credits) == map[];
  }

  // ---------- frames: what an untouched table keeps ----------

  predicate SameRequest(db: DB, db': DB, id: string)
    requires id in db'.requests
  {
    if id in db.requests then db'.requests[id].buyer == db.requests[id].buyer && db'.requests[id].charge == db.requests[id].charge
    else db'.requests[id].charge.None?
  }

  predicate SameDeposit(db: DB, db': DB, k: DepositKey)
    requires k in db'.deposits
  {
    if k in db.deposits then
      && db'.deposits[k].amount == db.deposits[k].amount
      && (db'.deposits[k].state.Assigned? || db.deposits[k].state.Assigned? ==> db'.deposits[k] == db.deposits[k])
    else db'.deposits[k].amount > 0 && !db'.deposits[k].state.Assigned?
  }

  predicate SameWithdrawal(w: Withdrawal, w': Withdrawal) {
    w' == w.(state := w'.state) && (w'.state == WRestored <==> w.state == WRestored)
  }

  /** Every record the ledger speaks of is still there, unchanged where the ledger speaks of it. */
  ghost predicate SameRecords(db: DB, db': DB) {
    && db.requests.Keys <= db'.requests.Keys
    && (forall id {:trigger SameRequest(db, db', id)} | id in db'.requests :: SameRequest(db, db', id))
    && db.deposits.Keys <= db'.deposits.Keys
    && (forall k {:trigger SameDeposit(db, db', k)} | k in db'.deposits :: SameDeposit(db, db', k))
    && |db'.withdrawals| == |db.withdrawals|
    && (forall i {:trigger SameWithdrawal(db.withdrawals[i], db'.withdrawals[i])} ::
          0 <= i < |db.withdrawals| ==> SameWithdrawal(db.withdrawals[i], db'.withdrawals[i]))
  }

  lemma SameLedgerKeeps(db: DB, db': DB)
    requires LegsOk(db) && db'.ledger == db.ledger && SameRecords(db, db')
    ensures LegsOk(db')
  {
    forall i | 0 <= i < |db'.ledger|
      ensures UsageRowOk(db', db'.ledger[i]) && DepositRowOk(db', db'.ledger[i]) && WithdrawalRowOk(db', db'.ledger[i])
    {
      var row := db.ledger[i];
      assert UsageRowOk(db, row) && DepositRowOk(db, row) && WithdrawalRowOk(db, row);
      if row.leg.Usage() {
        assert SameRequest(db, db', row.ref);
      } else if row.leg == DepositLeg {
        var k :| Records(db, row, k);
        assert SameDeposit(db, db', k);
        assert Records(db', row, k);
      } else if row.leg == WithdrawLeg || row.leg == RestoreLeg {
        var id :| WithdrawalRow(db, row, id);
        assert SameWithdrawal(db.withdrawals[id - 1], db'.withdrawals[id - 1]);
        assert WithdrawalRow(db', row, id);
      }
    }
    forall x | x in db'.requests ensures ChargePosted(db', x) {
      assert SameRequest(db, db', x);
      assert x in db.requests ==> ChargePosted(db, x);
    }
    forall k | k in db'.deposits ensures DepositPosted(db', k) {
      assert SameDeposit(db, db', k);
      assert k in db.deposits ==> DepositPosted(db, k);
    }
    forall i: nat | i < |db'.withdrawals| ensures WithdrawalPosted(db', i) {
      assert SameWithdrawal(db.withdrawals[i], db'.withdrawals[i]);
      assert WithdrawalPosted(db, i);
    }
  }

  lemma UsageFrame(db: DB, db': DB, row: Row)
    requires UsageOk(db) && db'.requests == db.requests
    requires db'.ledger == db.ledger + [row] && !row.leg.Usage()
    ensures UsageOk(db')
  {
    Append(db.ledger, row);
    forall i | 0 <= i < |db'.ledger| ensures UsageRowOk(db', db'.ledger[i]) {
      if i < |db.ledger| { assert db'.ledger[i] == db.ledger[i] && UsageRowOk(db, db.ledger[i]); }
    }
    forall x | x in db'.requests ensures ChargePosted(db', x) {
      assert ChargePosted(db, x);
      HasLegAppend(db.ledger, row);
    }
  }

  lemma DepositsFrame(db: DB, db': DB, row: Row)
    requires DepositsOk(db) && db'.deposits == db.deposits
    requires db'.ledger == db.ledger + [row] && row.leg != DepositLeg
    ensures DepositsOk(db')
  {
    forall i | 0 <= i < |db'.ledger| ensures DepositRowOk(db', db'.ledger[i]) {
      if i < |db.ledger| { OldDepositRow(db, db', i); }
    }
    forall k | k in db'.deposits ensures DepositPosted(db', k) {
      assert DepositPosted(db, k);
      HasLegAppend(db.ledger, row);
    }
  }

  /** A recorded deposit stays recorded while assigned events do not change. */
  lemma OldDepositRow(db: DB, db': DB, i: nat)
    requires DepositsOk(db) && i < |db.ledger| && i < |db'.ledger| && db'.ledger[i] == db.ledger[i]
    requires forall k | k in db.deposits && db.deposits[k].state.Assigned? :: k in db'.deposits && db'.deposits[k] == db.deposits[k]
    ensures DepositRowOk(db', db'.ledger[i])
  {
    var row := db.ledger[i];
    assert DepositRowOk(db, row);
    if row.leg == DepositLeg {
      var k :| Records(db, row, k);
      assert Records(db', row, k);
    }
  }

  lemma WithdrawalsFrame(db: DB, db': DB, row: Row)
    requires WithdrawalsOk(db) && db'.withdrawals == db.withdrawals
    requires db'.ledger == db.ledger + [row] && row.leg != WithdrawLeg && row.leg != RestoreLeg
    ensures WithdrawalsOk(db')
  {
    forall i | 0 <= i < |db'.ledger| ensures WithdrawalRowOk(db', db'.ledger[i]) {
      if i < |db.ledger| { OldWithdrawalRow(db, db', i); }
    }
    forall i: nat | i < |db'.withdrawals| ensures WithdrawalPosted(db', i) {
      assert WithdrawalPosted(db, i);
      HasLegAppend(db.ledger, row);
    }
  }

  /** A withdrawal row stays matched while the record changes at most its state, and to restored at most. */
  lemma OldWithdrawalRow(db: DB, db': DB, i: nat)
    requires WithdrawalsOk(db) && i < |db.ledger| && i < |db'.ledger| && db'.ledger[i] == db.ledger[i]
    requires |db.withdrawals| <= |db'.withdrawals|
    requires forall j :: 0 <= j < |db.withdrawals| ==>
        db'.withdrawals[j] == db.withdrawals[j] || db'.withdrawals[j] == db.withdrawals[j].(state := WRestored)
    ensures WithdrawalRowOk(db', db'.ledger[i])
  {
    var row := db.ledger[i];
    assert WithdrawalRowOk(db, row);
    if row.leg == WithdrawLeg || row.leg == RestoreLeg {
      var id :| WithdrawalRow(db, row, id);
      assert WithdrawalRow(db', row, id);
    }
  }

  /** One balance update with its ledger row: constraints, reservations and drifts all hold. */
  lemma PostKeeps(db: DB, db': DB, row: Row)
    requires Balanced(db) && db'.requests == db.requests
    requires ApplyDelta(db.credits, row.account, row.delta, 0) == Some(db'.credits)
    requires db'.ledger == db.ledger + [row] && !row.leg.Usage()
    ensures Balanced(db') && SameDrift(db, db')
  {
    Append(db.ledger, row);
    TotalCreditUpdate(db.credits, row.account, db'.credits[row.account]);
    forall a ensures CheckRow(CreditOf(db'.credits, a)) && Drift(db', a) == Drift(db, a) {
      assert CheckRow(CreditOf(db.credits, a));
    }
  }

  // ---------- reserve and release ----------

  lemma ReserveKeepsBalance(db: DB, db': DB, q: Reservation, amount: int)
    requires Balanced(db) && amount >= 0 && q.id !in db.requests && db'.ledger == db.ledger
    requires db'.credits == db.credits[q.buyer := Credit(CreditOf(db.credits, q.buyer).credit, CreditOf(db.credits, q.buyer).reserved + amount)]
    requires CheckRow(db'.credits[q.buyer])
    requires db'.requests == db.requests[q.id := Request(q.buyer, q.quotes, amount, q.at, Reserved, None)]
    ensures Balanced(db') && SameDrift(db, db')
  {
    forall a ensures CheckRow(CreditOf(db'.credits, a)) && CreditOf(db'.credits, a).reserved == OpenSum(db'.requests, a) {
      assert CheckRow(CreditOf(db.credits, a));
      OpenSumUpdate(db.requests, q.id, db'.requests[q.id], a);
    }
    TotalCreditUpdate(db.credits, q.buyer, db'.credits[q.buyer]);
  }

  lemma NewRequestKeeps(db: DB, db': DB, id: string, r: Request)
    requires RequestsOk(db) && LegsOk(db) && id !in db.requests && RequestOk(r) && r.charge.None?
    requires db' == db.(credits := db'.credits, requests := db.requests[id := r])
    ensures RequestsOk(db') && LegsOk(db')
  {
    forall x | x in db'.requests ensures RequestOk(db'.requests[x]) {
      if x != id { assert RequestOk(db.requests[x]); }
    }
    SameLedgerKeeps(db, db');
  }

  lemma ReserveKeeps(db: DB, q: Reservation)
    requires Inv(db)
    ensures Inv(ReserveTx(db, q).0) && SameDrift(db, ReserveTx(db, q).0)
  {
    var (db', res) := ReserveTx(db, q);
    if res.Ok? {
      assert CheckRow(CreditOf(db.credits, q.buyer));
      var r := db'.requests[q.id];
      ReserveKeepsBalance(db, db', q, r.reserved);
      NewRequestKeeps(db, db', q.id, r);
    }
  }

  /** An open reservation is always covered by the buyer's reserved balance, so giving it back
      cannot fail. */
  lemma ReservationCovered(db: DB, id: string)
    requires Balanced(db) && RequestsOk(db) && id in db.requests && db.requests[id].state == Reserved
    ensures 0 <= db.requests[id].reserved <= CreditOf(db.credits, db.requests[id].buyer).reserved
    ensures ReleaseLocked(db, id).Some?
  {
    var a := db.requests[id].buyer;
    var ws := OpenWeights(db.requests, a);
    assert RequestOk(db.requests[id]);
    forall x | x in ws ensures ws[x] >= 0 { assert RequestOk(db.requests[x]); }
    MapSumNonNegative(ws);
    assert ws[id] == db.requests[id].reserved;
    assert CreditOf(db.credits, a).reserved == OpenSum(db.requests, a);
    assert CheckRow(CreditOf(db.credits, a));
  }

  lemma ReleaseKeepsBalance(db: DB, id: string)
    requires Balanced(db) && RequestsOk(db) && id in db.requests && db.requests[id].state == Reserved
    ensures ReleaseLocked(db, id).Some?
    ensures Balanced(ReleaseLocked(db, id).value) && SameDrift(db, ReleaseLocked(db, id).value)
  {
    ReservationCovered(db, id);
    var db' := ReleaseLocked(db, id).value;
    var r := db.requests[id];
    forall a ensures CheckRow(CreditOf(db'.credits, a)) && CreditOf(db'.credits, a).reserved == OpenSum(db'.requests, a)
      && CreditOf(db'.credits, a).credit == CreditOf(db.credits, a).credit
    {
      assert CheckRow(CreditOf(db.credits, a));
      OpenSumUpdate(db.requests, id, r.(state := Released), a);
    }
    if db'.credits != db.credits {
      TotalCreditUpdate(db.credits, r.buyer, db'.credits[r.buyer]);
    }
  }

  lemma ReleaseKeepsRecords(db: DB, db': DB, id: string)
    requires RequestsOk(db) && LegsOk(db) && id in db.requests && db.requests[id].state == Reserved
    requires db' == db.(credits := db'.credits, requests := db.requests[id := db.requests[id].(state := Released)])
    ensures RequestsOk(db') && LegsOk(db')
  {
    assert RequestOk(db.requests[id]);
    forall x | x in db'.requests ensures RequestOk(db'.requests[x]) {
      assert RequestOk(db.requests[x]);
    }
    SameLedgerKeeps(db, db');
  }

  lemma ReleaseKeeps(db: DB, id: string)
    requires Inv(db) && id in db.requests && db.requests[id].state == Reserved
    ensures ReleaseLocked(db, id).Some?
    ensures Inv(ReleaseLocked(db, id).value) && SameDrift(db, ReleaseLocked(db, id).value)
  {
    ReleaseKeepsBalance(db, id);
    ReleaseKeepsRecords(db, ReleaseLocked(db, id).value, id);
  }

  // ---------- settle ----------

  lemma SettleCreditsEffect(db: DB, r: Request, c: Charge, a: string)
    requires ChargeOk(c) && SettleCredits(db.credits, r, c).Some?
    ensures var credits := SettleCredits(db.credits, r, c).value;
      && CreditOf(credits, a).credit == CreditOf(db.credits, a).credit
           - (if r.buyer == a then c.cost else 0) + (if c.seller == a then c.sellerRaw else 0)
           + (if TREASURY == a then c.fee else 0)
      && CreditOf(credits, a).reserved == CreditOf(db.credits, a).reserved - (if r.buyer == a then r.reserved else 0)
  {}

  lemma SettleCreditsTotal(db: DB, r: Request, c: Charge)
    requires ChargeOk(c) && SettleCredits(db.credits, r, c).Some?
    ensures TotalCredit(SettleCredits(db.credits, r, c).value) == TotalCredit(db.credits)
  {
    var c1 := ApplyDelta(db.credits, r.buyer, -c.cost, -r.reserved).value;
    TotalCreditUpdate(db.credits, r.buyer, c1[r.buyer]);
    var c2 := ApplyDelta(c1, c.seller, c.sellerRaw, 0).value;
    TotalCreditUpdate(c1, c.seller, c2[c.seller]);
    if c.fee > 0 {
      var c3 := ApplyDelta(c2, TREASURY, c.fee, 0).value;
      TotalCreditUpdate(c2, TREASURY, c3[TREASURY]);
    }
  }

  lemma SettleCreditsChecked(db: DB, r: Request, c: Charge)
    requires (forall a :: CheckRow(CreditOf(db.credits, a))) && SettleCredits(db.credits, r, c).Some?
    ensures forall a :: CheckRow(CreditOf(SettleCredits(db.credits, r, c).value, a))
  {}

  predicate PostsLeg(c: Charge, leg: Leg) {
    leg == BuyerLeg || leg == SellerLeg || (leg == FeeLeg && c.fee > 0)
  }

  /** What the three inserts did to the ledger's sums. */
  ghost predicate SettleSums(ledger: seq<Row>, l: seq<Row>, r: Request, c: Charge) {
    && (forall a :: LedgerSum(l, a) == LedgerSum(ledger, a) - (if r.buyer == a then c.cost else 0)
                      + (if c.seller == a then c.sellerRaw else 0) + (if TREASURY == a then c.fee else 0))
    && (forall ref :: UsageSum(l, ref) == UsageSum(ledger, ref))
    && ExternalSum(l) == ExternalSum(ledger)
  }

  lemma SettleSumsEffect(ledger: seq<Row>, r: Request, c: Charge, id: string)
    requires ChargeOk(c) && SettleLegs(ledger, r, c, id).Some?
    ensures SettleSums(ledger, SettleLegs(ledger, r, c, id).value, r, c)
  {
    var b, s, f := UsageRow(r, c, id, BuyerLeg), UsageRow(r, c, id, SellerLeg), UsageRow(r, c, id, FeeLeg);
    Append(ledger, b);
    Append(ledger + [b], s);
    if c.fee > 0 { Append(ledger + [b] + [s], f); }
  }

  /** Which legs exist afterwards, and that they stay unique. */
  lemma SettleLegsEffect(ledger: seq<Row>, r: Request, c: Charge, id: string)
    requires ChargeOk(c) && SettleLegs(ledger, r, c, id).Some? && UniqueLegs(ledger)
    ensures var l := SettleLegs(ledger, r, c, id).value;
      && UniqueLegs(l) && ledger <= l
      && (forall leg | PostsLeg(c, leg) :: HasLeg(l, id, leg))
      && (forall i :: |ledger| <= i < |l| ==> l[i].leg.Usage() && l[i] == UsageRow(r, c, id, l[i].leg) && PostsLeg(c, l[i].leg))
  {
    var b, s, f := UsageRow(r, c, id, BuyerLeg), UsageRow(r, c, id, SellerLeg), UsageRow(r, c, id, FeeLeg);
    var l1 := ledger + [b];
    var l2 := l1 + [s];
    AppendUnique(ledger, b);
    AppendUnique(l1, s);
    assert l2[|ledger|] == b && l2[|ledger| + 1] == s;
    if c.fee > 0 {
      AppendUnique(l2, f);
      assert (l2 + [f])[|ledger|] == b && (l2 + [f])[|ledger| + 1] == s && (l2 + [f])[|ledger| + 2] == f;
    }
  }

  lemma ChargeKeepsBalance(db: DB, db': DB, id: string, c: Charge)
    requires Balanced(db) && id in db.requests && db.requests[id].state == Reserved && ChargeOk(c)
    requires SettleCredits(db.credits, db.requests[id], c) == Some(db'.credits)
    requires SettleLegs(db.ledger, db.requests[id], c, id) == Some(db'.ledger)
    requires db'.requests == db.requests[id := db.requests[id].(state := Settled, charge := Some(c))]
    ensures Balanced(db') && SameDrift(db, db')
  {
    var r := db.requests[id];
    SettleSumsEffect(db.ledger, r, c, id);
    SettleCreditsTotal(db, r, c);
    SettleCreditsChecked(db, r, c);
    forall a ensures Drift(db', a) == Drift(db, a) && CreditOf(db'.credits, a).reserved == OpenSum(db'.requests, a) {
      SettleCreditsEffect(db, r, c, a);
      OpenSumUpdate(db.requests, id, db'.requests[id], a);
    }
  }

  lemma ChargeKeepsUsage(db: DB, db': DB, id: string, c: Charge)
    requires UsageOk(db) && UniqueLegs(db.ledger) && id in db.requests && ChargeOk(c)
    requires db.requests[id].charge.None?
    requires SettleLegs(db.ledger, db.requests[id], c, id) == Some(db'.ledger)
    requires db'.requests == db.requests[id := db.requests[id].(state := Settled, charge := Some(c))]
    ensures UsageOk(db')
  {
    var r := db.requests[id];
    SettleLegsEffect(db.ledger, r, c, id);
    SettleSumsEffect(db.ledger, r, c, id);
    forall i | 0 <= i < |db'.ledger| ensures UsageRowOk(db', db'.ledger[i]) {
      if i < |db.ledger| {
        assert db'.ledger[i] == db.ledger[i];
        assert UsageRowOk(db, db.ledger[i]);
      }
    }
    var more := db'.ledger[|db.ledger|..];
    assert db'.ledger == db.ledger + more;
    forall x | x in db'.requests ensures ChargePosted(db', x) {
      if x != id {
        assert ChargePosted(db, x);
        if db.requests[x].charge.Some? {
          HasLegGrows(db.ledger, more, x, BuyerLeg);
          HasLegGrows(db.ledger, more, x, SellerLeg);
          if db.requests[x].charge.value.fee > 0 { HasLegGrows(db.ledger, more, x, FeeLeg); }
        }
      }
    }
  }

  lemma UsageRowsKeepOthers(db: DB, db': DB)
    requires DepositsOk(db) && WithdrawalsOk(db)
    requires db'.deposits == db.deposits && db'.withdrawals == db.withdrawals
    requires db.ledger <= db'.ledger && forall i :: |db.ledger| <= i < |db'.ledger| ==> db'.ledger[i].leg.Usage()
    ensures DepositsOk(db') && WithdrawalsOk(db')
  {
    var more := db'.ledger[|db.ledger|..];
    assert db'.ledger == db.ledger + more;
    forall i | 0 <= i < |db'.ledger| ensures DepositRowOk(db', db'.ledger[i]) && WithdrawalRowOk(db', db'.ledger[i]) {
      if i < |db.ledger| {
        OldDepositRow(db, db', i);
        OldWithdrawalRow(db, db', i);
      }
    }
    forall k | k in db'.deposits ensures DepositPosted(db', k) {
      assert DepositPosted(db, k);
      if db.deposits[k].state.Assigned? { HasLegGrows(db.ledger, more, DepositRef(k), DepositLeg); }
    }
    forall i: nat | i < |db'.withdrawals| ensures WithdrawalPosted(db', i) {
      assert WithdrawalPosted(db, i);
      HasLegGrows(db.ledger, more, WithdrawalRef(i + 1), WithdrawLeg);
      if db.withdrawals[i].state == WRestored { HasLegGrows(db.ledger, more, WithdrawalRef(i + 1), RestoreLeg); }
    }
  }

  lemma ChargeKeeps(db: DB, id: string, usage: Usage, c: Charge)
    requires Inv(db) && id in db.requests && db.requests[id].state == Reserved && ChargeOk(c)
    ensures Inv(ChargeTx(db, id, usage, c).0) && SameDrift(db, ChargeTx(db, id, usage, c).0)
  {
    var (db', res) := ChargeTx(db, id, usage, c);
    if res.Ok? {
      var r := db.requests[id];
      assert RequestOk(r);
      ChargeKeepsBalance(db, db', id, c);
      ChargeKeepsUsage(db, db', id, c);
      SettleLegsEffect(db.ledger, db.requests[id], c, id);
      UsageRowsKeepOthers(db, db');
      forall x | x in db'.requests ensures RequestOk(db'.requests[x]) {
        if x != id { assert RequestOk(db.requests[x]); }
      }
    }
  }

  lemma SettleKeeps(db: DB, id: string, peer: string, usage: Usage, feeBps: int)
    requires Inv(db)
    ensures Inv(SettleTx(db, id, peer, usage, feeBps).0) && SameDrift(db, SettleTx(db, id, peer, usage, feeBps).0)
  {
    if id in db.requests && db.requests[id].state == Reserved {
      ReleaseKeeps(db, id);
      var q := FindQuote(db.requests[id].quotes, peer);
      if q.Some? {
        var cost := Cost(usage, q.value.inRate, q.value.cachedRate, q.value.outRate);
        if cost.Ok? && cost.value > 0 {
          var split := Fee(cost.value, feeBps).value;
          ChargeKeeps(db, id, usage, Charge(q.value.peer, q.value.seller, cost.value, split.0, split.1));
        }
      }
    }
  }

  lemma {:induction false} ReleaseAllKeeps(db: DB, picked: seq<string>)
    requires Inv(db)
    requires forall id | id in picked :: id in db.requests && db.requests[id].state == Reserved
    requires forall i, j :: 0 <= i < j < |picked| ==> picked[i] != picked[j]
    ensures ReleaseAll(db, picked).Some?
    ensures Inv(ReleaseAll(db, picked).value) && SameDrift(db, ReleaseAll(db, picked).value)
    decreases |picked|
  {
    if picked != [] {
      var id := picked[0];
      assert id in picked;
      ReleaseKeeps(db, id);
      var mid := ReleaseLocked(db, id).value;
      ReleasedOne(db, picked, mid);
      ReleaseAllKeeps(mid, picked[1..]);
    }
  }

  /** Releasing the first row leaves the others as they were. */
  lemma ReleasedOne(db: DB, picked: seq<string>, mid: DB)
    requires forall id | id in picked :: id in db.requests && db.requests[id].state == Reserved
    requires forall i, j :: 0 <= i < j < |picked| ==> picked[i] != picked[j]
    requires picked != [] && ReleaseLocked(db, picked[0]) == Some(mid)
    ensures forall x | x in picked[1..] :: x in mid.requests && mid.requests[x].state == Reserved
    ensures forall i, j :: 0 <= i < j < |picked[1..]| ==> picked[1..][i] != picked[1..][j]
  {
    forall x | x in picked[1..] ensures x in mid.requests && mid.requests[x].state == Reserved {
      assert x in picked && x != picked[0];
    }
  }

  /** What releasing a list of requests does to the tables: nothing but their state and the balances. */
  lemma {:induction false} ReleaseAllEffect(db: DB, picked: seq<string>)
    requires forall id | id in picked :: id in db.requests
    ensures ReleaseAll(db, picked).Some? ==>
              var db' := ReleaseAll(db, picked).value;
              && db' == db.(credits := db'.credits, requests := db'.requests)
              && db'.requests == map id | id in db.requests :: if id in picked then db.requests[id].(state := Released) else db.requests[id]
    decreases |picked|
  {
    if picked != [] && ReleaseLocked(db, picked[0]).Some? {
      ReleaseAllEffect(ReleaseLocked(db, picked[0]).value, picked[1..]);
      assert picked == [picked[0]] + picked[1..];
    }
  }

  // ---------- the delegation mirror ----------

  /** A fresh, well-formed grant whose sum with the account's credit leaves int64: what a caller can
      see before the call. */
  ghost predicate GrantOverflows(db: DB, k: AllowanceKey, raw: int64, ref: string) {
    && k.0 != "" && k.1 != "" && ref != "" && raw > PrevAllowance(db, k) && !HasLeg(db.ledger, ref, GrantLeg)
    && CreditOf(db.credits, k.0).credit + raw - PrevAllowance(db, k) > MAX_INT64
  }

  /** What an observation can do to the money tables: nothing, or set one credit row that keeps
      its reservations, with at most one new mirror leg. */
  ghost predicate UpsertShape(db: DB, db': DB, a: string) {
    && db'.requests == db.requests && db'.deposits == db.deposits && db'.withdrawals == db.withdrawals
    && a in db'.credits && db'.credits == db.credits[a := db'.credits[a]]
    && CheckRow(db'.credits[a]) && db'.credits[a].reserved == CreditOf(db.credits, a).reserved
    && (db'.ledger == db.ledger
        || (|db'.ledger| == |db.ledger| + 1 && MirrorRow(db.ledger, db'.ledger[|db.ledger|], a)
            && db'.ledger == db.ledger + [db'.ledger[|db.ledger|]]))
  }

  predicate MirrorRow(ledger: seq<Row>, row: Row, a: string) {
    row.account == a && (row.leg == GrantLeg || row.leg == RevokeLeg) && !HasLeg(ledger, row.ref, row.leg)
  }

  lemma UpsertHasShape(db: DB, k: AllowanceKey, raw: int64, ref: string)
    requires CheckRow(CreditOf(db.credits, k.0))
    ensures UpsertTx(db, k, raw, ref).1.Ok? ==> UpsertShape(db, UpsertTx(db, k, raw, ref).0, k.0)
    ensures UpsertTx(db, k, raw, ref).1.Err? ==> UpsertTx(db, k, raw, ref).0 == db
  {}

  lemma UpsertKeepsBalance(db: DB, db': DB, a: string)
    requires Balanced(db) && UpsertShape(db, db', a)
    ensures Balanced(db')
    ensures forall b | b != a :: Drift(db', b) == Drift(db, b)
    ensures TotalDrift(db') - TotalDrift(db) == Drift(db', a) - Drift(db, a)
  {
    TotalCreditUpdate(db.credits, a, db'.credits[a]);
    forall b ensures CheckRow(CreditOf(db'.credits, b)) && CreditOf(db'.credits, b).reserved == CreditOf(db.credits, b).reserved {
      assert CheckRow(CreditOf(db.credits, b));
    }
    if db'.ledger != db.ledger { Append(db.ledger, db'.ledger[|db.ledger|]); }
  }

  lemma UpsertKeepsLegs(db: DB, db': DB, a: string)
    requires LegsOk(db) && UpsertShape(db, db', a)
    ensures LegsOk(db')
  {
    if db'.ledger == db.ledger {
      SameLedgerKeeps(db, db');
    } else {
      var row := db'.ledger[|db.ledger|];
      AppendUnique(db.ledger, row);
      UsageFrame(db, db', row);
      DepositsFrame(db, db', row);
      WithdrawalsFrame(db, db', row);
    }
  }

  lemma UpsertKeeps(db: DB, k: AllowanceKey, raw: int64, ref: string)
    requires Inv(db)
    ensures Inv(UpsertTx(db, k, raw, ref).0)
    ensures forall a | a != k.0 :: Drift(UpsertTx(db, k, raw, ref).0, a) == Drift(db, a)
    ensures TotalDrift(UpsertTx(db, k, raw, ref).0) - TotalDrift(db)
         == Drift(UpsertTx(db, k, raw, ref).0, k.0) - Drift(db, k.0)
  {
    UpsertHasShape(db, k, raw, ref);
    var db' := UpsertTx(db, k, raw, ref).0;
    if db' != db {
      UpsertKeepsBalance(db, db', k.0);
      UpsertKeepsLegs(db, db', k.0);
    }
  }

  /** The mirrored balance is the sum plus the reported shortfall, and that is non-negative,
      exactly when the addition does not wrap. */
  lemma MirrorExact(c: Credit, delta: int)
    requires CheckRow(c) && -MAX_INT64 <= delta <= MAX_INT64
    ensures MirrorCredit(c, delta).0 == c.credit + delta + MirrorCredit(c, delta).1 && MirrorCredit(c, delta).1 >= 0
       <==> c.credit + delta <= MAX_INT64
  {
    var x := c.credit + delta;
    if x > MAX_INT64 {
      assert x % TWO_64 == x;
      assert Wrap(x) == x - TWO_64;
    }
  }

  /** One observation moves the account's drift by exactly the shortfall it reports, and that
      shortfall is non-negative, exactly when the mirrored balance does not overflow int64. */
  lemma ShortfallExact(db: DB, k: AllowanceKey, raw: int64, ref: string)
    requires CheckRow(CreditOf(db.credits, k.0)) && PrevAllowance(db, k) >= 0 && UpsertTx(db, k, raw, ref).1.Ok?
    ensures Drift(UpsertTx(db, k, raw, ref).0, k.0) == Drift(db, k.0) + UpsertTx(db, k, raw, ref).1.value.shortfall
         && UpsertTx(db, k, raw, ref).1.value.shortfall >= 0
       <==> !GrantOverflows(db, k, raw, ref)
  {
    var delta := raw - PrevAllowance(db, k);
    if UpsertTx(db, k, raw, ref).1.value.applied != 0 {
      MirrorExact(CreditOf(db.credits, k.0), delta);
      Append(db.ledger, Row(k.0, delta, MirrorLeg(delta), k.1, ref));
    }
  }

  const HALF: int64 := 0x4000_0000_0000_0000

  const GRANTED := EMPTY_DB.(credits := map["a" := Credit(HALF, 0)], allowances := map[("a", "d1") := Allowance(HALF, false)],
                             ledger := [Row("a", HALF, GrantLeg, "d1", "o1")])

  lemma FirstGrant()
    ensures UpsertTx(EMPTY_DB, ("a", "d1"), HALF, "o1").0 == GRANTED
  {
    var db := UpsertTx(EMPTY_DB, ("a", "d1"), HALF, "o1").0;
    assert [] + [Row("a", HALF, GrantLeg, "d1", "o1")] == [Row("a", HALF, GrantLeg, "d1", "o1")];
    assert db.credits == GRANTED.credits && db.allowances == GRANTED.allowances && db.ledger == GRANTED.ledger;
  }

  lemma SecondGrant()
    ensures var (db, res) := UpsertTx(GRANTED, ("a", "d2"), HALF, "o2");
      && CreditOf(db.credits, "a").credit == 0 && res == Ok(Mirrored(0, HALF, MIN_INT64))
      && db.ledger == GRANTED.ledger + [Row("a", HALF, GrantLeg, "d2", "o2")]
  {
    assert MirrorCredit(Credit(HALF, 0), HALF) == (0, MIN_INT64);
    assert !HasLeg(GRANTED.ledger, "o2", GrantLeg);
  }

  /** The wrap is reachable: two delegates granting 2^62 units each to one account. The second grant
      empties the account, and the shortfall it reports is the most negative int64. */
  lemma GrantCanOverflow()
    ensures var db1 := UpsertTx(EMPTY_DB, ("a", "d1"), HALF, "o1").0;
      var (db2, res) := UpsertTx(db1, ("a", "d2"), HALF, "o2");
      && CreditOf(db1.credits, "a").credit == HALF && CreditOf(db2.credits, "a").credit == 0
      && LedgerSum(db2.ledger, "a") == 2 * HALF && res == Ok(Mirrored(0, HALF, MIN_INT64))
  {
    FirstGrant();
    SecondGrant();
    Append([], GRANTED.ledger[0]);
    assert [] + [GRANTED.ledger[0]] == GRANTED.ledger;
    Append(GRANTED.ledger, Row("a", HALF, GrantLeg, "d2", "o2"));
  }

  // ---------- deposits ----------

  /** The unique-violation branch of creditDepositLocked is unreachable: an unassigned event has
      no deposit leg yet. */
  lemma UnassignedHasNoLeg(db: DB, k: DepositKey)
    requires DepositsOk(db) && k in db.deposits && !db.deposits[k].state.Assigned?
    ensures !HasLeg(db.ledger, DepositRef(k), DepositLeg)
  {
    forall i | 0 <= i < |db.ledger| && db.ledger[i].leg == DepositLeg ensures db.ledger[i].ref != DepositRef(k) {
      assert DepositRowOk(db, db.ledger[i]);
      var x :| Records(db, db.ledger[i], x);
      if DepositRef(x) == DepositRef(k) { DepositRefInjective(x, k); }
    }
  }

  lemma CreditDepositKeeps(db: DB, k: DepositKey, a: string)
    requires Inv(db) && k in db.deposits && db.deposits[k].state == Unassigned
    requires CreditDeposit(db, k, a).Some?
    ensures Inv(CreditDeposit(db, k, a).value) && SameDrift(db, CreditDeposit(db, k, a).value)
    ensures CreditDeposit(db, k, a).value.ledger
         == db.ledger + [Row(a, db.deposits[k].amount, DepositLeg, db.deposits[k].fromWallet, DepositRef(k))]
  {
    var db' := CreditDeposit(db, k, a).value;
    UnassignedHasNoLeg(db, k);
    var row := Row(a, db.deposits[k].amount, DepositLeg, db.deposits[k].fromWallet, DepositRef(k));
    PostKeeps(db, db', row);
    AppendUnique(db.ledger, row);
    UsageFrame(db, db', row);
    WithdrawalsFrame(db, db', row);
    DepositRowKeeps(db, db', row, k, a);
  }

  lemma DepositRowKeeps(db: DB, db': DB, row: Row, k: DepositKey, a: string)
    requires DepositsOk(db) && k in db.deposits && db.deposits[k].state == Unassigned
    requires row == Row(a, db.deposits[k].amount, DepositLeg, db.deposits[k].fromWallet, DepositRef(k))
    requires db'.ledger == db.ledger + [row] && db'.deposits == db.deposits[k := db.deposits[k].(state := Assigned(a))]
    ensures DepositsOk(db')
  {
    forall i | 0 <= i < |db'.ledger| ensures DepositRowOk(db', db'.ledger[i]) {
      if i < |db.ledger| { OldDepositRow(db, db', i); } else { assert Records(db', row, k); }
    }
    forall x | x in db'.deposits ensures DepositPosted(db', x) {
      assert DepositPosted(db, x);
      HasLegAppend(db.ledger, row);
    }
  }

  lemma {:induction false} CreditAllKeeps(db: DB, picked: seq<DepositKey>, a: string)
    requires Inv(db)
    requires forall k | k in picked :: k in db.deposits && db.deposits[k].state == Unassigned
    requires forall i, j :: 0 <= i < j < |picked| ==> picked[i] != picked[j]
    requires CreditAll(db, picked, a).Some?
    ensures Inv(CreditAll(db, picked, a).value) && SameDrift(db, CreditAll(db, picked, a).value)
    decreases |picked|
  {
    if picked != [] {
      var k := picked[0];
      assert k in picked;
      CreditDepositKeeps(db, k, a);
      var mid := CreditDeposit(db, k, a).value;
      forall x | x in picked[1..] ensures x in mid.deposits && mid.deposits[x].state == Unassigned {
        assert x in picked && x != k;
      }
      CreditAllKeeps(mid, picked[1..], a);
    }
  }

  lemma LockAccountKeeps(db: DB, a: string)
    requires Inv(db) && ApplyDelta(db.credits, a, 0, 0).Some?
    ensures Inv(db.(credits := ApplyDelta(db.credits, a, 0, 0).value))
    ensures SameDrift(db, db.(credits := ApplyDelta(db.credits, a, 0, 0).value))
  {
    var db' := db.(credits := ApplyDelta(db.credits, a, 0, 0).value);
    TotalCreditUpdate(db.credits, a, db'.credits[a]);
    assert forall b :: CreditOf(db'.credits, b) == CreditOf(db.credits, b);
    SameLedgerKeeps(db, db');
  }

  lemma ReconcileDepositsKeeps(db: DB, wallet: string, a: string, picked: seq<DepositKey>)
    requires Inv(db) && WalletSelects(db, wallet, picked)
    ensures Inv(ReconcileDepositsTx(db, wallet, a, picked).0)
    ensures SameDrift(db, ReconcileDepositsTx(db, wallet, a, picked).0)
  {
    if ReconcileDepositsTx(db, wallet, a, picked).0 != db {
      LockAccountKeeps(db, a);
      CreditAllKeeps(db.(credits := ApplyDelta(db.credits, a, 0, 0).value), picked, a);
    }
  }

  // ---------- withdrawals ----------

  /** A withdrawal or restore row joins its record. */
  lemma WithdrawalRowKeeps(db: DB, db': DB, row: Row, id: nat)
    requires WithdrawalsOk(db) && db'.ledger == db.ledger + [row] && 1 <= id <= |db'.withdrawals|
    requires WithdrawalRow(db', row, id)
    requires || (row.leg == WithdrawLeg && id == |db'.withdrawals| && db'.withdrawals[id - 1].state != WRestored
                 && db'.withdrawals[id - 1].amount > 0 && db'.withdrawals[..id - 1] == db.withdrawals)
             || (row.leg == RestoreLeg && id <= |db.withdrawals|
                 && db'.withdrawals == db.withdrawals[id - 1 := db.withdrawals[id - 1].(state := WRestored)])
    ensures WithdrawalsOk(db')
  {
    forall i | 0 <= i < |db'.ledger| ensures WithdrawalRowOk(db', db'.ledger[i]) {
      if i < |db.ledger| {
        assert forall j :: 0 <= j < |db.withdrawals| ==>
            db'.withdrawals[j] == db.withdrawals[j] || db'.withdrawals[j] == db.withdrawals[j].(state := WRestored);
        OldWithdrawalRow(db, db', i);
      } else {
        assert WithdrawalRow(db', db'.ledger[i], id);
      }
    }
    forall i: nat | i < |db'.withdrawals| ensures WithdrawalPosted(db', i) {
      HasLegAppend(db.ledger, row);
      if i < |db.withdrawals| { assert WithdrawalPosted(db, i); }
    }
  }

  lemma ReserveWithdrawalKeeps(db: DB, a: string, key: string, destination: string, amount: int)
    requires Inv(db)
    ensures Inv(ReserveWithdrawalTx(db, a, key, destination, amount).0)
    ensures SameDrift(db, ReserveWithdrawalTx(db, a, key, destination, amount).0)
  {
    var (db', res) := ReserveWithdrawalTx(db, a, key, destination, amount);
    if db' != db {
      var id := |db.withdrawals| + 1;
      var row := Row(a, -amount, WithdrawLeg, destination, WithdrawalRef(id));
      PostKeeps(db, db', row);
      AppendUnique(db.ledger, row);
      UsageFrame(db, db', row);
      DepositsFrame(db, db', row);
      WithdrawalRowKeeps(db, db', row, id);
    }
  }

  lemma MarkWithdrawalKeeps(db: DB, id: nat, to: WithdrawalState)
    requires Inv(db)
    ensures Inv(MarkWithdrawalTx(db, id, to).0) && SameDrift(db, MarkWithdrawalTx(db, id, to).0)
  {
    var db' := MarkWithdrawalTx(db, id, to).0;
    SameLedgerKeeps(db, db');
  }

  /** An open withdrawal has not been refunded, so the duplicate-leg branch of a restore is
      unreachable too. */
  lemma OpenHasNoRestore(db: DB, id: nat)
    requires WithdrawalsOk(db) && 1 <= id <= |db.withdrawals| && db.withdrawals[id - 1].state != WRestored
    ensures !HasLeg(db.ledger, WithdrawalRef(id), RestoreLeg)
  {
    forall i | 0 <= i < |db.ledger| && db.ledger[i].leg == RestoreLeg ensures db.ledger[i].ref != WithdrawalRef(id) {
      assert WithdrawalRowOk(db, db.ledger[i]);
      var x :| WithdrawalRow(db, db.ledger[i], x);
      if WithdrawalRef(x) == WithdrawalRef(id) { WithdrawalRefInjective(x, id); }
    }
  }

  lemma RestoreWithdrawalKeeps(db: DB, id: nat)
    requires Inv(db)
    ensures Inv(RestoreWithdrawalTx(db, id).0) && SameDrift(db, RestoreWithdrawalTx(db, id).0)
  {
    var (db', res) := RestoreWithdrawalTx(db, id);
    if db' != db {
      var w := db.withdrawals[id - 1];
      var row := Row(w.account, w.amount, RestoreLeg, w.destination, WithdrawalRef(id));
      OpenHasNoRestore(db, id);
      PostKeeps(db, db', row);
      AppendUnique(db.ledger, row);
      UsageFrame(db, db', row);
      DepositsFrame(db, db', row);
      WithdrawalRowKeeps(db, db', row, id);
    }
  }
}

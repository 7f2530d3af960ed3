/** What each billing call answers and leaves behind, for every input, said on the tables before and
    after and without the transactions' own steps. */
module Answers {
  import opened Common
  import opened Billing
  import opened Sums
  import opened Tables
  import opened Transactions
  import opened Projection
  import opened LedgerRuns

  /** One account's balance moved by this much, and no other's. */
  ghost predicate Shifted(db: DB, db': DB, a: string, credit: int, reserved: int) {
    && CreditOf(db'.credits, a) == Credit(CreditOf(db.credits, a).credit + credit, CreditOf(db.credits, a).reserved + reserved)
    && forall b | b != a :: CreditOf(db'.credits, b) == CreditOf(db.credits, b)
  }

  // ---------- release ----------

  /** The request is released with its reservation given back, and nothing else changed. */
  ghost predicate HandedBack(db: DB, db': DB, id: string)
    requires id in db.requests
  {
    var r := db.requests[id];
    && Shifted(db, db', r.buyer, 0, -r.reserved)
    && db'.requests == db.requests[id := r.(state := Released)]
    && db' == db.(credits := db'.credits, requests := db'.requests)
  }

  lemma OutcomeHandsBack(db: DB, id: string)
    requires Inv(db) && id in db.requests && db.requests[id].state == Reserved
    ensures var (db', res) := ReleaseOutcome(db, id); res == Ok(db.requests[id].(state := Released)) && HandedBack(db, db', id)
  {
    ReservationCovered(db, id);
  }

  /** Releasing an open request always succeeds; one that is finalized is returned as it is. */
  lemma ReleaseAnswers(db: DB, id: string)
    requires Inv(db)
    ensures var (db', res) := ReleaseTx(db, id);
      && (id !in db.requests ==> db' == db && res == Err(NotFound))
      && (id in db.requests && db.requests[id].state != Reserved ==> db' == db && res == Ok(db.requests[id]))
      && (id in db.requests && db.requests[id].state == Reserved ==>
            res == Ok(db.requests[id].(state := Released)) && HandedBack(db, db', id))
  {
    if id in db.requests && db.requests[id].state == Reserved { OutcomeHandsBack(db, id); }
  }

  // ---------- settle ----------

  /** quotes[i] is the first to name the peer. */
  predicate FirstQuote(quotes: seq<Quote>, peer: string, i: nat) {
    i < |quotes| && quotes[i].peer == peer && forall j :: 0 <= j < i ==> quotes[j].peer != peer
  }

  predicate Unquoted(quotes: seq<Quote>, peer: string) {
    forall i :: 0 <= i < |quotes| ==> quotes[i].peer != peer
  }

  lemma UnquotedIsNone(quotes: seq<Quote>, peer: string)
    requires Unquoted(quotes, peer)
    ensures FindQuote(quotes, peer) == None
  {}

  /** A peer outside the snapshot gives the reservation back, whatever usage it reports. */
  lemma UnknownPeerReleases(db: DB, id: string, peer: string, usage: Usage, feeBps: int)
    requires Inv(db) && id in db.requests && db.requests[id].state == Reserved && Unquoted(db.requests[id].quotes, peer)
    ensures var (db', res) := SettleTx(db, id, peer, usage, feeBps);
      res == Ok(db.requests[id].(state := Released)) && HandedBack(db, db', id)
  {
    UnquotedIsNone(db.requests[id].quotes, peer);
    OutcomeHandsBack(db, id);
  }

  /** So does a usage that costs nothing at the peer's rates. */
  lemma FreeUsageReleases(db: DB, id: string, peer: string, i: nat, usage: Usage, feeBps: int)
    requires Inv(db) && id in db.requests && db.requests[id].state == Reserved && FirstQuote(db.requests[id].quotes, peer, i)
    requires var q := db.requests[id].quotes[i];
      Priceable(usage, q.inRate, q.cachedRate, q.outRate) && Exact(usage, q.inRate, q.cachedRate, q.outRate) == 0
    ensures var (db', res) := SettleTx(db, id, peer, usage, feeBps);
      res == Ok(db.requests[id].(state := Released)) && HandedBack(db, db', id)
  {
    FindQuoteFirst(db.requests[id].quotes, peer, i);
    var q := db.requests[id].quotes[i];
    assert IsCeil(0, MILLION, Cost(usage, q.inRate, q.cachedRate, q.outRate).value);
    OutcomeHandsBack(db, id);
  }

  /** A finalized request is returned as it is, an unknown one refused, and a usage whose price is not
      computable is refused with the request left open. */
  lemma SettleLeaves(db: DB, id: string, peer: string, i: nat, usage: Usage, feeBps: int)
    ensures id !in db.requests ==> SettleTx(db, id, peer, usage, feeBps) == (db, Err(NotFound))
    ensures id in db.requests && db.requests[id].state != Reserved ==> SettleTx(db, id, peer, usage, feeBps) == (db, Ok(db.requests[id]))
    ensures id in db.requests && db.requests[id].state == Reserved && FirstQuote(db.requests[id].quotes, peer, i)
            && !Priceable(usage, db.requests[id].quotes[i].inRate, db.requests[id].quotes[i].cachedRate, db.requests[id].quotes[i].outRate)
            ==> SettleTx(db, id, peer, usage, feeBps).0 == db && SettleTx(db, id, peer, usage, feeBps).1.Err?
  {
    if id in db.requests && FirstQuote(db.requests[id].quotes, peer, i) { FindQuoteFirst(db.requests[id].quotes, peer, i); }
  }

  /** The legs a charge posts: the buyer's debit names the peer, the seller's share and the fee name the buyer. */
  function ChargeRows(buyer: string, c: Charge, id: string): seq<Row> {
    [Row(buyer, -c.cost, BuyerLeg, c.peer, id), Row(c.seller, c.sellerRaw, SellerLeg, buyer, id)]
      + (if c.fee > 0 then [Row("treasury", c.fee, FeeLeg, buyer, id)] else [])
  }

  /** The buyer keeps enough for its other reservations and both receivers can hold what they get. */
  predicate Chargeable(credits: map<string, Credit>, r: Request, c: Charge) {
    && CreditOf(credits, r.buyer).credit - c.cost >= CreditOf(credits, r.buyer).reserved - r.reserved
    && Receivable(credits, r.buyer, c)
  }

  /** The charge is made, posted and recorded. */
  ghost predicate Charged(db: DB, db': DB, id: string, c: Charge)
    requires id in db.requests
  {
    var r := db.requests[id];
    && (forall a :: CreditOf(db'.credits, a)
          == Credit(BalanceAfter(db.credits, r.buyer, c, a), CreditOf(db.credits, a).reserved - if a == r.buyer then r.reserved else 0))
    && db'.ledger == db.ledger + ChargeRows(r.buyer, c, id)
    && db'.requests == db.requests[id := r.(state := Settled, charge := Some(c))]
    && db' == db.(credits := db'.credits, ledger := db'.ledger, requests := db'.requests)
  }

  lemma ChargeableIff(db: DB, r: Request, c: Charge)
    requires CreditsOk(db) && ChargeOk(c) && 0 <= r.reserved <= CreditOf(db.credits, r.buyer).reserved
    ensures SettleCredits(db.credits, r, c).Some? <==> Chargeable(db.credits, r, c)
  {
    assert CheckRow(CreditOf(db.credits, r.buyer)) && CheckRow(CreditOf(db.credits, c.seller)) && CheckRow(CreditOf(db.credits, TREASURY));
  }

  lemma ChargePosts(ledger: seq<Row>, r: Request, c: Charge, id: string)
    requires forall leg: Leg | leg.Usage() :: !HasLeg(ledger, id, leg)
    ensures SettleLegs(ledger, r, c, id) == Some(ledger + ChargeRows(r.buyer, c, id))
  {
    SettleLegsInsert(ledger, r, c, id);
    var b, s := UsageRow(r, c, id, BuyerLeg), UsageRow(r, c, id, SellerLeg);
    assert ledger + [b, s] == ledger + [b] + [s];
    assert ledger + ([b, s] + [UsageRow(r, c, id, FeeLeg)]) == ledger + [b] + [s] + [UsageRow(r, c, id, FeeLeg)];
    assert [b, s] + [] == [b, s];
  }

  lemma ChargedBalance(db: DB, r: Request, c: Charge, a: string)
    requires ChargeOk(c) && SettleCredits(db.credits, r, c).Some?
    ensures CreditOf(SettleCredits(db.credits, r, c).value, a)
         == Credit(BalanceAfter(db.credits, r.buyer, c, a), CreditOf(db.credits, a).reserved - if a == r.buyer then r.reserved else 0)
  {
    SettleCreditsEffect(db, r, c, a);
  }

  /** Charged, if the token counts fit their columns and everybody can bear it; otherwise nothing happened. */
  ghost predicate ChargedIf(db: DB, t: Outcome<Request>, id: string, usage: Usage, c: Charge)
    requires id in db.requests
  {
    && (t.1.Ok? <==> TokensFit(usage) && Chargeable(db.credits, db.requests[id], c))
    && (t.1.Ok? ==> t.1.value == db.requests[id].(state := Settled, charge := Some(c)) && Charged(db, t.0, id, c))
    && (t.1.Err? ==> t.0 == db)
  }

  lemma ChargeAnswers(db: DB, id: string, usage: Usage, c: Charge)
    requires Inv(db) && id in db.requests && db.requests[id].state == Reserved && ChargeOk(c)
    ensures ChargedIf(db, ChargeTx(db, id, usage, c), id, usage, c)
  {
    var r := db.requests[id];
    ReservationCovered(db, id);
    ChargeableIff(db, r, c);
    NothingPosted(db, id);
    ChargePosts(db.ledger, r, c, id);
    ChargeShape(db, id, usage, c, SettleCredits(db.credits, r, c));
  }

  lemma NothingPosted(db: DB, id: string)
    requires Inv(db) && id in db.requests && db.requests[id].state == Reserved
    ensures forall leg: Leg | leg.Usage() :: !HasLeg(db.ledger, id, leg)
  {
    assert RequestOk(db.requests[id]);
    forall leg: Leg | leg.Usage() ensures !HasLeg(db.ledger, id, leg) { UnsettledHasNoLegs(db, id, leg); }
  }

  lemma ChargeShape(db: DB, id: string, usage: Usage, c: Charge, credits: Option<map<string, Credit>>)
    requires id in db.requests && ChargeOk(c) && credits == SettleCredits(db.credits, db.requests[id], c)
    requires SettleLegs(db.ledger, db.requests[id], c, id) == Some(db.ledger + ChargeRows(db.requests[id].buyer, c, id))
    ensures var (db', res) := ChargeTx(db, id, usage, c);
      && (res.Ok? <==> TokensFit(usage) && credits.Some?)
      && (res.Ok? ==> res.value == db.requests[id].(state := Settled, charge := Some(c)) && Charged(db, db', id, c))
      && (res.Err? ==> db' == db)
  {
    if credits.Some? {
      forall a ensures CreditOf(credits.value, a) == Credit(BalanceAfter(db.credits, db.requests[id].buyer, c, a),
                         CreditOf(db.credits, a).reserved - if a == db.requests[id].buyer then db.requests[id].reserved else 0)
      {
        ChargedBalance(db, db.requests[id], c, a);
      }
    }
  }

  lemma FeeUnique(cost: int, bps: int, fee: int, fee': int)
    requires fee * 10000 <= cost * bps < (fee + 1) * 10000 && fee' * 10000 <= cost * bps < (fee' + 1) * 10000
    ensures fee == fee'
  {}

  lemma CeilUnique(x: int, c: int, c': int)
    requires IsCeil(x, MILLION, c) && IsCeil(x, MILLION, c')
    ensures c == c'
  {}

  /** cost and fee are what the usage costs at the quote's rates, rounded up once, and the floored fee on it. */
  ghost predicate Prices(q: Quote, usage: Usage, feeBps: int, cost: int, fee: int) {
    && Priceable(usage, q.inRate, q.cachedRate, q.outRate) && cost > 0
    && IsCeil(Exact(usage, q.inRate, q.cachedRate, q.outRate), MILLION, cost)
    && fee * 10000 <= cost * ClampBps(feeBps) < (fee + 1) * 10000
  }

  lemma PricesAre(q: Quote, usage: Usage, feeBps: int, cost: int, fee: int)
    requires Prices(q, usage, feeBps, cost, fee)
    ensures Cost(usage, q.inRate, q.cachedRate, q.outRate) == Ok(cost) && cost <= MAX_COST
    ensures Fee(cost, feeBps) == Ok((fee, cost - fee)) && 0 <= fee <= cost
  {
    CeilUnique(Exact(usage, q.inRate, q.cachedRate, q.outRate), cost, Cost(usage, q.inRate, q.cachedRate, q.outRate).value);
    FeeUnique(cost, ClampBps(feeBps), fee, Fee(cost, feeBps).value.0);
  }

  /** A usage with a price: the served peer's first quote, rounded up once, less the floored fee, charged
      if and only if the buyer and the receivers can bear it; otherwise nothing changes. */
  lemma SettleCharges(db: DB, id: string, peer: string, i: nat, usage: Usage, feeBps: int, cost: int, fee: int)
    requires Inv(db) && id in db.requests && db.requests[id].state == Reserved && FirstQuote(db.requests[id].quotes, peer, i)
    requires Prices(db.requests[id].quotes[i], usage, feeBps, cost, fee)
    ensures ChargedIf(db, SettleTx(db, id, peer, usage, feeBps), id, usage,
                      Charge(peer, db.requests[id].quotes[i].seller, cost, fee, cost - fee))
  {
    var c := Charge(peer, db.requests[id].quotes[i].seller, cost, fee, cost - fee);
    SettleIsCharge(db, id, peer, i, usage, feeBps, c);
    ChargeAnswers(db, id, usage, c);
  }

  lemma SettleIsCharge(db: DB, id: string, peer: string, i: nat, usage: Usage, feeBps: int, c: Charge)
    requires id in db.requests && db.requests[id].state == Reserved && FirstQuote(db.requests[id].quotes, peer, i)
    requires Prices(db.requests[id].quotes[i], usage, feeBps, c.cost, c.fee)
    requires c.peer == peer && c.seller == db.requests[id].quotes[i].seller && c.sellerRaw == c.cost - c.fee
    ensures ChargeOk(c) && SettleTx(db, id, peer, usage, feeBps) == ChargeTx(db, id, usage, c)
  {
    var q := db.requests[id].quotes[i];
    FindQuoteFirst(db.requests[id].quotes, peer, i);
    PricesAre(q, usage, feeBps, c.cost, c.fee);
    SettleReaches(db, id, peer, usage, feeBps, q, c, Cost(usage, q.inRate, q.cachedRate, q.outRate));
  }

  lemma SettleReaches(db: DB, id: string, peer: string, usage: Usage, feeBps: int, q: Quote, c: Charge, cost: Checked)
    requires id in db.requests && db.requests[id].state == Reserved && FindQuote(db.requests[id].quotes, peer) == Some(q)
    requires cost == Cost(usage, q.inRate, q.cachedRate, q.outRate) && cost == Ok(c.cost) && c.cost > 0
    requires Fee(c.cost, feeBps) == Ok((c.fee, c.sellerRaw)) && c.peer == q.peer && c.seller == q.seller
    ensures SettleTx(db, id, peer, usage, feeBps) == ChargeTx(db, id, usage, c)
  {}

  // ---------- the delegation mirror ----------

  predicate WellFormedObservation(k: AllowanceKey, raw: int64, ref: string) {
    k.0 != "" && k.1 != "" && raw >= 0 && ref != ""
  }

  /** The registry took the observation, and the account has a credit row. */
  ghost predicate Registered(db: DB, db': DB, k: AllowanceKey, raw: int64) {
    && db'.allowances == db.allowances[k := Allowance(raw, raw == 0)] && k.0 in db'.credits
    && db'.requests == db.requests && db'.deposits == db.deposits && db'.withdrawals == db.withdrawals
  }

  /** A change that is new is mirrored in full, grant or revocation: one leg with the whole difference, the
      credit moved by it but never below the reservations, and the rest reported as shortfall. A grant that
      leaves int64 drops the credit to the reservations instead. */
  lemma ObservationMirrored(db: DB, k: AllowanceKey, raw: int64, ref: string, prev: int64)
    requires CheckRow(CreditOf(db.credits, k.0)) && WellFormedObservation(k, raw, ref)
    requires prev == (if k in db.allowances then db.allowances[k].raw else 0) && 0 <= prev != raw
    requires !HasLeg(db.ledger, ref, if raw < prev then RevokeLeg else GrantLeg)
    ensures var (db', res) := UpsertTx(db, k, raw, ref);
      var c := CreditOf(db.credits, k.0);
      var sum := c.credit + raw - prev;
      var credit := if sum > MAX_INT64 then c.reserved else Max(c.reserved, sum);
      && Registered(db, db', k, raw) && Shifted(db, db', k.0, credit - c.credit, 0)
      && db'.ledger == db.ledger + [Row(k.0, raw - prev, if raw < prev then RevokeLeg else GrantLeg, k.1, ref)]
      && res.Ok? && res.value.prev == prev && res.value.applied == raw - prev
      && (sum <= MAX_INT64 ==> res.value.shortfall == credit - sum)
  {
    MirrorIs(CreditOf(db.credits, k.0), raw - prev);
  }

  lemma MirrorIs(c: Credit, delta: int)
    requires CheckRow(c) && -MAX_INT64 <= delta <= MAX_INT64
    ensures var sum := c.credit + delta;
      var (credit, shortfall) := MirrorCredit(c, delta);
      && credit == (if sum > MAX_INT64 then c.reserved else Max(c.reserved, sum))
      && (sum <= MAX_INT64 ==> shortfall == credit - sum)
  {
    var sum := c.credit + delta;
    if sum > MAX_INT64 {
      assert sum % TWO_64 == sum;
      assert Wrap(sum) == sum - TWO_64;
    }
  }

  /** An observation that changes nothing, or whose ref already has its leg, reaches the registry only. */
  lemma ObservationReplayed(db: DB, k: AllowanceKey, raw: int64, ref: string, prev: int64)
    requires WellFormedObservation(k, raw, ref) && prev == (if k in db.allowances then db.allowances[k].raw else 0) && prev >= 0
    requires raw == prev || HasLeg(db.ledger, ref, if raw < prev then RevokeLeg else GrantLeg)
    ensures var (db', res) := UpsertTx(db, k, raw, ref);
      && Registered(db, db', k, raw) && Shifted(db, db', k.0, 0, 0) && db'.ledger == db.ledger
      && res == Ok(Mirrored(prev, 0, 0))
  {}

  lemma ObservationRefused(db: DB, k: AllowanceKey, raw: int64, ref: string)
    requires !WellFormedObservation(k, raw, ref)
    ensures UpsertTx(db, k, raw, ref) == (db, Err(if k.0 == "" || k.1 == "" then Conflict else Invalid))
  {}

  // ---------- deposits ----------

  function DepositRow(k: DepositKey, d: Deposit, a: string): Row {
    Row(a, d.amount, DepositLeg, d.fromWallet, "sol:" + k.0 + ":" + Itoa(k.1))
  }

  /** A new, well-formed event is recorded unassigned. */
  lemma DepositRecorded(db: DB, k: DepositKey, fromWallet: string, amount: int)
    ensures var (db', res) := InsertDepositTx(db, k, fromWallet, amount);
      && (k.0 == "" || fromWallet == "" || amount <= 0 ==> db' == db && res == Err(Invalid))
      && (k.0 != "" && fromWallet != "" && amount > 0 && k in db.deposits ==> db' == db && res == Ok(false))
      && (k.0 != "" && fromWallet != "" && amount > 0 && k !in db.deposits ==>
            res == Ok(true) && db' == db.(deposits := db.deposits[k := Deposit(fromWallet, amount, Unassigned)]))
  {}

  /** The account got this much for events that are now as given, with these legs, and nothing else changed. */
  ghost predicate Credited(db: DB, db': DB, a: string, total: int, deposits: map<DepositKey, Deposit>, rows: seq<Row>) {
    && Shifted(db, db', a, total, 0) && db'.deposits == deposits && db'.ledger == db.ledger + rows
    && db' == db.(credits := db'.credits, ledger := db'.ledger, deposits := db'.deposits)
  }

  lemma CreditedTwice(db: DB, mid: DB, db': DB, a: string, t: int, ds: map<DepositKey, Deposit>, rs: seq<Row>,
                      t': int, ds': map<DepositKey, Deposit>, rs': seq<Row>)
    requires Credited(db, mid, a, t, ds, rs) && Credited(mid, db', a, t', ds', rs')
    ensures Credited(db, db', a, t + t', ds', rs + rs')
  {
    assert db.ledger + rs + rs' == db.ledger + (rs + rs');
  }

  lemma CreditDepositIs(db: DB, k: DepositKey, a: string)
    requires Inv(db) && k in db.deposits && db.deposits[k].state == Unassigned
    ensures CreditDeposit(db, k, a).Some? <==> CreditOf(db.credits, a).credit + db.deposits[k].amount <= MAX_INT64
    ensures CreditDeposit(db, k, a).Some? ==>
      var d := db.deposits[k];
      Credited(db, CreditDeposit(db, k, a).value, a, d.amount, db.deposits[k := d.(state := Assigned(a))], [DepositRow(k, d, a)])
  {
    UnassignedHasNoLeg(db, k);
    assert DepositPosted(db, k) && CheckRow(CreditOf(db.credits, a));
  }

  /** An unassigned event is credited to the account that was given, and to no other, if and only if its
      balance can hold the amount. */
  lemma DepositCredited(db: DB, k: DepositKey, a: string)
    requires Inv(db) && a != "" && k in db.deposits && db.deposits[k].state == Unassigned
    ensures var (db', res) := ApplyDepositTx(db, k, a);
      var d := db.deposits[k];
      && (res.Ok? <==> CreditOf(db.credits, a).credit + d.amount <= MAX_INT64)
      && (res.Err? ==> db' == db)
      && (res.Ok? ==>
            && res.value == d.(state := Assigned(a))
            && Credited(db, db', a, d.amount, db.deposits[k := d.(state := Assigned(a))], [DepositRow(k, d, a)]))
  {
    CreditDepositIs(db, k, a);
  }

  /** Everything else about an event changes nothing. */
  lemma DepositLeft(db: DB, k: DepositKey, a: string)
    ensures a == "" ==> ApplyDepositTx(db, k, a) == (db, Err(Invalid))
    ensures a != "" && k !in db.deposits ==> ApplyDepositTx(db, k, a) == (db, Err(NotFound))
    ensures a != "" && k in db.deposits && db.deposits[k].state in [Assigned(a), Skipped] ==> ApplyDepositTx(db, k, a) == (db, Ok(db.deposits[k]))
    ensures a != "" && k in db.deposits && db.deposits[k].state !in [Unassigned, Assigned(a), Skipped] ==> ApplyDepositTx(db, k, a) == (db, Err(Conflict))
  {}

  /** The sum of some events' amounts. */
  function Amounts(deposits: map<DepositKey, Deposit>, picked: seq<DepositKey>): int
    requires forall k | k in picked :: k in deposits
  {
    if picked == [] then 0 else assert picked[0] in picked; deposits[picked[0]].amount + Amounts(deposits, picked[1..])
  }

  function DepositRows(deposits: map<DepositKey, Deposit>, picked: seq<DepositKey>, a: string): seq<Row>
    requires forall k | k in picked :: k in deposits
  {
    if picked == [] then [] else assert picked[0] in picked; [DepositRow(picked[0], deposits[picked[0]], a)] + DepositRows(deposits, picked[1..], a)
  }

  /** Only the events' states differ. */
  lemma {:induction false} SameAmounts(deposits: map<DepositKey, Deposit>, k: DepositKey, d: Deposit, picked: seq<DepositKey>, a: string)
    requires (forall x | x in picked :: x in deposits) && k !in picked
    ensures Amounts(deposits[k := d], picked) == Amounts(deposits, picked)
    ensures DepositRows(deposits[k := d], picked, a) == DepositRows(deposits, picked, a)
  {
    if picked != [] { SameAmounts(deposits, k, d, picked[1..], a); }
  }

  lemma {:induction false} AmountsNonNegative(db: DB, picked: seq<DepositKey>)
    requires DepositsOk(db) && forall k | k in picked :: k in db.deposits
    ensures Amounts(db.deposits, picked) >= 0
  {
    if picked != [] {
      assert DepositPosted(db, picked[0]);
      AmountsNonNegative(db, picked[1..]);
    }
  }

  /** Some open events, each once. */
  predicate Picked(db: DB, picked: seq<DepositKey>) {
    && (forall k | k in picked :: k in db.deposits && db.deposits[k].state == Unassigned)
    && (forall i, j :: 0 <= i < j < |picked| ==> picked[i] != picked[j])
  }

  /** The events with the picked ones assigned. */
  function AllAssigned(deposits: map<DepositKey, Deposit>, picked: seq<DepositKey>, a: string): map<DepositKey, Deposit> {
    map k | k in deposits :: if k in picked then deposits[k].(state := Assigned(a)) else deposits[k]
  }

  /** All picked events went to the account. */
  ghost predicate AllCredited(db: DB, db': DB, picked: seq<DepositKey>, a: string)
    requires forall k | k in picked :: k in db.deposits
  {
    Credited(db, db', a, Amounts(db.deposits, picked), AllAssigned(db.deposits, picked, a), DepositRows(db.deposits, picked, a))
  }

  lemma PickedRest(db: DB, mid: DB, picked: seq<DepositKey>, a: string)
    requires Picked(db, picked) && picked != [] && mid.deposits == db.deposits[picked[0] := db.deposits[picked[0]].(state := Assigned(a))]
    ensures Picked(mid, picked[1..]) && picked[0] !in picked[1..]
  {
    forall x | x in picked[1..] ensures x in mid.deposits && mid.deposits[x].state == Unassigned && x != picked[0] { assert x in picked; }
  }

  lemma CreditedMore(db: DB, mid: DB, db': DB, picked: seq<DepositKey>, k: DepositKey, rest: seq<DepositKey>, a: string)
    requires Picked(db, picked) && picked == [k] + rest && k in db.deposits && k !in rest
    requires var d := db.deposits[k];
      Credited(db, mid, a, d.amount, db.deposits[k := d.(state := Assigned(a))], [DepositRow(k, d, a)])
    requires (forall x | x in rest :: x in mid.deposits) && AllCredited(mid, db', rest, a)
    ensures AllCredited(db, db', picked, a)
  {
    var d := db.deposits[k];
    SameAmounts(db.deposits, k, d.(state := Assigned(a)), rest, a);
    SumsOfCons(db.deposits, k, rest, picked, a);
    AssignedMore(db.deposits, k, rest, picked, a);
    CreditedTwice(db, mid, db', a, d.amount, mid.deposits, [DepositRow(k, d, a)], Amounts(mid.deposits, rest),
                  AllAssigned(mid.deposits, rest, a), DepositRows(mid.deposits, rest, a));
  }

  lemma SumsOfCons(deposits: map<DepositKey, Deposit>, k: DepositKey, rest: seq<DepositKey>, picked: seq<DepositKey>, a: string)
    requires k in deposits && (forall x | x in rest :: x in deposits) && picked == [k] + rest
    ensures forall x | x in picked :: x in deposits
    ensures Amounts(deposits, picked) == deposits[k].amount + Amounts(deposits, rest)
    ensures DepositRows(deposits, picked, a) == [DepositRow(k, deposits[k], a)] + DepositRows(deposits, rest, a)
  {
    assert picked[0] == k && picked[1..] == rest;
  }

  lemma AssignedMore(deposits: map<DepositKey, Deposit>, k: DepositKey, rest: seq<DepositKey>, picked: seq<DepositKey>, a: string)
    requires k in deposits && picked == [k] + rest && k !in rest
    ensures AllAssigned(deposits[k := deposits[k].(state := Assigned(a))], rest, a) == AllAssigned(deposits, picked, a)
  {}

  lemma {:induction false} CreditAllIs(db: DB, picked: seq<DepositKey>, a: string)
    requires Inv(db) && Picked(db, picked)
    ensures CreditAll(db, picked, a).Some? <==> CreditOf(db.credits, a).credit + Amounts(db.deposits, picked) <= MAX_INT64
    ensures CreditAll(db, picked, a).Some? ==> AllCredited(db, CreditAll(db, picked, a).value, picked, a)
    decreases |picked|
  {
    assert CheckRow(CreditOf(db.credits, a));
    if picked == [] {
      assert db.ledger + [] == db.ledger;
    } else {
      var k := picked[0];
      assert k in picked && picked == [k] + picked[1..];
      CreditDepositIs(db, k, a);
      AmountsNonNegative(db, picked[1..]);
      if CreditDeposit(db, k, a).Some? {
        var mid := CreditDeposit(db, k, a).value;
        CreditDepositKeeps(db, k, a);
        PickedRest(db, mid, picked, a);
        CreditAllIs(mid, picked[1..], a);
        SameAmounts(db.deposits, k, db.deposits[k].(state := Assigned(a)), picked[1..], a);
        if CreditAll(mid, picked[1..], a).Some? { CreditedMore(db, mid, CreditAll(mid, picked[1..], a).value, picked, k, picked[1..], a); }
      }
    }
  }

  /** A wallet's open events are credited to the account that was given, all of them if its balance can
      hold the sum and none otherwise. */
  lemma WalletCredited(db: DB, wallet: string, a: string, picked: seq<DepositKey>)
    requires Inv(db) && wallet != "" && a != "" && WalletSelects(db, wallet, picked)
    ensures var (db', res) := ReconcileDepositsTx(db, wallet, a, picked);
      && (res.Ok? <==> CreditOf(db.credits, a).credit + Amounts(db.deposits, picked) <= MAX_INT64)
      && (res.Err? ==> db' == db)
      && (res.Ok? ==> res.value == |picked| && AllCredited(db, db', picked, a))
  {
    assert CheckRow(CreditOf(db.credits, a));
    if picked == [] {
      NoneCredited(db, a);
    } else {
      LockAccountKeeps(db, a);
      var locked := db.(credits := ApplyDelta(db.credits, a, 0, 0).value);
      CreditAllIs(locked, picked, a);
      if CreditAll(locked, picked, a).Some? { LockedCredited(db, locked, CreditAll(locked, picked, a).value, picked, a); }
    }
  }

  /** Creating the account's row first makes no difference. */
  lemma LockedCredited(db: DB, locked: DB, db': DB, picked: seq<DepositKey>, a: string)
    requires (forall k | k in picked :: k in db.deposits) && locked == db.(credits := locked.credits) && Shifted(db, locked, a, 0, 0)
    requires AllCredited(locked, db', picked, a)
    ensures AllCredited(db, db', picked, a)
  {}

  lemma NoneCredited(db: DB, a: string)
    ensures AllCredited(db, db, [], a)
  {
    assert db.ledger + [] == db.ledger;
  }

  lemma WalletRefused(db: DB, wallet: string, a: string, picked: seq<DepositKey>)
    requires (wallet == "" || a == "") && forall k | k in picked :: k in db.deposits
    ensures ReconcileDepositsTx(db, wallet, a, picked) == (db, Err(Invalid))
  {}

  // ---------- withdrawals ----------

  lemma NewWithdrawalHasNoLeg(db: DB)
    requires WithdrawalsOk(db)
    ensures !HasLeg(db.ledger, WithdrawalRef(|db.withdrawals| + 1), WithdrawLeg)
  {
    forall i | 0 <= i < |db.ledger| && db.ledger[i].leg == WithdrawLeg ensures db.ledger[i].ref != WithdrawalRef(|db.withdrawals| + 1) {
      assert WithdrawalRowOk(db, db.ledger[i]);
      var x :| WithdrawalRow(db, db.ledger[i], x);
      if WithdrawalRef(x) == WithdrawalRef(|db.withdrawals| + 1) { WithdrawalRefInjective(x, |db.withdrawals| + 1); }
    }
  }

  /** A withdrawal under a new key takes its amount from the account at once, if and only if what is left
      still covers the reservations. */
  lemma WithdrawalTaken(db: DB, a: string, key: string, destination: string, amount: int)
    requires Inv(db) && a != "" && key != "" && destination != "" && amount > 0
    requires forall i :: 0 <= i < |db.withdrawals| ==> db.withdrawals[i].key != key
    ensures var (db', res) := ReserveWithdrawalTx(db, a, key, destination, amount);
      var id := |db.withdrawals| + 1;
      && (res.Ok? <==> amount <= CreditOf(db.credits, a).credit - CreditOf(db.credits, a).reserved)
      && (res.Err? ==> db' == db && res.error == InsufficientCredit)
      && (res.Ok? ==>
            && res.value == id && Shifted(db, db', a, -amount, 0)
            && db'.ledger == db.ledger + [Row(a, -amount, WithdrawLeg, destination, "withdrawal:" + Itoa(id))]
            && db'.withdrawals == db.withdrawals + [Withdrawal(a, key, destination, amount, WReserved)]
            && db' == db.(credits := db'.credits, ledger := db'.ledger, withdrawals := db'.withdrawals))
  {
    NewWithdrawalHasNoLeg(db);
    assert CheckRow(CreditOf(db.credits, a));
    assert FindKey(db.withdrawals, key).None?;
  }

  /** Restoring an open withdrawal gives its amount back to its account, once, if the balance can hold it. */
  lemma WithdrawalGivenBack(db: DB, id: nat)
    requires Inv(db) && 1 <= id <= |db.withdrawals|
    ensures var (db', res) := RestoreWithdrawalTx(db, id);
      var w := db.withdrawals[id - 1];
      && (w.state in [WFinalized, WFailed, WRestored] ==> db' == db && res == Ok(w))
      && (w.state in [WReserved, WSigned, WBroadcast] ==>
            && (res.Ok? <==> CreditOf(db.credits, w.account).credit + w.amount <= MAX_INT64)
            && (res.Err? ==> db' == db)
            && (res.Ok? ==>
                  && res.value == w.(state := WRestored) && Shifted(db, db', w.account, w.amount, 0)
                  && db'.ledger == db.ledger + [Row(w.account, w.amount, RestoreLeg, w.destination, "withdrawal:" + Itoa(id))]
                  && db'.withdrawals == db.withdrawals[id - 1 := w.(state := WRestored)]
                  && db' == db.(credits := db'.credits, ledger := db'.ledger, withdrawals := db'.withdrawals)))
  {
    var w := db.withdrawals[id - 1];
    assert WithdrawalPosted(db, id - 1) && CheckRow(CreditOf(db.credits, w.account));
    if w.state != WRestored { OpenHasNoRestore(db, id); }
  }

  /** The moves that touch no money. */
  const MARKS := {(WReserved, WSigned), (WSigned, WBroadcast), (WSigned, WFinalized), (WBroadcast, WFinalized),
                  (WReserved, WFailed), (WSigned, WFailed), (WBroadcast, WFailed)}

  lemma WithdrawalMarked(db: DB, id: nat, to: WithdrawalState)
    requires 1 <= id <= |db.withdrawals|
    ensures var w := db.withdrawals[id - 1];
      MarkWithdrawalTx(db, id, to)
        == if (w.state, to) in MARKS then (db.(withdrawals := db.withdrawals[id - 1 := w.(state := to)]), Ok(w.(state := to))) else (db, Ok(w))
  {}
}

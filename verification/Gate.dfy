/** What the billing gate admits and what a settlement moves, said without the transactions' own steps. */
module Gate {
  import opened Common
  import opened Billing
  import opened Sums
  import opened Tables
  import opened Transactions
  import opened Projection

  // ---------- admission ----------

  predicate WellFormed(q: Reservation) {
    q.id != "" && q.buyer != "" && q.quotes != [] && QuotesOk(q.quotes)
  }

  /** What the account may still reserve: unreserved credit, capped by its active allowances if it has any. */
  ghost function Spendable(db: DB, a: string): int {
    var free := CreditOf(db.credits, a).credit - CreditOf(db.credits, a).reserved;
    if AllowanceSum(db.allowances, a) > 0 then Min(free, AllowanceSum(db.allowances, a)) else free
  }

  ghost predicate Admits(db: DB, q: Reservation) {
    && WellFormed(q) && q.id !in db.requests && AllowanceSum(db.allowances, q.buyer) <= MAX_INT64
    && ReserveOf(q.quotes, q.inputCeil, q.outputCeil).Ok?
    && ReserveOf(q.quotes, q.inputCeil, q.outputCeil).value <= Spendable(db, q.buyer)
  }

  ghost predicate Holds(db: DB, db': DB, q: Reservation, amount: int) {
    && (forall a :: CreditOf(db'.credits, a).credit == CreditOf(db.credits, a).credit)
    && (forall a :: CreditOf(db'.credits, a).reserved == CreditOf(db.credits, a).reserved + if a == q.buyer then amount else 0)
    && db'.requests == db.requests[q.id := Request(q.buyer, q.quotes, amount, q.at, Reserved, None)]
    && db' == db.(credits := db'.credits, requests := db'.requests)
  }

  /** A reservation is accepted exactly when the request is well formed and new and its worst case is
      computable and spendable; it then reserves exactly that, and a refusal changes nothing. */
  lemma ReserveAdmitsIff(db: DB, q: Reservation)
    requires Balanced(db)
    ensures ReserveTx(db, q).1.Ok? <==> Admits(db, q)
    ensures Admits(db, q) ==> Holds(db, ReserveTx(db, q).0, q, ReserveOf(q.quotes, q.inputCeil, q.outputCeil).value)
    ensures !Admits(db, q) ==> ReserveTx(db, q).0 == db
  {
    assert CheckRow(CreditOf(db.credits, q.buyer));
  }

  /** Why a reservation is refused, the first reason first. */
  lemma ReserveRefused(db: DB, q: Reservation)
    requires Balanced(db) && !Admits(db, q)
    ensures var amount := ReserveOf(q.quotes, q.inputCeil, q.outputCeil);
      ReserveTx(db, q)
        == (db, Err(if !WellFormed(q) then Conflict
                    else if amount.Err? then Arithmetic(amount.error)
                    else if AllowanceSum(db.allowances, q.buyer) > MAX_INT64 then OutOfRange
                    else if amount.value > Spendable(db, q.buyer) then InsufficientCredit
                    else Conflict))
  {
    assert CheckRow(CreditOf(db.credits, q.buyer));
  }

  // ---------- the allowance and the open reservations ----------

  /** The tables after a sequence of reservation attempts, by any buyers. */
  ghost function Reserving(db: DB, qs: seq<Reservation>): DB {
    if qs == [] then db else ReserveTx(Reserving(db, qs[..|qs| - 1]), qs[|qs| - 1]).0
  }

  ghost function OpenAfter(db: DB, qs: seq<Reservation>, a: string): int {
    CreditOf(Reserving(db, qs).credits, a).reserved
  }

  /** No sequence of reservations takes the account's open total over its active allowances. */
  ghost predicate AllowanceBoundsOpen(db: DB, a: string) {
    forall qs :: OpenAfter(db, qs, a) <= AllowanceSum(db.allowances, a)
  }

  lemma ReserveFrame(db: DB, q: Reservation, a: string)
    requires CheckRow(CreditOf(db.credits, a))
    ensures var db' := ReserveTx(db, q).0;
      && CheckRow(CreditOf(db'.credits, a)) && CreditOf(db'.credits, a).credit == CreditOf(db.credits, a).credit
      && db'.allowances == db.allowances
  {}

  lemma {:induction false} ReservingFrame(db: DB, qs: seq<Reservation>, a: string)
    requires CheckRow(CreditOf(db.credits, a))
    ensures CheckRow(CreditOf(Reserving(db, qs).credits, a))
    ensures CreditOf(Reserving(db, qs).credits, a).credit == CreditOf(db.credits, a).credit
    ensures Reserving(db, qs).allowances == db.allowances
  {
    if qs != [] {
      ReservingFrame(db, qs[..|qs| - 1], a);
      ReserveFrame(Reserving(db, qs[..|qs| - 1]), qs[|qs| - 1], a);
    }
  }

  lemma {:induction false} LongerThan(keys: set<string>) returns (n: nat)
    ensures forall k | k in keys :: |k| < n
  {
    n := 0;
    if keys != {} {
      var k :| k in keys;
      var m := LongerThan(keys - {k});
      n := Max(m, |k| + 1);
      forall x | x in keys ensures |x| < n { assert x == k || x in keys - {k}; }
    }
  }

  lemma FreshId(keys: set<string>) returns (id: string)
    ensures id != "" && id !in keys
  {
    var n := LongerThan(keys);
    id := seq(n + 1, _ => 'x');
  }

  /** A whole number of units costs that number. */
  lemma CeilOfWhole(n: nat, w: Checked)
    requires w.Ok? && IsCeil(n * MILLION, MILLION, w.value)
    ensures w == Ok(n)
  {}

  const UNIT := Quote("p", "s", 1_000_000, 0, 0)

  lemma UnitReserved()
    ensures ReserveOf([UNIT], 1, 0) == Ok(1)
  {
    assert [UNIT][..0] == [];
    assert ReserveOf([UNIT][..0], 1, 0) == Ok(0);
    CeilOfWhole(1, WorstCaseCost(UNIT, 1, 0));
  }

  /** While some credit is free, one unit more can be reserved. */
  lemma ReserveUnit(db: DB, a: string) returns (q: Reservation)
    requires a != "" && CheckRow(CreditOf(db.credits, a)) && AllowanceSum(db.allowances, a) <= MAX_INT64
    requires CreditOf(db.credits, a).reserved < CreditOf(db.credits, a).credit
    ensures CreditOf(ReserveTx(db, q).0.credits, a).reserved == CreditOf(db.credits, a).reserved + 1
  {
    var id := FreshId(db.requests.Keys);
    q := Reservation(id, a, [UNIT], 1, 0, 0);
    UnitReserved();
  }

  lemma {:induction false} ReserveUnits(db: DB, a: string, n: nat) returns (qs: seq<Reservation>)
    requires a != "" && CheckRow(CreditOf(db.credits, a)) && AllowanceSum(db.allowances, a) <= MAX_INT64
    requires CreditOf(db.credits, a).reserved + n <= CreditOf(db.credits, a).credit
    ensures OpenAfter(db, qs, a) == CreditOf(db.credits, a).reserved + n
  {
    qs := [];
    if n > 0 {
      var init := ReserveUnits(db, a, n - 1);
      ReservingFrame(db, init, a);
      var q := ReserveUnit(Reserving(db, init), a);
      qs := init + [q];
      assert qs[..|qs| - 1] == init;
    }
  }

  /** "Reservations can never overspend the delegation" is true of exactly the accounts whose whole
      credit is within their active allowances: the gate bounds the open total by the credit and
      nothing else. */
  lemma AllowanceBoundsOpenIff(db: DB, a: string)
    requires a != "" && CheckRow(CreditOf(db.credits, a))
    ensures AllowanceBoundsOpen(db, a) <==> CreditOf(db.credits, a).credit <= AllowanceSum(db.allowances, a)
  {
    var c, s := CreditOf(db.credits, a), AllowanceSum(db.allowances, a);
    if c.credit <= s {
      forall qs ensures OpenAfter(db, qs, a) <= s { ReservingFrame(db, qs, a); }
    } else if c.reserved > s {
      assert OpenAfter(db, [], a) > s;
    } else {
      var qs := ReserveUnits(db, a, s + 1 - c.reserved);
      assert OpenAfter(db, qs, a) > s;
    }
  }

  const SHORT := EMPTY_DB.(credits := map["b" := Credit(10, 0)], allowances := map[("b", "d") := Allowance(4, false)])

  const THREE := Reservation("r1", "b", [Quote("p", "s", 1_000_000, 0, 0)], 3, 0, 0)

  lemma ShortAllowance()
    ensures AllowanceSum(SHORT.allowances, "b") == 4
  {
    var active := ActiveOf(SHORT.allowances, "b");
    assert active == map[("b", "d") := 4];
    MapSumPick(active, ("b", "d"));
    assert active - {("b", "d")} == map[];
  }

  lemma ThreeReserved()
    ensures ReserveOf(THREE.quotes, 3, 0) == Ok(3)
  {
    var q := Quote("p", "s", 1_000_000, 0, 0);
    assert THREE.quotes == [q] && [q][..0] == [];
    assert ReserveOf([q][..0], 3, 0) == Ok(0);
    var w := WorstCaseCost(q, 3, 0);
    assert Worst(q, 3, 0) == 3_000_000;
    assert w.Ok? && IsCeil(3_000_000, MILLION, w.value);
  }

  lemma AdmittedOnce(db: DB, q: Reservation)
    requires db.allowances == SHORT.allowances && db.credits.Keys == {"b"} && db.credits["b"].credit == 10
    requires 0 <= db.credits["b"].reserved <= 3 && q == THREE.(id := q.id) && q.id != "" && q.id !in db.requests
    ensures var db' := ReserveTx(db, q).0;
      && db'.allowances == db.allowances && db'.credits == map["b" := Credit(10, db.credits["b"].reserved + 3)]
      && db'.requests.Keys == db.requests.Keys + {q.id}
  {
    ShortAllowance();
    ThreeReserved();
  }

  /** Four units of allowance, two reservations of three. */
  lemma OpenExceedsAllowance()
    ensures var once := ReserveTx(SHORT, THREE).0;
      var twice := ReserveTx(once, THREE.(id := "r2")).0;
      AllowanceSum(twice.allowances, "b") == 4 && CreditOf(twice.credits, "b").reserved == 6
  {
    ShortAllowance();
    AdmittedOnce(SHORT, THREE);
    AdmittedOnce(ReserveTx(SHORT, THREE).0, THREE.(id := "r2"));
  }

  // ---------- settlement ----------

  /** The money a charge moves, seen from any account, and nothing else in the balance table. */
  ghost predicate Moved(db: DB, db': DB, r: Request, c: Charge) {
    && (forall a :: CreditOf(db'.credits, a).credit == CreditOf(db.credits, a).credit
          - (if a == r.buyer then c.cost else 0) + (if a == c.seller then c.sellerRaw else 0) + (if a == TREASURY then c.fee else 0))
    && (forall a :: CreditOf(db'.credits, a).reserved == CreditOf(db.credits, a).reserved - if a == r.buyer then r.reserved else 0)
  }

  /** The charge is the served peer's own frozen quote, rounded up once, split by the fee. */
  ghost predicate FairCharge(r: Request, peer: string, usage: Usage, feeBps: int, c: Charge) {
    && c.peer == peer && c.cost > 0 && c.cost == c.fee + c.sellerRaw
    && c.fee * 10000 <= c.cost * ClampBps(feeBps) < (c.fee + 1) * 10000
    && exists q | q in r.quotes :: QuoteCharges(q, peer, usage, c)
  }

  ghost predicate QuoteCharges(q: Quote, peer: string, usage: Usage, c: Charge) {
    q.peer == peer && c.seller == q.seller && IsCeil(Exact(usage, q.inRate, q.cachedRate, q.outRate), MILLION, c.cost)
  }

  /** The charge a settlement makes, or the release. */
  ghost predicate SettledFairly(db: DB, db': DB, id: string, peer: string, usage: Usage, feeBps: int, r': Request)
    requires id in db.requests
  {
    var r := db.requests[id];
    && db'.requests == db.requests[id := r']
    && (if r'.state == Settled then
          r'.charge.Some? && FairCharge(r, peer, usage, feeBps, r'.charge.value) && Moved(db, db', r, r'.charge.value)
        else
          r' == r.(state := Released) && db'.ledger == db.ledger && Moved(db, db', r, Charge("", "", 0, 0, 0)))
  }

  lemma ReleasesFairly(db: DB, id: string, peer: string, usage: Usage, feeBps: int)
    requires Inv(db) && id in db.requests && db.requests[id].state == Reserved
    ensures var (db', res) := ReleaseOutcome(db, id); res.Ok? && SettledFairly(db, db', id, peer, usage, feeBps, res.value)
  {
    ReleaseMoves(db, id);
  }

  lemma ChargesFairly(db: DB, id: string, peer: string, usage: Usage, feeBps: int, q: Quote, c: Charge)
    requires id in db.requests && ChargeTx(db, id, usage, c).1.Ok? && ChargeOk(c)
    requires FindQuote(db.requests[id].quotes, peer) == Some(q) && c.peer == q.peer && c.seller == q.seller
    requires Cost(usage, q.inRate, q.cachedRate, q.outRate) == Ok(c.cost) && Fee(c.cost, feeBps) == Ok((c.fee, c.sellerRaw))
    ensures var (db', res) := ChargeTx(db, id, usage, c); SettledFairly(db, db', id, peer, usage, feeBps, res.value)
  {
    assert QuoteCharges(q, peer, usage, c);
    ChargeMoves(db, id, usage, c);
  }

  /** Settling an open request either charges the served peer's quote and moves exactly that, or gives
      the reservation back and charges nothing: the peer was not quoted or the usage costs nothing. */
  lemma SettleMoves(db: DB, id: string, peer: string, usage: Usage, feeBps: int)
    requires Inv(db) && id in db.requests && db.requests[id].state == Reserved
    requires SettleTx(db, id, peer, usage, feeBps).1.Ok?
    ensures var (db', res) := SettleTx(db, id, peer, usage, feeBps);
      SettledFairly(db, db', id, peer, usage, feeBps, res.value)
  {
    ReleasesFairly(db, id, peer, usage, feeBps);
    var found := FindQuote(db.requests[id].quotes, peer);
    if found.Some? {
      var q := found.value;
      var cost := Cost(usage, q.inRate, q.cachedRate, q.outRate);
      if cost.Ok? && cost.value > 0 {
        var split := Fee(cost.value, feeBps).value;
        ChargesFairly(db, id, peer, usage, feeBps, q, Charge(q.peer, q.seller, cost.value, split.0, split.1));
      }
    }
  }

  lemma ChargeMoves(db: DB, id: string, usage: Usage, c: Charge)
    requires id in db.requests && ChargeOk(c) && ChargeTx(db, id, usage, c).1.Ok?
    ensures Moved(db, ChargeTx(db, id, usage, c).0, db.requests[id], c)
  {
    var r := db.requests[id];
    forall a ensures var credits := SettleCredits(db.credits, r, c).value;
        && CreditOf(credits, a).credit == CreditOf(db.credits, a).credit
             - (if r.buyer == a then c.cost else 0) + (if c.seller == a then c.sellerRaw else 0) + (if TREASURY == a then c.fee else 0)
        && CreditOf(credits, a).reserved == CreditOf(db.credits, a).reserved - (if r.buyer == a then r.reserved else 0)
    {
      SettleCreditsEffect(db, r, c, a);
    }
  }

  lemma ReleaseMoves(db: DB, id: string)
    requires Balanced(db) && RequestsOk(db) && id in db.requests && db.requests[id].state == Reserved
    ensures ReleaseLocked(db, id).Some?
    ensures Moved(db, ReleaseLocked(db, id).value, db.requests[id], Charge("", "", 0, 0, 0))
  {
    ReservationCovered(db, id);
    assert RequestOk(db.requests[id]);
  }

  /** A sweep releases exactly the stale open requests it was handed, and posts nothing. */
  lemma SweepReleases(db: DB, before: int, limit: int, picked: seq<string>)
    requires Inv(db) && SweepSelects(db, before, limit, picked)
    ensures var (db', res) := SweepTx(db, picked);
      && res == Ok(picked) && db'.ledger == db.ledger
      && (forall id | id in db.requests ::
            id in db'.requests && db'.requests[id] == if id in picked then db.requests[id].(state := Released) else db.requests[id])
      && (forall id | id in picked :: db.requests[id].state == Reserved && db.requests[id].reservedAt < before)
  {
    ReleaseAllKeeps(db, picked);
    ReleaseAllEffect(db, picked);
  }
}

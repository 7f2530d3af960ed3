/** Every transaction that writes account_credits, credit_ledger or billing_requests, as a
    function from the tables before to the tables after and the call's result. An error result
    leaves the tables unchanged: the transaction rolled back. */
module Transactions {
  import opened Common
  import opened Billing
  import opened Sums
  import opened Tables

  type Outcome<T> = (DB, Result<T, StoreError>)

  // ---------- reserve, settle, release, sweep ----------

  datatype Reservation = Reservation(id: string, buyer: string, quotes: seq<Quote>,
                                     inputCeil: int64, outputCeil: int64, at: int)

  predicate QuoteOk(q: Quote) {
    q.peer != "" && q.seller != "" && q.inRate >= 0 && q.cachedRate >= 0 && q.outRate >= 0
  }

  predicate QuotesOk(quotes: seq<Quote>) {
    forall q | q in quotes :: QuoteOk(q)
  }

  ghost function ReserveTx(db: DB, q: Reservation): Outcome<Credit> {
    if q.id == "" || q.buyer == "" || q.quotes == [] || !QuotesOk(q.quotes) then (db, Err(Conflict))
    else
      match ReserveOf(q.quotes, q.inputCeil, q.outputCeil)
      case Err(e) => (db, Err(Arithmetic(e)))
      case Ok(reserve) =>
        var c := CreditOf(db.credits, q.buyer);
        var allowSum := AllowanceSum(db.allowances, q.buyer);
        var available := if 0 < allowSum < c.credit - c.reserved then allowSum else c.credit - c.reserved;
        var c' := Credit(c.credit, c.reserved + reserve);
        if allowSum > MAX_INT64 then (db, Err(OutOfRange))
        else if available < reserve then (db, Err(InsufficientCredit))
        else if q.id in db.requests then (db, Err(Conflict))
        else if reserve > 0 && !CheckRow(c') then (db, Err(CheckViolation))
        else (db.(credits := db.credits[q.buyer := c'],
                  requests := db.requests[q.id := Request(q.buyer, q.quotes, reserve, q.at, Reserved, None)]),
              Ok(c'))
  }

  /** releaseLocked: give the reservation back and finalize as released. None when the UPDATE
      violates a CHECK. An UPDATE of a missing credit row touches nothing. */
  function ReleaseLocked(db: DB, id: string): Option<DB>
    requires id in db.requests
  {
    var r := db.requests[id];
    var requests := db.requests[id := r.(state := Released)];
    if r.reserved > 0 && r.buyer in db.credits then
      match ApplyDelta(db.credits, r.buyer, 0, -r.reserved)
      case None => None
      case Some(credits) => Some(db.(credits := credits, requests := requests))
    else Some(db.(requests := requests))
  }

  function ReleaseOutcome(db: DB, id: string): Outcome<Request>
    requires id in db.requests
  {
    match ReleaseLocked(db, id)
    case None => (db, Err(CheckViolation))
    case Some(db') => (db', Ok(db.requests[id].(state := Released)))
  }

  function ReleaseTx(db: DB, id: string): Outcome<Request> {
    if id !in db.requests then (db, Err(NotFound))
    else if db.requests[id].state != Reserved then (db, Ok(db.requests[id]))
    else ReleaseOutcome(db, id)
  }

  /** The token columns are 32-bit. */
  predicate TokensFit(u: Usage) {
    u.input <= MAX_INT32 && u.cached <= MAX_INT32 && u.output <= MAX_INT32
  }

  /** The three balance updates of a settlement, in order. */
  function SettleCredits(credits: map<string, Credit>, r: Request, c: Charge): Option<map<string, Credit>> {
    match ApplyDelta(credits, r.buyer, -c.cost, -r.reserved)
    case None => None
    case Some(c1) =>
      match ApplyDelta(c1, c.seller, c.sellerRaw, 0)
      case None => None
      case Some(c2) => if c.fee > 0 then ApplyDelta(c2, TREASURY, c.fee, 0) else Some(c2)
  }

  function UsageRow(r: Request, c: Charge, id: string, leg: Leg): Row
    requires leg.Usage()
  {
    match leg
    case BuyerLeg => Row(r.buyer, -c.cost, BuyerLeg, c.peer, id)
    case SellerLeg => Row(c.seller, c.sellerRaw, SellerLeg, r.buyer, id)
    case FeeLeg => Row(TREASURY, c.fee, FeeLeg, r.buyer, id)
  }

  function SettleLegs(ledger: seq<Row>, r: Request, c: Charge, id: string): Option<seq<Row>> {
    match InsertLeg(ledger, UsageRow(r, c, id, BuyerLeg))
    case None => None
    case Some(l1) =>
      match InsertLeg(l1, UsageRow(r, c, id, SellerLeg))
      case None => None
      case Some(l2) => if c.fee > 0 then InsertLeg(l2, UsageRow(r, c, id, FeeLeg)) else Some(l2)
  }

  function SettleTx(db: DB, id: string, peer: string, usage: Usage, feeBps: int): Outcome<Request> {
    if id !in db.requests then (db, Err(NotFound))
    else
      var r := db.requests[id];
      if r.state != Reserved then (db, Ok(r))
      else
        match FindQuote(r.quotes, peer)
        case None => ReleaseOutcome(db, id)
        case Some(q) =>
          match Cost(usage, q.inRate, q.cachedRate, q.outRate)
          case Err(e) => (db, Err(Arithmetic(e)))
          case Ok(cost) =>
            if cost == 0 then ReleaseOutcome(db, id)
            else
              match Fee(cost, feeBps)
              case Err(e) => (db, Err(Arithmetic(e)))
              case Ok(split) => ChargeTx(db, id, usage, Charge(q.peer, q.seller, cost, split.0, split.1))
  }

  function ChargeTx(db: DB, id: string, usage: Usage, c: Charge): Outcome<Request>
    requires id in db.requests
  {
    var r := db.requests[id];
    match SettleCredits(db.credits, r, c)
    case None => (db, Err(CheckViolation))
    case Some(credits) =>
      if !TokensFit(usage) then (db, Err(OutOfRange))
      else
        match SettleLegs(db.ledger, r, c, id)
        case None => (db, Err(Conflict))
        case Some(ledger) =>
          var r' := r.(state := Settled, charge := Some(c));
          (db.(credits := credits, ledger := ledger, requests := db.requests[id := r']), Ok(r'))
  }

  /** The rows SKIP LOCKED may hand one sweep: distinct open requests older than before, oldest
      first, at most limit of them. */
  ghost predicate SweepSelects(db: DB, before: int, limit: int, picked: seq<string>) {
    && |picked| <= (if limit <= 0 || limit > 1000 then 100 else limit)
    && (forall i :: 0 <= i < |picked| ==>
          picked[i] in db.requests && db.requests[picked[i]].state == Reserved && db.requests[picked[i]].reservedAt < before)
    && (forall i, j :: 0 <= i < j < |picked| ==>
          picked[i] != picked[j] && db.requests[picked[i]].reservedAt <= db.requests[picked[j]].reservedAt)
  }

  function ReleaseAll(db: DB, picked: seq<string>): Option<DB>
    requires forall id | id in picked :: id in db.requests
    decreases |picked|
  {
    if picked == [] then Some(db)
    else
      match ReleaseLocked(db, picked[0])
      case None => None
      case Some(db') => ReleaseAll(db', picked[1..])
  }

  function SweepTx(db: DB, picked: seq<string>): Outcome<seq<string>>
    requires forall id | id in picked :: id in db.requests
  {
    match ReleaseAll(db, picked)
    case None => (db, Err(CheckViolation))
    case Some(db') => (db', Ok(picked))
  }

  // ---------- the delegation mirror ----------

  datatype Mirrored = Mirrored(prev: int64, applied: int64, shortfall: int64)

  function PrevAllowance(db: DB, k: AllowanceKey): int64 {
    if k in db.allowances then db.allowances[k].raw else 0
  }

  function MirrorLeg(delta: int): Leg {
    if delta < 0 then RevokeLeg else GrantLeg
  }

  /** credit + delta is a plain Go addition and can wrap. */
  function MirrorCredit(c: Credit, delta: int): (int, int64) {
    var newCredit := Wrap(c.credit + delta);
    if newCredit < c.reserved then (c.reserved, Wrap(c.reserved - newCredit)) else (newCredit, 0)
  }

  function UpsertTx(db: DB, k: AllowanceKey, raw: int64, ref: string): Outcome<Mirrored> {
    if k.0 == "" || k.1 == "" then (db, Err(Conflict))
    else if raw < 0 || ref == "" then (db, Err(Invalid))
    else
      var c := CreditOf(db.credits, k.0);
      var prev := PrevAllowance(db, k);
      var delta := Wrap(raw - prev);
      var reg := db.(credits := db.credits[k.0 := c], allowances := db.allowances[k := Allowance(raw, raw == 0)]);
      if delta == 0 then (reg, Ok(Mirrored(prev, 0, 0)))
      else
        match InsertLeg(db.ledger, Row(k.0, delta, MirrorLeg(delta), k.1, ref))
        case None => (reg, Ok(Mirrored(prev, 0, 0)))
        case Some(ledger) =>
          var m := MirrorCredit(c, delta);
          if !CheckRow(Credit(m.0, c.reserved)) then (db, Err(CheckViolation))
          else (reg.(ledger := ledger, credits := db.credits[k.0 := Credit(m.0, c.reserved)]),
                Ok(Mirrored(prev, delta, m.1)))
  }

  // ---------- deposits ----------

  function InsertDepositTx(db: DB, k: DepositKey, fromWallet: string, amount: int): Outcome<bool> {
    if k.0 == "" || amount <= 0 || fromWallet == "" then (db, Err(Invalid))
    else if k in db.deposits then (db, Ok(false))
    else (db.(deposits := db.deposits[k := Deposit(fromWallet, amount, Unassigned)]), Ok(true))
  }

  /** creditDepositLocked. A duplicate ledger leg aborts the database transaction: the code goes on to
      mark the event assigned, but that statement fails too and everything rolls back. */
  function CreditDeposit(db: DB, k: DepositKey, a: string): Option<DB>
    requires k in db.deposits
  {
    var d := db.deposits[k];
    match ApplyDelta(db.credits, a, d.amount, 0)
    case None => None
    case Some(credits) =>
      match InsertLeg(db.ledger, Row(a, d.amount, DepositLeg, d.fromWallet, DepositRef(k)))
      case None => None
      case Some(ledger) => Some(db.(credits := credits, ledger := ledger, deposits := db.deposits[k := d.(state := Assigned(a))]))
  }

  function ApplyDepositTx(db: DB, k: DepositKey, a: string): Outcome<Deposit> {
    if a == "" then (db, Err(Invalid))
    else if k !in db.deposits then (db, Err(NotFound))
    else
      match db.deposits[k].state
      case Assigned(b) => if a == b then (db, Ok(db.deposits[k])) else (db, Err(Conflict))
      case Skipped => (db, Ok(db.deposits[k]))
      case Unassigned =>
        match CreditDeposit(db, k, a)
        case None => (db, Err(CheckViolation))
        case Some(db') => (db', Ok(db'.deposits[k]))
  }

  /** The rows one wallet reconciliation selects: every unassigned event of the wallet, once. */
  ghost predicate WalletSelects(db: DB, wallet: string, picked: seq<DepositKey>) {
    && (forall k :: k in picked <==> k in db.deposits && db.deposits[k].state == Unassigned && db.deposits[k].fromWallet == wallet)
    && (forall i, j :: 0 <= i < j < |picked| ==> picked[i] != picked[j])
  }

  function CreditAll(db: DB, picked: seq<DepositKey>, a: string): Option<DB>
    requires forall k | k in picked :: k in db.deposits
    decreases |picked|
  {
    if picked == [] then Some(db)
    else
      match CreditDeposit(db, picked[0], a)
      case None => None
      case Some(db') => CreditAll(db', picked[1..], a)
  }

  function ReconcileDepositsTx(db: DB, wallet: string, a: string, picked: seq<DepositKey>): Outcome<nat>
    requires forall k | k in picked :: k in db.deposits
  {
    if wallet == "" || a == "" then (db, Err(Invalid))
    else if picked == [] then (db, Ok(0))
    else
      // The batch first locks the account with a zero delta, which creates its row.
      match ApplyDelta(db.credits, a, 0, 0)
      case None => (db, Err(CheckViolation))
      case Some(credits) =>
        match CreditAll(db.(credits := credits), picked, a)
        case None => (db, Err(CheckViolation))
        case Some(db') => (db', Ok(|picked|))
  }

  // ---------- withdrawals ----------

  function FindKey(ws: seq<Withdrawal>, key: string): (r: Option<nat>)
    ensures r.Some? ==> r.value < |ws| && ws[r.value].key == key
    ensures r.None? ==> forall w | w in ws :: w.key != key
  {
    if ws == [] then None
    else if ws[|ws| - 1].key == key then Some(|ws| - 1)
    else FindKey(ws[..|ws| - 1], key)
  }

  function ReserveWithdrawalTx(db: DB, a: string, key: string, destination: string, amount: int): Outcome<nat> {
    if a == "" || key == "" || destination == "" || amount <= 0 then (db, Err(Invalid))
    else
      match FindKey(db.withdrawals, key)
      case Some(i) => if db.withdrawals[i].account != a then (db, Err(Conflict)) else (db, Ok(i + 1))
      case None =>
        var id := |db.withdrawals| + 1;
        match ApplyDelta(db.credits, a, -amount, 0)
        case None => (db, Err(InsufficientCredit))
        case Some(credits) =>
          match InsertLeg(db.ledger, Row(a, -amount, WithdrawLeg, destination, WithdrawalRef(id)))
          case None => (db, Err(Conflict))
          case Some(ledger) =>
            (db.(credits := credits, ledger := ledger,
                 withdrawals := db.withdrawals + [Withdrawal(a, key, destination, amount, WReserved)]), Ok(id))
  }

  /** The state changes that move no money: signed, broadcast, finalized, failed. */
  predicate MarkAllowed(from: WithdrawalState, to: WithdrawalState) {
    match to
    case WSigned => from == WReserved
    case WBroadcast => from == WSigned
    case WFinalized => from == WSigned || from == WBroadcast
    case WFailed => from.Open()
    case _ => false
  }

  function MarkWithdrawalTx(db: DB, id: nat, to: WithdrawalState): Outcome<Withdrawal> {
    if !(1 <= id <= |db.withdrawals|) then (db, Err(NotFound))
    else
      var w := db.withdrawals[id - 1];
      if !MarkAllowed(w.state, to) then (db, Ok(w))
      else (db.(withdrawals := db.withdrawals[id - 1 := w.(state := to)]), Ok(w.(state := to)))
  }

  function RestoreWithdrawalTx(db: DB, id: nat): Outcome<Withdrawal> {
    if !(1 <= id <= |db.withdrawals|) then (db, Err(NotFound))
    else
      var w := db.withdrawals[id - 1];
      if !w.state.Open() then (db, Ok(w))
      else
        match ApplyDelta(db.credits, w.account, w.amount, 0)
        case None => (db, Err(CheckViolation))
        case Some(credits) =>
          // As for deposits, a duplicate leg aborts the transaction whatever the code does next.
          match InsertLeg(db.ledger, Row(w.account, w.amount, RestoreLeg, w.destination, WithdrawalRef(id)))
          case None => (db, Err(Conflict))
          case Some(ledger) =>
            var w' := w.(state := WRestored);
            (db.(credits := credits, ledger := ledger, withdrawals := db.withdrawals[id - 1 := w']), Ok(w'))
  }

  // ---------- reconciliation ----------

  datatype Reconciliation = Reconciliation(credit: int, reserved: int, expectedCredit: int, expectedReserved: int,
                                           driftCredit: int, driftReserved: int, invariantHeld: bool)

  ghost function ReconcileTx(db: DB, a: string): Reconciliation {
    if a !in db.credits then Reconciliation(0, 0, 0, 0, 0, 0, true)
    else
      var c := db.credits[a];
      var ec, er := LedgerSum(db.ledger, a), OpenSum(db.requests, a);
      Reconciliation(c.credit, c.reserved, ec, er, c.credit - ec, c.reserved - er,
                     c.credit >= 0 && c.reserved >= 0 && c.reserved <= c.credit)
  }
}

/** The billing store as it runs: tables as fields, every transaction working on copies it
    commits at the end, an early return being the rollback. Each method is proved against its
    transaction function, about which the run theorems are stated. */
module PostgresStore {
  import opened Common
  import opened Billing
  import opened Sums
  import opened Tables
  import opened Transactions

  class Postgres {
    var credits: map<string, Credit>
    var requests: map<string, Request>
    var ledger: seq<Row>
    var deposits: map<DepositKey, Deposit>
    var allowances: map<AllowanceKey, Allowance>
    var withdrawals: seq<Withdrawal>

    ghost function Db(): DB
      reads this
    {
      DB(credits, requests, ledger, deposits, allowances, withdrawals)
    }

    constructor ()
      ensures Db() == EMPTY_DB
    {
      credits, requests, ledger := map[], map[], [];
      deposits, allowances, withdrawals := map[], map[], [];
    }

    /** SELECT SUM(allowance_raw) over the account's active rows. */
    method SumActiveAllowances(account: string) returns (sum: int)
      ensures sum == AllowanceSum(allowances, account)
    {
      sum := 0;
      var todo := allowances.Keys;
      ghost var seen: map<AllowanceKey, int> := map[];
      while todo != {}
        invariant todo <= allowances.Keys
        invariant seen == map k | k in allowances && k !in todo && k.0 == account && allowances[k].Active() :: allowances[k].raw
        invariant sum == MapSum(seen)
        decreases |todo|
      {
        var k :| k in todo;
        if k.0 == account && allowances[k].Active() {
          MapSumGrow(seen, k, allowances[k].raw);
          seen := seen[k := allowances[k].raw];
          sum := sum + allowances[k].raw;
        }
        todo := todo - {k};
      }
      assert seen == ActiveOf(allowances, account);
    }

    method CheckQuotes(quotes: seq<Quote>) returns (ok: bool)
      ensures ok == QuotesOk(quotes)
    {
      for i := 0 to |quotes|
        invariant forall j :: 0 <= j < i ==> QuoteOk(quotes[j])
      {
        if !QuoteOk(quotes[i]) {
          assert quotes[i] in quotes;
          return false;
        }
      }
      ok := true;
    }

    /** The locked part of a reservation: the allowance cap, the insert and the balance update. */
    method HoldCredit(q: Reservation, reserve: int) returns (res: Result<Credit, StoreError>)
      requires q.id != "" && q.buyer != "" && q.quotes != [] && QuotesOk(q.quotes)
      requires ReserveOf(q.quotes, q.inputCeil, q.outputCeil) == Ok(reserve)
      modifies this
      ensures (Db(), res) == ReserveTx(old(Db()), q)
    {
      var c := CreditOf(credits, q.buyer);
      var available := c.credit - c.reserved;
      var allowSum := SumActiveAllowances(q.buyer);
      if allowSum > MAX_INT64 { return Err(OutOfRange); }
      if allowSum > 0 && allowSum < available { available := allowSum; }
      if available < reserve { return Err(InsufficientCredit); }
      if q.id in requests { return Err(Conflict); }
      var table := requests[q.id := Request(q.buyer, q.quotes, reserve, q.at, Reserved, None)];
      var bumped := c;
      if reserve > 0 {
        bumped := Credit(c.credit, c.reserved + reserve);
        if !CheckRow(bumped) { return Err(CheckViolation); }
      }
      credits, requests := credits[q.buyer := bumped], table;
      res := Ok(bumped);
    }

    method ReserveBilling(q: Reservation) returns (res: Result<Credit, StoreError>)
      modifies this
      ensures (Db(), res) == ReserveTx(old(Db()), q)
    {
      if q.id == "" || q.buyer == "" || q.quotes == [] { return Err(Conflict); }
      var valid := CheckQuotes(q.quotes);
      if !valid { return Err(Conflict); }
      var amount := ReserveAmount(q.quotes, q.inputCeil, q.outputCeil);
      if amount.Err? { return Err(Arithmetic(amount.error)); }
      res := HoldCredit(q, amount.value);
    }

    /** releaseLocked followed by the commit. */
    method Finalize(id: string) returns (res: Result<Request, StoreError>)
      requires id in requests
      modifies this
      ensures (Db(), res) == ReleaseOutcome(old(Db()), id)
    {
      var r := requests[id];
      var tx := credits;
      if r.reserved > 0 && r.buyer in tx {
        var given := ApplyDelta(tx, r.buyer, 0, -r.reserved);
        if given.None? { return Err(CheckViolation); }
        tx := given.value;
      }
      r := r.(state := Released);
      credits, requests := tx, requests[id := r];
      res := Ok(r);
    }

    method ReleaseBilling(id: string) returns (res: Result<Request, StoreError>)
      modifies this
      ensures (Db(), res) == ReleaseTx(old(Db()), id)
    {
      if id !in requests { return Err(NotFound); }
      if requests[id].state != Reserved { return Ok(requests[id]); }
      res := Finalize(id);
    }

    method SettleBilling(id: string, peer: string, usage: Usage, feeBps: int) returns (res: Result<Request, StoreError>)
      modifies this
      ensures (Db(), res) == SettleTx(old(Db()), id, peer, usage, feeBps)
    {
      if id !in requests { return Err(NotFound); }
      var r := requests[id];
      if r.state != Reserved { return Ok(r); }
      var quote := FindQuote(r.quotes, peer);
      if quote.None? {
        res := Finalize(id);
        return;
      }
      var q := quote.value;
      var cost := Cost(usage, q.inRate, q.cachedRate, q.outRate);
      if cost.Err? { return Err(Arithmetic(cost.error)); }
      if cost.value == 0 {
        res := Finalize(id);
        return;
      }
      var split := Fee(cost.value, feeBps);
      if split.Err? { return Err(Arithmetic(split.error)); }
      res := PostCharge(id, usage, Charge(q.peer, q.seller, cost.value, split.value.0, split.value.1));
    }

    /** The second half of a settlement: three balance updates, then the legs, then the record. */
    method PostCharge(id: string, usage: Usage, c: Charge) returns (res: Result<Request, StoreError>)
      requires id in requests
      modifies this
      ensures (Db(), res) == ChargeTx(old(Db()), id, usage, c)
    {
      var r := requests[id];
      var tx := credits;
      var step := ApplyDelta(tx, r.buyer, -c.cost, -r.reserved);
      if step.None? { return Err(CheckViolation); }
      tx := step.value;
      step := ApplyDelta(tx, c.seller, c.sellerRaw, 0);
      if step.None? { return Err(CheckViolation); }
      tx := step.value;
      if c.fee > 0 {
        step := ApplyDelta(tx, TREASURY, c.fee, 0);
        if step.None? { return Err(CheckViolation); }
        tx := step.value;
      }
      assert SettleCredits(credits, r, c) == Some(tx);

      if !TokensFit(usage) { return Err(OutOfRange); }
      var legs := ledger;
      var ins := InsertLeg(legs, Row(r.buyer, -c.cost, BuyerLeg, c.peer, id));
      if ins.None? { return Err(Conflict); }
      legs := ins.value;
      ins := InsertLeg(legs, Row(c.seller, c.sellerRaw, SellerLeg, r.buyer, id));
      if ins.None? { return Err(Conflict); }
      legs := ins.value;
      if c.fee > 0 {
        ins := InsertLeg(legs, Row(TREASURY, c.fee, FeeLeg, r.buyer, id));
        if ins.None? { return Err(Conflict); }
        legs := ins.value;
      }
      assert SettleLegs(ledger, r, c, id) == Some(legs);

      r := r.(state := Settled, charge := Some(c));
      credits, ledger, requests := tx, legs, requests[id := r];
      res := Ok(r);
    }

    /** picked is what the SKIP LOCKED query returned. */
    method SweepStaleReservations(before: int, limit: int, picked: seq<string>) returns (res: Result<seq<string>, StoreError>)
      requires SweepSelects(Db(), before, limit, picked)
      modifies this
      ensures (Db(), res) == SweepTx(old(Db()), picked)
    {
      var tx, table := credits, requests;
      var released := [];
      for i := 0 to |picked|
        invariant forall id | id in picked :: id in table
        invariant Db() == old(Db()) && released == picked[..i]
        invariant ReleaseAll(old(Db()), picked) == ReleaseAll(Db().(credits := tx, requests := table), picked[i..])
      {
        var id := picked[i];
        assert picked[i..][0] == id && picked[i..][1..] == picked[i + 1..];
        var r := table[id];
        if r.reserved > 0 && r.buyer in tx {
          var given := ApplyDelta(tx, r.buyer, 0, -r.reserved);
          if given.None? { return Err(CheckViolation); }
          tx := given.value;
        }
        table := table[id := r.(state := Released)];
        released := released + [id];
      }
      assert picked[|picked|..] == [] && picked[..|picked|] == picked;
      credits, requests := tx, table;
      res := Ok(released);
    }

    /** A decrease is clamped at the reserved amount and the rest reported. */
    static method Mirror(row: Credit, delta: int64) returns (newCredit: int, shortfall: int64)
      ensures (newCredit, shortfall) == MirrorCredit(row, delta)
    {
      newCredit, shortfall := Wrap(row.credit + delta), 0;
      if newCredit < row.reserved {
        shortfall := Wrap(row.reserved - newCredit);
        newCredit := row.reserved;
      }
    }

    method UpsertAllowance(k: AllowanceKey, raw: int64, ref: string) returns (res: Result<Mirrored, StoreError>)
      modifies this
      ensures (Db(), res) == UpsertTx(old(Db()), k, raw, ref)
    {
      if k.0 == "" || k.1 == "" { return Err(Conflict); }
      if raw < 0 || ref == "" { return Err(Invalid); }
      var row, legs := CreditOf(credits, k.0), ledger;
      var prev: int64 := if k in allowances then allowances[k].raw else 0;
      var delta := Wrap(raw - prev);
      var applied, shortfall: int64 := delta, 0;
      var registry := allowances[k := Allowance(raw, raw == 0)];
      if delta != 0 {
        var ins := InsertLeg(legs, Row(k.0, delta, MirrorLeg(delta), k.1, ref));
        if ins.Some? {
          legs := ins.value;
          var newCredit;
          newCredit, shortfall := Mirror(row, delta);
          row := Credit(newCredit, row.reserved);
          if !CheckRow(row) { return Err(CheckViolation); }
        } else {
          applied := 0;
        }
      }
      credits, ledger, allowances := credits[k.0 := row], legs, registry;
      res := Ok(Mirrored(prev, applied, shortfall));
    }

    method InsertDepositEvent(k: DepositKey, fromWallet: string, amount: int) returns (res: Result<bool, StoreError>)
      modifies this
      ensures (Db(), res) == InsertDepositTx(old(Db()), k, fromWallet, amount)
    {
      if k.0 == "" || amount <= 0 || fromWallet == "" { return Err(Invalid); }
      if k in deposits { return Ok(false); }
      deposits := deposits[k := Deposit(fromWallet, amount, Unassigned)];
      res := Ok(true);
    }

    method ApplyDeposit(k: DepositKey, account: string) returns (res: Result<Deposit, StoreError>)
      modifies this
      ensures (Db(), res) == ApplyDepositTx(old(Db()), k, account)
    {
      if account == "" { return Err(Invalid); }
      if k !in deposits { return Err(NotFound); }
      match deposits[k].state {
        case Assigned(owner) => return if owner == account then Ok(deposits[k]) else Err(Conflict);
        case Skipped => return Ok(deposits[k]);
        case Unassigned =>
      }
      var step := CreditDeposit(DB(credits, requests, ledger, deposits, allowances, withdrawals), k, account);
      if step.None? { return Err(CheckViolation); }
      credits, ledger, deposits := step.value.credits, step.value.ledger, step.value.deposits;
      res := Ok(deposits[k]);
    }

    /** picked is what the FOR UPDATE query returned. */
    method ReconcileDepositsForWallet(wallet: string, account: string, picked: seq<DepositKey>) returns (res: Result<nat, StoreError>)
      requires WalletSelects(Db(), wallet, picked)
      modifies this
      ensures (Db(), res) == ReconcileDepositsTx(old(Db()), wallet, account, picked)
    {
      if wallet == "" || account == "" { return Err(Invalid); }
      var tx := DB(credits, requests, ledger, deposits, allowances, withdrawals);
      if |picked| > 0 {
        var lock := ApplyDelta(tx.credits, account, 0, 0);
        if lock.None? { return Err(CheckViolation); }
        tx := tx.(credits := lock.value);
      }
      ghost var locked := tx;
      for i := 0 to |picked|
        invariant Db() == old(Db())
        invariant forall k | k in picked :: k in tx.deposits
        invariant tx.requests == requests && tx.allowances == allowances && tx.withdrawals == withdrawals
        invariant CreditAll(locked, picked, account) == CreditAll(tx, picked[i..], account)
      {
        assert picked[i..][0] == picked[i] && picked[i..][1..] == picked[i + 1..];
        var step := CreditDeposit(tx, picked[i], account);
        if step.None? { return Err(CheckViolation); }
        tx := step.value;
      }
      credits, ledger, deposits := tx.credits, tx.ledger, tx.deposits;
      res := Ok(|picked|);
    }

    method ReserveWithdrawal(account: string, key: string, destination: string, amount: int) returns (res: Result<nat, StoreError>)
      modifies this
      ensures (Db(), res) == ReserveWithdrawalTx(old(Db()), account, key, destination, amount)
    {
      if account == "" || key == "" || destination == "" || amount <= 0 { return Err(Invalid); }
      var existing := FindKey(withdrawals, key);
      if existing.Some? {
        if withdrawals[existing.value].account != account { return Err(Conflict); }
        return Ok(existing.value + 1);
      }
      var table := withdrawals + [Withdrawal(account, key, destination, amount, WReserved)];
      var id := |table|;
      var debit := ApplyDelta(credits, account, -amount, 0);
      if debit.None? { return Err(InsufficientCredit); }
      var ins := InsertLeg(ledger, Row(account, -amount, WithdrawLeg, destination, WithdrawalRef(id)));
      if ins.None? { return Err(Conflict); }
      credits, ledger, withdrawals := debit.value, ins.value, table;
      res := Ok(id);
    }

    method RestoreWithdrawal(id: nat) returns (res: Result<Withdrawal, StoreError>)
      modifies this
      ensures (Db(), res) == RestoreWithdrawalTx(old(Db()), id)
    {
      if !(1 <= id <= |withdrawals|) { return Err(NotFound); }
      var w := withdrawals[id - 1];
      if !w.state.Open() { return Ok(w); }
      var refund := ApplyDelta(credits, w.account, w.amount, 0);
      if refund.None? { return Err(CheckViolation); }
      var ins := InsertLeg(ledger, Row(w.account, w.amount, RestoreLeg, w.destination, WithdrawalRef(id)));
      if ins.None? { return Err(Conflict); }
      w := w.(state := WRestored);
      credits, ledger, withdrawals := refund.value, ins.value, withdrawals[id - 1 := w];
      res := Ok(w);
    }
  }
}

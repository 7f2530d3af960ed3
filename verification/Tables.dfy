/** The billing tables (migrations/0006_billing.sql, 0011_delegation.sql) and the row-level
    statements the transactions are made of. Ledger row i carries id i + 1. */
module Tables {
  import opened Common
  import opened Billing
  import opened Sums

  datatype Credit = Credit(credit: int, reserved: int)

  datatype RequestState = Reserved | Settled | Released
  datatype Charge = Charge(peer: string, seller: string, cost: int, fee: int, sellerRaw: int)
  datatype Request = Request(buyer: string, quotes: seq<Quote>, reserved: int, reservedAt: int,
                             state: RequestState, charge: Option<Charge>)

  datatype Leg = BuyerLeg | SellerLeg | FeeLeg | DepositLeg | GrantLeg | RevokeLeg | WithdrawLeg | RestoreLeg {
    /** The legs a settlement writes. */
    predicate Usage() { BuyerLeg? || SellerLeg? || FeeLeg? }
  }
  datatype Row = Row(account: string, delta: int, leg: Leg, counterparty: string, ref: string)

  datatype DepositState = Unassigned | Assigned(account: string) | Skipped
  datatype Deposit = Deposit(fromWallet: string, amount: int, state: DepositState)
  type DepositKey = (string, int)

  datatype WithdrawalState = WReserved | WSigned | WBroadcast | WFinalized | WFailed | WRestored {
    predicate Open() { WReserved? || WSigned? || WBroadcast? }
  }
  datatype Withdrawal = Withdrawal(account: string, key: string, destination: string, amount: int, state: WithdrawalState)

  type AllowanceKey = (string, string)

  datatype DB = DB(credits: map<string, Credit>, requests: map<string, Request>, ledger: seq<Row>,
                   deposits: map<DepositKey, Deposit>, allowances: map<AllowanceKey, Allowance>,
                   withdrawals: seq<Withdrawal>)

  const EMPTY_DB := DB(map[], map[], [], map[], map[], [])

  const TREASURY := "treasury"

  datatype StoreError = Conflict | InsufficientCredit | NotFound | Invalid
                      | CheckViolation | OutOfRange | Arithmetic(e: ArithError)

  // ---------- refs ----------

  function DepositRef(k: DepositKey): string {
    "sol:" + k.0 + ":" + Itoa(k.1)
  }

  function WithdrawalRef(id: nat): string {
    "withdrawal:" + Itoa(id)
  }

  /** Different transfer instructions never share a ledger ref, whatever the signature contains. */
  lemma DepositRefInjective(a: DepositKey, b: DepositKey)
    requires DepositRef(a) == DepositRef(b)
    ensures a == b
  {
    ItoaChars(a.1);
    ItoaChars(b.1);
    SplitAtLast("sol:" + a.0, Itoa(a.1), "sol:" + b.0, Itoa(b.1), ':');
    assert a.0 == ("sol:" + a.0)[4..] && b.0 == ("sol:" + b.0)[4..];
    ItoaInjective(a.1, b.1);
  }

  lemma WithdrawalRefInjective(a: nat, b: nat)
    requires WithdrawalRef(a) == WithdrawalRef(b)
    ensures a == b
  {
    assert Itoa(a) == WithdrawalRef(a)[11..] == WithdrawalRef(b)[11..] == Itoa(b);
    ItoaInjective(a, b);
  }

  // ---------- account_credits ----------

  /** The CHECK constraints of account_credits and the bigint range. */
  predicate CheckRow(c: Credit) {
    0 <= c.reserved <= c.credit <= MAX_INT64
  }

  function CreditOf(credits: map<string, Credit>, a: string): Credit {
    if a in credits then credits[a] else Credit(0, 0)
  }

  /** Ensures the row and adds both deltas; None when the statement violates a constraint. */
  function ApplyDelta(credits: map<string, Credit>, a: string, dc: int, dr: int): (r: Option<map<string, Credit>>)
    ensures r.Some? ==> CreditOf(r.value, a) == Credit(CreditOf(credits, a).credit + dc, CreditOf(credits, a).reserved + dr)
    ensures r.Some? ==> forall b | b != a :: CreditOf(r.value, b) == CreditOf(credits, b)
    ensures r.Some? <==> CheckRow(Credit(CreditOf(credits, a).credit + dc, CreditOf(credits, a).reserved + dr))
  {
    var c := CreditOf(credits, a);
    var n := Credit(c.credit + dc, c.reserved + dr);
    if CheckRow(n) then Some(credits[a := n]) else None
  }

  // ---------- credit_ledger ----------

  predicate HasLeg(ledger: seq<Row>, ref: string, leg: Leg) {
    exists i :: 0 <= i < |ledger| && ledger[i].ref == ref && ledger[i].leg == leg
  }

  /** INSERT under UNIQUE (ref, leg). */
  function InsertLeg(ledger: seq<Row>, row: Row): Option<seq<Row>> {
    if HasLeg(ledger, row.ref, row.leg) then None else Some(ledger + [row])
  }

  ghost predicate UniqueLegs(ledger: seq<Row>) {
    forall i, j :: 0 <= i < j < |ledger| ==> ledger[i].ref != ledger[j].ref || ledger[i].leg != ledger[j].leg
  }

  /** SUM(delta_raw) for one account. */
  function LedgerSum(ledger: seq<Row>, a: string): int {
    if ledger == [] then 0
    else
      var last := ledger[|ledger| - 1];
      LedgerSum(ledger[..|ledger| - 1], a) + (if last.account == a then last.delta else 0)
  }

  /** SUM(delta_raw) over the legs settlements write for one request. */
  function UsageSum(ledger: seq<Row>, ref: string): int {
    if ledger == [] then 0
    else
      var last := ledger[|ledger| - 1];
      UsageSum(ledger[..|ledger| - 1], ref) + (if last.leg.Usage() && last.ref == ref then last.delta else 0)
  }

  /** SUM(delta_raw) over everything except usage, earn and fee: deposits, mirrored delegations,
      withdrawals and their restores. */
  function ExternalSum(ledger: seq<Row>): int {
    if ledger == [] then 0
    else
      var last := ledger[|ledger| - 1];
      ExternalSum(ledger[..|ledger| - 1]) + (if last.leg.Usage() then 0 else last.delta)
  }

  lemma Append(ledger: seq<Row>, row: Row)
    ensures forall a :: LedgerSum(ledger + [row], a) == LedgerSum(ledger, a) + (if row.account == a then row.delta else 0)
    ensures forall ref :: UsageSum(ledger + [row], ref) == UsageSum(ledger, ref) + (if row.leg.Usage() && row.ref == ref then row.delta else 0)
    ensures ExternalSum(ledger + [row]) == ExternalSum(ledger) + (if row.leg.Usage() then 0 else row.delta)
  {
    assert (ledger + [row])[..|ledger|] == ledger;
  }

  lemma AppendUnique(ledger: seq<Row>, row: Row)
    requires UniqueLegs(ledger) && !HasLeg(ledger, row.ref, row.leg)
    ensures UniqueLegs(ledger + [row])
  {}

  lemma HasLegGrows(ledger: seq<Row>, more: seq<Row>, ref: string, leg: Leg)
    requires HasLeg(ledger, ref, leg)
    ensures HasLeg(ledger + more, ref, leg)
  {
    var i :| 0 <= i < |ledger| && ledger[i].ref == ref && ledger[i].leg == leg;
    assert (ledger + more)[i] == ledger[i];
  }

  lemma HasLegAppend(ledger: seq<Row>, row: Row)
    ensures forall ref, leg :: HasLeg(ledger + [row], ref, leg) <==> HasLeg(ledger, ref, leg) || (row.ref == ref && row.leg == leg)
  {
    forall ref, leg ensures HasLeg(ledger + [row], ref, leg) <==> HasLeg(ledger, ref, leg) || (row.ref == ref && row.leg == leg) {
      if HasLeg(ledger, ref, leg) { HasLegGrows(ledger, [row], ref, leg); }
      if row.ref == ref && row.leg == leg { assert (ledger + [row])[|ledger|] == row; }
    }
  }

  // ---------- billing_requests ----------

  function OpenWeight(r: Request, a: string): int {
    if r.state == Reserved && r.buyer == a then r.reserved else 0
  }

  ghost function OpenWeights(requests: map<string, Request>, a: string): map<string, int> {
    map id | id in requests :: OpenWeight(requests[id], a)
  }

  /** SUM(reserved_raw) over the account's open requests. */
  ghost function OpenSum(requests: map<string, Request>, a: string): int {
    MapSum(OpenWeights(requests, a))
  }

  lemma OpenSumUpdate(requests: map<string, Request>, id: string, r: Request, a: string)
    ensures OpenSum(requests[id := r], a)
         == OpenSum(requests, a) - (if id in requests then OpenWeight(requests[id], a) else 0) + OpenWeight(r, a)
  {
    assert OpenWeights(requests[id := r], a) == OpenWeights(requests, a)[id := OpenWeight(r, a)];
    MapSumUpdate(OpenWeights(requests, a), id, OpenWeight(r, a));
  }

  /** findQuote: the first quote of the snapshot naming the peer. */
  function FindQuote(quotes: seq<Quote>, peer: string): (r: Option<Quote>)
    ensures r.Some? ==> r.value in quotes && r.value.peer == peer
    ensures r.None? ==> forall q | q in quotes :: q.peer != peer
  {
    if quotes == [] then None
    else if quotes[0].peer == peer then Some(quotes[0])
    else FindQuote(quotes[1..], peer)
  }

  lemma {:induction false} FindQuoteFirst(quotes: seq<Quote>, peer: string, i: nat)
    requires i < |quotes| && quotes[i].peer == peer && forall j :: 0 <= j < i ==> quotes[j].peer != peer
    ensures FindQuote(quotes, peer) == Some(quotes[i])
  {
    if i > 0 { FindQuoteFirst(quotes[1..], peer, i - 1); }
  }

  // ---------- account_allowances ----------

  ghost function ActiveOf(allowances: map<AllowanceKey, Allowance>, a: string): map<AllowanceKey, int> {
    map k | k in allowances && k.0 == a && allowances[k].Active() :: allowances[k].raw
  }

  /** sumActiveAllowances. */
  ghost function AllowanceSum(allowances: map<AllowanceKey, Allowance>, a: string): int {
    MapSum(ActiveOf(allowances, a))
  }

  // ---------- totals ----------

  ghost function CreditValues(credits: map<string, Credit>): map<string, int> {
    map a | a in credits :: credits[a].credit
  }

  ghost function TotalCredit(credits: map<string, Credit>): int {
    MapSum(CreditValues(credits))
  }

  lemma TotalCreditUpdate(credits: map<string, Credit>, a: string, c: Credit)
    ensures TotalCredit(credits[a := c]) == TotalCredit(credits) - CreditOf(credits, a).credit + c.credit
  {
    assert CreditValues(credits[a := c]) == CreditValues(credits)[a := c.credit];
    MapSumUpdate(CreditValues(credits), a, c.credit);
  }
}

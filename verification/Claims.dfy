/** One settlement claim pass (internal/store/delegation_settlement.go): ledger legs are netted
    into batches per (buyer, destination), the buyers' allowances are consumed, legs are anchored
    and the cursor moves, all in one transaction. Ledger row i has id i + 1 and batch i has id i + 1. */
module Claims {
  import opened Common
  import opened Billing
  import opened Tables

  datatype BatchState = Pending | Signed | Broadcast | Finalized | Restored {
    predicate Open() { Pending? || Signed? || Broadcast? }
  }
  datatype Wire = Wire(bytes: string, signature: string)
  datatype Batch = Batch(ref: string, buyer: string, delegate: string, source: string, dest: string, destAta: string,
                         amount: int, state: BatchState, wire: Option<Wire>)
  datatype Anchor = Anchor(batch: nat, leg: nat)

  datatype Rail = Rail(ledger: seq<Row>, allowances: map<AllowanceKey, Allowance>, cursors: map<string, nat>,
                       batches: seq<Batch>, anchors: seq<Anchor>)

  datatype Params = Params(delegate: string, mint: string, tokenProgram: string, treasury: string, limit: int)
  /** What the pass reads outside the rail: primary wallets, and the token account of every wallet
      whose derivation succeeds. */
  datatype Env = Env(wallets: map<string, string>, atas: map<string, string>)

  datatype ClaimError = BadParams | Underivable | NonPositive | AmountCheck

  // ---------- selecting legs ----------

  predicate ActiveRow(allowances: map<AllowanceKey, Allowance>, k: AllowanceKey) {
    k in allowances && allowances[k].Active()
  }

  predicate Eligible(rail: Rail, delegate: string, id: nat)
    requires 1 <= id <= |rail.ledger|
  {
    rail.ledger[id - 1].leg == SellerLeg && ActiveRow(rail.allowances, (rail.ledger[id - 1].counterparty, delegate))
  }

  /** WHERE eligible AND id > from ORDER BY id LIMIT limit. */
  function SelectLegs(rail: Rail, delegate: string, from: nat, limit: nat): (ids: seq<nat>)
    ensures |ids| <= limit
    ensures forall i :: 0 <= i < |ids| ==> from < ids[i] <= |rail.ledger| && Eligible(rail, delegate, ids[i])
    ensures forall i, j :: 0 <= i < j < |ids| ==> ids[i] < ids[j]
    decreases |rail.ledger| - from
  {
    if limit == 0 || from >= |rail.ledger| then []
    else if Eligible(rail, delegate, from + 1) then [from + 1] + SelectLegs(rail, delegate, from + 1, limit - 1)
    else SelectLegs(rail, delegate, from + 1, limit)
  }

  /** The selection looked at leg id: it did not fill up before. */
  predicate Reaches(ids: seq<nat>, limit: nat, id: nat) {
    |ids| < limit || (ids != [] && id <= ids[|ids| - 1])
  }

  lemma ReachesRest(x: nat, rest: seq<nat>, limit: nat, id: nat)
    requires limit > 0 && Reaches([x] + rest, limit, id) && x < id
    ensures Reaches(rest, limit - 1, id)
  {}

  /** Nothing eligible is passed over: every eligible leg up to the last selected one is selected, and
      all of them are when the limit was not reached. */
  lemma {:induction false} SelectLegsComplete(rail: Rail, delegate: string, from: nat, limit: nat, id: nat)
    requires from < id <= |rail.ledger| && Eligible(rail, delegate, id)
    requires Reaches(SelectLegs(rail, delegate, from, limit), limit, id)
    ensures id in SelectLegs(rail, delegate, from, limit)
    decreases |rail.ledger| - from
  {
    if limit > 0 {
      if Eligible(rail, delegate, from + 1) {
        var rest := SelectLegs(rail, delegate, from + 1, limit - 1);
        if id != from + 1 {
          ReachesRest(from + 1, rest, limit, id);
          SelectLegsComplete(rail, delegate, from + 1, limit - 1, id);
        }
        InCons(from + 1, rest, id);
      } else {
        SelectLegsComplete(rail, delegate, from + 1, limit, id);
      }
    }
  }

  lemma InCons(x: nat, rest: seq<nat>, id: nat)
    ensures id in [x] + rest <==> id == x || id in rest
  {}

  predicate ValidIds(ledger: seq<Row>, ids: seq<nat>) {
    forall i :: 0 <= i < |ids| ==> 1 <= ids[i] <= |ledger|
  }

  /** The fee rows whose ref is one of the selected legs' refs, each once, in any order. */
  ghost predicate FeesOf(ledger: seq<Row>, ids: seq<nat>, fees: seq<nat>)
    requires ValidIds(ledger, ids)
  {
    && ValidIds(ledger, fees)
    && (forall i, j :: 0 <= i < j < |fees| ==> fees[i] != fees[j])
    && (forall f :: f in fees <==> IsFeeOf(ledger, ids, f))
  }

  predicate IsFeeOf(ledger: seq<Row>, ids: seq<nat>, f: nat)
    requires ValidIds(ledger, ids)
  {
    && 1 <= f <= |ledger| && ledger[f - 1].leg == FeeLeg
    && exists i :: 0 <= i < |ids| && ledger[ids[i] - 1].ref == ledger[f - 1].ref
  }

  // ---------- planning ----------

  datatype PlanBatch = PlanBatch(buyer: string, source: string, dest: string, amount: int, legs: seq<nat>, isFee: bool)
  datatype Plan = Plan(total: int, batches: seq<PlanBatch>, skippable: bool)
  datatype Plans = Plans(of: map<string, Plan>, order: seq<string>)

  const NO_PLANS := Plans(map[], [])

  /** add: the buyer's plan, created on first use. */
  function Touch(ps: Plans, buyer: string): Plans {
    if buyer in ps.of then ps else Plans(ps.of[buyer := Plan(0, [], false)], ps.order + [buyer])
  }

  function MarkSkippable(ps: Plans, buyer: string): Plans {
    var qs := Touch(ps, buyer);
    qs.(of := qs.of[buyer := qs.of[buyer].(skippable := true)])
  }

  predicate SameSlot(a: PlanBatch, b: PlanBatch) {
    a.dest == b.dest && a.isFee == b.isFee
  }

  function Merge(a: PlanBatch, b: PlanBatch): PlanBatch {
    a.(amount := a.amount + b.amount, legs := a.legs + b.legs)
  }

  /** Into the first batch with the same destination and kind, or a new one at the end. */
  function NetBatch(bs: seq<PlanBatch>, b: PlanBatch): seq<PlanBatch> {
    if bs == [] then [b]
    else if SameSlot(bs[0], b) then [Merge(bs[0], b)] + bs[1..]
    else [bs[0]] + NetBatch(bs[1..], b)
  }

  /** netInto. */
  function NetInto(ps: Plans, b: PlanBatch): Plans {
    var qs := Touch(ps, b.buyer);
    var pl := qs.of[b.buyer];
    qs.(of := qs.of[b.buyer := pl.(total := pl.total + b.amount, batches := NetBatch(pl.batches, b))])
  }

  function WalletOf(env: Env, account: string): string {
    if account in env.wallets then env.wallets[account] else ""
  }

  /** One earn leg. None aborts the pass. The second component is the last buyer's token account. */
  function EarnStep(s: (Plans, string), row: Row, id: nat, env: Env): Option<(Plans, string)> {
    var bw := WalletOf(env, row.counterparty);
    if bw == "" then Some((MarkSkippable(s.0, row.counterparty), s.1))
    else if bw !in env.atas then None
    else
      var src := env.atas[bw];
      var w := WalletOf(env, row.account);
      if w == "" then Some((MarkSkippable(s.0, row.counterparty), src))
      else Some((NetInto(s.0, PlanBatch(row.counterparty, src, w, row.delta, [id], false)), src))
  }

  function PlanEarns(ledger: seq<Row>, ids: seq<nat>, env: Env): Option<(Plans, string)>
    requires ValidIds(ledger, ids)
  {
    if ids == [] then Some((NO_PLANS, ""))
    else
      var id := ids[|ids| - 1];
      match PlanEarns(ledger, ids[..|ids| - 1], env)
      case None => None
      case Some(s) => EarnStep(s, ledger[id - 1], id, env)
  }

  function FeeStep(ps: Plans, row: Row, id: nat, treasury: string, src: string): Plans {
    if row.counterparty !in ps.of then ps
    else NetInto(ps, PlanBatch(row.counterparty, src, treasury, row.delta, [id], true))
  }

  function PlanFees(ledger: seq<Row>, fees: seq<nat>, treasury: string, src: string, ps: Plans): Plans
    requires ValidIds(ledger, fees)
  {
    if fees == [] then ps
    else
      var id := fees[|fees| - 1];
      FeeStep(PlanFees(ledger, fees[..|fees| - 1], treasury, src, ps), ledger[id - 1], id, treasury, src)
  }

  /** All netting of one pass. */
  function PlanAll(ledger: seq<Row>, ids: seq<nat>, fees: seq<nat>, treasury: string, env: Env): Option<Plans>
    requires ValidIds(ledger, ids) && ValidIds(ledger, fees)
  {
    match PlanEarns(ledger, ids, env)
    case None => None
    case Some(s) => Some(if treasury == "" then s.0 else PlanFees(ledger, fees, treasury, s.1, s.0))
  }

  // ---------- refs ----------

  function Short(s: string): string {
    if |s| > 8 then s[..8] else s
  }

  function MinLeg(legs: seq<nat>): (m: nat)
    requires legs != []
    ensures m in legs && forall l | l in legs :: m <= l
  {
    if |legs| == 1 then legs[0] else
      assert legs == legs[..|legs| - 1] + [legs[|legs| - 1]];
      Min(MinLeg(legs[..|legs| - 1]), legs[|legs| - 1])
  }

  function MaxLeg(legs: seq<nat>): (m: nat)
    requires legs != []
    ensures m in legs && forall l | l in legs :: l <= m
  {
    if |legs| == 1 then legs[0] else
      assert legs == legs[..|legs| - 1] + [legs[|legs| - 1]];
      Max(MaxLeg(legs[..|legs| - 1]), legs[|legs| - 1])
  }

  function RefPrefix(delegate: string, b: PlanBatch): string {
    "dset:" + Short(delegate) + ":" + Short(b.buyer) + ":" + Short(b.dest) + ":" + (if b.isFee then "fee" else "xfer")
  }

  function RefText(prefix: string, min: nat, max: nat): string {
    (prefix + [':'] + NatToString(min)) + ['-'] + NatToString(max)
  }

  function SettlementRef(delegate: string, b: PlanBatch): string
    requires b.legs != []
  {
    RefText(RefPrefix(delegate, b), MinLeg(b.legs), MaxLeg(b.legs))
  }

  /** Equal refs name the same smallest and largest leg, whatever the truncated accounts are. */
  lemma RefNamesLegs(p: string, min: nat, max: nat, p': string, min': nat, max': nat)
    requires RefText(p, min, max) == RefText(p', min', max')
    ensures min == min' && max == max'
  {
    SplitAtLast(p + [':'] + NatToString(min), NatToString(max), p' + [':'] + NatToString(min'), NatToString(max'), '-');
    SplitAtLast(p, NatToString(min), p', NatToString(min'), ':');
    NatToStringInjective(min, min');
    NatToStringInjective(max, max');
  }

  // ---------- committing ----------

  /** lockAndConsumeAllowanceTx, for a positive amount. None when no row covers it. */
  function Consume(allowances: map<AllowanceKey, Allowance>, k: AllowanceKey, amount: int): Option<map<AllowanceKey, Allowance>>
    requires amount > 0
  {
    if k in allowances && !allowances[k].revoked && allowances[k].raw >= amount
    then Some(allowances[k := allowances[k].(raw := allowances[k].raw - amount)])
    else None
  }

  predicate Anchored(anchors: seq<Anchor>, leg: nat) {
    exists i :: 0 <= i < |anchors| && anchors[i].leg == leg
  }

  /** INSERT each leg anchor ON CONFLICT (ledger_leg_id) DO NOTHING. */
  function AnchorAll(anchors: seq<Anchor>, id: nat, legs: seq<nat>): seq<Anchor> {
    if legs == [] then anchors
    else
      var rest := AnchorAll(anchors, id, legs[..|legs| - 1]);
      var leg := legs[|legs| - 1];
      if Anchored(rest, leg) then rest else rest + [Anchor(id, leg)]
  }

  predicate RefTaken(batches: seq<Batch>, ref: string) {
    exists i :: 0 <= i < |batches| && batches[i].ref == ref
  }

  function InsertBatch(rail: Rail, delegate: string, env: Env, b: PlanBatch): Result<Rail, ClaimError>
    requires b.legs != []
  {
    if b.dest !in env.atas then Err(Underivable)
    else if b.amount <= 0 then Err(AmountCheck)
    else if RefTaken(rail.batches, SettlementRef(delegate, b)) then Ok(rail)
    else
      var row := Batch(SettlementRef(delegate, b), b.buyer, delegate, b.source, b.dest, env.atas[b.dest], b.amount, Pending, None);
      Ok(rail.(batches := rail.batches + [row], anchors := AnchorAll(rail.anchors, |rail.batches| + 1, b.legs)))
  }

  predicate LegsNonEmpty(bs: seq<PlanBatch>) {
    forall i :: 0 <= i < |bs| ==> bs[i].legs != []
  }

  function InsertAll(rail: Rail, delegate: string, env: Env, bs: seq<PlanBatch>): Result<Rail, ClaimError>
    requires LegsNonEmpty(bs)
  {
    if bs == [] then Ok(rail)
    else
      match InsertAll(rail, delegate, env, bs[..|bs| - 1])
      case Err(e) => Err(e)
      case Ok(mid) => InsertBatch(mid, delegate, env, bs[|bs| - 1])
  }

  function CommitBuyer(rail: Rail, delegate: string, env: Env, buyer: string, pl: Plan): Result<Rail, ClaimError>
    requires LegsNonEmpty(pl.batches)
  {
    if pl.skippable then Ok(rail)
    else if pl.total <= 0 then Err(NonPositive)
    else
      match Consume(rail.allowances, (buyer, delegate), pl.total)
      case None => Ok(rail)
      case Some(allowances) => InsertAll(rail.(allowances := allowances), delegate, env, pl.batches)
  }

  predicate PlansReady(ps: Plans) {
    && (forall i :: 0 <= i < |ps.order| ==> ps.order[i] in ps.of)
    && (forall b | b in ps.of :: LegsNonEmpty(ps.of[b].batches))
  }

  function CommitAll(rail: Rail, delegate: string, env: Env, ps: Plans, order: seq<string>): Result<Rail, ClaimError>
    requires PlansReady(ps) && forall b | b in order :: b in ps.of
  {
    if order == [] then Ok(rail)
    else
      match CommitAll(rail, delegate, env, ps, order[..|order| - 1])
      case Err(e) => Err(e)
      case Ok(mid) =>
        var buyer := order[|order| - 1];
        CommitBuyer(mid, delegate, env, buyer, ps.of[buyer])
  }

  // ---------- netting keeps plans well formed ----------

  lemma {:induction false} NetBatchReady(bs: seq<PlanBatch>, b: PlanBatch)
    requires LegsNonEmpty(bs) && b.legs != []
    ensures LegsNonEmpty(NetBatch(bs, b))
  {
    if bs != [] && !SameSlot(bs[0], b) { NetBatchReady(bs[1..], b); }
  }

  lemma EarnStepReady(s: (Plans, string), row: Row, id: nat, env: Env)
    requires PlansReady(s.0)
    ensures EarnStep(s, row, id, env).Some? ==> PlansReady(EarnStep(s, row, id, env).value.0)
  {
    var qs := Touch(s.0, row.counterparty);
    assert PlansReady(qs);
    var bw := WalletOf(env, row.counterparty);
    if bw in env.atas {
      NetBatchReady(qs.of[row.counterparty].batches,
        PlanBatch(row.counterparty, env.atas[bw], WalletOf(env, row.account), row.delta, [id], false));
    }
  }

  lemma {:induction false} PlanEarnsReady(ledger: seq<Row>, ids: seq<nat>, env: Env)
    requires ValidIds(ledger, ids)
    ensures PlanEarns(ledger, ids, env).Some? ==> PlansReady(PlanEarns(ledger, ids, env).value.0)
  {
    if ids != [] {
      var init, id := ids[..|ids| - 1], ids[|ids| - 1];
      PlanEarnsReady(ledger, init, env);
      var s := PlanEarns(ledger, init, env);
      if s.Some? { EarnStepReady(s.value, ledger[id - 1], id, env); }
    }
  }

  lemma {:induction false} PlanFeesReady(ledger: seq<Row>, fees: seq<nat>, treasury: string, src: string, ps: Plans)
    requires ValidIds(ledger, fees) && PlansReady(ps)
    ensures PlansReady(PlanFees(ledger, fees, treasury, src, ps))
  {
    if fees != [] {
      var init := fees[..|fees| - 1];
      PlanFeesReady(ledger, init, treasury, src, ps);
      var id := fees[|fees| - 1];
      var row := ledger[id - 1];
      var mid := PlanFees(ledger, init, treasury, src, ps);
      if row.counterparty in mid.of {
        NetBatchReady(mid.of[row.counterparty].batches, PlanBatch(row.counterparty, src, treasury, row.delta, [id], true));
      }
    }
  }

  lemma PlanAllReady(ledger: seq<Row>, ids: seq<nat>, fees: seq<nat>, treasury: string, env: Env)
    requires ValidIds(ledger, ids) && ValidIds(ledger, fees)
    ensures PlanAll(ledger, ids, fees, treasury, env).Some? ==> PlansReady(PlanAll(ledger, ids, fees, treasury, env).value)
  {
    PlanEarnsReady(ledger, ids, env);
    var s := PlanEarns(ledger, ids, env);
    if s.Some? { PlanFeesReady(ledger, fees, treasury, s.value.1, s.value.0); }
  }

  // ---------- the pass ----------

  function ClampLimit(limit: int): nat {
    if limit <= 0 || limit > 1000 then 500 else limit
  }

  function CursorOf(rail: Rail, delegate: string): nat {
    if delegate in rail.cursors then rail.cursors[delegate] else 0
  }

  function Selected(rail: Rail, p: Params): seq<nat> {
    SelectLegs(rail, p.delegate, CursorOf(rail, p.delegate), ClampLimit(p.limit))
  }

  /** fees is the order in which the database returned the fee rows. */
  function ClaimTx(rail: Rail, p: Params, env: Env, fees: seq<nat>): (Rail, Result<seq<Batch>, ClaimError>)
    requires ValidIds(rail.ledger, fees)
  {
    if p.delegate == "" || p.mint == "" || p.tokenProgram == "" then (rail, Err(BadParams))
    else
      var ids := Selected(rail, p);
      if ids == [] then (rail, Ok([]))
      else
        PlanAllReady(rail.ledger, ids, fees, p.treasury, env);
        match PlanAll(rail.ledger, ids, fees, p.treasury, env)
        case None => (rail, Err(Underivable))
        case Some(ps) =>
          match CommitAll(rail, p.delegate, env, ps, ps.order)
          case Err(e) => (rail, Err(e))
          case Ok(done) =>
            CommitAllGrows(rail, p.delegate, env, ps, ps.order);
            (done.(cursors := done.cursors[p.delegate := ids[|ids| - 1]]), Ok(done.batches[|rail.batches|..]))
  }

  lemma {:induction false} InsertAllGrows(rail: Rail, delegate: string, env: Env, bs: seq<PlanBatch>)
    requires LegsNonEmpty(bs)
    ensures InsertAll(rail, delegate, env, bs).Ok? ==>
      && var r := InsertAll(rail, delegate, env, bs).value;
      && rail.batches <= r.batches && r.ledger == rail.ledger && r.cursors == rail.cursors && r.allowances == rail.allowances
  {
    if bs != [] { InsertAllGrows(rail, delegate, env, bs[..|bs| - 1]); }
  }

  lemma {:induction false} CommitAllGrows(rail: Rail, delegate: string, env: Env, ps: Plans, order: seq<string>)
    requires PlansReady(ps) && forall b | b in order :: b in ps.of
    ensures CommitAll(rail, delegate, env, ps, order).Ok? ==>
      && var r := CommitAll(rail, delegate, env, ps, order).value;
      && rail.batches <= r.batches && r.ledger == rail.ledger && r.cursors == rail.cursors
  {
    if order != [] {
      CommitAllGrows(rail, delegate, env, ps, order[..|order| - 1]);
      var mid := CommitAll(rail, delegate, env, ps, order[..|order| - 1]);
      if mid.Ok? {
        var buyer := order[|order| - 1];
        var pl := ps.of[buyer];
        if !pl.skippable && pl.total > 0 && Consume(mid.value.allowances, (buyer, delegate), pl.total).Some? {
          InsertAllGrows(mid.value.(allowances := Consume(mid.value.allowances, (buyer, delegate), pl.total).value), delegate, env, pl.batches);
        }
      }
    }
  }
}

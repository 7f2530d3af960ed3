/** The claim pass in the code's own integers: totals and batch amounts are int64 sums that could wrap,
    and over a ledger the billing transactions wrote they never do. */
module ClaimMachine {
  import opened Common
  import opened Billing
  import opened Tables
  import opened Claims
  import opened ClaimProofs
  import opened ClaimCost
  import opened ClaimPass
  import Projection

  /** The delta column is a bigint. */
  predicate DeltaFits(row: Row) {
    MIN_INT64 <= row.delta <= MAX_INT64
  }

  ghost predicate DeltasFit(ledger: seq<Row>) {
    forall i {:trigger ledger[i]} :: 0 <= i < |ledger| ==> DeltaFits(ledger[i])
  }

  function WrapBatch(b: PlanBatch): PlanBatch {
    b.(amount := Wrap(b.amount))
  }

  function WrapBatches(bs: seq<PlanBatch>): (r: seq<PlanBatch>)
    ensures |r| == |bs| && forall i :: 0 <= i < |bs| ==> r[i] == WrapBatch(bs[i])
  {
    seq(|bs|, i requires 0 <= i < |bs| => WrapBatch(bs[i]))
  }

  function WrapPlan(pl: Plan): Plan {
    pl.(total := Wrap(pl.total), batches := WrapBatches(pl.batches))
  }

  function WrapPlans(ps: Plans): Plans {
    ps.(of := map b | b in ps.of :: WrapPlan(ps.of[b]))
  }

  lemma WrapReady(ps: Plans)
    requires PlansReady(ps)
    ensures PlansReady(WrapPlans(ps))
  {}

  /** Adding to a wrapped amount wraps the sum. */
  lemma WrapMerge(a: PlanBatch, b: PlanBatch)
    ensures WrapBatch(Merge(WrapBatch(a), b)) == WrapBatch(Merge(a, b))
  {
    WrapAdd(a.amount, b.amount);
  }

  /** Commit the plans and move the cursor past the examined legs. */
  function CommitMachine(rail: Rail, delegate: string, env: Env, ids: seq<nat>, ps: Plans): (Rail, Result<seq<Batch>, ClaimError>)
    requires ids != [] && PlansReady(ps)
  {
    match CommitAll(rail, delegate, env, ps, ps.order)
    case Err(e) => (rail, Err(e))
    case Ok(done) =>
      CommitAllGrows(rail, delegate, env, ps, ps.order);
      (done.(cursors := done.cursors[delegate := ids[|ids| - 1]]), Ok(done.batches[|rail.batches|..]))
  }

  /** ClaimTx with every total and amount an int64. */
  function ClaimMachineTx(rail: Rail, p: Params, env: Env, fees: seq<nat>): (Rail, Result<seq<Batch>, ClaimError>)
    requires ValidIds(rail.ledger, fees)
  {
    if p.delegate == "" || p.mint == "" || p.tokenProgram == "" then (rail, Err(BadParams))
    else
      var ids := Selected(rail, p);
      if ids == [] then (rail, Ok([]))
      else
        PlanAllReady(rail.ledger, ids, fees, p.treasury, env);
        match PlanAll(rail.ledger, ids, fees, p.treasury, env)
        case None => (rail, Err(Underivable))
        case Some(exact) => CommitMachine(rail, p.delegate, env, ids, WrapPlans(exact))
  }

  // ---------- nothing wraps ----------

  /** The shares and fees of a settled request lie between zero and the largest charge. */
  predicate ShareOk(row: Row) {
    row.leg == SellerLeg || row.leg == FeeLeg ==> 0 <= row.delta <= MAX_COST
  }

  ghost predicate SharesOk(ledger: seq<Row>) {
    forall i {:trigger ShareOk(ledger[i])} :: 0 <= i < |ledger| ==> ShareOk(ledger[i])
  }

  lemma InvSharesOk(db: DB)
    requires Projection.Inv(db)
    ensures SharesOk(db.ledger)
  {
    forall i | 0 <= i < |db.ledger| ensures ShareOk(db.ledger[i]) {
      var row := db.ledger[i];
      assert Projection.UsageRowOk(db, row);
      if row.leg.Usage() { assert Projection.RequestOk(db.requests[row.ref]); }
    }
  }

  predicate SharesOnly(ledger: seq<Row>, legs: seq<nat>)
    requires ValidIds(ledger, legs)
  {
    forall i :: 0 <= i < |legs| ==> 0 <= ledger[legs[i] - 1].delta <= MAX_COST
  }

  lemma {:induction false} SharesSum(ledger: seq<Row>, legs: seq<nat>)
    requires ValidIds(ledger, legs) && SharesOnly(ledger, legs)
    ensures 0 <= LegsSum(ledger, legs) <= |legs| * MAX_COST
  {
    if legs != [] { SharesSum(ledger, legs[..|legs| - 1]); }
  }

  lemma EarnsAreShares(ledger: seq<Row>, ids: seq<nat>)
    requires SharesOk(ledger) && EarnIds(ledger, ids)
    ensures SharesOnly(ledger, ids)
  {
    forall i | 0 <= i < |ids| ensures 0 <= ledger[ids[i] - 1].delta <= MAX_COST {
      assert ShareOk(ledger[ids[i] - 1]);
    }
  }

  lemma FeesAreShares(ledger: seq<Row>, ids: seq<nat>, fees: seq<nat>)
    requires SharesOk(ledger) && ValidIds(ledger, ids) && FeesOf(ledger, ids, fees)
    ensures SharesOnly(ledger, fees)
  {
    forall i | 0 <= i < |fees| ensures 0 <= ledger[fees[i] - 1].delta <= MAX_COST {
      assert fees[i] in fees;
      assert IsFeeOf(ledger, ids, fees[i]);
      assert ShareOk(ledger[fees[i] - 1]);
    }
  }

  lemma TwoThousandFit(n: nat, m: nat)
    requires m <= n <= 1000
    ensures n * MAX_COST + m * MAX_COST <= MAX_INT64
  {
    assert n * MAX_COST <= 1000 * MAX_COST && m * MAX_COST <= 1000 * MAX_COST;
  }

  lemma SharesNonNegative(ledger: seq<Row>, ids: seq<nat>, fees: seq<nat>, treasury: string)
    requires ValidIds(ledger, ids) && ValidIds(ledger, fees) && SharesOnly(ledger, ids) && SharesOnly(ledger, fees)
    ensures var done := Processed(ids, fees, treasury); ValidIds(ledger, done) && NonNegative(ledger, done)
  {
    var done := Processed(ids, fees, treasury);
    forall i | 0 <= i < |done| ensures 1 <= done[i] <= |ledger| && ledger[done[i] - 1].delta >= 0 {
      if i < |ids| { assert done[i] == ids[i]; } else { assert done[i] == fees[i - |ids|]; }
    }
  }

  lemma SharesFit(ledger: seq<Row>, ids: seq<nat>, fees: seq<nat>, treasury: string)
    requires ValidIds(ledger, ids) && ValidIds(ledger, fees) && SharesOnly(ledger, ids) && SharesOnly(ledger, fees)
    requires |fees| <= |ids| <= 1000 && ValidIds(ledger, Processed(ids, fees, treasury))
    ensures LegsSum(ledger, Processed(ids, fees, treasury)) <= MAX_INT64
  {
    SharesSum(ledger, ids);
    SharesSum(ledger, fees);
    LegsSumConcat(ledger, ids, fees);
    TwoThousandFit(|ids|, |fees|);
  }

  /** A pass processes at most a thousand requests of at most MAX_COST each. */
  lemma PassSumFits(rail: Rail, p: Params, fees: seq<nat>)
    requires LedgerOk(rail.ledger) && SharesOk(rail.ledger) && FeesOf(rail.ledger, Selected(rail, p), fees)
    ensures var done := Processed(Selected(rail, p), fees, p.treasury);
      ValidIds(rail.ledger, done) && NonNegative(rail.ledger, done) && LegsSum(rail.ledger, done) <= MAX_INT64
  {
    var ids := Selected(rail, p);
    SelectedEarn(rail, p);
    FeesAtMost(rail.ledger, ids, fees);
    EarnsAreShares(rail.ledger, ids);
    FeesAreShares(rail.ledger, ids, fees);
    SharesNonNegative(rail.ledger, ids, fees, p.treasury);
    SharesFit(rail.ledger, ids, fees, p.treasury);
  }

  lemma WrapPlanIs(ledger: seq<Row>, done: seq<nat>, buyer: string, pl: Plan)
    requires ValidIds(ledger, done) && PlanOk(ledger, done, buyer, pl) && !pl.skippable
    requires NonNegative(ledger, done) && LegsSum(ledger, done) <= MAX_INT64
    ensures WrapPlan(pl) == pl
  {
    TotalsFit(ledger, done, buyer, pl);
    assert WrapBatches(pl.batches) == pl.batches;
  }

  lemma {:induction false} CommitWrapped(rail: Rail, delegate: string, env: Env, done: seq<nat>, ps: Plans, order: seq<string>)
    requires PlansReady(ps) && PlansReady(WrapPlans(ps)) && forall b | b in order :: b in ps.of
    requires ValidIds(rail.ledger, done) && PlansOk(rail.ledger, done, ps)
    requires NonNegative(rail.ledger, done) && LegsSum(rail.ledger, done) <= MAX_INT64
    ensures CommitAll(rail, delegate, env, WrapPlans(ps), order) == CommitAll(rail, delegate, env, ps, order)
  {
    if order != [] {
      CommitWrapped(rail, delegate, env, done, ps, order[..|order| - 1]);
      var buyer := order[|order| - 1];
      assert PlanOk(rail.ledger, done, buyer, ps.of[buyer]);
      if !ps.of[buyer].skippable { WrapPlanIs(rail.ledger, done, buyer, ps.of[buyer]); }
    }
  }

  /** In every ledger the billing transactions can produce, a pass in int64 arithmetic does exactly what
      it does in exact arithmetic: its unchecked additions never wrap. */
  lemma MachineIsExact(db: DB, rail: Rail, p: Params, env: Env, fees: seq<nat>)
    requires Projection.Inv(db) && rail.ledger == db.ledger && FeesOf(rail.ledger, Selected(rail, p), fees)
    ensures ClaimMachineTx(rail, p, env, fees) == ClaimTx(rail, p, env, fees)
  {
    InvLedgerOk(db);
    InvSharesOk(db);
    PassSumFits(rail, p, fees);
    var ids := Selected(rail, p);
    SelectedEarn(rail, p);
    PlanAllReady(rail.ledger, ids, fees, p.treasury, env);
    var plans := PlanAll(rail.ledger, ids, fees, p.treasury, env);
    if plans.Some? {
      PlanAllOk(rail.ledger, ids, fees, p.treasury, env);
      WrapReady(plans.value);
      CommitWrapped(rail, p.delegate, env, Processed(ids, fees, p.treasury), plans.value, plans.value.order);
    }
  }
}

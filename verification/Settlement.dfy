/** The main results about claim passes: what one pass takes from each allowance row, that no leg is
    claimed twice by one delegate, and that a buyer pays exactly what the requests cost. */
module Settlement {
  import opened Common
  import opened Billing
  import opened Tables
  import opened Claims
  import opened ClaimProofs
  import opened RailProofs

  // ---------- one buyer ----------

  /** The buyer's plan goes through: nothing unlinked, and an active row covers the total. */
  predicate Covered(allowances: map<AllowanceKey, Allowance>, k: AllowanceKey, pl: Plan) {
    !pl.skippable && pl.total > 0 && k in allowances && !allowances[k].revoked && allowances[k].raw >= pl.total
  }

  predicate Revoked(allowances: map<AllowanceKey, Allowance>, k: AllowanceKey) {
    k in allowances && allowances[k].revoked
  }

  lemma AllowancesDoNotMatter(rail: Rail, rail': Rail)
    requires RailOk(rail) && rail'.ledger == rail.ledger && rail'.batches == rail.batches && rail'.anchors == rail.anchors
    ensures RailOk(rail')
  {
    forall i | 0 <= i < |rail'.anchors| ensures AnchorOk(rail', rail'.anchors[i]) {
      assert AnchorOk(rail, rail.anchors[i]);
    }
    forall i: nat | i < |rail'.batches| ensures BatchOk(rail', i) {
      assert BatchOk(rail, i);
      var j :| 0 <= j < |rail.anchors| && rail.anchors[j].batch == i + 1 && RefMin(rail.batches[i].ref, rail.anchors[j].leg);
      assert rail'.anchors[j].batch == i + 1;
    }
  }

  /** Committing one buyer's plan of fresh legs: all of it or nothing. */
  lemma CommitBuyerOk(rail: Rail, delegate: string, env: Env, done: seq<nat>, buyer: string, pl: Plan, k: AllowanceKey)
    requires ValidIds(rail.ledger, done) && RailOk(rail) && LegsNonEmpty(pl.batches) && PlanOk(rail.ledger, done, buyer, pl)
    requires forall l | l in LegBag(pl.batches) :: !Anchored(rail.anchors, l)
    requires CommitBuyer(rail, delegate, env, buyer, pl).Ok?
    ensures var r := CommitBuyer(rail, delegate, env, buyer, pl).value;
      var covered := Covered(rail.allowances, (buyer, delegate), pl);
      var taken := if covered && k == (buyer, delegate) then pl.total else 0;
      && RailOk(r) && rail.batches <= r.batches && r.ledger == rail.ledger
      && (forall l :: Anchored(r.anchors, l) <==> Anchored(rail.anchors, l) || (covered && l in LegBag(pl.batches)))
      && Outstanding(r.batches, k) == Outstanding(rail.batches, k) + taken
      && RawOf(r.allowances, k) == RawOf(rail.allowances, k) - taken
      && (k in r.allowances <==> k in rail.allowances) && (Revoked(r.allowances, k) <==> Revoked(rail.allowances, k))
  {
    if Covered(rail.allowances, (buyer, delegate), pl) {
      var paid := rail.(allowances := Consume(rail.allowances, (buyer, delegate), pl.total).value);
      AllowancesDoNotMatter(rail, paid);
      InsertAllOk(paid, delegate, env, done, buyer, pl.batches, k);
    }
  }

  // ---------- all buyers of a pass ----------

  predicate Settles(rail: Rail, delegate: string, ps: Plans, buyer: string) {
    buyer in ps.of && Covered(rail.allowances, (buyer, delegate), ps.of[buyer])
  }

  /** What committing the buyers in order takes from row k. */
  function Taken(rail: Rail, delegate: string, ps: Plans, order: seq<string>, k: AllowanceKey): int {
    if k.1 == delegate && k.0 in order && Settles(rail, delegate, ps, k.0) then ps.of[k.0].total else 0
  }

  /** Leg l is in a batch of one of the buyers that settle. */
  predicate Claimed(rail: Rail, delegate: string, ps: Plans, order: seq<string>, l: nat) {
    && 1 <= l <= |rail.ledger|
    && var b := rail.ledger[l - 1].counterparty;
       b in order && Settles(rail, delegate, ps, b) && l in LegBag(ps.of[b].batches)
  }

  ghost predicate FreshLegs(rail: Rail, done: seq<nat>) {
    forall l | l in done :: !Anchored(rail.anchors, l)
  }

  lemma InBagMeans(ledger: seq<Row>, done: seq<nat>, buyer: string, pl: Plan, l: nat)
    requires ValidIds(ledger, done) && PlanOk(ledger, done, buyer, pl) && l in LegBag(pl.batches)
    ensures 1 <= l <= |ledger| && l in done && ledger[l - 1].counterparty == buyer
  {
    var i := BagInLegs(pl.batches, l);
    assert PlannedOk(ledger, done, buyer, pl.batches[i]);
    assert LegOk(ledger, done, buyer, pl.batches[i].isFee, l);
  }

  /** The state after committing some buyers, seen from row k. */
  ghost predicate CommitEffect(rail: Rail, r: Rail, delegate: string, ps: Plans, order: seq<string>, k: AllowanceKey) {
    && Outstanding(r.batches, k) == Outstanding(rail.batches, k) + Taken(rail, delegate, ps, order, k)
    && RawOf(r.allowances, k) == RawOf(rail.allowances, k) - Taken(rail, delegate, ps, order, k)
    && (k in r.allowances <==> k in rail.allowances) && (Revoked(r.allowances, k) <==> Revoked(rail.allowances, k))
  }

  ghost predicate AnchorEffect(rail: Rail, r: Rail, delegate: string, ps: Plans, order: seq<string>) {
    forall l {:trigger Anchored(r.anchors, l)} :: Anchored(r.anchors, l) <==> Anchored(rail.anchors, l) || Claimed(rail, delegate, ps, order, l)
  }

  /** Everything committing some buyers does. */
  ghost predicate Committed(rail: Rail, r: Rail, delegate: string, ps: Plans, order: seq<string>) {
    && RailOk(r) && rail.batches <= r.batches && r.ledger == rail.ledger
    && (forall k {:trigger CommitEffect(rail, r, delegate, ps, order, k)} :: CommitEffect(rail, r, delegate, ps, order, k))
    && AnchorEffect(rail, r, delegate, ps, order)
  }

  lemma {:induction false} CommitAllOk(rail: Rail, delegate: string, env: Env, done: seq<nat>, ps: Plans, order: seq<string>)
    requires ValidIds(rail.ledger, done) && RailOk(rail) && PlansReady(ps) && PlansOk(rail.ledger, done, ps)
    requires forall b | b in order :: b in ps.of
    requires forall i, j :: 0 <= i < j < |order| ==> order[i] != order[j]
    requires FreshLegs(rail, done) && CommitAll(rail, delegate, env, ps, order).Ok?
    ensures Committed(rail, CommitAll(rail, delegate, env, ps, order).value, delegate, ps, order)
  {
    if order != [] {
      var init, buyer := order[..|order| - 1], order[|order| - 1];
      assert order == init + [buyer] && buyer !in init;
      CommitAllOk(rail, delegate, env, done, ps, init);
      CommitStep(rail, CommitAll(rail, delegate, env, ps, init).value, delegate, env, done, ps, init, buyer);
    }
  }

  lemma CommitStep(rail: Rail, mid: Rail, delegate: string, env: Env, done: seq<nat>, ps: Plans, init: seq<string>, buyer: string)
    requires ValidIds(rail.ledger, done) && PlansOk(rail.ledger, done, ps) && buyer in ps.of && buyer !in init
    requires Committed(rail, mid, delegate, ps, init) && LegsNonEmpty(ps.of[buyer].batches) && FreshLegs(rail, done)
    requires CommitBuyer(mid, delegate, env, buyer, ps.of[buyer]).Ok?
    ensures Committed(rail, CommitBuyer(mid, delegate, env, buyer, ps.of[buyer]).value, delegate, ps, init + [buyer])
  {
    var r := CommitBuyer(mid, delegate, env, buyer, ps.of[buyer]).value;
    var pl := ps.of[buyer];
    assert PlanOk(rail.ledger, done, buyer, pl);
    BuyerUntouched(rail, mid, delegate, env, ps, init, buyer);
    forall l | l in LegBag(pl.batches) ensures !Anchored(mid.anchors, l) {
      InBagMeans(rail.ledger, done, buyer, pl, l);
    }
    CommitBuyerOk(mid, delegate, env, done, buyer, pl, (buyer, delegate));
    forall k ensures CommitEffect(rail, r, delegate, ps, init + [buyer], k) {
      assert CommitEffect(rail, mid, delegate, ps, init, k);
      CommitBuyerOk(mid, delegate, env, done, buyer, pl, k);
    }
    forall l ensures Anchored(r.anchors, l) <==> Anchored(rail.anchors, l) || Claimed(rail, delegate, ps, init + [buyer], l) {
      ClaimedStep(rail, delegate, done, ps, init, buyer, l);
    }
  }

  /** Earlier buyers of the pass did not touch this buyer's row. */
  lemma BuyerUntouched(rail: Rail, mid: Rail, delegate: string, env: Env, ps: Plans, init: seq<string>, buyer: string)
    requires Committed(rail, mid, delegate, ps, init) && buyer in ps.of && buyer !in init
    ensures Covered(mid.allowances, (buyer, delegate), ps.of[buyer]) <==> Settles(rail, delegate, ps, buyer)
  {
    assert CommitEffect(rail, mid, delegate, ps, init, (buyer, delegate));
  }

  lemma ClaimedStep(rail: Rail, delegate: string, done: seq<nat>, ps: Plans, init: seq<string>, buyer: string, l: nat)
    requires ValidIds(rail.ledger, done) && buyer in ps.of && PlanOk(rail.ledger, done, buyer, ps.of[buyer]) && buyer !in init
    ensures Claimed(rail, delegate, ps, init + [buyer], l)
       <==> Claimed(rail, delegate, ps, init, l) || (Settles(rail, delegate, ps, buyer) && l in LegBag(ps.of[buyer].batches))
  {
    if l in LegBag(ps.of[buyer].batches) { InBagMeans(rail.ledger, done, buyer, ps.of[buyer], l); }
  }
}

/** When a whole claim pass leaves the books balanced, read off the state before it. */
module ClaimBalance {
  import opened Common
  import opened Billing
  import opened Tables
  import opened Claims
  import opened ClaimProofs
  import opened ClaimCost
  import opened RailProofs
  import opened Settlement
  import opened ClaimPass
  import opened ClaimSuccess
  import opened ClaimOverlap

  // ---------- the pass as one list of batches ----------

  /** The batches of the buyers that settle, in order. */
  function Flat(rail: Rail, delegate: string, ps: Plans, order: seq<string>): seq<PlanBatch> {
    if order == [] then []
    else
      var buyer := order[|order| - 1];
      var init := Flat(rail, delegate, ps, order[..|order| - 1]);
      if Settles(rail, delegate, ps, buyer) then init + ps.of[buyer].batches else init
  }

  lemma {:induction false} FlatReady(rail: Rail, delegate: string, ps: Plans, order: seq<string>)
    requires PlansReady(ps)
    ensures LegsNonEmpty(Flat(rail, delegate, ps, order))
  {
    if order != [] { FlatReady(rail, delegate, ps, order[..|order| - 1]); }
  }

  lemma {:induction false} InsertAllConcat(rail: Rail, delegate: string, env: Env, a: seq<PlanBatch>, b: seq<PlanBatch>)
    requires LegsNonEmpty(a) && LegsNonEmpty(b)
    ensures LegsNonEmpty(a + b)
    ensures InsertAll(rail, delegate, env, a + b)
         == match InsertAll(rail, delegate, env, a) case Err(e) => Err(e) case Ok(mid) => InsertAll(mid, delegate, env, b)
  {
    if b == [] {
      assert a + b == a;
    } else {
      var init := b[..|b| - 1];
      assert (a + b)[..|a + b| - 1] == a + init;
      InsertAllConcat(rail, delegate, env, a, init);
    }
  }

  /** Inserting does not look at the allowances. */
  lemma {:induction false} InsertAllElsewhere(rail: Rail, allowances: map<AllowanceKey, Allowance>, delegate: string, env: Env, bs: seq<PlanBatch>)
    requires LegsNonEmpty(bs) && InsertAll(rail.(allowances := allowances), delegate, env, bs).Ok?
    ensures InsertAll(rail, delegate, env, bs).Ok?
    ensures InsertAll(rail.(allowances := allowances), delegate, env, bs).value
         == InsertAll(rail, delegate, env, bs).value.(allowances := allowances)
  {
    if bs != [] { InsertAllElsewhere(rail, allowances, delegate, env, bs[..|bs| - 1]); }
  }

  /** What committing some buyers does to one row. */
  ghost predicate RowAfter(rail: Rail, r: Rail, delegate: string, ps: Plans, order: seq<string>, k: AllowanceKey) {
    && RawOf(r.allowances, k) == RawOf(rail.allowances, k) - Taken(rail, delegate, ps, order, k)
    && (k in r.allowances <==> k in rail.allowances) && (Revoked(r.allowances, k) <==> Revoked(rail.allowances, k))
  }

  /** Committing buyers is inserting their batches and taking their totals. */
  ghost predicate CommitsAs(rail: Rail, r: Rail, delegate: string, env: Env, ps: Plans, order: seq<string>)
    requires PlansReady(ps)
  {
    var bs := Flat(rail, delegate, ps, order);
    && LegsNonEmpty(bs) && InsertAll(rail, delegate, env, bs) == Ok(r.(allowances := rail.allowances))
    && forall k {:trigger RowAfter(rail, r, delegate, ps, order, k)} :: RowAfter(rail, r, delegate, ps, order, k)
  }

  lemma {:induction false} CommitIsInsert(rail: Rail, delegate: string, env: Env, ps: Plans, order: seq<string>)
    requires PlansReady(ps) && (forall b | b in order :: b in ps.of)
    requires forall i, j :: 0 <= i < j < |order| ==> order[i] != order[j]
    requires CommitAll(rail, delegate, env, ps, order).Ok?
    ensures CommitsAs(rail, CommitAll(rail, delegate, env, ps, order).value, delegate, env, ps, order)
  {
    if order == [] {
      assert rail.(allowances := rail.allowances) == rail;
    } else {
      var init, buyer := order[..|order| - 1], order[|order| - 1];
      assert order == init + [buyer] && buyer !in init;
      CommitIsInsert(rail, delegate, env, ps, init);
      CommitOneMore(rail, CommitAll(rail, delegate, env, ps, init).value, CommitAll(rail, delegate, env, ps, order).value,
                    delegate, env, ps, init, buyer, order);
    }
  }

  lemma CommitOneMore(rail: Rail, mid: Rail, r: Rail, delegate: string, env: Env, ps: Plans, init: seq<string>, buyer: string, order: seq<string>)
    requires PlansReady(ps) && CommitsAs(rail, mid, delegate, env, ps, init) && buyer in ps.of && buyer !in init && order == init + [buyer]
    requires CommitBuyer(mid, delegate, env, buyer, ps.of[buyer]) == Ok(r)
    ensures CommitsAs(rail, r, delegate, env, ps, order)
  {
    var pl, k := ps.of[buyer], (buyer, delegate);
    assert RowAfter(rail, mid, delegate, ps, init, k);
    assert order[..|order| - 1] == init;
    assert Covered(mid.allowances, k, pl) <==> Settles(rail, delegate, ps, buyer);
    if Settles(rail, delegate, ps, buyer) {
      FlatOneMore(rail, mid, r, delegate, env, ps, init, buyer, order);
      forall j ensures RowAfter(rail, r, delegate, ps, order, j) {
        assert RowAfter(rail, mid, delegate, ps, init, j);
        InsertAllGrows(mid.(allowances := Consume(mid.allowances, k, pl.total).value), delegate, env, pl.batches);
      }
    } else {
      assert r == mid;
      forall j ensures RowAfter(rail, r, delegate, ps, order, j) { assert RowAfter(rail, mid, delegate, ps, init, j); }
    }
  }

  lemma FlatOneMore(rail: Rail, mid: Rail, r: Rail, delegate: string, env: Env, ps: Plans, init: seq<string>, buyer: string, order: seq<string>)
    requires PlansReady(ps) && buyer in ps.of && order == init + [buyer] && Settles(rail, delegate, ps, buyer)
    requires var bs := Flat(rail, delegate, ps, init);
      LegsNonEmpty(bs) && InsertAll(rail, delegate, env, bs) == Ok(mid.(allowances := rail.allowances))
    requires Covered(mid.allowances, (buyer, delegate), ps.of[buyer]) && CommitBuyer(mid, delegate, env, buyer, ps.of[buyer]) == Ok(r)
    ensures LegsNonEmpty(Flat(rail, delegate, ps, order))
    ensures InsertAll(rail, delegate, env, Flat(rail, delegate, ps, order)) == Ok(r.(allowances := rail.allowances))
  {
    var pl := ps.of[buyer];
    var bs := Flat(rail, delegate, ps, init);
    assert order[..|order| - 1] == init;
    var paid := Consume(mid.allowances, (buyer, delegate), pl.total).value;
    var at := mid.(allowances := rail.allowances);
    assert at.(allowances := paid) == mid.(allowances := paid);
    InsertAllElsewhere(at, paid, delegate, env, pl.batches);
    InsertAllGrows(at, delegate, env, pl.batches);
    InsertAllConcat(rail, delegate, env, bs, pl.batches);
  }

  // ---------- the list is well formed ----------

  /** Every batch of the list is a planned batch of a settling buyer. */
  predicate FromPlan(rail: Rail, delegate: string, ps: Plans, order: seq<string>, b: PlanBatch) {
    b.buyer in order && Settles(rail, delegate, ps, b.buyer) && exists i :: 0 <= i < |ps.of[b.buyer].batches| && ps.of[b.buyer].batches[i] == b
  }

  lemma {:induction false} FlatFrom(rail: Rail, done: seq<nat>, delegate: string, ps: Plans, order: seq<string>, j: nat)
    requires ValidIds(rail.ledger, done) && PlansOk(rail.ledger, done, ps) && j < |Flat(rail, delegate, ps, order)|
    ensures FromPlan(rail, delegate, ps, order, Flat(rail, delegate, ps, order)[j])
  {
    var init, buyer := order[..|order| - 1], order[|order| - 1];
    var bs, b := Flat(rail, delegate, ps, init), Flat(rail, delegate, ps, order)[j];
    if j < |bs| {
      FlatFrom(rail, done, delegate, ps, init, j);
    } else {
      var i := j - |bs|;
      assert PlanOk(rail.ledger, done, buyer, ps.of[buyer]);
      assert PlannedOk(rail.ledger, done, buyer, ps.of[buyer].batches[i]);
    }
  }

  lemma {:induction false} InFlat(rail: Rail, delegate: string, ps: Plans, order: seq<string>, buyer: string, i: nat) returns (j: nat)
    requires buyer in order && Settles(rail, delegate, ps, buyer) && i < |ps.of[buyer].batches|
    ensures j < |Flat(rail, delegate, ps, order)| && Flat(rail, delegate, ps, order)[j] == ps.of[buyer].batches[i]
  {
    var init, last := order[..|order| - 1], order[|order| - 1];
    if last == buyer {
      j := |Flat(rail, delegate, ps, init)| + i;
    } else {
      assert buyer in init;
      j := InFlat(rail, delegate, ps, init, buyer, i);
    }
  }

  lemma PlanBatchSound(ledger: seq<Row>, done: seq<nat>, buyer: string, pl: Plan, i: nat)
    requires ValidIds(ledger, done) && PlanOk(ledger, done, buyer, pl) && i < |pl.batches|
    ensures Sound(ledger, pl.batches[i]) && pl.batches[i].buyer == buyer
  {
    assert PlannedOk(ledger, done, buyer, pl.batches[i]);
    BagDistinct(pl.batches, i);
  }

  lemma FlatSound(rail: Rail, done: seq<nat>, delegate: string, ps: Plans, order: seq<string>)
    requires ValidIds(rail.ledger, done) && PlansOk(rail.ledger, done, ps)
    ensures AllSound(rail.ledger, Flat(rail, delegate, ps, order))
  {
    var bs := Flat(rail, delegate, ps, order);
    forall j | 0 <= j < |bs| ensures Sound(rail.ledger, bs[j]) {
      FlatFrom(rail, done, delegate, ps, order, j);
      var pl := ps.of[bs[j].buyer];
      var i :| 0 <= i < |pl.batches| && pl.batches[i] == bs[j];
      assert PlanOk(rail.ledger, done, bs[j].buyer, pl);
      PlanBatchSound(rail.ledger, done, bs[j].buyer, pl, i);
    }
  }

  /** Two batches of one plan share no leg. */
  lemma {:induction false} PlanDisjoint(bs: seq<PlanBatch>)
    requires forall l {:trigger LegBag(bs)[l]} :: LegBag(bs)[l] <= 1
    ensures Disjoint(bs)
  {
    if bs != [] {
      var init, b := bs[..|bs| - 1], bs[|bs| - 1];
      forall l ensures LegBag(init)[l] <= 1 && (l in b.legs ==> l !in LegBag(init)) {
        assert LegBag(bs)[l] == LegBag(init)[l] + multiset(b.legs)[l];
      }
      PlanDisjoint(init);
      forall i, l | 0 <= i < |init| && l in init[i].legs ensures l !in b.legs { LegsInBag(init, i); }
      DisjointAppends(init, [b], bs);
    }
  }

  lemma DisjointAppends(a: seq<PlanBatch>, b: seq<PlanBatch>, bs: seq<PlanBatch>)
    requires bs == a + b && Disjoint(a) && Disjoint(b)
    requires forall i, j, l :: 0 <= i < |a| && 0 <= j < |b| && l in a[i].legs ==> l !in b[j].legs
    ensures Disjoint(bs)
  {
    forall i, j, l | 0 <= i < j < |bs| && l in bs[i].legs ensures l !in bs[j].legs {
      if j < |a| {
        assert bs[i] == a[i] && bs[j] == a[j];
      } else if i < |a| {
        assert bs[i] == a[i] && bs[j] == b[j - |a|];
      } else {
        assert bs[i] == b[i - |a|] && bs[j] == b[j - |a|];
      }
    }
  }

  lemma LegOfBuyer(ledger: seq<Row>, done: seq<nat>, buyer: string, pl: Plan, i: nat, l: nat)
    requires ValidIds(ledger, done) && PlanOk(ledger, done, buyer, pl) && i < |pl.batches| && l in pl.batches[i].legs
    ensures 1 <= l <= |ledger| && l in done && ledger[l - 1].counterparty == buyer
  {
    assert PlannedOk(ledger, done, buyer, pl.batches[i]);
    assert LegOk(ledger, done, buyer, pl.batches[i].isFee, l);
  }

  lemma {:induction false} FlatDisjoint(rail: Rail, done: seq<nat>, delegate: string, ps: Plans, order: seq<string>)
    requires ValidIds(rail.ledger, done) && PlansOk(rail.ledger, done, ps)
    requires forall i, j :: 0 <= i < j < |order| ==> order[i] != order[j]
    ensures Disjoint(Flat(rail, delegate, ps, order))
  {
    if order != [] {
      var init, buyer := order[..|order| - 1], order[|order| - 1];
      FlatDisjoint(rail, done, delegate, ps, init);
      if Settles(rail, delegate, ps, buyer) {
        var a, b := Flat(rail, delegate, ps, init), ps.of[buyer].batches;
        assert PlanOk(rail.ledger, done, buyer, ps.of[buyer]);
        PlanDisjoint(b);
        forall i, j, l | 0 <= i < |a| && 0 <= j < |b| && l in a[i].legs ensures l !in b[j].legs {
          FlatFrom(rail, done, delegate, ps, init, i);
          OtherBuyer(rail, done, delegate, ps, init, a[i], buyer, j, l);
        }
        DisjointAppends(a, b, a + b);
      }
    }
  }

  lemma OtherBuyer(rail: Rail, done: seq<nat>, delegate: string, ps: Plans, init: seq<string>, x: PlanBatch, buyer: string, j: nat, l: nat)
    requires ValidIds(rail.ledger, done) && PlansOk(rail.ledger, done, ps) && FromPlan(rail, delegate, ps, init, x) && buyer !in init
    requires buyer in ps.of && j < |ps.of[buyer].batches| && l in x.legs
    ensures l !in ps.of[buyer].batches[j].legs
  {
    var i :| 0 <= i < |ps.of[x.buyer].batches| && ps.of[x.buyer].batches[i] == x;
    assert PlanOk(rail.ledger, done, x.buyer, ps.of[x.buyer]) && PlanOk(rail.ledger, done, buyer, ps.of[buyer]);
    LegOfBuyer(rail.ledger, done, x.buyer, ps.of[x.buyer], i, l);
    if l in ps.of[buyer].batches[j].legs { LegOfBuyer(rail.ledger, done, buyer, ps.of[buyer], j, l); }
  }

  // ---------- drawn is taken ----------

  lemma {:induction false} DrawnConcat(a: seq<PlanBatch>, b: seq<PlanBatch>, delegate: string, k: AllowanceKey)
    ensures Drawn(a + b, delegate, k) == Drawn(a, delegate, k) + Drawn(b, delegate, k)
  {
    if b == [] {
      assert a + b == a;
    } else {
      DrawnConcat(a, b[..|b| - 1], delegate, k);
      assert (a + b)[..|a + b| - 1] == a + b[..|b| - 1];
    }
  }

  lemma {:induction false} DrawnOfPlan(ledger: seq<Row>, done: seq<nat>, buyer: string, bs: seq<PlanBatch>, delegate: string, k: AllowanceKey)
    requires BatchesPlanned(ledger, done, buyer, bs)
    ensures Drawn(bs, delegate, k) == if (buyer, delegate) == k then AmountSum(bs) else 0
  {
    if bs != [] {
      var init := bs[..|bs| - 1];
      forall i | 0 <= i < |init| ensures PlannedOk(ledger, done, buyer, init[i]) { assert PlannedOk(ledger, done, buyer, bs[i]); }
      DrawnOfPlan(ledger, done, buyer, init, delegate, k);
      assert PlannedOk(ledger, done, buyer, bs[|bs| - 1]);
    }
  }

  lemma {:induction false} FlatDrawn(rail: Rail, done: seq<nat>, delegate: string, ps: Plans, order: seq<string>, k: AllowanceKey)
    requires ValidIds(rail.ledger, done) && PlansOk(rail.ledger, done, ps)
    requires forall i, j :: 0 <= i < j < |order| ==> order[i] != order[j]
    ensures Drawn(Flat(rail, delegate, ps, order), delegate, k) == Taken(rail, delegate, ps, order, k)
  {
    if order != [] {
      var init, buyer := order[..|order| - 1], order[|order| - 1];
      assert order == init + [buyer] && buyer !in init;
      FlatDrawn(rail, done, delegate, ps, init, k);
      if Settles(rail, delegate, ps, buyer) {
        assert PlanOk(rail.ledger, done, buyer, ps.of[buyer]);
        DrawnConcat(Flat(rail, delegate, ps, init), ps.of[buyer].batches, delegate, k);
        DrawnOfPlan(rail.ledger, done, buyer, ps.of[buyer].batches, delegate, k);
      }
    }
  }

  // ---------- the condition ----------

  /** The ref a pass gives to a batch of these legs. */
  function LegsRef(delegate: string, buyer: string, dest: string, isFee: bool, legs: seq<nat>): string
    requires legs != []
  {
    SettlementRef(delegate, PlanBatch(buyer, "", dest, 0, legs, isFee))
  }

  predicate Free(rail: Rail, delegate: string, buyer: string, dest: string, isFee: bool, legs: seq<nat>) {
    legs != [] ==> !RefTaken(rail.batches, LegsRef(delegate, buyer, dest, isFee, legs))
  }

  /** No processed leg of the buyer that is worth something is anchored yet. */
  predicate Unanchored(rail: Rail, legs: seq<nat>, buyer: string)
    requires ValidIds(rail.ledger, legs)
  {
    forall i :: 0 <= i < |legs| && rail.ledger[legs[i] - 1].counterparty == buyer && rail.ledger[legs[i] - 1].delta > 0 ==>
      !Anchored(rail.anchors, legs[i])
  }

  /** No batch on record has a ref that one of the buyer's destinations would get. */
  predicate RefsFree(rail: Rail, p: Params, env: Env, fees: seq<nat>, buyer: string)
    requires ValidIds(rail.ledger, fees)
  {
    var ids := Selected(rail, p);
    && (forall i :: 0 <= i < |ids| && rail.ledger[ids[i] - 1].counterparty == buyer ==>
          var dest := WalletOf(env, rail.ledger[ids[i] - 1].account);
          Free(rail, p.delegate, buyer, dest, false, DestLegs(rail.ledger, ids, env, buyer, dest)))
    && (p.treasury != "" ==> Free(rail, p.delegate, buyer, p.treasury, true, BuyerLegs(rail.ledger, fees, buyer)))
  }

  predicate Untouched(rail: Rail, p: Params, env: Env, fees: seq<nat>, buyer: string)
    requires ValidIds(rail.ledger, fees)
  {
    Unanchored(rail, Processed(Selected(rail, p), fees, p.treasury), buyer) && RefsFree(rail, p, env, fees, buyer)
  }

  // ---------- batches and the condition ----------

  predicate WorthAnchored(rail: Rail, l: nat) {
    1 <= l <= |rail.ledger| && rail.ledger[l - 1].delta > 0 && Anchored(rail.anchors, l)
  }

  predicate NothingWorth(rail: Rail, legs: seq<nat>) {
    forall l {:trigger WorthAnchored(rail, l)} | l in legs :: !WorthAnchored(rail, l)
  }

  lemma NothingWorthSnoc(rail: Rail, init: seq<nat>, last: nat)
    ensures NothingWorth(rail, init + [last]) <==> NothingWorth(rail, init) && !WorthAnchored(rail, last)
  {
    assert last in init + [last] && forall l | l in init :: l in init + [last];
  }

  /** The old part of non-negative legs is nothing exactly when nothing of value is old. */
  lemma {:induction false} OldPartZeroIff(rail: Rail, legs: seq<nat>)
    requires ValidIds(rail.ledger, legs) && NonNegative(rail.ledger, legs)
    ensures OldPart(rail.ledger, rail.anchors, legs) >= 0
    ensures OldPart(rail.ledger, rail.anchors, legs) == 0 <==> NothingWorth(rail, legs)
  {
    if legs != [] {
      var init, last := legs[..|legs| - 1], legs[|legs| - 1];
      OldPartZeroIff(rail, init);
      assert legs == init + [last];
      NothingWorthSnoc(rail, init, last);
    }
  }

  lemma LegsNonNegative(ledger: seq<Row>, done: seq<nat>, buyer: string, pl: Plan, i: nat)
    requires ValidIds(ledger, done) && PlanOk(ledger, done, buyer, pl) && NonNegative(ledger, done) && i < |pl.batches|
    ensures ValidIds(ledger, pl.batches[i].legs) && NonNegative(ledger, pl.batches[i].legs)
  {
    var legs := pl.batches[i].legs;
    forall j | 0 <= j < |legs| ensures 1 <= legs[j] <= |ledger| && ledger[legs[j] - 1].delta >= 0 {
      LegOfBuyer(ledger, done, buyer, pl, i, legs[j]);
      var x :| 0 <= x < |done| && done[x] == legs[j];
    }
  }

  /** One batch of a settling buyer: its slot says which legs it has. */
  lemma BatchOfPlan(ledger: seq<Row>, ids: seq<nat>, fees: seq<nat>, treasury: string, env: Env, buyer: string, bs: seq<PlanBatch>, i: nat)
    requires ValidIds(ledger, ids) && ValidIds(ledger, fees) && PlanAll(ledger, ids, fees, treasury, env).Some?
    requires Linked(ledger, env, ids, buyer) && Owes(ledger, ids, buyer)
    requires bs == BatchesOf(PlanAll(ledger, ids, fees, treasury, env).value, buyer) && i < |bs|
    ensures !bs[i].isFee ==> GoesSomewhere(ledger, ids, env, buyer, bs[i].dest) && bs[i].legs == DestLegs(ledger, ids, env, buyer, bs[i].dest)
    ensures !bs[i].isFee ==> bs[i].amount == DestSum(ledger, ids, env, buyer, bs[i].dest)
    ensures bs[i].isFee ==> treasury != "" && bs[i].dest == treasury && bs[i].legs == BuyerLegs(ledger, fees, buyer)
    ensures bs[i].isFee ==> Owes(ledger, fees, buyer) && bs[i].amount == BuyerSum(ledger, fees, buyer)
  {
    PlanSlots(ledger, ids, fees, treasury, env, buyer, bs[i].dest);
    SlotOfBatch(bs, i);
    EarnSlotIs(ledger, ids, env, buyer, bs[i].dest);
    FeeSlotIs(ledger, fees, buyer);
  }

  /** The batch a selected leg of the buyer goes into. */
  lemma BatchOfDest(ledger: seq<Row>, ids: seq<nat>, fees: seq<nat>, treasury: string, env: Env, buyer: string, bs: seq<PlanBatch>, dest: string)
    returns (i: nat)
    requires ValidIds(ledger, ids) && ValidIds(ledger, fees) && PlanAll(ledger, ids, fees, treasury, env).Some?
    requires Linked(ledger, env, ids, buyer) && Owes(ledger, ids, buyer)
    requires bs == BatchesOf(PlanAll(ledger, ids, fees, treasury, env).value, buyer) && GoesSomewhere(ledger, ids, env, buyer, dest)
    ensures i < |bs| && bs[i].dest == dest && !bs[i].isFee && bs[i].legs == DestLegs(ledger, ids, env, buyer, dest)
  {
    PlanSlots(ledger, ids, fees, treasury, env, buyer, dest);
    EarnSlotIs(ledger, ids, env, buyer, dest);
    i := BatchOfSlot(bs, dest, false);
  }

  lemma BatchOfFee(ledger: seq<Row>, ids: seq<nat>, fees: seq<nat>, treasury: string, env: Env, buyer: string, bs: seq<PlanBatch>)
    returns (i: nat)
    requires ValidIds(ledger, ids) && ValidIds(ledger, fees) && PlanAll(ledger, ids, fees, treasury, env).Some?
    requires Linked(ledger, env, ids, buyer) && Owes(ledger, ids, buyer) && treasury != "" && Owes(ledger, fees, buyer)
    requires bs == BatchesOf(PlanAll(ledger, ids, fees, treasury, env).value, buyer)
    ensures i < |bs| && bs[i].dest == treasury && bs[i].isFee && bs[i].legs == BuyerLegs(ledger, fees, buyer)
  {
    PlanSlots(ledger, ids, fees, treasury, env, buyer, treasury);
    FeeSlotIs(ledger, fees, buyer);
    i := BatchOfSlot(bs, treasury, true);
  }

  /** A settling buyer, as the pass before the call sees it. */
  ghost predicate Settling(rail: Rail, p: Params, env: Env, fees: seq<nat>, ps: Plans, buyer: string) {
    var ids := Selected(rail, p);
    && FeesOf(rail.ledger, ids, fees) && PlanAll(rail.ledger, ids, fees, p.treasury, env) == Some(ps)
    && ValidIds(rail.ledger, Processed(ids, fees, p.treasury)) && NonNegative(rail.ledger, Processed(ids, fees, p.treasury))
    && buyer in ps.of && PlanOk(rail.ledger, Processed(ids, fees, p.treasury), buyer, ps.of[buyer]) && !ps.of[buyer].skippable
    && Owes(rail.ledger, ids, buyer) && Linked(rail.ledger, env, ids, buyer)
  }

  predicate PlanClean(rail: Rail, delegate: string, bs: seq<PlanBatch>) {
    forall i :: 0 <= i < |bs| ==> bs[i].legs != [] && ValidIds(rail.ledger, bs[i].legs) && Clean(rail, delegate, bs[i])
  }

  /** A planned batch has nothing of value anchored when the buyer has not. */
  lemma UnanchoredBatch(rail: Rail, done: seq<nat>, buyer: string, pl: Plan, i: nat)
    requires ValidIds(rail.ledger, done) && PlanOk(rail.ledger, done, buyer, pl) && NonNegative(rail.ledger, done)
    requires Unanchored(rail, done, buyer) && i < |pl.batches| && ValidIds(rail.ledger, pl.batches[i].legs)
    ensures OldPart(rail.ledger, rail.anchors, pl.batches[i].legs) == 0
  {
    var legs := pl.batches[i].legs;
    LegsNonNegative(rail.ledger, done, buyer, pl, i);
    forall l | l in legs ensures !WorthAnchored(rail, l) {
      LegOfBuyer(rail.ledger, done, buyer, pl, i, l);
      var x :| 0 <= x < |done| && done[x] == l;
    }
    OldPartZeroIff(rail, legs);
  }

  lemma UntouchedBatch(rail: Rail, p: Params, env: Env, fees: seq<nat>, ps: Plans, buyer: string, i: nat)
    requires Settling(rail, p, env, fees, ps, buyer) && Untouched(rail, p, env, fees, buyer) && i < |ps.of[buyer].batches|
    ensures var b := ps.of[buyer].batches[i]; b.legs != [] && ValidIds(rail.ledger, b.legs) && Clean(rail, p.delegate, b)
  {
    var done := Processed(Selected(rail, p), fees, p.treasury);
    var bs := ps.of[buyer].batches;
    PlanBatchSound(rail.ledger, done, buyer, ps.of[buyer], i);
    UnanchoredBatch(rail, done, buyer, ps.of[buyer], i);
    BatchOfPlan(rail.ledger, Selected(rail, p), fees, p.treasury, env, buyer, bs, i);
    BatchRefFree(rail, p, env, fees, buyer, bs[i]);
  }

  lemma UntouchedIsClean(rail: Rail, p: Params, env: Env, fees: seq<nat>, ps: Plans, buyer: string)
    requires Settling(rail, p, env, fees, ps, buyer) && Untouched(rail, p, env, fees, buyer)
    ensures PlanClean(rail, p.delegate, ps.of[buyer].batches)
  {
    var bs := ps.of[buyer].batches;
    forall i | 0 <= i < |bs| ensures bs[i].legs != [] && ValidIds(rail.ledger, bs[i].legs) && Clean(rail, p.delegate, bs[i]) {
      UntouchedBatch(rail, p, env, fees, ps, buyer, i);
    }
  }

  lemma BatchRefFree(rail: Rail, p: Params, env: Env, fees: seq<nat>, buyer: string, b: PlanBatch)
    requires ValidIds(rail.ledger, fees) && RefsFree(rail, p, env, fees, buyer) && b.legs != [] && b.buyer == buyer
    requires var ids := Selected(rail, p);
      !b.isFee ==> GoesSomewhere(rail.ledger, ids, env, buyer, b.dest) && b.legs == DestLegs(rail.ledger, ids, env, buyer, b.dest)
    requires b.isFee ==> p.treasury != "" && b.dest == p.treasury && b.legs == BuyerLegs(rail.ledger, fees, buyer)
    ensures !RefTaken(rail.batches, SettlementRef(p.delegate, b))
  {
    var ids := Selected(rail, p);
    assert SettlementRef(p.delegate, b) == LegsRef(p.delegate, buyer, b.dest, b.isFee, b.legs);
    if !b.isFee {
      var i :| 0 <= i < |ids| && Goes(rail.ledger[ids[i] - 1], env, buyer, b.dest);
      assert Free(rail, p.delegate, buyer, b.dest, false, b.legs);
    }
  }

  lemma CleanLeg(rail: Rail, done: seq<nat>, delegate: string, buyer: string, pl: Plan, l: nat)
    requires ValidIds(rail.ledger, done) && PlanOk(rail.ledger, done, buyer, pl) && !pl.skippable && NonNegative(rail.ledger, done)
    requires PlanClean(rail, delegate, pl.batches)
    requires l in done && 1 <= l <= |rail.ledger| && rail.ledger[l - 1].counterparty == buyer
    ensures !WorthAnchored(rail, l)
  {
    assert LegBag(pl.batches)[l] > 0;
    var x := BagInLegs(pl.batches, l);
    LegsNonNegative(rail.ledger, done, buyer, pl, x);
    OldPartZeroIff(rail, pl.batches[x].legs);
  }

  lemma CleanIsUnanchored(rail: Rail, p: Params, env: Env, fees: seq<nat>, ps: Plans, buyer: string)
    requires Settling(rail, p, env, fees, ps, buyer) && PlanClean(rail, p.delegate, ps.of[buyer].batches)
    ensures Unanchored(rail, Processed(Selected(rail, p), fees, p.treasury), buyer)
  {
    var done := Processed(Selected(rail, p), fees, p.treasury);
    forall i | 0 <= i < |done| && rail.ledger[done[i] - 1].counterparty == buyer && rail.ledger[done[i] - 1].delta > 0
      ensures !Anchored(rail.anchors, done[i])
    {
      CleanLeg(rail, done, p.delegate, buyer, ps.of[buyer], done[i]);
      assert !WorthAnchored(rail, done[i]);
    }
  }

  lemma CleanIsFree(rail: Rail, p: Params, env: Env, fees: seq<nat>, ps: Plans, buyer: string)
    requires Settling(rail, p, env, fees, ps, buyer) && PlanClean(rail, p.delegate, ps.of[buyer].batches)
    ensures RefsFree(rail, p, env, fees, buyer)
  {
    var ids := Selected(rail, p);
    forall i | 0 <= i < |ids| && rail.ledger[ids[i] - 1].counterparty == buyer
      ensures var dest := WalletOf(env, rail.ledger[ids[i] - 1].account);
        Free(rail, p.delegate, buyer, dest, false, DestLegs(rail.ledger, ids, env, buyer, dest))
    {
      var dest := WalletOf(env, rail.ledger[ids[i] - 1].account);
      assert Goes(rail.ledger[ids[i] - 1], env, buyer, dest);
      DestIsFree(rail, p, env, fees, ps, buyer, ids, dest);
    }
    if p.treasury != "" { FeeIsFree(rail, p, env, fees, ps, buyer); }
  }

  lemma DestIsFree(rail: Rail, p: Params, env: Env, fees: seq<nat>, ps: Plans, buyer: string, ids: seq<nat>, dest: string)
    requires Settling(rail, p, env, fees, ps, buyer) && PlanClean(rail, p.delegate, ps.of[buyer].batches)
    requires ids == Selected(rail, p) && GoesSomewhere(rail.ledger, ids, env, buyer, dest)
    ensures Free(rail, p.delegate, buyer, dest, false, DestLegs(rail.ledger, ids, env, buyer, dest))
  {
    var x := BatchOfDest(rail.ledger, ids, fees, p.treasury, env, buyer, ps.of[buyer].batches, dest);
    BatchIsFree(rail, p, env, fees, ps, buyer, x);
  }

  lemma FeeIsFree(rail: Rail, p: Params, env: Env, fees: seq<nat>, ps: Plans, buyer: string)
    requires Settling(rail, p, env, fees, ps, buyer) && PlanClean(rail, p.delegate, ps.of[buyer].batches) && p.treasury != ""
    ensures Free(rail, p.delegate, buyer, p.treasury, true, BuyerLegs(rail.ledger, fees, buyer))
  {
    FeeSlotIs(rail.ledger, fees, buyer);
    if Owes(rail.ledger, fees, buyer) {
      var x := BatchOfFee(rail.ledger, Selected(rail, p), fees, p.treasury, env, buyer, ps.of[buyer].batches);
      BatchIsFree(rail, p, env, fees, ps, buyer, x);
    }
  }

  lemma BatchIsFree(rail: Rail, p: Params, env: Env, fees: seq<nat>, ps: Plans, buyer: string, x: nat)
    requires Settling(rail, p, env, fees, ps, buyer) && PlanClean(rail, p.delegate, ps.of[buyer].batches) && x < |ps.of[buyer].batches|
    ensures var b := ps.of[buyer].batches[x]; Free(rail, p.delegate, buyer, b.dest, b.isFee, b.legs)
  {
    var b := ps.of[buyer].batches[x];
    PlanBatchSound(rail.ledger, Processed(Selected(rail, p), fees, p.treasury), buyer, ps.of[buyer], x);
    assert SettlementRef(p.delegate, b) == LegsRef(p.delegate, buyer, b.dest, b.isFee, b.legs);
  }

  lemma PlanCleanIff(rail: Rail, p: Params, env: Env, fees: seq<nat>, ps: Plans, buyer: string)
    requires Settling(rail, p, env, fees, ps, buyer)
    ensures PlanClean(rail, p.delegate, ps.of[buyer].batches) <==> Untouched(rail, p, env, fees, buyer)
  {
    if PlanClean(rail, p.delegate, ps.of[buyer].batches) {
      CleanIsUnanchored(rail, p, env, fees, ps, buyer);
      CleanIsFree(rail, p, env, fees, ps, buyer);
    }
    if Untouched(rail, p, env, fees, buyer) { UntouchedIsClean(rail, p, env, fees, ps, buyer); }
  }

  /** The whole list is clean exactly when every settling buyer's plan is. */
  lemma FlatCleanIff(rail: Rail, done: seq<nat>, delegate: string, ps: Plans, order: seq<string>)
    requires ValidIds(rail.ledger, done) && PlansOk(rail.ledger, done, ps)
    requires AllSound(rail.ledger, Flat(rail, delegate, ps, order))
    ensures AllClean(rail, delegate, Flat(rail, delegate, ps, order))
       <==> forall b {:trigger Settles(rail, delegate, ps, b)} | b in order && Settles(rail, delegate, ps, b) :: PlanClean(rail, delegate, ps.of[b].batches)
  {
    var bs := Flat(rail, delegate, ps, order);
    if AllClean(rail, delegate, bs) {
      forall b, i | b in order && Settles(rail, delegate, ps, b) && 0 <= i < |ps.of[b].batches|
        ensures ps.of[b].batches[i].legs != [] && ValidIds(rail.ledger, ps.of[b].batches[i].legs) && Clean(rail, delegate, ps.of[b].batches[i])
      {
        var j := InFlat(rail, delegate, ps, order, b, i);
        assert Sound(rail.ledger, bs[j]) && Clean(rail, delegate, bs[j]);
      }
    }
    if forall b {:trigger Settles(rail, delegate, ps, b)} | b in order && Settles(rail, delegate, ps, b) :: PlanClean(rail, delegate, ps.of[b].batches) {
      forall j | 0 <= j < |bs| ensures Sound(rail.ledger, bs[j]) && Clean(rail, delegate, bs[j]) {
        assert Sound(rail.ledger, bs[j]);
        FlatFrom(rail, done, delegate, ps, order, j);
        var i :| 0 <= i < |ps.of[bs[j].buyer].batches| && ps.of[bs[j].buyer].batches[i] == bs[j];
        assert PlanClean(rail, delegate, ps.of[bs[j].buyer].batches);
      }
    }
  }

  // ---------- the pass ----------

  /** Exact insertion is a balanced pass. */
  lemma ExactIsBalanced(rail: Rail, r: Rail, done: Rail, processed: seq<nat>, delegate: string, env: Env, ps: Plans, order: seq<string>)
    requires ValidIds(rail.ledger, processed) && PlansOk(rail.ledger, processed, ps) && PlansReady(ps)
    requires forall i, j :: 0 <= i < j < |order| ==> order[i] != order[j]
    requires CommitsAs(rail, done, delegate, env, ps, order) && r == done.(cursors := r.cursors)
    ensures Balances(rail, r) <==> ExactBooks(rail, done, delegate, Flat(rail, delegate, ps, order))
  {
    var bs := Flat(rail, delegate, ps, order);
    forall k ensures Conserves(rail, r, k) <==> Outstanding(done.batches, k) == Outstanding(rail.batches, k) + Drawn(bs, delegate, k) {
      assert RowAfter(rail, done, delegate, ps, order, k);
      FlatDrawn(rail, processed, delegate, ps, order, k);
    }
    SameSums(done, r);
    if Balances(rail, r) {
      forall k ensures Outstanding(done.batches, k) == Outstanding(rail.batches, k) + Drawn(bs, delegate, k) { assert Conserves(rail, r, k); }
    }
    if ExactBooks(rail, done, delegate, bs) {
      forall k ensures Conserves(rail, r, k) {
        assert Outstanding(done.batches, k) == Outstanding(rail.batches, k) + Drawn(bs, delegate, k);
      }
    }
  }

  lemma SameSums(a: Rail, b: Rail)
    requires a.ledger == b.ledger && a.batches == b.batches && a.anchors == b.anchors
    ensures SumsOk(a) <==> SumsOk(b)
  {
    if SumsOk(a) { forall i: nat | i < |b.batches| ensures SumOk(b, i) { assert SumOk(a, i); } }
    if SumsOk(b) { forall i: nat | i < |a.batches| ensures SumOk(a, i) { assert SumOk(b, i); } }
  }

  ghost predicate AllUntouched(rail: Rail, p: Params, env: Env, fees: seq<nat>)
    requires ValidIds(rail.ledger, fees)
  {
    forall buyer {:trigger Untouched(rail, p, env, fees, buyer)} | Pays(rail, p, env, buyer) :: Untouched(rail, p, env, fees, buyer)
  }

  lemma CommitBalancesIff(rail: Rail, p: Params, env: Env, fees: seq<nat>, ps: Plans)
    requires RailOk(rail) && LedgerOk(rail.ledger) && FeesOf(rail.ledger, Selected(rail, p), fees)
    requires ValidIds(rail.ledger, Processed(Selected(rail, p), fees, p.treasury))
    requires NonNegative(rail.ledger, Processed(Selected(rail, p), fees, p.treasury))
    requires PlanAll(rail.ledger, Selected(rail, p), fees, p.treasury, env) == Some(ps)
    requires PlansReady(ps) && PlansOk(rail.ledger, Processed(Selected(rail, p), fees, p.treasury), ps)
    requires CommitAll(rail, p.delegate, env, ps, ps.order).Ok?
    ensures ExactBooks(rail, CommitAll(rail, p.delegate, env, ps, ps.order).value, p.delegate, Flat(rail, p.delegate, ps, ps.order))
       <==> AllUntouched(rail, p, env, fees)
  {
    var processed := Processed(Selected(rail, p), fees, p.treasury);
    var bs := Flat(rail, p.delegate, ps, ps.order);
    var done := CommitAll(rail, p.delegate, env, ps, ps.order).value;
    RailIds(rail);
    FlatReady(rail, p.delegate, ps, ps.order);
    FlatSound(rail, processed, p.delegate, ps, ps.order);
    FlatDisjoint(rail, processed, p.delegate, ps, ps.order);
    CommitIsInsert(rail, p.delegate, env, ps, ps.order);
    InsertAllExactIff(rail, p.delegate, env, bs);
    SameExact(rail, done.(allowances := rail.allowances), done, p.delegate, bs);
    FlatCleanIff(rail, processed, p.delegate, ps, ps.order);
    PayersUntouched(rail, p, env, fees, ps);
  }

  lemma SameExact(rail: Rail, a: Rail, b: Rail, delegate: string, bs: seq<PlanBatch>)
    requires a.ledger == b.ledger && a.batches == b.batches && a.anchors == b.anchors
    ensures ExactBooks(rail, a, delegate, bs) <==> ExactBooks(rail, b, delegate, bs)
  {
    SameSums(a, b);
  }

  /** The buyers that settle are those that pay, so their plans are clean exactly when they are untouched. */
  lemma PayersUntouched(rail: Rail, p: Params, env: Env, fees: seq<nat>, ps: Plans)
    requires LedgerOk(rail.ledger) && FeesOf(rail.ledger, Selected(rail, p), fees)
    requires ValidIds(rail.ledger, Processed(Selected(rail, p), fees, p.treasury))
    requires NonNegative(rail.ledger, Processed(Selected(rail, p), fees, p.treasury))
    requires PlanAll(rail.ledger, Selected(rail, p), fees, p.treasury, env) == Some(ps)
    requires PlansReady(ps) && PlansOk(rail.ledger, Processed(Selected(rail, p), fees, p.treasury), ps)
    requires CommitAll(rail, p.delegate, env, ps, ps.order).Ok?
    ensures (forall b {:trigger Settles(rail, p.delegate, ps, b)} | b in ps.order && Settles(rail, p.delegate, ps, b) ::
               PlanClean(rail, p.delegate, ps.of[b].batches))
       <==> AllUntouched(rail, p, env, fees)
  {
    forall b ensures Settles(rail, p.delegate, ps, b) <==> Pays(rail, p, env, b)
      ensures Pays(rail, p, env, b) ==> b in ps.order && (PlanClean(rail, p.delegate, ps.of[b].batches) <==> Untouched(rail, p, env, fees, b))
    {
      SettlesIffPays(rail, p, env, fees, ps, b);
      if Pays(rail, p, env, b) {
        assert PlanOk(rail.ledger, Processed(Selected(rail, p), fees, p.treasury), b, ps.of[b]);
        PlanCleanIff(rail, p, env, fees, ps, b);
      }
    }
  }

  /** Whatever is anchored already, a successful pass leaves every batch equal to its anchored legs and every
      row conserved if and only if, for each buyer that pays, no leg of value is anchored and no ref of its
      destinations is taken. */
  lemma PassBalancesIff(rail: Rail, p: Params, env: Env, fees: seq<nat>)
    requires RailOk(rail) && LedgerOk(rail.ledger) && FeesOf(rail.ledger, Selected(rail, p), fees)
    requires NonNegative(rail.ledger, Processed(Selected(rail, p), fees, p.treasury)) && ClaimTx(rail, p, env, fees).1.Ok?
    ensures Balances(rail, ClaimTx(rail, p, env, fees).0) <==> AllUntouched(rail, p, env, fees)
  {
    var ids := Selected(rail, p);
    var r := ClaimTx(rail, p, env, fees).0;
    if ids == [] {
      RailIds(rail);
      assert forall b :: !Pays(rail, p, env, b);
    } else {
      SelectedEarn(rail, p);
      PlanAllReady(rail.ledger, ids, fees, p.treasury, env);
      PlanAllOk(rail.ledger, ids, fees, p.treasury, env);
      var ps := PlanAll(rail.ledger, ids, fees, p.treasury, env).value;
      CommitIsInsert(rail, p.delegate, env, ps, ps.order);
      CommitAllGrows(rail, p.delegate, env, ps, ps.order);
      CommitBalancesIff(rail, p, env, fees, ps);
      ExactIsBalanced(rail, r, CommitAll(rail, p.delegate, env, ps, ps.order).value, Processed(ids, fees, p.treasury),
                      p.delegate, env, ps, ps.order);
    }
  }

  // ---------- two readings ----------

  lemma {:induction false} DestLegsIn(ledger: seq<Row>, ids: seq<nat>, env: Env, buyer: string, dest: string, l: nat)
    requires ValidIds(ledger, ids) && l in DestLegs(ledger, ids, env, buyer, dest)
    ensures l in ids && 1 <= l <= |ledger| && ledger[l - 1].counterparty == buyer
  {
    var init := ids[..|ids| - 1];
    assert ids == init + [ids[|ids| - 1]];
    if l in DestLegs(ledger, init, env, buyer, dest) { DestLegsIn(ledger, init, env, buyer, dest, l); }
  }

  lemma {:induction false} BuyerLegsIn(ledger: seq<Row>, legs: seq<nat>, buyer: string, l: nat)
    requires ValidIds(ledger, legs) && l in BuyerLegs(ledger, legs, buyer)
    ensures l in legs && 1 <= l <= |ledger| && ledger[l - 1].counterparty == buyer
  {
    var init := legs[..|legs| - 1];
    assert legs == init + [legs[|legs| - 1]];
    if l in BuyerLegs(ledger, init, buyer) { BuyerLegsIn(ledger, init, buyer, l); }
  }

  /** None of the buyer's legs is anchored. */
  predicate NoneAnchored(rail: Rail, legs: seq<nat>, buyer: string) {
    forall l {:trigger Anchored(rail.anchors, l)} | l in legs && 1 <= l <= |rail.ledger| && rail.ledger[l - 1].counterparty == buyer ::
      !Anchored(rail.anchors, l)
  }

  lemma FreshLegsFree(rail: Rail, delegate: string, buyer: string, dest: string, isFee: bool, legs: seq<nat>)
    requires RailOk(rail) && forall l | l in legs :: !Anchored(rail.anchors, l)
    ensures Free(rail, delegate, buyer, dest, isFee, legs)
  {
    if legs != [] { FreshRef(rail, delegate, PlanBatch(buyer, "", dest, 0, legs, isFee)); }
  }

  /** A ref is only taken where a leg is. */
  lemma FreshIsUntouched(rail: Rail, p: Params, env: Env, fees: seq<nat>, buyer: string)
    requires RailOk(rail) && ValidIds(rail.ledger, fees) && NoneAnchored(rail, Processed(Selected(rail, p), fees, p.treasury), buyer)
    ensures Untouched(rail, p, env, fees, buyer)
  {
    var ids := Selected(rail, p);
    var done := Processed(ids, fees, p.treasury);
    forall i | 0 <= i < |ids| && rail.ledger[ids[i] - 1].counterparty == buyer
      ensures var dest := WalletOf(env, rail.ledger[ids[i] - 1].account);
        Free(rail, p.delegate, buyer, dest, false, DestLegs(rail.ledger, ids, env, buyer, dest))
    {
      var dest := WalletOf(env, rail.ledger[ids[i] - 1].account);
      forall l | l in DestLegs(rail.ledger, ids, env, buyer, dest) ensures !Anchored(rail.anchors, l) {
        DestLegsIn(rail.ledger, ids, env, buyer, dest, l);
        assert l in done;
      }
      FreshLegsFree(rail, p.delegate, buyer, dest, false, DestLegs(rail.ledger, ids, env, buyer, dest));
    }
    if p.treasury != "" {
      forall l | l in BuyerLegs(rail.ledger, fees, buyer) ensures !Anchored(rail.anchors, l) {
        BuyerLegsIn(rail.ledger, fees, buyer, l);
        assert l in done;
      }
      FreshLegsFree(rail, p.delegate, buyer, p.treasury, true, BuyerLegs(rail.ledger, fees, buyer));
    }
  }

  /** Where every share is positive, the books balance if and only if nothing a paying buyer is charged for
      is anchored already. */
  lemma PositivePassIff(rail: Rail, p: Params, env: Env, fees: seq<nat>)
    requires RailOk(rail) && LedgerOk(rail.ledger) && FeesOf(rail.ledger, Selected(rail, p), fees) && ClaimTx(rail, p, env, fees).1.Ok?
    requires forall l | l in Processed(Selected(rail, p), fees, p.treasury) && 1 <= l <= |rail.ledger| :: rail.ledger[l - 1].delta > 0
    ensures Balances(rail, ClaimTx(rail, p, env, fees).0)
       <==> forall b {:trigger Pays(rail, p, env, b)} | Pays(rail, p, env, b) :: NoneAnchored(rail, Processed(Selected(rail, p), fees, p.treasury), b)
  {
    var done := Processed(Selected(rail, p), fees, p.treasury);
    forall i | 0 <= i < |done| && 1 <= done[i] <= |rail.ledger| ensures rail.ledger[done[i] - 1].delta >= 0 { assert done[i] in done; }
    PassBalancesIff(rail, p, env, fees);
    forall b ensures Untouched(rail, p, env, fees, b) <==> NoneAnchored(rail, done, b) {
      PositiveUntouched(rail, p, env, fees, b);
    }
  }

  lemma PositiveUntouched(rail: Rail, p: Params, env: Env, fees: seq<nat>, b: string)
    requires RailOk(rail) && ValidIds(rail.ledger, fees)
    requires forall l | l in Processed(Selected(rail, p), fees, p.treasury) && 1 <= l <= |rail.ledger| :: rail.ledger[l - 1].delta > 0
    ensures Untouched(rail, p, env, fees, b) <==> NoneAnchored(rail, Processed(Selected(rail, p), fees, p.treasury), b)
  {
    var done := Processed(Selected(rail, p), fees, p.treasury);
    if NoneAnchored(rail, done, b) { FreshIsUntouched(rail, p, env, fees, b); }
    if Untouched(rail, p, env, fees, b) {
      forall l | l in done && 1 <= l <= |rail.ledger| && rail.ledger[l - 1].counterparty == b ensures !Anchored(rail.anchors, l) {
        var i :| 0 <= i < |done| && done[i] == l;
      }
    }
  }

  /** With zero shares too, a pass whose paying buyers have nothing anchored yet balances. */
  lemma FreshPassBalances(rail: Rail, p: Params, env: Env, fees: seq<nat>)
    requires RailOk(rail) && LedgerOk(rail.ledger) && FeesOf(rail.ledger, Selected(rail, p), fees)
    requires NonNegative(rail.ledger, Processed(Selected(rail, p), fees, p.treasury)) && ClaimTx(rail, p, env, fees).1.Ok?
    requires forall b {:trigger Pays(rail, p, env, b)} | Pays(rail, p, env, b) ::
        NoneAnchored(rail, Processed(Selected(rail, p), fees, p.treasury), b)
    ensures Balances(rail, ClaimTx(rail, p, env, fees).0)
  {
    PassBalancesIff(rail, p, env, fees);
    forall b | Pays(rail, p, env, b) ensures Untouched(rail, p, env, fees, b) {
      FreshIsUntouched(rail, p, env, fees, b);
    }
  }
}

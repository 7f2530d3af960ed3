/** Claim passes over legs that may already be anchored, as after a second delegate's pass or a cursor
    regression: exactly when the books still balance. */
module ClaimOverlap {
  import opened Common
  import opened Billing
  import opened Tables
  import opened Claims
  import opened ClaimProofs
  import opened ClaimCost
  import opened RailProofs
  import opened Settlement
  import opened ClaimPass
  import opened ClaimSuccess

  // ---------- what a pass should leave ----------

  /** A batch is the sum of the legs anchored to it. */
  predicate SumOk(rail: Rail, i: nat)
    requires i < |rail.batches| && LegsExist(rail.ledger, rail.anchors)
  {
    rail.batches[i].amount == AnchorSum(rail.ledger, rail.anchors, i + 1)
  }

  /** Every batch is. */
  ghost predicate SumsOk(rail: Rail) {
    && LegsExist(rail.ledger, rail.anchors)
    && forall i: nat {:trigger SumOk(rail, i)} | i < |rail.batches| :: SumOk(rail, i)
  }

  /** Batches add up, and every allowance row together with its batches is what it was. */
  ghost predicate Balances(rail: Rail, r: Rail) {
    SumsOk(r) && forall k {:trigger Conserves(rail, r, k)} :: Conserves(rail, r, k)
  }

  /** Anchors name batches that exist. */
  predicate IdsOk(rail: Rail) {
    LegsExist(rail.ledger, rail.anchors) && forall i :: 0 <= i < |rail.anchors| ==> rail.anchors[i].batch <= |rail.batches|
  }

  lemma RailIds(rail: Rail)
    requires RailOk(rail)
    ensures IdsOk(rail) && SumsOk(rail)
  {
    forall i | 0 <= i < |rail.anchors| ensures rail.anchors[i].batch <= |rail.batches| { assert AnchorOk(rail, rail.anchors[i]); }
    forall i: nat | i < |rail.batches| ensures SumOk(rail, i) { assert BatchOk(rail, i); }
  }

  // ---------- one batch ----------

  /** The batch takes no earlier batch's ref, and nothing of value in it is anchored already. */
  predicate Clean(rail: Rail, delegate: string, b: PlanBatch)
    requires b.legs != [] && ValidIds(rail.ledger, b.legs)
  {
    !RefTaken(rail.batches, SettlementRef(delegate, b)) && OldPart(rail.ledger, rail.anchors, b.legs) == 0
  }

  predicate Sound(ledger: seq<Row>, b: PlanBatch) {
    b.legs != [] && ValidIds(ledger, b.legs) && Distinct(b.legs) && b.amount == LegsSum(ledger, b.legs)
  }

  predicate AllSound(ledger: seq<Row>, bs: seq<PlanBatch>) {
    forall i {:trigger Sound(ledger, bs[i])} :: 0 <= i < |bs| ==> Sound(ledger, bs[i])
  }

  predicate InSome(bs: seq<PlanBatch>, l: nat) {
    exists i :: 0 <= i < |bs| && l in bs[i].legs
  }

  /** No leg is in two of the batches. */
  predicate Disjoint(bs: seq<PlanBatch>) {
    forall i, j, l :: 0 <= i < j < |bs| && l in bs[i].legs ==> l !in bs[j].legs
  }

  /** What the batches draw on one row. */
  function Drawn(bs: seq<PlanBatch>, delegate: string, k: AllowanceKey): int {
    if bs == [] then 0
    else
      var b := bs[|bs| - 1];
      Drawn(bs[..|bs| - 1], delegate, k) + (if (b.buyer, delegate) == k then b.amount else 0)
  }

  /** What inserting some batches adds: refs and anchored legs are the batches' own. */
  ghost predicate Grew(rail: Rail, r: Rail, delegate: string, bs: seq<PlanBatch>)
    requires LegsNonEmpty(bs)
  {
    && IdsOk(r) && r.ledger == rail.ledger && rail.batches <= r.batches
    && (forall i {:trigger r.batches[i]} :: |rail.batches| <= i < |r.batches| ==> RefOfSome(delegate, bs, r.batches[i].ref))
    && (forall l {:trigger Anchored(r.anchors, l)} :: Anchored(rail.anchors, l) ==> Anchored(r.anchors, l))
    && (forall l {:trigger Anchored(r.anchors, l)} :: Anchored(r.anchors, l) ==> Anchored(rail.anchors, l) || InSome(bs, l))
  }

  predicate RefOfSome(delegate: string, bs: seq<PlanBatch>, ref: string)
    requires LegsNonEmpty(bs)
  {
    exists j :: 0 <= j < |bs| && ref == SettlementRef(delegate, bs[j])
  }

  /** Batches without a common leg have different refs. */
  lemma OtherRef(delegate: string, a: PlanBatch, b: PlanBatch)
    requires a.legs != [] && b.legs != [] && forall l | l in a.legs :: l !in b.legs
    ensures SettlementRef(delegate, a) != SettlementRef(delegate, b)
  {
    if SettlementRef(delegate, a) == SettlementRef(delegate, b) {
      RefNamesLegs(RefPrefix(delegate, a), MinLeg(a.legs), MaxLeg(a.legs), RefPrefix(delegate, b), MinLeg(b.legs), MaxLeg(b.legs));
    }
  }

  /** The earlier batches of the pass do not change whether this one is clean. */
  lemma CleanStays(rail: Rail, mid: Rail, delegate: string, init: seq<PlanBatch>, b: PlanBatch)
    requires LegsNonEmpty(init) && Grew(rail, mid, delegate, init) && Sound(rail.ledger, b)
    requires forall l | l in b.legs :: !InSome(init, l)
    ensures RefTaken(mid.batches, SettlementRef(delegate, b)) <==> RefTaken(rail.batches, SettlementRef(delegate, b))
    ensures OldPart(rail.ledger, mid.anchors, b.legs) == OldPart(rail.ledger, rail.anchors, b.legs)
  {
    var ref := SettlementRef(delegate, b);
    if RefTaken(rail.batches, ref) {
      var i :| 0 <= i < |rail.batches| && rail.batches[i].ref == ref;
      assert mid.batches[i].ref == ref;
    }
    if i :| |rail.batches| <= i < |mid.batches| && mid.batches[i].ref == ref {
      var j :| 0 <= j < |init| && ref == SettlementRef(delegate, init[j]);
      forall l | l in init[j].legs ensures l !in b.legs {
        assert InSome(init, l);
      }
      OtherRef(delegate, init[j], b);
    }
    SameOldPart(rail.ledger, rail.anchors, mid.anchors, b.legs);
  }

  lemma {:induction false} SameOldPart(ledger: seq<Row>, anchors: seq<Anchor>, anchors': seq<Anchor>, legs: seq<nat>)
    requires ValidIds(ledger, legs) && forall l | l in legs :: Anchored(anchors', l) <==> Anchored(anchors, l)
    ensures OldPart(ledger, anchors', legs) == OldPart(ledger, anchors, legs)
  {
    if legs != [] { SameOldPart(ledger, anchors, anchors', legs[..|legs| - 1]); }
  }

  // ---------- inserting one batch ----------

  lemma OtherSum(ledger: seq<Row>, anchors: seq<Anchor>, id: nat, legs: seq<nat>, x: nat)
    requires LegsExist(ledger, anchors) && ValidIds(ledger, legs) && Distinct(legs) && x != id
    requires forall j :: 0 <= j < |anchors| ==> anchors[j].batch != id
    ensures LegsExist(ledger, AnchorAll(anchors, id, legs))
    ensures AnchorSum(ledger, AnchorAll(anchors, id, legs), x) == AnchorSum(ledger, anchors, x)
  {
    AnchorAllSum(ledger, anchors, id, legs, x);
  }

  lemma NewSumIff(mid: Rail, r: Rail, b: PlanBatch)
    requires IdsOk(mid) && IdsOk(r) && Sound(mid.ledger, b) && Inserted(mid, r, b) && r.batches[|mid.batches|].amount == b.amount
    ensures SumOk(r, |mid.batches|) <==> OldPart(mid.ledger, mid.anchors, b.legs) == 0
  {
    InsertedIds(mid, r, b);
    AnchorAllSum(mid.ledger, mid.anchors, |mid.batches| + 1, b.legs, |mid.batches| + 1);
  }

  /** A batch that is inserted: the sums of the others stay, and its own is right if nothing old is in it. */
  lemma InsertedSums(mid: Rail, r: Rail, b: PlanBatch)
    requires IdsOk(mid) && Sound(mid.ledger, b) && Inserted(mid, r, b) && r.batches[|mid.batches|].amount == b.amount
    ensures IdsOk(r)
    ensures SumsOk(r) <==> SumsOk(mid) && OldPart(mid.ledger, mid.anchors, b.legs) == 0
  {
    InsertedIds(mid, r, b);
    NewSumIff(mid, r, b);
    forall i: nat | i < |mid.batches| ensures SumOk(r, i) <==> SumOk(mid, i) {
      OtherSum(mid.ledger, mid.anchors, |mid.batches| + 1, b.legs, i + 1);
      assert r.batches[i] == mid.batches[i];
    }
    AllSumsIff(mid, r);
  }

  lemma AllSumsIff(mid: Rail, r: Rail)
    requires IdsOk(mid) && IdsOk(r) && |r.batches| == |mid.batches| + 1
    requires forall i: nat {:trigger SumOk(r, i)} {:trigger SumOk(mid, i)} | i < |mid.batches| :: SumOk(r, i) <==> SumOk(mid, i)
    ensures SumsOk(r) <==> SumsOk(mid) && SumOk(r, |mid.batches|)
  {}

  lemma InsertedIds(mid: Rail, r: Rail, b: PlanBatch)
    requires IdsOk(mid) && Sound(mid.ledger, b) && Inserted(mid, r, b)
    ensures IdsOk(r) && forall i :: 0 <= i < |mid.anchors| ==> mid.anchors[i].batch != |mid.batches| + 1
  {
    AnchorAllMembers(mid.anchors, |mid.batches| + 1, b.legs, 0);
    AnchorAllSum(mid.ledger, mid.anchors, |mid.batches| + 1, b.legs, 0);
  }

  // ---------- inserting all ----------

  /** The outcome of inserting some batches. */
  ghost predicate ExactBooks(rail: Rail, r: Rail, delegate: string, bs: seq<PlanBatch>) {
    SumsOk(r) && forall k {:trigger Drawn(bs, delegate, k)} :: Outstanding(r.batches, k) == Outstanding(rail.batches, k) + Drawn(bs, delegate, k)
  }

  ghost predicate AtMost(rail: Rail, r: Rail, delegate: string, bs: seq<PlanBatch>) {
    forall k {:trigger Drawn(bs, delegate, k)} :: Outstanding(r.batches, k) <= Outstanding(rail.batches, k) + Drawn(bs, delegate, k)
  }

  predicate AllClean(rail: Rail, delegate: string, bs: seq<PlanBatch>)
    requires AllSound(rail.ledger, bs)
  {
    forall i :: 0 <= i < |bs| ==> Sound(rail.ledger, bs[i]) && Clean(rail, delegate, bs[i])
  }

  lemma DrawnSnoc(init: seq<PlanBatch>, b: PlanBatch, delegate: string, k: AllowanceKey)
    ensures Drawn(init + [b], delegate, k) == Drawn(init, delegate, k) + (if (b.buyer, delegate) == k then b.amount else 0)
  {
    assert (init + [b])[..|init|] == init;
  }

  /** One batch more. */
  lemma StepExact(rail: Rail, mid: Rail, r: Rail, delegate: string, env: Env, init: seq<PlanBatch>, b: PlanBatch, bs: seq<PlanBatch>)
    requires bs == init + [b] && LegsNonEmpty(init) && Grew(rail, mid, delegate, init) && Sound(rail.ledger, b)
    requires (forall l | l in b.legs :: !InSome(init, l)) && AtMost(rail, mid, delegate, init)
    requires InsertBatch(mid, delegate, env, b) == Ok(r)
    ensures LegsNonEmpty(bs) && Grew(rail, r, delegate, bs) && AtMost(rail, r, delegate, bs)
    ensures ExactBooks(rail, r, delegate, bs) <==> ExactBooks(rail, mid, delegate, init) && Clean(rail, delegate, b)
  {
    CleanStays(rail, mid, delegate, init, b);
    StepGrows(rail, mid, r, delegate, env, init, b, bs);
    forall k ensures Drawn(bs, delegate, k) == Drawn(init, delegate, k) + (if (b.buyer, delegate) == k then b.amount else 0) {
      DrawnSnoc(init, b, delegate, k);
    }
    if RefTaken(mid.batches, SettlementRef(delegate, b)) {
      StepSkips(rail, mid, delegate, init, b, bs);
    } else {
      StepInserts(rail, mid, r, delegate, env, init, b, bs);
    }
  }

  /** The ref is taken: the amount is drawn and nothing is inserted. */
  lemma StepSkips(rail: Rail, mid: Rail, delegate: string, init: seq<PlanBatch>, b: PlanBatch, bs: seq<PlanBatch>)
    requires b.amount > 0 && AtMost(rail, mid, delegate, init)
    requires forall k {:trigger Drawn(bs, delegate, k)} ::
        Drawn(bs, delegate, k) == Drawn(init, delegate, k) + (if (b.buyer, delegate) == k then b.amount else 0)
    ensures AtMost(rail, mid, delegate, bs) && !ExactBooks(rail, mid, delegate, bs)
  {
    var k := (b.buyer, delegate);
    assert Drawn(bs, delegate, k) == Drawn(init, delegate, k) + b.amount;
    assert Outstanding(mid.batches, k) <= Outstanding(rail.batches, k) + Drawn(init, delegate, k);
    forall k ensures Outstanding(mid.batches, k) <= Outstanding(rail.batches, k) + Drawn(bs, delegate, k) {
      assert Outstanding(mid.batches, k) <= Outstanding(rail.batches, k) + Drawn(init, delegate, k);
    }
  }

  lemma StepInserts(rail: Rail, mid: Rail, r: Rail, delegate: string, env: Env, init: seq<PlanBatch>, b: PlanBatch, bs: seq<PlanBatch>)
    requires IdsOk(mid) && Sound(mid.ledger, b) && InsertBatch(mid, delegate, env, b) == Ok(r)
    requires !RefTaken(mid.batches, SettlementRef(delegate, b)) && AtMost(rail, mid, delegate, init)
    requires forall k {:trigger Drawn(bs, delegate, k)} ::
        Drawn(bs, delegate, k) == Drawn(init, delegate, k) + (if (b.buyer, delegate) == k then b.amount else 0)
    ensures AtMost(rail, r, delegate, bs)
    ensures ExactBooks(rail, r, delegate, bs) <==> ExactBooks(rail, mid, delegate, init) && OldPart(mid.ledger, mid.anchors, b.legs) == 0
  {
    InsertedSums(mid, r, b);
    forall k ensures Outstanding(r.batches, k) == Outstanding(mid.batches, k) + Drawn(bs, delegate, k) - Drawn(init, delegate, k) {
      InsertedEffect(mid, r, b, k);
    }
    forall k ensures Outstanding(r.batches, k) <= Outstanding(rail.batches, k) + Drawn(bs, delegate, k) {
      assert Outstanding(mid.batches, k) <= Outstanding(rail.batches, k) + Drawn(init, delegate, k);
    }
    if ExactBooks(rail, r, delegate, bs) {
      forall k ensures Outstanding(mid.batches, k) == Outstanding(rail.batches, k) + Drawn(init, delegate, k) {
        assert Outstanding(r.batches, k) == Outstanding(rail.batches, k) + Drawn(bs, delegate, k);
      }
    }
    if ExactBooks(rail, mid, delegate, init) {
      forall k ensures Outstanding(r.batches, k) == Outstanding(rail.batches, k) + Drawn(bs, delegate, k) {
        assert Outstanding(mid.batches, k) == Outstanding(rail.batches, k) + Drawn(init, delegate, k);
      }
    }
  }

  lemma InSomeSnoc(init: seq<PlanBatch>, b: PlanBatch, bs: seq<PlanBatch>, l: nat)
    requires bs == init + [b]
    ensures InSome(bs, l) <==> InSome(init, l) || l in b.legs
  {
    if InSome(init, l) {
      var i :| 0 <= i < |init| && l in init[i].legs;
      assert l in bs[i].legs;
    }
    if l in b.legs { assert bs[|init|] == b; }
  }

  lemma RefOfSomeSnoc(delegate: string, init: seq<PlanBatch>, b: PlanBatch, bs: seq<PlanBatch>, ref: string)
    requires LegsNonEmpty(init) && b.legs != [] && bs == init + [b]
    ensures LegsNonEmpty(bs)
    ensures RefOfSome(delegate, init, ref) || ref == SettlementRef(delegate, b) ==> RefOfSome(delegate, bs, ref)
  {
    if RefOfSome(delegate, init, ref) {
      var j :| 0 <= j < |init| && ref == SettlementRef(delegate, init[j]);
      assert bs[j] == init[j];
    }
    assert bs[|init|] == b;
  }

  lemma StepGrows(rail: Rail, mid: Rail, r: Rail, delegate: string, env: Env, init: seq<PlanBatch>, b: PlanBatch, bs: seq<PlanBatch>)
    requires bs == init + [b] && LegsNonEmpty(init) && Grew(rail, mid, delegate, init) && Sound(rail.ledger, b)
    requires InsertBatch(mid, delegate, env, b) == Ok(r)
    ensures LegsNonEmpty(bs) && Grew(rail, r, delegate, bs)
  {
    RefOfSomeSnoc(delegate, init, b, bs, "");
    if !RefTaken(mid.batches, SettlementRef(delegate, b)) { InsertedIds(mid, r, b); }
    forall i | |rail.batches| <= i < |r.batches| ensures RefOfSome(delegate, bs, r.batches[i].ref) {
      if i < |mid.batches| { assert r.batches[i] == mid.batches[i]; }
      RefOfSomeSnoc(delegate, init, b, bs, r.batches[i].ref);
    }
    forall l ensures Anchored(r.anchors, l) ==> Anchored(rail.anchors, l) || InSome(bs, l)
      ensures Anchored(rail.anchors, l) ==> Anchored(r.anchors, l)
    {
      InSomeSnoc(init, b, bs, l);
      assert Anchored(mid.anchors, l) ==> Anchored(rail.anchors, l) || InSome(init, l);
      AnchorAllMembers(mid.anchors, |mid.batches| + 1, b.legs, l);
    }
  }

  lemma DisjointSnoc(init: seq<PlanBatch>, b: PlanBatch, bs: seq<PlanBatch>)
    requires bs == init + [b] && Disjoint(bs)
    ensures Disjoint(init) && forall l | l in b.legs :: !InSome(init, l)
  {
    assert forall i :: 0 <= i < |init| ==> bs[i] == init[i];
    assert bs[|init|] == b;
    forall l | l in b.legs ensures !InSome(init, l) {
      forall i | 0 <= i < |init| ensures l !in init[i].legs { assert bs[i] == init[i]; }
    }
  }

  /** Inserting batches leaves exact books if and only if every batch is clean of what was there before. */
  lemma {:induction false} InsertAllExactIff(rail: Rail, delegate: string, env: Env, bs: seq<PlanBatch>)
    requires IdsOk(rail) && SumsOk(rail) && AllSound(rail.ledger, bs) && Disjoint(bs) && LegsNonEmpty(bs)
    requires InsertAll(rail, delegate, env, bs).Ok?
    ensures var r := InsertAll(rail, delegate, env, bs).value;
      && Grew(rail, r, delegate, bs) && AtMost(rail, r, delegate, bs)
      && (ExactBooks(rail, r, delegate, bs) <==> AllClean(rail, delegate, bs))
  {
    if bs != [] {
      var init, b := bs[..|bs| - 1], bs[|bs| - 1];
      assert bs == init + [b];
      assert Sound(rail.ledger, bs[|bs| - 1]);
      forall i | 0 <= i < |init| ensures Sound(rail.ledger, init[i]) { assert Sound(rail.ledger, bs[i]); }
      DisjointSnoc(init, b, bs);
      InsertAllExactIff(rail, delegate, env, init);
      var mid := InsertAll(rail, delegate, env, init).value;
      StepExact(rail, mid, InsertAll(rail, delegate, env, bs).value, delegate, env, init, b, bs);
      AllCleanSnoc(rail, delegate, init, b, bs);
    }
  }

  lemma AllCleanSnoc(rail: Rail, delegate: string, init: seq<PlanBatch>, b: PlanBatch, bs: seq<PlanBatch>)
    requires bs == init + [b] && AllSound(rail.ledger, init) && AllSound(rail.ledger, bs) && Sound(rail.ledger, b)
    ensures AllClean(rail, delegate, bs) <==> AllClean(rail, delegate, init) && Clean(rail, delegate, b)
  {
    assert bs[|init|] == b && forall i :: 0 <= i < |init| ==> bs[i] == init[i];
  }
}

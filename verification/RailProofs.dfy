/** Committing a claim pass: batches are the sums of the legs anchored to them, no leg is anchored
    twice, refs never collide, and the allowance pays for exactly what was batched. */
module RailProofs {
  import opened Common
  import opened Billing
  import opened Tables
  import opened Claims
  import opened ClaimProofs

  // ---------- the invariant ----------

  predicate AnchorOk(rail: Rail, a: Anchor) {
    && 1 <= a.leg <= |rail.ledger| && 1 <= a.batch <= |rail.batches|
    && rail.ledger[a.leg - 1].counterparty == rail.batches[a.batch - 1].buyer
    && (rail.ledger[a.leg - 1].leg == SellerLeg || rail.ledger[a.leg - 1].leg == FeeLeg)
  }

  predicate LegsExist(ledger: seq<Row>, anchors: seq<Anchor>) {
    forall i :: 0 <= i < |anchors| ==> 1 <= anchors[i].leg <= |ledger|
  }

  /** SUM(delta_raw) over the legs anchored to one batch. */
  function AnchorSum(ledger: seq<Row>, anchors: seq<Anchor>, id: nat): int
    requires LegsExist(ledger, anchors)
  {
    if anchors == [] then 0
    else
      var a := anchors[|anchors| - 1];
      AnchorSum(ledger, anchors[..|anchors| - 1], id) + (if a.batch == id then ledger[a.leg - 1].delta else 0)
  }

  predicate UniqueAnchors(anchors: seq<Anchor>) {
    forall i, j :: 0 <= i < j < |anchors| ==> anchors[i].leg != anchors[j].leg
  }

  /** The ref names leg m as its smallest. */
  ghost predicate RefMin(ref: string, m: nat) {
    exists p, max :: ref == RefText(p, m, max)
  }

  ghost predicate RefNamed(rail: Rail, i: nat)
    requires i < |rail.batches|
  {
    exists j :: 0 <= j < |rail.anchors| && rail.anchors[j].batch == i + 1 && RefMin(rail.batches[i].ref, rail.anchors[j].leg)
  }

  ghost predicate BatchOk(rail: Rail, i: nat)
    requires i < |rail.batches| && LegsExist(rail.ledger, rail.anchors)
  {
    && rail.batches[i].amount == AnchorSum(rail.ledger, rail.anchors, i + 1) && rail.batches[i].amount > 0
    && RefNamed(rail, i)
  }

  ghost predicate RailOk(rail: Rail) {
    && (forall i {:trigger AnchorOk(rail, rail.anchors[i])} :: 0 <= i < |rail.anchors| ==> AnchorOk(rail, rail.anchors[i]))
    && LegsExist(rail.ledger, rail.anchors)
    && UniqueAnchors(rail.anchors)
    && (forall i: nat {:trigger BatchOk(rail, i)} | i < |rail.batches| :: BatchOk(rail, i))
  }

  /** The anchored leg a batch's ref names. */
  lemma NamedLeg(rail: Rail, i: nat) returns (j: nat, p: string, max: nat)
    requires RailOk(rail) && i < |rail.batches|
    ensures j < |rail.anchors| && rail.anchors[j].batch == i + 1 && rail.batches[i].ref == RefText(p, rail.anchors[j].leg, max)
  {
    assert BatchOk(rail, i);
    j :| 0 <= j < |rail.anchors| && rail.anchors[j].batch == i + 1 && RefMin(rail.batches[i].ref, rail.anchors[j].leg);
    p, max :| rail.batches[i].ref == RefText(p, rail.anchors[j].leg, max);
  }

  /** Distinct batches never share a batch_ref. */
  lemma RefsDistinct(rail: Rail, i: nat, k: nat)
    requires RailOk(rail) && i < |rail.batches| && k < |rail.batches| && rail.batches[i].ref == rail.batches[k].ref
    ensures i == k
  {
    var j, p, max := NamedLeg(rail, i);
    var l, p', max' := NamedLeg(rail, k);
    RefNamesLegs(p, rail.anchors[j].leg, max, p', rail.anchors[l].leg, max');
  }

  // ---------- anchoring ----------

  /** The part of the legs some batch already carries. */
  function OldPart(ledger: seq<Row>, anchors: seq<Anchor>, legs: seq<nat>): int
    requires ValidIds(ledger, legs)
  {
    if legs == [] then 0
    else
      var leg := legs[|legs| - 1];
      OldPart(ledger, anchors, legs[..|legs| - 1]) + (if Anchored(anchors, leg) then ledger[leg - 1].delta else 0)
  }

  predicate Distinct(legs: seq<nat>) {
    forall i, j :: 0 <= i < j < |legs| ==> legs[i] != legs[j]
  }

  lemma {:induction false} AnchorAllMembers(anchors: seq<Anchor>, id: nat, legs: seq<nat>, l: nat)
    ensures Anchored(AnchorAll(anchors, id, legs), l) <==> Anchored(anchors, l) || l in legs
    ensures anchors <= AnchorAll(anchors, id, legs)
    ensures forall i :: |anchors| <= i < |AnchorAll(anchors, id, legs)| ==>
              AnchorAll(anchors, id, legs)[i].batch == id && AnchorAll(anchors, id, legs)[i].leg in legs
  {
    if legs != [] {
      var init, leg := legs[..|legs| - 1], legs[|legs| - 1];
      assert legs == init + [leg];
      var rest := AnchorAll(anchors, id, init);
      AnchorAllMembers(anchors, id, init, l);
      var all := AnchorAll(anchors, id, legs);
      if !Anchored(rest, leg) {
        assert all[|rest|] == Anchor(id, leg);
        if Anchored(rest, l) {
          var i :| 0 <= i < |rest| && rest[i].leg == l;
          assert all[i].leg == l;
        }
      }
    }
  }

  lemma {:induction false} AnchorAllUnique(anchors: seq<Anchor>, id: nat, legs: seq<nat>)
    requires UniqueAnchors(anchors)
    ensures UniqueAnchors(AnchorAll(anchors, id, legs))
  {
    if legs != [] { AnchorAllUnique(anchors, id, legs[..|legs| - 1]); }
  }

  lemma {:induction false} NewBatchNoSum(ledger: seq<Row>, anchors: seq<Anchor>, id: nat)
    requires LegsExist(ledger, anchors) && forall i :: 0 <= i < |anchors| ==> anchors[i].batch != id
    ensures AnchorSum(ledger, anchors, id) == 0
  {
    if anchors != [] { NewBatchNoSum(ledger, anchors[..|anchors| - 1], id); }
  }

  lemma AnchorSumSnoc(ledger: seq<Row>, anchors: seq<Anchor>, a: Anchor, x: nat)
    requires LegsExist(ledger, anchors) && 1 <= a.leg <= |ledger|
    ensures LegsExist(ledger, anchors + [a])
    ensures AnchorSum(ledger, anchors + [a], x) == AnchorSum(ledger, anchors, x) + (if a.batch == x then ledger[a.leg - 1].delta else 0)
  {
    assert (anchors + [a])[..|anchors|] == anchors;
  }

  lemma AnchoredAfter(anchors: seq<Anchor>, id: nat, legs: seq<nat>, l: nat)
    ensures Anchored(AnchorAll(anchors, id, legs), l) <==> Anchored(anchors, l) || l in legs
  {
    AnchorAllMembers(anchors, id, legs, l);
  }

  /** One INSERT ON CONFLICT DO NOTHING and the sum of batch x. */
  lemma AnchorSumStep(ledger: seq<Row>, rest: seq<Anchor>, a: Anchor, all: seq<Anchor>, x: nat)
    requires LegsExist(ledger, rest) && 1 <= a.leg <= |ledger| && all == if Anchored(rest, a.leg) then rest else rest + [a]
    ensures LegsExist(ledger, all)
    ensures AnchorSum(ledger, all, x)
         == AnchorSum(ledger, rest, x) + (if a.batch == x && !Anchored(rest, a.leg) then ledger[a.leg - 1].delta else 0)
  {
    AnchorSumSnoc(ledger, rest, a, x);
  }

  /** What the last leg adds to the sum of batch x. */
  lemma AnchorOneMore(ledger: seq<Row>, anchors: seq<Anchor>, id: nat, legs: seq<nat>, x: nat)
    requires legs != [] && 1 <= legs[|legs| - 1] <= |ledger| && legs[|legs| - 1] !in legs[..|legs| - 1]
    requires LegsExist(ledger, AnchorAll(anchors, id, legs[..|legs| - 1]))
    ensures LegsExist(ledger, AnchorAll(anchors, id, legs))
    ensures var leg := legs[|legs| - 1];
      AnchorSum(ledger, AnchorAll(anchors, id, legs), x) == AnchorSum(ledger, AnchorAll(anchors, id, legs[..|legs| - 1]), x)
        + (if x == id && !Anchored(anchors, leg) then ledger[leg - 1].delta else 0)
  {
    var leg := legs[|legs| - 1];
    var rest := AnchorAll(anchors, id, legs[..|legs| - 1]);
    AnchoredAfter(anchors, id, legs[..|legs| - 1], leg);
    AnchorSumStep(ledger, rest, Anchor(id, leg), AnchorAll(anchors, id, legs), x);
  }

  /** A new batch gets anchored to it exactly the legs no batch carried before: the sum of its
      anchors is the legs' sum minus the old part. Every other batch keeps its sum. */
  lemma {:induction false} AnchorAllSum(ledger: seq<Row>, anchors: seq<Anchor>, id: nat, legs: seq<nat>, x: nat)
    requires LegsExist(ledger, anchors) && ValidIds(ledger, legs) && Distinct(legs)
    requires forall i :: 0 <= i < |anchors| ==> anchors[i].batch != id
    ensures LegsExist(ledger, AnchorAll(anchors, id, legs))
    ensures AnchorSum(ledger, AnchorAll(anchors, id, legs), x)
         == (if x == id then LegsSum(ledger, legs) - OldPart(ledger, anchors, legs) else AnchorSum(ledger, anchors, x))
  {
    if legs == [] {
      if x == id { NewBatchNoSum(ledger, anchors, id); }
    } else {
      AnchorAllSum(ledger, anchors, id, legs[..|legs| - 1], x);
      AnchorOneMore(ledger, anchors, id, legs, x);
    }
  }

  lemma {:induction false} FreshNoOld(ledger: seq<Row>, anchors: seq<Anchor>, legs: seq<nat>)
    requires ValidIds(ledger, legs) && forall i :: 0 <= i < |legs| ==> !Anchored(anchors, legs[i])
    ensures OldPart(ledger, anchors, legs) == 0
  {
    if legs != [] { FreshNoOld(ledger, anchors, legs[..|legs| - 1]); }
  }

  /** Inserting one planned batch makes it equal the sum of its anchors exactly when what it shares
      with earlier batches nets to zero. */
  lemma BatchExactIffFresh(rail: Rail, delegate: string, env: Env, b: PlanBatch)
    requires RailOk(rail) && b.legs != [] && ValidIds(rail.ledger, b.legs) && Distinct(b.legs) && b.amount == LegsSum(rail.ledger, b.legs)
    requires InsertBatch(rail, delegate, env, b).Ok? && !RefTaken(rail.batches, SettlementRef(delegate, b))
    ensures var r := InsertBatch(rail, delegate, env, b).value;
      && LegsExist(r.ledger, r.anchors)
      && (r.batches[|rail.batches|].amount == AnchorSum(r.ledger, r.anchors, |rail.batches| + 1)
          <==> OldPart(rail.ledger, rail.anchors, b.legs) == 0)
  {
    OldAnchors(rail);
    AnchorAllSum(rail.ledger, rail.anchors, |rail.batches| + 1, b.legs, |rail.batches| + 1);
  }

  lemma OldAnchors(rail: Rail)
    requires RailOk(rail)
    ensures forall i :: 0 <= i < |rail.anchors| ==> rail.anchors[i].batch != |rail.batches| + 1
  {
    forall i | 0 <= i < |rail.anchors| ensures rail.anchors[i].batch != |rail.batches| + 1 {
      assert AnchorOk(rail, rail.anchors[i]);
    }
  }

  /** A batch of legs no batch carries cannot find its ref taken. */
  lemma FreshRef(rail: Rail, delegate: string, b: PlanBatch)
    requires RailOk(rail) && b.legs != [] && forall l | l in b.legs :: !Anchored(rail.anchors, l)
    ensures !RefTaken(rail.batches, SettlementRef(delegate, b))
  {
    forall i | 0 <= i < |rail.batches| ensures rail.batches[i].ref != SettlementRef(delegate, b) {
      var j, p, max := NamedLeg(rail, i);
      var m := rail.anchors[j].leg;
      assert Anchored(rail.anchors, m);
      assert m !in b.legs;
      if rail.batches[i].ref == SettlementRef(delegate, b) {
        RefNamesLegs(p, m, max, RefPrefix(delegate, b), MinLeg(b.legs), MaxLeg(b.legs));
      }
    }
  }

  // ---------- outstanding amounts ----------

  /** Amounts claimed from one allowance row and not given back. */
  function Outstanding(batches: seq<Batch>, k: AllowanceKey): int {
    if batches == [] then 0
    else
      var b := batches[|batches| - 1];
      Outstanding(batches[..|batches| - 1], k)
        + (if (b.buyer, b.delegate) == k && b.state != Restored then b.amount else 0)
  }

  function RawOf(allowances: map<AllowanceKey, Allowance>, k: AllowanceKey): int {
    if k in allowances then allowances[k].raw else 0
  }

  // ---------- inserting ----------

  /** The row InsertBatch adds. */
  function NewBatch(delegate: string, env: Env, b: PlanBatch): Batch
    requires b.legs != [] && b.dest in env.atas
  {
    Batch(SettlementRef(delegate, b), b.buyer, delegate, b.source, b.dest, env.atas[b.dest], b.amount, Pending, None)
  }

  /** What inserting a planned batch of fresh legs does, step by step. */
  ghost predicate Inserted(rail: Rail, r: Rail, b: PlanBatch) {
    && r.ledger == rail.ledger
    && |r.batches| == |rail.batches| + 1 && rail.batches <= r.batches
    && r.anchors == AnchorAll(rail.anchors, |rail.batches| + 1, b.legs)
  }

  lemma StillNamed(rail: Rail, r: Rail, i: nat)
    requires rail.anchors <= r.anchors && rail.batches <= r.batches && i < |rail.batches| && RefNamed(rail, i)
    ensures RefNamed(r, i)
  {
    var j :| 0 <= j < |rail.anchors| && rail.anchors[j].batch == i + 1 && RefMin(rail.batches[i].ref, rail.anchors[j].leg);
    assert r.anchors[j] == rail.anchors[j] && r.batches[i] == rail.batches[i];
  }

  lemma OldBatchOk(rail: Rail, r: Rail, b: PlanBatch, i: nat)
    requires RailOk(rail) && Inserted(rail, r, b) && ValidIds(rail.ledger, b.legs) && Distinct(b.legs)
    requires LegsExist(r.ledger, r.anchors) && i < |rail.batches| && rail.anchors <= r.anchors
    ensures BatchOk(r, i)
  {
    assert BatchOk(rail, i);
    StillNamed(rail, r, i);
    OldSum(rail, b, i);
    assert r.batches[i] == rail.batches[i];
  }

  /** Anchoring a new batch leaves the sums of the others. */
  lemma OldSum(rail: Rail, b: PlanBatch, i: nat)
    requires RailOk(rail) && ValidIds(rail.ledger, b.legs) && Distinct(b.legs) && i < |rail.batches|
    ensures var anchors := AnchorAll(rail.anchors, |rail.batches| + 1, b.legs);
      LegsExist(rail.ledger, anchors) && AnchorSum(rail.ledger, anchors, i + 1) == AnchorSum(rail.ledger, rail.anchors, i + 1)
  {
    OldAnchors(rail);
    AnchorAllSum(rail.ledger, rail.anchors, |rail.batches| + 1, b.legs, i + 1);
  }

  lemma NewBatchOk(rail: Rail, r: Rail, b: PlanBatch, delegate: string)
    requires RailOk(rail) && Inserted(rail, r, b) && ValidIds(rail.ledger, b.legs) && Distinct(b.legs) && b.legs != []
    requires LegsExist(r.ledger, r.anchors)
    requires forall l | l in b.legs :: !Anchored(rail.anchors, l)
    requires var n := r.batches[|rail.batches|];
      n.ref == SettlementRef(delegate, b) && n.amount == LegsSum(rail.ledger, b.legs) && n.amount > 0
    ensures BatchOk(r, |rail.batches|)
  {
    var id := |rail.batches| + 1;
    OldAnchors(rail);
    FreshNoOld(rail.ledger, rail.anchors, b.legs);
    AnchorAllSum(rail.ledger, rail.anchors, id, b.legs, id);
    NewBatchNamed(rail, r, b, delegate);
  }

  lemma NewBatchNamed(rail: Rail, r: Rail, b: PlanBatch, delegate: string)
    requires Inserted(rail, r, b) && b.legs != []
    requires forall l | l in b.legs :: !Anchored(rail.anchors, l)
    requires r.batches[|rail.batches|].ref == SettlementRef(delegate, b)
    ensures RefNamed(r, |rail.batches|)
  {
    var m := MinLeg(b.legs);
    AnchorAllMembers(rail.anchors, |rail.batches| + 1, b.legs, m);
    assert m in b.legs;
    var j :| 0 <= j < |r.anchors| && r.anchors[j].leg == m;
    assert j >= |rail.anchors| by {
      if j < |rail.anchors| { assert Anchored(rail.anchors, rail.anchors[j].leg); }
    }
    assert RefMin(r.batches[|rail.batches|].ref, m);
  }

  lemma InsertShape(rail: Rail, delegate: string, env: Env, b: PlanBatch)
    requires RailOk(rail) && b.legs != [] && forall l | l in b.legs :: !Anchored(rail.anchors, l)
    requires InsertBatch(rail, delegate, env, b).Ok?
    ensures b.dest in env.atas && b.amount > 0
    ensures var r := InsertBatch(rail, delegate, env, b).value;
      Inserted(rail, r, b) && r.batches[|rail.batches|] == NewBatch(delegate, env, b)
  {
    FreshRef(rail, delegate, b);
  }

  lemma InsertedBatches(rail: Rail, r: Rail, delegate: string, env: Env, b: PlanBatch)
    requires RailOk(rail) && b.legs != [] && ValidIds(rail.ledger, b.legs) && Distinct(b.legs) && b.amount == LegsSum(rail.ledger, b.legs)
    requires forall l | l in b.legs :: !Anchored(rail.anchors, l)
    requires b.dest in env.atas && b.amount > 0
    requires Inserted(rail, r, b) && r.batches[|rail.batches|] == NewBatch(delegate, env, b)
    requires LegsExist(r.ledger, r.anchors) && rail.anchors <= r.anchors
    ensures forall i: nat {:trigger BatchOk(r, i)} | i < |r.batches| :: BatchOk(r, i)
  {
    forall i: nat | i < |r.batches| ensures BatchOk(r, i) {
      if i < |rail.batches| { OldBatchOk(rail, r, b, i); } else { NewBatchOk(rail, r, b, delegate); }
    }
  }

  lemma InsertedOk(rail: Rail, r: Rail, delegate: string, env: Env, done: seq<nat>, buyer: string, b: PlanBatch)
    requires RailOk(rail) && PlannedOk(rail.ledger, done, buyer, b) && Distinct(b.legs)
    requires forall l | l in b.legs :: !Anchored(rail.anchors, l)
    requires b.dest in env.atas && b.amount > 0
    requires Inserted(rail, r, b) && r.batches[|rail.batches|] == NewBatch(delegate, env, b)
    ensures RailOk(r)
  {
    AnchorAllUnique(rail.anchors, |rail.batches| + 1, b.legs);
    AnchorAllMembers(rail.anchors, |rail.batches| + 1, b.legs, 0);
    InsertOneAnchors(rail, r, done, buyer, b);
    InsertedBatches(rail, r, delegate, env, b);
  }

  lemma InsertOne(rail: Rail, delegate: string, env: Env, done: seq<nat>, buyer: string, b: PlanBatch)
    requires RailOk(rail) && PlannedOk(rail.ledger, done, buyer, b) && Distinct(b.legs)
    requires forall l | l in b.legs :: !Anchored(rail.anchors, l)
    requires InsertBatch(rail, delegate, env, b).Ok?
    ensures b.dest in env.atas
    ensures var r := InsertBatch(rail, delegate, env, b).value;
      RailOk(r) && Inserted(rail, r, b) && r.batches[|rail.batches|] == NewBatch(delegate, env, b)
  {
    InsertShape(rail, delegate, env, b);
    InsertedOk(rail, InsertBatch(rail, delegate, env, b).value, delegate, env, done, buyer, b);
  }

  /** Which legs are anchored and what is outstanding afterwards. */
  lemma InsertedEffect(rail: Rail, r: Rail, b: PlanBatch, k: AllowanceKey)
    requires Inserted(rail, r, b)
    ensures forall l :: Anchored(r.anchors, l) <==> Anchored(rail.anchors, l) || l in b.legs
    ensures var n := r.batches[|rail.batches|];
      Outstanding(r.batches, k) == Outstanding(rail.batches, k) + (if (n.buyer, n.delegate) == k && n.state != Restored then n.amount else 0)
  {
    forall l ensures Anchored(r.anchors, l) <==> Anchored(rail.anchors, l) || l in b.legs {
      AnchorAllMembers(rail.anchors, |rail.batches| + 1, b.legs, l);
    }
    assert r.batches[..|rail.batches|] == rail.batches;
  }

  lemma InsertOneAnchors(rail: Rail, r: Rail, done: seq<nat>, buyer: string, b: PlanBatch)
    requires RailOk(rail) && PlannedOk(rail.ledger, done, buyer, b)
    requires r.ledger == rail.ledger && rail.batches <= r.batches && |r.batches| == |rail.batches| + 1
    requires r.batches[|rail.batches|].buyer == buyer
    requires rail.anchors <= r.anchors
    requires forall i :: |rail.anchors| <= i < |r.anchors| ==> r.anchors[i].batch == |rail.batches| + 1 && r.anchors[i].leg in b.legs
    ensures forall i :: 0 <= i < |r.anchors| ==> AnchorOk(r, r.anchors[i])
    ensures LegsExist(r.ledger, r.anchors)
  {
    forall i | 0 <= i < |r.anchors| ensures AnchorOk(r, r.anchors[i]) {
      if i < |rail.anchors| {
        assert AnchorOk(rail, rail.anchors[i]);
      } else {
        assert LegOk(rail.ledger, done, buyer, b.isFee, r.anchors[i].leg);
      }
    }
    forall i | 0 <= i < |r.anchors| ensures 1 <= r.anchors[i].leg <= |r.ledger| {
      assert AnchorOk(r, r.anchors[i]);
    }
  }

  lemma {:induction false} BagDistinct(bs: seq<PlanBatch>, i: nat)
    requires i < |bs| && forall l {:trigger LegBag(bs)[l]} :: LegBag(bs)[l] <= 1
    ensures Distinct(bs[i].legs)
  {
    LegsInBag(bs, i);
    forall x, y | 0 <= x < y < |bs[i].legs| ensures bs[i].legs[x] != bs[i].legs[y] {
      var l := bs[i].legs[x];
      if l == bs[i].legs[y] {
        TwiceInBag(bs[i].legs, x, y);
        assert multiset(bs[i].legs)[l] <= LegBag(bs)[l];
      }
    }
  }

  lemma TwiceInBag(s: seq<nat>, x: nat, y: nat)
    requires x < y < |s| && s[x] == s[y]
    ensures multiset(s)[s[x]] >= 2
  {
    assert s == s[..x] + [s[x]] + s[x + 1..y] + [s[y]] + s[y + 1..];
  }

  /** Inserting a whole plan. */
  lemma {:induction false} InsertAllOk(rail: Rail, delegate: string, env: Env, done: seq<nat>, buyer: string, bs: seq<PlanBatch>, k: AllowanceKey)
    requires RailOk(rail) && LegsNonEmpty(bs) && BatchesPlanned(rail.ledger, done, buyer, bs)
    requires forall l {:trigger LegBag(bs)[l]} :: LegBag(bs)[l] <= 1
    requires forall l | l in LegBag(bs) :: !Anchored(rail.anchors, l)
    requires InsertAll(rail, delegate, env, bs).Ok?
    ensures var r := InsertAll(rail, delegate, env, bs).value;
      && RailOk(r) && |r.batches| == |rail.batches| + |bs| && rail.batches <= r.batches
      && r.ledger == rail.ledger && r.allowances == rail.allowances
      && (forall l :: Anchored(r.anchors, l) <==> Anchored(rail.anchors, l) || l in LegBag(bs))
      && Outstanding(r.batches, k) == Outstanding(rail.batches, k) + (if k == (buyer, delegate) then AmountSum(bs) else 0)
  {
    InsertAllGrows(rail, delegate, env, bs);
    if bs != [] {
      var init, b := bs[..|bs| - 1], bs[|bs| - 1];
      forall i | 0 <= i < |init| ensures PlannedOk(rail.ledger, done, buyer, init[i]) {
        assert PlannedOk(rail.ledger, done, buyer, bs[i]);
      }
      forall l ensures LegBag(init)[l] <= 1 && (l in b.legs ==> l !in LegBag(init)) {
        assert LegBag(bs)[l] == LegBag(init)[l] + multiset(b.legs)[l];
      }
      InsertAllOk(rail, delegate, env, done, buyer, init, k);
      InsertAllGrows(rail, delegate, env, init);
      var mid := InsertAll(rail, delegate, env, init).value;
      assert PlannedOk(rail.ledger, done, buyer, b);
      BagDistinct(bs, |bs| - 1);
      LegsInBag(bs, |bs| - 1);
      forall l | l in b.legs ensures !Anchored(mid.anchors, l) {
        assert l in LegBag(bs);
      }
      InsertOne(mid, delegate, env, done, buyer, b);
      InsertedEffect(mid, InsertBatch(mid, delegate, env, b).value, b, k);
    }
  }
}

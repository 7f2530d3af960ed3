/** What a claim pass keeps and what it adds up to. */
module ClaimProofs {
  import opened Common
  import opened Billing
  import opened Tables
  import opened Claims

  // ---------- sums over legs ----------

  function LegsSum(ledger: seq<Row>, legs: seq<nat>): int
    requires ValidIds(ledger, legs)
  {
    if legs == [] then 0 else LegsSum(ledger, legs[..|legs| - 1]) + ledger[legs[|legs| - 1] - 1].delta
  }

  /** The part of the legs' sum whose counterparty is one buyer. */
  function BuyerSum(ledger: seq<Row>, legs: seq<nat>, buyer: string): int
    requires ValidIds(ledger, legs)
  {
    if legs == [] then 0
    else
      var row := ledger[legs[|legs| - 1] - 1];
      BuyerSum(ledger, legs[..|legs| - 1], buyer) + (if row.counterparty == buyer then row.delta else 0)
  }

  function AmountSum(bs: seq<PlanBatch>): int {
    if bs == [] then 0 else AmountSum(bs[..|bs| - 1]) + bs[|bs| - 1].amount
  }

  function LegBag(bs: seq<PlanBatch>): multiset<nat> {
    if bs == [] then multiset{} else LegBag(bs[..|bs| - 1]) + multiset(bs[|bs| - 1].legs)
  }

  lemma {:induction false} LegsSumConcat(ledger: seq<Row>, a: seq<nat>, b: seq<nat>)
    requires ValidIds(ledger, a) && ValidIds(ledger, b)
    ensures ValidIds(ledger, a + b) && LegsSum(ledger, a + b) == LegsSum(ledger, a) + LegsSum(ledger, b)
  {
    if b == [] {
      assert a + b == a;
    } else {
      LegsSumConcat(ledger, a, b[..|b| - 1]);
      assert (a + b)[..|a + b| - 1] == a + b[..|b| - 1];
    }
  }

  lemma {:induction false} BuyerSumConcat(ledger: seq<Row>, a: seq<nat>, b: seq<nat>, buyer: string)
    requires ValidIds(ledger, a) && ValidIds(ledger, b)
    ensures ValidIds(ledger, a + b) && BuyerSum(ledger, a + b, buyer) == BuyerSum(ledger, a, buyer) + BuyerSum(ledger, b, buyer)
  {
    if b == [] {
      assert a + b == a;
    } else {
      BuyerSumConcat(ledger, a, b[..|b| - 1], buyer);
      assert (a + b)[..|a + b| - 1] == a + b[..|b| - 1];
    }
  }

  lemma SumsSnoc(bs: seq<PlanBatch>, init: seq<PlanBatch>, last: PlanBatch)
    requires bs == init + [last]
    ensures AmountSum(bs) == AmountSum(init) + last.amount && LegBag(bs) == LegBag(init) + multiset(last.legs)
  {
    assert bs[..|bs| - 1] == init;
  }

  lemma BagAssociates(x: multiset<nat>, y: multiset<nat>, z: multiset<nat>)
    ensures x + (y + z) == x + y + z
  {}

  lemma {:induction false} SumsConcat(a: seq<PlanBatch>, b: seq<PlanBatch>)
    ensures AmountSum(a + b) == AmountSum(a) + AmountSum(b)
    ensures LegBag(a + b) == LegBag(a) + LegBag(b)
  {
    if b == [] {
      assert a + b == a;
    } else {
      var init, last := b[..|b| - 1], b[|b| - 1];
      SumsConcat(a, init);
      assert b == init + [last] && a + b == (a + init) + [last];
      SumsSnoc(b, init, last);
      SumsSnoc(a + b, a + init, last);
      BagAssociates(LegBag(a), LegBag(init), multiset(last.legs));
    }
  }

  lemma OneBatch(b: PlanBatch)
    ensures AmountSum([b]) == b.amount && LegBag([b]) == multiset(b.legs)
  {
    assert [b][..0] == [];
  }

  lemma {:induction false} LegsInBag(bs: seq<PlanBatch>, i: nat)
    requires i < |bs|
    ensures multiset(bs[i].legs) <= LegBag(bs)
  {
    if i < |bs| - 1 { LegsInBag(bs[..|bs| - 1], i); }
  }

  lemma {:induction false} BagInLegs(bs: seq<PlanBatch>, l: nat) returns (i: nat)
    requires l in LegBag(bs)
    ensures i < |bs| && l in bs[i].legs
  {
    if l in bs[|bs| - 1].legs {
      i := |bs| - 1;
    } else {
      assert l !in multiset(bs[|bs| - 1].legs);
      i := BagInLegs(bs[..|bs| - 1], l);
    }
  }

  // ---------- netting ----------

  /** A planned batch is the sum of its own legs: processed legs, all of one buyer and one kind. */
  predicate PlannedOk(ledger: seq<Row>, done: seq<nat>, buyer: string, b: PlanBatch) {
    && b.buyer == buyer && b.legs != [] && ValidIds(ledger, b.legs)
    && b.amount == LegsSum(ledger, b.legs)
    && (forall l | l in b.legs :: LegOk(ledger, done, buyer, b.isFee, l))
  }

  predicate LegOk(ledger: seq<Row>, done: seq<nat>, buyer: string, isFee: bool, l: nat) {
    && 1 <= l <= |ledger| && l in done
    && ledger[l - 1].counterparty == buyer
    && ledger[l - 1].leg == (if isFee then FeeLeg else SellerLeg)
  }

  ghost predicate BatchesPlanned(ledger: seq<Row>, done: seq<nat>, buyer: string, bs: seq<PlanBatch>) {
    forall i {:trigger PlannedOk(ledger, done, buyer, bs[i])} :: 0 <= i < |bs| ==> PlannedOk(ledger, done, buyer, bs[i])
  }

  /** Every processed leg of the buyer is in one of the batches. */
  ghost predicate AllBagged(ledger: seq<Row>, done: seq<nat>, buyer: string, bs: seq<PlanBatch>) {
    forall l {:trigger LegBag(bs)[l]} :: l in done && 1 <= l <= |ledger| && ledger[l - 1].counterparty == buyer ==> LegBag(bs)[l] > 0
  }

  ghost predicate PlanOk(ledger: seq<Row>, done: seq<nat>, buyer: string, pl: Plan)
    requires ValidIds(ledger, done)
  {
    && BatchesPlanned(ledger, done, buyer, pl.batches)
    && pl.total == AmountSum(pl.batches)
    && (forall l {:trigger LegBag(pl.batches)[l]} :: LegBag(pl.batches)[l] <= 1)
    && (!pl.skippable ==> pl.total == BuyerSum(ledger, done, buyer) && AllBagged(ledger, done, buyer, pl.batches))
  }

  ghost predicate PlansOk(ledger: seq<Row>, done: seq<nat>, ps: Plans)
    requires ValidIds(ledger, done)
  {
    && (forall i, j :: 0 <= i < j < |ps.order| ==> ps.order[i] != ps.order[j])
    && (forall b :: b in ps.order <==> b in ps.of)
    && (forall b {:trigger PlanOk(ledger, done, b, ps.of[b])} | b in ps.of :: PlanOk(ledger, done, b, ps.of[b]))
  }

  predicate AllPlanned(ledger: seq<Row>, done: seq<nat>, ps: Plans)
    requires ValidIds(ledger, done)
  {
    forall i :: 0 <= i < |done| ==> ledger[done[i] - 1].counterparty in ps.of
  }

  lemma {:induction false} NetBatchSums(bs: seq<PlanBatch>, b: PlanBatch)
    ensures AmountSum(NetBatch(bs, b)) == AmountSum(bs) + b.amount
    ensures LegBag(NetBatch(bs, b)) == LegBag(bs) + multiset(b.legs)
  {
    OneBatch(b);
    if bs != [] {
      assert bs == [bs[0]] + bs[1..];
      SumsConcat([bs[0]], bs[1..]);
      OneBatch(bs[0]);
      if SameSlot(bs[0], b) {
        SumsConcat([Merge(bs[0], b)], bs[1..]);
        OneBatch(Merge(bs[0], b));
        assert multiset(bs[0].legs + b.legs) == multiset(bs[0].legs) + multiset(b.legs);
      } else {
        NetBatchSums(bs[1..], b);
        SumsConcat([bs[0]], NetBatch(bs[1..], b));
      }
    }
  }

  lemma MergePlanned(ledger: seq<Row>, done: seq<nat>, buyer: string, a: PlanBatch, b: PlanBatch)
    requires PlannedOk(ledger, done, buyer, a) && PlannedOk(ledger, done, buyer, b) && SameSlot(a, b)
    ensures PlannedOk(ledger, done, buyer, Merge(a, b))
  {
    LegsSumConcat(ledger, a.legs, b.legs);
    forall l | l in a.legs + b.legs ensures LegOk(ledger, done, buyer, a.isFee, l) {
      assert l in a.legs || l in b.legs;
    }
  }

  lemma {:induction false} NetBatchPlanned(ledger: seq<Row>, done: seq<nat>, buyer: string, bs: seq<PlanBatch>, b: PlanBatch)
    requires BatchesPlanned(ledger, done, buyer, bs) && PlannedOk(ledger, done, buyer, b)
    ensures BatchesPlanned(ledger, done, buyer, NetBatch(bs, b))
  {
    if bs != [] {
      assert PlannedOk(ledger, done, buyer, bs[0]);
      forall i | 0 <= i < |bs[1..]| ensures PlannedOk(ledger, done, buyer, bs[1..][i]) {
        assert PlannedOk(ledger, done, buyer, bs[i + 1]);
      }
      if SameSlot(bs[0], b) {
        MergePlanned(ledger, done, buyer, bs[0], b);
      } else {
        NetBatchPlanned(ledger, done, buyer, bs[1..], b);
      }
    }
  }

  lemma PlannedGrows(ledger: seq<Row>, done: seq<nat>, id: nat, buyer: string, bs: seq<PlanBatch>)
    requires BatchesPlanned(ledger, done, buyer, bs)
    ensures BatchesPlanned(ledger, done + [id], buyer, bs)
  {
    forall i | 0 <= i < |bs| ensures PlannedOk(ledger, done + [id], buyer, bs[i]) {
      assert PlannedOk(ledger, done, buyer, bs[i]);
      forall l | l in bs[i].legs ensures LegOk(ledger, done + [id], buyer, bs[i].isFee, l) {
        assert LegOk(ledger, done, buyer, bs[i].isFee, l);
      }
    }
  }

  lemma BuyerSumStep(ledger: seq<Row>, done: seq<nat>, id: nat, buyer: string)
    requires ValidIds(ledger, done) && 1 <= id <= |ledger|
    ensures ValidIds(ledger, done + [id])
    ensures BuyerSum(ledger, done + [id], buyer)
         == BuyerSum(ledger, done, buyer) + (if ledger[id - 1].counterparty == buyer then ledger[id - 1].delta else 0)
  {
    assert (done + [id])[..|done|] == done;
  }

  lemma AllBaggedGrows(ledger: seq<Row>, done: seq<nat>, id: nat, buyer: string, bs: seq<PlanBatch>)
    requires AllBagged(ledger, done, buyer, bs) && 1 <= id <= |ledger| && ledger[id - 1].counterparty != buyer
    ensures AllBagged(ledger, done + [id], buyer, bs)
  {}

  /** One more leg processed: every other buyer's plan, and every skipped one, stays right. */
  lemma PlanGrows(ledger: seq<Row>, done: seq<nat>, id: nat, buyer: string, pl: Plan)
    requires ValidIds(ledger, done) && PlanOk(ledger, done, buyer, pl) && 1 <= id <= |ledger|
    requires pl.skippable || ledger[id - 1].counterparty != buyer
    ensures ValidIds(ledger, done + [id]) && PlanOk(ledger, done + [id], buyer, pl)
  {
    BuyerSumStep(ledger, done, id, buyer);
    PlannedGrows(ledger, done, id, buyer, pl.batches);
    if !pl.skippable { AllBaggedGrows(ledger, done, id, buyer, pl.batches); }
  }

  lemma OnePlanned(ledger: seq<Row>, done: seq<nat>, b: PlanBatch, id: nat)
    requires 1 <= id <= |ledger| && id in done
    requires b.legs == [id] && b.amount == ledger[id - 1].delta && b.buyer == ledger[id - 1].counterparty
    requires ledger[id - 1].leg == (if b.isFee then FeeLeg else SellerLeg)
    ensures PlannedOk(ledger, done, b.buyer, b)
  {
    assert b.legs[..0] == [];
    assert LegsSum(ledger, b.legs) == LegsSum(ledger, b.legs[..0]) + ledger[id - 1].delta;
  }

  /** One leg netted into its buyer's plan. */
  lemma PlanNets(ledger: seq<Row>, done: seq<nat>, b: PlanBatch, id: nat, pl: Plan)
    requires ValidIds(ledger, done) && 1 <= id <= |ledger| && id !in done
    requires PlanOk(ledger, done, b.buyer, pl)
    requires b.legs == [id] && b.amount == ledger[id - 1].delta && b.buyer == ledger[id - 1].counterparty
    requires ledger[id - 1].leg == (if b.isFee then FeeLeg else SellerLeg)
    ensures ValidIds(ledger, done + [id])
    ensures PlanOk(ledger, done + [id], b.buyer, pl.(total := pl.total + b.amount, batches := NetBatch(pl.batches, b)))
  {
    BuyerSumStep(ledger, done, id, b.buyer);
    PlannedGrows(ledger, done, id, b.buyer, pl.batches);
    OnePlanned(ledger, done + [id], b, id);
    NetBatchPlanned(ledger, done + [id], b.buyer, pl.batches, b);
    NetBatchSums(pl.batches, b);
    BagNets(ledger, done, b, id, pl.batches);
  }

  lemma BaggedDone(ledger: seq<Row>, done: seq<nat>, buyer: string, bs: seq<PlanBatch>, id: nat)
    requires BatchesPlanned(ledger, done, buyer, bs) && LegBag(bs)[id] > 0
    ensures id in done
  {
    var i := BagInLegs(bs, id);
    assert PlannedOk(ledger, done, buyer, bs[i]);
    assert LegOk(ledger, done, buyer, bs[i].isFee, id);
  }

  /** The bag after netting one fresh leg. */
  lemma BagNets(ledger: seq<Row>, done: seq<nat>, b: PlanBatch, id: nat, bs: seq<PlanBatch>)
    requires BatchesPlanned(ledger, done, b.buyer, bs) && id !in done && b.legs == [id]
    requires forall l {:trigger LegBag(bs)[l]} :: LegBag(bs)[l] <= 1
    ensures forall l {:trigger LegBag(NetBatch(bs, b))[l]} :: LegBag(NetBatch(bs, b))[l] <= 1
    ensures AllBagged(ledger, done, b.buyer, bs) ==> AllBagged(ledger, done + [id], b.buyer, NetBatch(bs, b))
  {
    NetBatchSums(bs, b);
    assert multiset(b.legs) == multiset{id};
    forall l ensures LegBag(NetBatch(bs, b))[l] == LegBag(bs)[l] + (if l == id then 1 else 0) <= 1 {
      if LegBag(bs)[id] > 0 { BaggedDone(ledger, done, b.buyer, bs, id); }
    }
  }

  lemma EmptyPlan(ledger: seq<Row>, done: seq<nat>, buyer: string)
    requires ValidIds(ledger, done)
    requires forall i :: 0 <= i < |done| ==> ledger[done[i] - 1].counterparty != buyer
    ensures PlanOk(ledger, done, buyer, Plan(0, [], false))
  {
    NoBuyerNoSum(ledger, done, buyer);
  }

  lemma {:induction false} NoBuyerNoSum(ledger: seq<Row>, legs: seq<nat>, buyer: string)
    requires ValidIds(ledger, legs) && forall i :: 0 <= i < |legs| ==> ledger[legs[i] - 1].counterparty != buyer
    ensures BuyerSum(ledger, legs, buyer) == 0
  {
    if legs != [] { NoBuyerNoSum(ledger, legs[..|legs| - 1], buyer); }
  }

  lemma TouchOk(ledger: seq<Row>, done: seq<nat>, ps: Plans, buyer: string)
    requires ValidIds(ledger, done) && PlansOk(ledger, done, ps) && AllPlanned(ledger, done, ps)
    ensures PlansOk(ledger, done, Touch(ps, buyer)) && buyer in Touch(ps, buyer).of
    ensures AllPlanned(ledger, done, Touch(ps, buyer))
  {
    if buyer !in ps.of {
      EmptyPlan(ledger, done, buyer);
      var qs := Touch(ps, buyer);
      forall b | b in qs.of ensures PlanOk(ledger, done, b, qs.of[b]) {
        if b != buyer { assert PlanOk(ledger, done, b, ps.of[b]); }
      }
      forall b ensures b in qs.order <==> b in qs.of {
        assert b in qs.order <==> b in ps.order || b == buyer;
      }
    }
  }

  /** Replacing one buyer's plan by one that accounts for the new leg. */
  lemma ReplaceOk(ledger: seq<Row>, done: seq<nat>, ps: Plans, id: nat, buyer: string, pl: Plan)
    requires ValidIds(ledger, done) && 1 <= id <= |ledger| && PlansOk(ledger, done, ps)
    requires buyer in ps.of && ledger[id - 1].counterparty == buyer
    requires ValidIds(ledger, done + [id]) && PlanOk(ledger, done + [id], buyer, pl)
    ensures PlansOk(ledger, done + [id], ps.(of := ps.of[buyer := pl]))
  {
    var qs := ps.(of := ps.of[buyer := pl]);
    forall b | b in qs.of ensures PlanOk(ledger, done + [id], b, qs.of[b]) {
      if b != buyer {
        assert PlanOk(ledger, done, b, ps.of[b]);
        PlanGrows(ledger, done, id, b, ps.of[b]);
      }
    }
  }

  lemma AllPlannedGrows(ledger: seq<Row>, done: seq<nat>, ps: Plans, qs: Plans, id: nat)
    requires ValidIds(ledger, done) && AllPlanned(ledger, done, ps) && ps.of.Keys <= qs.of.Keys
    requires 1 <= id <= |ledger| && ledger[id - 1].counterparty in qs.of
    ensures ValidIds(ledger, done + [id]) && AllPlanned(ledger, done + [id], qs)
  {}

  lemma MarkOk(ledger: seq<Row>, done: seq<nat>, ps: Plans, id: nat)
    requires ValidIds(ledger, done) && 1 <= id <= |ledger| && PlansOk(ledger, done, ps) && AllPlanned(ledger, done, ps)
    ensures ValidIds(ledger, done + [id])
    ensures PlansOk(ledger, done + [id], MarkSkippable(ps, ledger[id - 1].counterparty))
    ensures AllPlanned(ledger, done + [id], MarkSkippable(ps, ledger[id - 1].counterparty))
  {
    var buyer := ledger[id - 1].counterparty;
    TouchOk(ledger, done, ps, buyer);
    MarkTouched(ledger, done, Touch(ps, buyer), id);
    AllPlannedGrows(ledger, done, Touch(ps, buyer), MarkSkippable(ps, buyer), id);
  }

  lemma MarkTouched(ledger: seq<Row>, done: seq<nat>, qs: Plans, id: nat)
    requires ValidIds(ledger, done) && 1 <= id <= |ledger| && PlansOk(ledger, done, qs) && ledger[id - 1].counterparty in qs.of
    ensures ValidIds(ledger, done + [id])
    ensures var b := ledger[id - 1].counterparty; PlansOk(ledger, done + [id], qs.(of := qs.of[b := qs.of[b].(skippable := true)]))
  {
    var buyer := ledger[id - 1].counterparty;
    assert PlanOk(ledger, done, buyer, qs.of[buyer]);
    PlanGrows(ledger, done, id, buyer, qs.of[buyer].(skippable := true));
    ReplaceOk(ledger, done, qs, id, buyer, qs.of[buyer].(skippable := true));
  }

  /** The buyer's plan with one more netted leg. */
  function Netted(pl: Plan, b: PlanBatch): Plan {
    pl.(total := pl.total + b.amount, batches := NetBatch(pl.batches, b))
  }

  lemma NetIntoIs(ps: Plans, b: PlanBatch)
    requires b.buyer in ps.of
    ensures NetInto(ps, b) == ps.(of := ps.of[b.buyer := Netted(ps.of[b.buyer], b)])
  {}

  lemma NetIntoTouched(ps: Plans, b: PlanBatch)
    ensures NetInto(Touch(ps, b.buyer), b) == NetInto(ps, b)
  {}

  lemma NetOk(ledger: seq<Row>, done: seq<nat>, ps: Plans, b: PlanBatch, id: nat)
    requires ValidIds(ledger, done) && 1 <= id <= |ledger| && id !in done && PlansOk(ledger, done, ps)
    requires b.buyer in ps.of
    requires b.legs == [id] && b.amount == ledger[id - 1].delta && b.buyer == ledger[id - 1].counterparty
    requires ledger[id - 1].leg == (if b.isFee then FeeLeg else SellerLeg)
    ensures ValidIds(ledger, done + [id])
    ensures PlansOk(ledger, done + [id], NetInto(ps, b))
  {
    var pl := ps.of[b.buyer];
    assert PlanOk(ledger, done, b.buyer, pl);
    PlanNets(ledger, done, b, id, pl);
    ReplaceOk(ledger, done, ps, id, b.buyer, Netted(pl, b));
    NetIntoIs(ps, b);
  }

  lemma EarnStepOk(ledger: seq<Row>, done: seq<nat>, s: (Plans, string), id: nat, env: Env)
    requires ValidIds(ledger, done) && 1 <= id <= |ledger| && id !in done && ledger[id - 1].leg == SellerLeg
    requires PlansOk(ledger, done, s.0) && AllPlanned(ledger, done, s.0)
    requires EarnStep(s, ledger[id - 1], id, env).Some?
    ensures ValidIds(ledger, done + [id])
    ensures PlansOk(ledger, done + [id], EarnStep(s, ledger[id - 1], id, env).value.0)
    ensures AllPlanned(ledger, done + [id], EarnStep(s, ledger[id - 1], id, env).value.0)
  {
    var row := ledger[id - 1];
    var buyer := row.counterparty;
    if WalletOf(env, buyer) == "" || WalletOf(env, row.account) == "" {
      MarkOk(ledger, done, s.0, id);
    } else {
      TouchOk(ledger, done, s.0, buyer);
      var qs := Touch(s.0, buyer);
      var b := PlanBatch(buyer, env.atas[WalletOf(env, buyer)], WalletOf(env, row.account), row.delta, [id], false);
      NetOk(ledger, done, qs, b, id);
      NetIntoTouched(s.0, b);
    }
  }

  lemma PlanEarnsSnoc(ledger: seq<Row>, init: seq<nat>, id: nat, ids: seq<nat>, env: Env)
    requires ValidIds(ledger, ids) && ids == init + [id] && PlanEarns(ledger, ids, env).Some?
    ensures PlanEarns(ledger, init, env).Some?
    ensures PlanEarns(ledger, ids, env) == EarnStep(PlanEarns(ledger, init, env).value, ledger[id - 1], id, env)
  {
    assert ids[..|ids| - 1] == init;
  }

  /** Distinct earn legs. */
  predicate EarnLegs(ledger: seq<Row>, ids: seq<nat>) {
    && ValidIds(ledger, ids)
    && (forall i, j :: 0 <= i < j < |ids| ==> ids[i] != ids[j])
    && forall i :: 0 <= i < |ids| ==> ledger[ids[i] - 1].leg == SellerLeg
  }

  lemma EarnLegsSnoc(ledger: seq<Row>, init: seq<nat>, id: nat)
    requires EarnLegs(ledger, init + [id])
    ensures EarnLegs(ledger, init) && 1 <= id <= |ledger| && id !in init && ledger[id - 1].leg == SellerLeg
  {
    var ids := init + [id];
    assert ids[|init|] == id;
    assert forall i :: 0 <= i < |init| ==> ids[i] == init[i];
  }

  lemma NoPlansOk(ledger: seq<Row>)
    ensures PlansOk(ledger, [], NO_PLANS) && AllPlanned(ledger, [], NO_PLANS)
  {}

  lemma {:induction false} PlanEarnsOk(ledger: seq<Row>, ids: seq<nat>, env: Env)
    requires EarnLegs(ledger, ids) && PlanEarns(ledger, ids, env).Some?
    ensures PlansOk(ledger, ids, PlanEarns(ledger, ids, env).value.0)
    ensures AllPlanned(ledger, ids, PlanEarns(ledger, ids, env).value.0)
  {
    if ids == [] {
      NoPlansOk(ledger);
    } else {
      var init, id := ids[..|ids| - 1], ids[|ids| - 1];
      assert ids == init + [id];
      EarnLegsSnoc(ledger, init, id);
      PlanEarnsSnoc(ledger, init, id, ids, env);
      PlanEarnsOk(ledger, init, env);
      EarnsOneMore(ledger, init, id, ids, PlanEarns(ledger, init, env).value, PlanEarns(ledger, ids, env), env);
    }
  }

  lemma EarnsOneMore(ledger: seq<Row>, init: seq<nat>, id: nat, ids: seq<nat>, s: (Plans, string), t: Option<(Plans, string)>, env: Env)
    requires ValidIds(ledger, init) && 1 <= id <= |ledger| && ids == init + [id] && id !in init && ledger[id - 1].leg == SellerLeg
    requires PlansOk(ledger, init, s.0) && AllPlanned(ledger, init, s.0)
    requires t == EarnStep(s, ledger[id - 1], id, env) && t.Some?
    ensures ValidIds(ledger, ids) && PlansOk(ledger, ids, t.value.0) && AllPlanned(ledger, ids, t.value.0)
  {
    EarnStepOk(ledger, init, s, id, env);
  }

  lemma FeeStepOk(ledger: seq<Row>, done: seq<nat>, ps: Plans, id: nat, treasury: string, src: string)
    requires ValidIds(ledger, done) && 1 <= id <= |ledger| && id !in done && ledger[id - 1].leg == FeeLeg
    requires PlansOk(ledger, done, ps)
    ensures ValidIds(ledger, done + [id])
    ensures PlansOk(ledger, done + [id], FeeStep(ps, ledger[id - 1], id, treasury, src))
  {
    var row := ledger[id - 1];
    if row.counterparty in ps.of {
      NetOk(ledger, done, ps, PlanBatch(row.counterparty, src, treasury, row.delta, [id], true), id);
    } else {
      forall b | b in ps.of ensures PlanOk(ledger, done + [id], b, ps.of[b]) {
        assert PlanOk(ledger, done, b, ps.of[b]);
        PlanGrows(ledger, done, id, b, ps.of[b]);
      }
    }
  }

  lemma {:induction false} PlanFeesOk(ledger: seq<Row>, done: seq<nat>, fees: seq<nat>, treasury: string, src: string, ps: Plans)
    requires ValidIds(ledger, done) && ValidIds(ledger, fees) && PlansOk(ledger, done, ps)
    requires forall i, j :: 0 <= i < j < |fees| ==> fees[i] != fees[j]
    requires forall i :: 0 <= i < |fees| ==> fees[i] !in done && ledger[fees[i] - 1].leg == FeeLeg
    ensures ValidIds(ledger, done + fees)
    ensures PlansOk(ledger, done + fees, PlanFees(ledger, fees, treasury, src, ps))
  {
    if fees == [] {
      assert done + fees == done;
    } else {
      var init, id := fees[..|fees| - 1], fees[|fees| - 1];
      PlanFeesOk(ledger, done, init, treasury, src, ps);
      assert done + fees == done + init + [id];
      FeeStepOk(ledger, done + init, PlanFees(ledger, init, treasury, src, ps), id, treasury, src);
    }
  }

  /** The legs one pass accounts for: the selected earn legs, and the fee legs when there is a
      treasury to send them to. */
  function Processed(ids: seq<nat>, fees: seq<nat>, treasury: string): seq<nat> {
    if treasury == "" then ids else ids + fees
  }

  lemma PlanAllOk(ledger: seq<Row>, ids: seq<nat>, fees: seq<nat>, treasury: string, env: Env)
    requires ValidIds(ledger, ids) && FeesOf(ledger, ids, fees) && PlanAll(ledger, ids, fees, treasury, env).Some?
    requires forall i, j :: 0 <= i < j < |ids| ==> ids[i] != ids[j]
    requires forall i :: 0 <= i < |ids| ==> ledger[ids[i] - 1].leg == SellerLeg
    ensures ValidIds(ledger, Processed(ids, fees, treasury))
    ensures PlansOk(ledger, Processed(ids, fees, treasury), PlanAll(ledger, ids, fees, treasury, env).value)
  {
    PlanEarnsOk(ledger, ids, env);
    if treasury != "" {
      forall i | 0 <= i < |fees| ensures fees[i] !in ids && ledger[fees[i] - 1].leg == FeeLeg {
        assert fees[i] in fees;
        assert IsFeeOf(ledger, ids, fees[i]);
      }
      var s := PlanEarns(ledger, ids, env).value;
      PlanFeesOk(ledger, ids, fees, treasury, s.1, s.0);
    }
  }

  // ---------- machine integers ----------

  predicate NonNegative(ledger: seq<Row>, legs: seq<nat>) {
    forall i :: 0 <= i < |legs| && 1 <= legs[i] <= |ledger| ==> ledger[legs[i] - 1].delta >= 0
  }

  lemma {:induction false} BuyerSumWithin(ledger: seq<Row>, legs: seq<nat>, buyer: string)
    requires ValidIds(ledger, legs) && NonNegative(ledger, legs)
    ensures 0 <= BuyerSum(ledger, legs, buyer) <= LegsSum(ledger, legs)
  {
    if legs != [] { BuyerSumWithin(ledger, legs[..|legs| - 1], buyer); }
  }

  lemma {:induction false} AmountWithin(bs: seq<PlanBatch>, i: nat)
    requires i < |bs| && forall j :: 0 <= j < |bs| ==> bs[j].amount >= 0
    ensures 0 <= bs[i].amount <= AmountSum(bs)
  {
    var init := bs[..|bs| - 1];
    if i < |init| {
      AmountWithin(init, i);
    } else if init != [] {
      AmountWithin(init, 0);
    }
  }

  lemma PlannedNonNegative(ledger: seq<Row>, done: seq<nat>, buyer: string, b: PlanBatch)
    requires PlannedOk(ledger, done, buyer, b) && NonNegative(ledger, done)
    ensures b.amount >= 0
  {
    forall i | 0 <= i < |b.legs| ensures ledger[b.legs[i] - 1].delta >= 0 {
      assert LegOk(ledger, done, buyer, b.isFee, b.legs[i]);
      var j :| 0 <= j < |done| && done[j] == b.legs[i];
    }
    BuyerSumWithin(ledger, b.legs, buyer);
  }

  /** The running totals stay machine integers as long as the processed legs together do: the additions
      of the netting cannot wrap then. */
  lemma TotalsFit(ledger: seq<Row>, done: seq<nat>, buyer: string, pl: Plan)
    requires ValidIds(ledger, done) && PlanOk(ledger, done, buyer, pl) && !pl.skippable
    requires NonNegative(ledger, done) && LegsSum(ledger, done) <= MAX_INT64
    ensures 0 <= pl.total <= MAX_INT64
    ensures forall i :: 0 <= i < |pl.batches| ==> 0 <= pl.batches[i].amount <= MAX_INT64
  {
    BuyerSumWithin(ledger, done, buyer);
    forall i | 0 <= i < |pl.batches| ensures pl.batches[i].amount >= 0 {
      PlannedNonNegative(ledger, done, buyer, pl.batches[i]);
    }
    forall i | 0 <= i < |pl.batches| ensures 0 <= pl.batches[i].amount <= MAX_INT64 {
      AmountWithin(pl.batches, i);
    }
  }
}

/** When a claim pass goes through, read off the ledger, the wallets and the allowances before it. */
module ClaimSuccess {
  import opened Common
  import opened Billing
  import opened Tables
  import opened Claims
  import opened ClaimProofs
  import opened ClaimCost
  import opened RailProofs
  import opened Settlement
  import opened ClaimPass
  import Projection

  // ---------- the condition ----------

  /** Every selected buyer that has a wallet has a token account for it. */
  predicate BuyersDerivable(ledger: seq<Row>, ids: seq<nat>, env: Env)
    requires ValidIds(ledger, ids)
  {
    forall i :: 0 <= i < |ids| ==> DerivableLeg(ledger, ids[i], env)
  }

  predicate DerivableLeg(ledger: seq<Row>, id: nat, env: Env)
    requires 1 <= id <= |ledger|
  {
    var w := WalletOf(env, ledger[id - 1].counterparty);
    w == "" || w in env.atas
  }

  /** The leg is the buyer's and goes to this wallet. */
  predicate Goes(row: Row, env: Env, buyer: string, dest: string) {
    row.counterparty == buyer && WalletOf(env, row.account) == dest
  }

  /** What the selected legs of one buyer send to one wallet. */
  function DestSum(ledger: seq<Row>, ids: seq<nat>, env: Env, buyer: string, dest: string): int
    requires ValidIds(ledger, ids)
  {
    if ids == [] then 0
    else
      var row := ledger[ids[|ids| - 1] - 1];
      DestSum(ledger, ids[..|ids| - 1], env, buyer, dest) + (if Goes(row, env, buyer, dest) then row.delta else 0)
  }

  predicate Receives(ledger: seq<Row>, ids: seq<nat>, env: Env, buyer: string, dest: string)
    requires ValidIds(ledger, ids)
  {
    dest in env.atas && DestSum(ledger, ids, env, buyer, dest) > 0
  }

  /** Every wallet the buyer's legs go to has a token account and is owed a positive sum, and so is the
      treasury when it is owed a fee. */
  predicate Deliverable(ledger: seq<Row>, ids: seq<nat>, fees: seq<nat>, treasury: string, env: Env, buyer: string)
    requires ValidIds(ledger, ids) && ValidIds(ledger, fees)
  {
    && (forall i :: 0 <= i < |ids| && ledger[ids[i] - 1].counterparty == buyer ==>
          Receives(ledger, ids, env, buyer, WalletOf(env, ledger[ids[i] - 1].account)))
    && (treasury != "" && Owes(ledger, fees, buyer) ==> treasury in env.atas && BuyerSum(ledger, fees, buyer) > 0)
  }

  ghost predicate Claimable(rail: Rail, p: Params, env: Env, fees: seq<nat>)
    requires ValidIds(rail.ledger, fees)
  {
    var ids := Selected(rail, p);
    && p.delegate != "" && p.mint != "" && p.tokenProgram != ""
    && BuyersDerivable(rail.ledger, ids, env)
    && forall buyer {:trigger BuyerClaimable(rail, p, env, fees, buyer)} :: BuyerClaimable(rail, p, env, fees, buyer)
  }

  /** A buyer with everybody linked owes something and, if its allowance row pays it, all of it can be
      delivered. */
  predicate BuyerClaimable(rail: Rail, p: Params, env: Env, fees: seq<nat>, buyer: string)
    requires ValidIds(rail.ledger, fees)
  {
    var ids := Selected(rail, p);
    Owes(rail.ledger, ids, buyer) && Linked(rail.ledger, env, ids, buyer) ==>
      && Price(rail, p, buyer) > 0
      && (Pays(rail, p, env, buyer) ==> Deliverable(rail.ledger, ids, fees, p.treasury, env, buyer))
  }

  // ---------- slots ----------

  /** What legs come to. */
  datatype Share = Share(amount: int, legs: seq<nat>)

  /** What is batched for one destination and kind, if there is such a batch. */
  function Slot(bs: seq<PlanBatch>, dest: string, isFee: bool): Option<Share> {
    if bs == [] then None
    else if bs[0].dest == dest && bs[0].isFee == isFee then Some(Share(bs[0].amount, bs[0].legs))
    else Slot(bs[1..], dest, isFee)
  }

  predicate UniqueSlots(bs: seq<PlanBatch>) {
    bs == [] || (Slot(bs[1..], bs[0].dest, bs[0].isFee).None? && UniqueSlots(bs[1..]))
  }

  function Add(had: Option<Share>, x: int, legs: seq<nat>): Option<Share> {
    if had.Some? then Some(Share(had.value.amount + x, had.value.legs + legs)) else Some(Share(x, legs))
  }

  lemma {:induction false} NetBatchSlot(bs: seq<PlanBatch>, b: PlanBatch, dest: string, isFee: bool)
    ensures Slot(NetBatch(bs, b), dest, isFee)
         == if b.dest == dest && b.isFee == isFee then Add(Slot(bs, dest, isFee), b.amount, b.legs) else Slot(bs, dest, isFee)
  {
    if bs != [] && !SameSlot(bs[0], b) { NetBatchSlot(bs[1..], b, dest, isFee); }
  }

  lemma {:induction false} NetBatchUnique(bs: seq<PlanBatch>, b: PlanBatch)
    requires UniqueSlots(bs)
    ensures UniqueSlots(NetBatch(bs, b))
  {
    if bs != [] && !SameSlot(bs[0], b) {
      NetBatchUnique(bs[1..], b);
      NetBatchSlot(bs[1..], b, bs[0].dest, bs[0].isFee);
    }
  }

  predicate SlotOk(env: Env, dest: string, share: Option<Share>) {
    share.Some? ==> dest in env.atas && share.value.amount > 0
  }

  ghost predicate SlotsOk(env: Env, bs: seq<PlanBatch>) {
    forall dest, isFee {:trigger Slot(bs, dest, isFee)} :: SlotOk(env, dest, Slot(bs, dest, isFee))
  }

  /** Every batch is valid exactly when every slot is. */
  lemma {:induction false} ValidIffSlots(env: Env, bs: seq<PlanBatch>)
    requires UniqueSlots(bs)
    ensures BatchesValid(env, bs) <==> SlotsOk(env, bs)
  {
    if bs != [] {
      var rest := bs[1..];
      ValidIffSlots(env, rest);
      assert BatchesValid(env, bs) <==> (bs[0].dest in env.atas && bs[0].amount > 0) && BatchesValid(env, rest) by {
        assert bs == [bs[0]] + rest;
      }
      SlotsOkCons(env, bs);
    }
  }

  lemma SlotsOkCons(env: Env, bs: seq<PlanBatch>)
    requires bs != [] && UniqueSlots(bs)
    ensures SlotsOk(env, bs) <==> SlotOk(env, bs[0].dest, Some(Share(bs[0].amount, bs[0].legs))) && SlotsOk(env, bs[1..])
  {
    if SlotsOk(env, bs) {
      assert Slot(bs, bs[0].dest, bs[0].isFee) == Some(Share(bs[0].amount, bs[0].legs));
      forall dest, isFee ensures SlotOk(env, dest, Slot(bs[1..], dest, isFee)) {
        assert SlotOk(env, dest, Slot(bs, dest, isFee));
      }
    }
    if SlotOk(env, bs[0].dest, Some(Share(bs[0].amount, bs[0].legs))) && SlotsOk(env, bs[1..]) {
      forall dest, isFee ensures SlotOk(env, dest, Slot(bs, dest, isFee)) {
        assert SlotOk(env, dest, Slot(bs[1..], dest, isFee));
      }
    }
  }

  /** Each batch is what its slot holds. */
  lemma {:induction false} SlotOfBatch(bs: seq<PlanBatch>, i: nat)
    requires UniqueSlots(bs) && i < |bs|
    ensures Slot(bs, bs[i].dest, bs[i].isFee) == Some(Share(bs[i].amount, bs[i].legs))
  {
    if i > 0 { SlotOfBatch(bs[1..], i - 1); }
  }

  /** What a slot holds is a batch. */
  lemma {:induction false} BatchOfSlot(bs: seq<PlanBatch>, dest: string, isFee: bool) returns (i: nat)
    requires Slot(bs, dest, isFee).Some?
    ensures i < |bs| && bs[i].dest == dest && bs[i].isFee == isFee && Slot(bs, dest, isFee).value == Share(bs[i].amount, bs[i].legs)
  {
    if bs[0].dest == dest && bs[0].isFee == isFee {
      i := 0;
    } else {
      i := BatchOfSlot(bs[1..], dest, isFee);
      i := i + 1;
    }
  }

  // ---------- what the netting puts into them ----------

  function BatchesOf(ps: Plans, buyer: string): seq<PlanBatch> {
    if buyer in ps.of then ps.of[buyer].batches else []
  }

  function EarnSlot(ledger: seq<Row>, ids: seq<nat>, env: Env, buyer: string, dest: string): Option<Share>
    requires ValidIds(ledger, ids)
  {
    if ids == [] then None
    else
      var row := ledger[ids[|ids| - 1] - 1];
      var init := EarnSlot(ledger, ids[..|ids| - 1], env, buyer, dest);
      if Goes(row, env, buyer, dest) then Add(init, row.delta, [ids[|ids| - 1]]) else init
  }

  function FeeSlot(ledger: seq<Row>, fees: seq<nat>, buyer: string): Option<Share>
    requires ValidIds(ledger, fees)
  {
    if fees == [] then None
    else
      var row := ledger[fees[|fees| - 1] - 1];
      var init := FeeSlot(ledger, fees[..|fees| - 1], buyer);
      if row.counterparty == buyer then Add(init, row.delta, [fees[|fees| - 1]]) else init
  }

  lemma EarnStepSlot(s: (Plans, string), row: Row, id: nat, env: Env, buyer: string, dest: string, isFee: bool)
    requires EarnStep(s, row, id, env).Some? && UniqueSlots(BatchesOf(s.0, buyer))
    requires row.counterparty == buyer ==> WalletOf(env, row.counterparty) != "" && WalletOf(env, row.account) != ""
    ensures var qs := EarnStep(s, row, id, env).value.0;
      && UniqueSlots(BatchesOf(qs, buyer))
      && Slot(BatchesOf(qs, buyer), dest, isFee)
           == (if Goes(row, env, buyer, dest) && !isFee then Add(Slot(BatchesOf(s.0, buyer), dest, isFee), row.delta, [id])
               else Slot(BatchesOf(s.0, buyer), dest, isFee))
  {
    if row.counterparty == buyer {
      var b := PlanBatch(buyer, env.atas[WalletOf(env, buyer)], WalletOf(env, row.account), row.delta, [id], false);
      NetBatchUnique(BatchesOf(s.0, buyer), b);
      NetBatchSlot(BatchesOf(s.0, buyer), b, dest, isFee);
    }
  }

  /** A buyer's batches: one per slot, earn slots as the legs say, no fee slot yet. */
  predicate EarnSlotsAre(ledger: seq<Row>, ids: seq<nat>, env: Env, buyer: string, dest: string, bs: seq<PlanBatch>)
    requires ValidIds(ledger, ids)
  {
    UniqueSlots(bs) && Slot(bs, dest, false) == EarnSlot(ledger, ids, env, buyer, dest) && Slot(bs, dest, true) == None
  }

  lemma EarnStepSlots(s: (Plans, string), ledger: seq<Row>, init: seq<nat>, id: nat, ids: seq<nat>, t: Option<(Plans, string)>,
                      env: Env, buyer: string, dest: string)
    requires ValidIds(ledger, init) && 1 <= id <= |ledger| && ids == init + [id]
    requires t == EarnStep(s, ledger[id - 1], id, env) && t.Some? && EarnSlotsAre(ledger, init, env, buyer, dest, BatchesOf(s.0, buyer))
    requires ledger[id - 1].counterparty == buyer ==> LinkedLeg(ledger, env, id)
    ensures EarnSlotsAre(ledger, ids, env, buyer, dest, BatchesOf(t.value.0, buyer))
  {
    EarnStepSlot(s, ledger[id - 1], id, env, buyer, dest, false);
    EarnStepSlot(s, ledger[id - 1], id, env, buyer, dest, true);
    assert ids[..|ids| - 1] == init;
  }

  lemma {:induction false} PlanEarnsSlots(ledger: seq<Row>, ids: seq<nat>, env: Env, buyer: string, dest: string)
    requires ValidIds(ledger, ids) && PlanEarns(ledger, ids, env).Some? && Linked(ledger, env, ids, buyer)
    ensures EarnSlotsAre(ledger, ids, env, buyer, dest, BatchesOf(PlanEarns(ledger, ids, env).value.0, buyer))
  {
    if ids != [] {
      var init, id := ids[..|ids| - 1], ids[|ids| - 1];
      assert ids == init + [id];
      LinkedStep(ledger, env, init, id, buyer);
      PlanEarnsSnoc(ledger, init, id, ids, env);
      PlanEarnsSlots(ledger, init, env, buyer, dest);
      EarnStepSlots(PlanEarns(ledger, init, env).value, ledger, init, id, ids, PlanEarns(ledger, ids, env), env, buyer, dest);
    }
  }

  lemma FeeStepSlot(ps: Plans, row: Row, id: nat, treasury: string, src: string, buyer: string, dest: string, isFee: bool)
    requires UniqueSlots(BatchesOf(ps, buyer)) && buyer in ps.of
    ensures var qs := FeeStep(ps, row, id, treasury, src);
      && UniqueSlots(BatchesOf(qs, buyer)) && buyer in qs.of
      && Slot(BatchesOf(qs, buyer), dest, isFee)
           == (if row.counterparty == buyer && dest == treasury && isFee then Add(Slot(BatchesOf(ps, buyer), dest, isFee), row.delta, [id])
               else Slot(BatchesOf(ps, buyer), dest, isFee))
  {
    if row.counterparty == buyer {
      var b := PlanBatch(buyer, src, treasury, row.delta, [id], true);
      NetBatchUnique(BatchesOf(ps, buyer), b);
      NetBatchSlot(BatchesOf(ps, buyer), b, dest, isFee);
    }
  }

  /** The buyer's slots for one destination: earn as before the fees, fee as the fee legs say. */
  predicate FeeSlotsAre(ledger: seq<Row>, fees: seq<nat>, treasury: string, buyer: string, dest: string, earn: Option<Share>, ps: Plans)
    requires ValidIds(ledger, fees)
  {
    && buyer in ps.of && UniqueSlots(BatchesOf(ps, buyer)) && Slot(BatchesOf(ps, buyer), dest, false) == earn
    && Slot(BatchesOf(ps, buyer), dest, true) == (if dest == treasury then FeeSlot(ledger, fees, buyer) else None)
  }

  lemma FeeStepSlots(ledger: seq<Row>, init: seq<nat>, id: nat, fees: seq<nat>, treasury: string, src: string,
                     buyer: string, dest: string, earn: Option<Share>, ps: Plans)
    requires ValidIds(ledger, init) && 1 <= id <= |ledger| && fees == init + [id]
    requires FeeSlotsAre(ledger, init, treasury, buyer, dest, earn, ps)
    ensures FeeSlotsAre(ledger, fees, treasury, buyer, dest, earn, FeeStep(ps, ledger[id - 1], id, treasury, src))
  {
    FeeStepSlot(ps, ledger[id - 1], id, treasury, src, buyer, dest, false);
    FeeStepSlot(ps, ledger[id - 1], id, treasury, src, buyer, dest, true);
    assert fees[..|fees| - 1] == init;
  }

  lemma {:induction false} PlanFeesSlots(ledger: seq<Row>, fees: seq<nat>, treasury: string, src: string, ps: Plans, buyer: string, dest: string)
    requires ValidIds(ledger, fees) && buyer in ps.of && UniqueSlots(BatchesOf(ps, buyer))
    requires Slot(BatchesOf(ps, buyer), dest, true) == None
    ensures FeeSlotsAre(ledger, fees, treasury, buyer, dest, Slot(BatchesOf(ps, buyer), dest, false),
                        PlanFees(ledger, fees, treasury, src, ps))
  {
    if fees != [] {
      var init, id := fees[..|fees| - 1], fees[|fees| - 1];
      assert fees == init + [id];
      PlanFeesSlots(ledger, init, treasury, src, ps, buyer, dest);
      FeeStepSlots(ledger, init, id, fees, treasury, src, buyer, dest, Slot(BatchesOf(ps, buyer), dest, false),
                   PlanFees(ledger, init, treasury, src, ps));
    }
  }

  // ---------- slots and sums ----------

  /** The selected legs of one buyer that go to one wallet, in order. */
  function DestLegs(ledger: seq<Row>, ids: seq<nat>, env: Env, buyer: string, dest: string): seq<nat>
    requires ValidIds(ledger, ids)
  {
    if ids == [] then []
    else
      var id := ids[|ids| - 1];
      var init := DestLegs(ledger, ids[..|ids| - 1], env, buyer, dest);
      if Goes(ledger[id - 1], env, buyer, dest) then init + [id] else init
  }

  /** The legs whose counterparty is the buyer, in order. */
  function BuyerLegs(ledger: seq<Row>, legs: seq<nat>, buyer: string): seq<nat>
    requires ValidIds(ledger, legs)
  {
    if legs == [] then []
    else
      var id := legs[|legs| - 1];
      var init := BuyerLegs(ledger, legs[..|legs| - 1], buyer);
      if ledger[id - 1].counterparty == buyer then init + [id] else init
  }

  predicate GoesSomewhere(ledger: seq<Row>, ids: seq<nat>, env: Env, buyer: string, dest: string)
    requires ValidIds(ledger, ids)
  {
    exists i :: 0 <= i < |ids| && Goes(ledger[ids[i] - 1], env, buyer, dest)
  }

  lemma GoesSnoc(ledger: seq<Row>, init: seq<nat>, id: nat, ids: seq<nat>, env: Env, buyer: string, dest: string)
    requires ValidIds(ledger, init) && 1 <= id <= |ledger| && ids == init + [id]
    ensures GoesSomewhere(ledger, ids, env, buyer, dest)
       <==> GoesSomewhere(ledger, init, env, buyer, dest) || Goes(ledger[id - 1], env, buyer, dest)
  {
    if GoesSomewhere(ledger, init, env, buyer, dest) {
      var i :| 0 <= i < |init| && Goes(ledger[init[i] - 1], env, buyer, dest);
      assert Goes(ledger[ids[i] - 1], env, buyer, dest);
    }
    if Goes(ledger[id - 1], env, buyer, dest) { assert ids[|init|] == id; }
  }

  lemma DestSnoc(ledger: seq<Row>, init: seq<nat>, id: nat, ids: seq<nat>, env: Env, buyer: string, dest: string)
    requires ValidIds(ledger, init) && 1 <= id <= |ledger| && ids == init + [id]
    ensures var hit := Goes(ledger[id - 1], env, buyer, dest);
      && DestSum(ledger, ids, env, buyer, dest) == DestSum(ledger, init, env, buyer, dest) + (if hit then ledger[id - 1].delta else 0)
      && DestLegs(ledger, ids, env, buyer, dest)
           == (if hit then DestLegs(ledger, init, env, buyer, dest) + [id] else DestLegs(ledger, init, env, buyer, dest))
      && EarnSlot(ledger, ids, env, buyer, dest)
           == (if hit then Add(EarnSlot(ledger, init, env, buyer, dest), ledger[id - 1].delta, [id]) else EarnSlot(ledger, init, env, buyer, dest))
  {
    assert ids[..|ids| - 1] == init;
  }

  /** The slot holds what the legs add up to, if there is any. */
  predicate SlotIs(slot: Option<Share>, some: bool, sum: int, legs: seq<nat>) {
    && slot == (if some then Some(Share(sum, legs)) else None)
    && (!some ==> sum == 0 && legs == [])
  }

  lemma SlotStep(hit: bool, slot: Option<Share>, some: bool, sum: int, legs: seq<nat>, delta: int, id: nat,
                 slot': Option<Share>, some': bool, sum': int, legs': seq<nat>)
    requires SlotIs(slot, some, sum, legs) && (some' <==> some || hit) && sum' == sum + (if hit then delta else 0)
    requires legs' == (if hit then legs + [id] else legs) && slot' == (if hit then Add(slot, delta, [id]) else slot)
    ensures SlotIs(slot', some', sum', legs')
  {
    assert [] + [id] == [id];
  }

  /** What the legs of one buyer to one wallet come to. */
  predicate EarnIs(ledger: seq<Row>, ids: seq<nat>, env: Env, buyer: string, dest: string)
    requires ValidIds(ledger, ids)
  {
    SlotIs(EarnSlot(ledger, ids, env, buyer, dest), GoesSomewhere(ledger, ids, env, buyer, dest),
           DestSum(ledger, ids, env, buyer, dest), DestLegs(ledger, ids, env, buyer, dest))
  }

  lemma EarnStepIs(ledger: seq<Row>, init: seq<nat>, id: nat, ids: seq<nat>, env: Env, buyer: string, dest: string)
    requires ValidIds(ledger, init) && 1 <= id <= |ledger| && ids == init + [id] && EarnIs(ledger, init, env, buyer, dest)
    ensures EarnIs(ledger, ids, env, buyer, dest)
  {
    GoesSnoc(ledger, init, id, ids, env, buyer, dest);
    DestSnoc(ledger, init, id, ids, env, buyer, dest);
    SlotStep(Goes(ledger[id - 1], env, buyer, dest), EarnSlot(ledger, init, env, buyer, dest), GoesSomewhere(ledger, init, env, buyer, dest),
             DestSum(ledger, init, env, buyer, dest), DestLegs(ledger, init, env, buyer, dest), ledger[id - 1].delta, id,
             EarnSlot(ledger, ids, env, buyer, dest), GoesSomewhere(ledger, ids, env, buyer, dest),
             DestSum(ledger, ids, env, buyer, dest), DestLegs(ledger, ids, env, buyer, dest));
  }

  lemma {:induction false} EarnSlotIs(ledger: seq<Row>, ids: seq<nat>, env: Env, buyer: string, dest: string)
    requires ValidIds(ledger, ids)
    ensures EarnIs(ledger, ids, env, buyer, dest)
  {
    if ids != [] {
      var init, id := ids[..|ids| - 1], ids[|ids| - 1];
      EarnSlotIs(ledger, init, env, buyer, dest);
      EarnStepIs(ledger, init, id, ids, env, buyer, dest);
    }
  }

  lemma FeeSnoc(ledger: seq<Row>, init: seq<nat>, id: nat, fees: seq<nat>, buyer: string)
    requires ValidIds(ledger, init) && 1 <= id <= |ledger| && fees == init + [id]
    ensures var hit := ledger[id - 1].counterparty == buyer;
      && BuyerSum(ledger, fees, buyer) == BuyerSum(ledger, init, buyer) + (if hit then ledger[id - 1].delta else 0)
      && BuyerLegs(ledger, fees, buyer) == (if hit then BuyerLegs(ledger, init, buyer) + [id] else BuyerLegs(ledger, init, buyer))
      && FeeSlot(ledger, fees, buyer)
           == (if hit then Add(FeeSlot(ledger, init, buyer), ledger[id - 1].delta, [id]) else FeeSlot(ledger, init, buyer))
  {
    assert fees[..|fees| - 1] == init;
  }

  predicate FeeIs(ledger: seq<Row>, fees: seq<nat>, buyer: string)
    requires ValidIds(ledger, fees)
  {
    SlotIs(FeeSlot(ledger, fees, buyer), Owes(ledger, fees, buyer), BuyerSum(ledger, fees, buyer), BuyerLegs(ledger, fees, buyer))
  }

  lemma FeeStepIs(ledger: seq<Row>, init: seq<nat>, id: nat, fees: seq<nat>, buyer: string)
    requires ValidIds(ledger, init) && 1 <= id <= |ledger| && fees == init + [id] && FeeIs(ledger, init, buyer)
    ensures FeeIs(ledger, fees, buyer)
  {
    FeeSnoc(ledger, init, id, fees, buyer);
    OwesStep(ledger, init, id, buyer);
    SlotStep(ledger[id - 1].counterparty == buyer, FeeSlot(ledger, init, buyer), Owes(ledger, init, buyer), BuyerSum(ledger, init, buyer),
             BuyerLegs(ledger, init, buyer), ledger[id - 1].delta, id,
             FeeSlot(ledger, fees, buyer), Owes(ledger, fees, buyer), BuyerSum(ledger, fees, buyer), BuyerLegs(ledger, fees, buyer));
  }

  lemma {:induction false} FeeSlotIs(ledger: seq<Row>, fees: seq<nat>, buyer: string)
    requires ValidIds(ledger, fees)
    ensures FeeIs(ledger, fees, buyer)
  {
    if fees != [] {
      var init, id := fees[..|fees| - 1], fees[|fees| - 1];
      FeeSlotIs(ledger, init, buyer);
      FeeStepIs(ledger, init, id, fees, buyer);
    }
  }

  /** All slots of a linked buyer's plan. */
  lemma PlanSlots(ledger: seq<Row>, ids: seq<nat>, fees: seq<nat>, treasury: string, env: Env, buyer: string, dest: string)
    requires ValidIds(ledger, ids) && ValidIds(ledger, fees) && PlanAll(ledger, ids, fees, treasury, env).Some?
    requires Linked(ledger, env, ids, buyer) && Owes(ledger, ids, buyer)
    ensures var bs := BatchesOf(PlanAll(ledger, ids, fees, treasury, env).value, buyer);
      && UniqueSlots(bs) && Slot(bs, dest, false) == EarnSlot(ledger, ids, env, buyer, dest)
      && Slot(bs, dest, true) == (if treasury != "" && dest == treasury then FeeSlot(ledger, fees, buyer) else None)
  {
    PlanEarnsSlots(ledger, ids, env, buyer, dest);
    PlanEarnsFor(ledger, ids, env, buyer);
    var s := PlanEarns(ledger, ids, env).value;
    if treasury != "" { PlanFeesSlots(ledger, fees, treasury, s.1, s.0, buyer, dest); }
  }

  /** The earn slots are in order exactly when every wallet the buyer's legs go to receives. */
  lemma EarnSlotsOkIff(ledger: seq<Row>, ids: seq<nat>, env: Env, buyer: string)
    requires ValidIds(ledger, ids)
    ensures (forall dest {:trigger EarnSlot(ledger, ids, env, buyer, dest)} :: SlotOk(env, dest, EarnSlot(ledger, ids, env, buyer, dest)))
       <==> (forall i :: 0 <= i < |ids| && ledger[ids[i] - 1].counterparty == buyer ==>
               Receives(ledger, ids, env, buyer, WalletOf(env, ledger[ids[i] - 1].account)))
  {
    if forall dest {:trigger EarnSlot(ledger, ids, env, buyer, dest)} :: SlotOk(env, dest, EarnSlot(ledger, ids, env, buyer, dest)) {
      forall i | 0 <= i < |ids| && ledger[ids[i] - 1].counterparty == buyer
        ensures Receives(ledger, ids, env, buyer, WalletOf(env, ledger[ids[i] - 1].account))
      {
        var dest := WalletOf(env, ledger[ids[i] - 1].account);
        EarnSlotIs(ledger, ids, env, buyer, dest);
        assert Goes(ledger[ids[i] - 1], env, buyer, dest);
        assert SlotOk(env, dest, EarnSlot(ledger, ids, env, buyer, dest));
      }
    } else {
      var dest :| !SlotOk(env, dest, EarnSlot(ledger, ids, env, buyer, dest));
      var i := UndeliverableLeg(ledger, ids, env, buyer, dest);
      assert !Receives(ledger, ids, env, buyer, WalletOf(env, ledger[ids[i] - 1].account));
    }
  }

  lemma UndeliverableLeg(ledger: seq<Row>, ids: seq<nat>, env: Env, buyer: string, dest: string) returns (i: nat)
    requires ValidIds(ledger, ids) && !SlotOk(env, dest, EarnSlot(ledger, ids, env, buyer, dest))
    ensures i < |ids| && Goes(ledger[ids[i] - 1], env, buyer, dest) && !Receives(ledger, ids, env, buyer, dest)
  {
    EarnSlotIs(ledger, ids, env, buyer, dest);
    i :| i < |ids| && Goes(ledger[ids[i] - 1], env, buyer, dest);
  }

  lemma ValidIffDeliverable(ledger: seq<Row>, ids: seq<nat>, fees: seq<nat>, treasury: string, env: Env, buyer: string)
    requires ValidIds(ledger, ids) && ValidIds(ledger, fees) && PlanAll(ledger, ids, fees, treasury, env).Some?
    requires Linked(ledger, env, ids, buyer) && Owes(ledger, ids, buyer)
    ensures BatchesValid(env, BatchesOf(PlanAll(ledger, ids, fees, treasury, env).value, buyer))
       <==> Deliverable(ledger, ids, fees, treasury, env, buyer)
  {
    var bs := BatchesOf(PlanAll(ledger, ids, fees, treasury, env).value, buyer);
    PlanSlots(ledger, ids, fees, treasury, env, buyer, treasury);
    ValidIffSlots(env, bs);
    EarnSlotsOkIff(ledger, ids, env, buyer);
    FeeSlotIs(ledger, fees, buyer);
    forall dest ensures Slot(bs, dest, false) == EarnSlot(ledger, ids, env, buyer, dest)
        && Slot(bs, dest, true) == (if treasury != "" && dest == treasury then FeeSlot(ledger, fees, buyer) else None)
    {
      PlanSlots(ledger, ids, fees, treasury, env, buyer, dest);
    }
    SlotsOkParts(ledger, ids, fees, treasury, env, buyer, bs);
  }

  lemma SlotsOkParts(ledger: seq<Row>, ids: seq<nat>, fees: seq<nat>, treasury: string, env: Env, buyer: string, bs: seq<PlanBatch>)
    requires ValidIds(ledger, ids) && ValidIds(ledger, fees)
    requires forall dest {:trigger Slot(bs, dest, false)} :: Slot(bs, dest, false) == EarnSlot(ledger, ids, env, buyer, dest)
    requires forall dest {:trigger Slot(bs, dest, true)} ::
        Slot(bs, dest, true) == (if treasury != "" && dest == treasury then FeeSlot(ledger, fees, buyer) else None)
    ensures SlotsOk(env, bs) <==> (
        && (forall dest {:trigger EarnSlot(ledger, ids, env, buyer, dest)} :: SlotOk(env, dest, EarnSlot(ledger, ids, env, buyer, dest)))
        && (treasury != "" ==> SlotOk(env, treasury, FeeSlot(ledger, fees, buyer))))
  {
    if SlotsOk(env, bs) {
      forall dest ensures SlotOk(env, dest, EarnSlot(ledger, ids, env, buyer, dest)) {
        assert SlotOk(env, dest, Slot(bs, dest, false));
      }
      assert SlotOk(env, treasury, Slot(bs, treasury, true));
    } else {
      var dest, isFee :| !SlotOk(env, dest, Slot(bs, dest, isFee));
      if isFee {
        assert Slot(bs, dest, true).Some?;
      } else {
        assert Slot(bs, dest, false) == EarnSlot(ledger, ids, env, buyer, dest);
      }
    }
  }

  // ---------- the pass ----------

  lemma {:induction false} PlansIffDerivable(ledger: seq<Row>, ids: seq<nat>, env: Env)
    requires ValidIds(ledger, ids)
    ensures PlanEarns(ledger, ids, env).Some? <==> BuyersDerivable(ledger, ids, env)
  {
    if ids != [] {
      var init, id := ids[..|ids| - 1], ids[|ids| - 1];
      PlansIffDerivable(ledger, init, env);
      assert BuyersDerivable(ledger, ids, env) <==> BuyersDerivable(ledger, init, env) && DerivableLeg(ledger, id, env) by {
        assert ids == init + [id];
      }
    }
  }

  lemma HarmlessIff(rail: Rail, p: Params, env: Env, fees: seq<nat>, ps: Plans, buyer: string)
    requires LedgerOk(rail.ledger) && FeesOf(rail.ledger, Selected(rail, p), fees)
    requires PlanAll(rail.ledger, Selected(rail, p), fees, p.treasury, env) == Some(ps)
    ensures (buyer in ps.of ==> Harmless(rail, p.delegate, env, ps, buyer)) <==> BuyerClaimable(rail, p, env, fees, buyer)
  {
    PlanPrice(rail, p, env, fees, ps, buyer);
    if buyer in ps.of && !ps.of[buyer].skippable {
      OwesActive(rail, p, buyer);
      ValidIffDeliverable(rail.ledger, Selected(rail, p), fees, p.treasury, env, buyer);
    }
  }

  /** A pass succeeds exactly when its parameters are set, every selected buyer's wallet has a token
      account, and every buyer whose sellers are all linked owes a positive price and, if its allowance
      row covers it, owes a positive sum to every destination, each with a token account. */
  lemma ClaimSucceedsIff(rail: Rail, p: Params, env: Env, fees: seq<nat>)
    requires RailOk(rail) && LedgerOk(rail.ledger) && CursorOk(rail, p.delegate) && FeesOf(rail.ledger, Selected(rail, p), fees)
    ensures ClaimTx(rail, p, env, fees).1.Ok? <==> Claimable(rail, p, env, fees)
  {
    var ids := Selected(rail, p);
    PlansIffDerivable(rail.ledger, ids, env);
    if p.delegate != "" && p.mint != "" && p.tokenProgram != "" && ids != [] && BuyersDerivable(rail.ledger, ids, env) {
      var ps := PlanAll(rail.ledger, ids, fees, p.treasury, env).value;
      PlannedSucceedsIff(rail, p, env, fees, ps);
      forall b ensures (b in ps.of ==> Harmless(rail, p.delegate, env, ps, b)) <==> BuyerClaimable(rail, p, env, fees, b) {
        HarmlessIff(rail, p, env, fees, ps, b);
      }
    }
  }

  // ---------- non-negative shares ----------

  /** Where no share is negative, a wallet is owed a positive sum exactly when one of its legs is positive:
      a zero share does no harm beside a positive one to the same wallet. */
  lemma {:induction false} PositiveIffSomeLeg(ledger: seq<Row>, ids: seq<nat>, env: Env, buyer: string, dest: string)
    requires ValidIds(ledger, ids) && NonNegative(ledger, ids)
    ensures DestSum(ledger, ids, env, buyer, dest) >= 0
    ensures DestSum(ledger, ids, env, buyer, dest) > 0
       <==> exists i :: 0 <= i < |ids| && Goes(ledger[ids[i] - 1], env, buyer, dest) && ledger[ids[i] - 1].delta > 0
  {
    if ids != [] {
      var n := |ids| - 1;
      var init := ids[..n];
      PositiveIffSomeLeg(ledger, init, env, buyer, dest);
      if DestSum(ledger, init, env, buyer, dest) > 0 {
        var i :| 0 <= i < |init| && Goes(ledger[init[i] - 1], env, buyer, dest) && ledger[init[i] - 1].delta > 0;
        assert Goes(ledger[ids[i] - 1], env, buyer, dest) && ledger[ids[i] - 1].delta > 0;
      }
      if i :| 0 <= i < |ids| && Goes(ledger[ids[i] - 1], env, buyer, dest) && ledger[ids[i] - 1].delta > 0 {
        assert i < n ==> init[i] == ids[i];
      }
    }
  }

  /** The billing transactions write no negative share. */
  lemma InvShares(db: DB, ids: seq<nat>)
    requires Projection.Inv(db) && EarnIds(db.ledger, ids)
    ensures NonNegative(db.ledger, ids)
  {
    forall i | 0 <= i < |ids| ensures db.ledger[ids[i] - 1].delta >= 0 {
      var row := db.ledger[ids[i] - 1];
      assert Projection.UsageRowOk(db, row);
      assert Projection.RequestOk(db.requests[row.ref]);
    }
  }

  /** So over the billing ledger a destination receives exactly when it has a token account and one of the
      buyer's legs to it is positive. */
  lemma ReceivesIff(db: DB, ids: seq<nat>, env: Env, buyer: string, dest: string)
    requires Projection.Inv(db) && EarnIds(db.ledger, ids)
    ensures Receives(db.ledger, ids, env, buyer, dest) <==> (
        && dest in env.atas
        && exists i :: 0 <= i < |ids| && Goes(db.ledger[ids[i] - 1], env, buyer, dest) && db.ledger[ids[i] - 1].delta > 0)
  {
    InvShares(db, ids);
    PositiveIffSomeLeg(db.ledger, ids, env, buyer, dest);
  }
}

/** What stands in the batches a claim pass inserts: whose money they move, to whom, and for which legs. */
module ClaimBatches {
  import opened Common
  import opened Billing
  import opened Tables
  import opened Claims
  import opened ClaimProofs
  import opened ClaimCost
  import opened RailProofs
  import opened Settlement
  import opened ClaimPass
  import opened ClaimSuccess
  import opened ClaimBalance

  // ---------- sources ----------

  /** The batch draws on the buyer's own token account, unless it is a fee batch. */
  predicate SourceOk(env: Env, b: PlanBatch) {
    !b.isFee ==> WalletOf(env, b.buyer) in env.atas && b.source == env.atas[WalletOf(env, b.buyer)]
  }

  /** A buyer's batches are the buyer's, and draw on its account. */
  predicate BuyerSources(env: Env, buyer: string, bs: seq<PlanBatch>) {
    forall i :: 0 <= i < |bs| ==> bs[i].buyer == buyer && SourceOk(env, bs[i])
  }

  predicate Sources(env: Env, ps: Plans) {
    forall buyer | buyer in ps.of :: BuyerSources(env, buyer, ps.of[buyer].batches)
  }

  lemma {:induction false} NetBatchSources(env: Env, buyer: string, bs: seq<PlanBatch>, b: PlanBatch)
    requires BuyerSources(env, buyer, bs) && b.buyer == buyer && SourceOk(env, b)
    ensures BuyerSources(env, buyer, NetBatch(bs, b))
  {
    if bs != [] && !SameSlot(bs[0], b) {
      NetBatchSources(env, buyer, bs[1..], b);
      assert forall i :: 0 < i < |NetBatch(bs, b)| ==> NetBatch(bs, b)[i] == NetBatch(bs[1..], b)[i - 1];
    }
  }

  lemma NetIntoSources(env: Env, ps: Plans, b: PlanBatch)
    requires Sources(env, ps) && SourceOk(env, b)
    ensures Sources(env, NetInto(ps, b))
  {
    NetBatchSources(env, b.buyer, Touch(ps, b.buyer).of[b.buyer].batches, b);
  }

  lemma {:induction false} EarnSources(ledger: seq<Row>, ids: seq<nat>, env: Env)
    requires ValidIds(ledger, ids) && PlanEarns(ledger, ids, env).Some?
    ensures Sources(env, PlanEarns(ledger, ids, env).value.0)
  {
    if ids != [] {
      var init, id := ids[..|ids| - 1], ids[|ids| - 1];
      EarnSources(ledger, init, env);
      EarnStepSources(PlanEarns(ledger, init, env).value, ledger[id - 1], id, env, PlanEarns(ledger, ids, env).value);
    }
  }

  lemma EarnStepSources(s: (Plans, string), row: Row, id: nat, env: Env, t: (Plans, string))
    requires Sources(env, s.0) && EarnStep(s, row, id, env) == Some(t)
    ensures Sources(env, t.0)
  {
    var bw := WalletOf(env, row.counterparty);
    if bw != "" && WalletOf(env, row.account) != "" {
      NetIntoSources(env, s.0, PlanBatch(row.counterparty, env.atas[bw], WalletOf(env, row.account), row.delta, [id], false));
    }
  }

  lemma {:induction false} FeeSources(ledger: seq<Row>, fees: seq<nat>, treasury: string, src: string, ps: Plans, env: Env)
    requires ValidIds(ledger, fees) && Sources(env, ps)
    ensures Sources(env, PlanFees(ledger, fees, treasury, src, ps))
  {
    if fees != [] {
      var init, id := fees[..|fees| - 1], fees[|fees| - 1];
      FeeSources(ledger, init, treasury, src, ps, env);
      var row := ledger[id - 1];
      NetIntoSources(env, PlanFees(ledger, init, treasury, src, ps), PlanBatch(row.counterparty, src, treasury, row.delta, [id], true));
    }
  }

  lemma PlanSources(ledger: seq<Row>, ids: seq<nat>, fees: seq<nat>, treasury: string, env: Env)
    requires ValidIds(ledger, ids) && ValidIds(ledger, fees) && PlanAll(ledger, ids, fees, treasury, env).Some?
    ensures Sources(env, PlanAll(ledger, ids, fees, treasury, env).value)
  {
    EarnSources(ledger, ids, env);
    var s := PlanEarns(ledger, ids, env).value;
    FeeSources(ledger, fees, treasury, s.1, s.0, env);
  }

  // ---------- inserted rows ----------

  /** The row is the planned batch's. */
  predicate RowOf(delegate: string, env: Env, b: PlanBatch, row: Batch)
    requires b.legs != []
  {
    && b.dest in env.atas && row.ref == SettlementRef(delegate, b) && row.buyer == b.buyer && row.delegate == delegate
    && row.source == b.source && row.dest == b.dest && row.destAta == env.atas[b.dest] && row.amount == b.amount > 0
    && row.state == Pending && row.wire == None
  }

  /** Everything anchored to batch n is one of these legs. */
  predicate Carries(anchors: seq<Anchor>, n: nat, legs: seq<nat>) {
    forall i :: 0 <= i < |anchors| && anchors[i].batch == n ==> anchors[i].leg in legs
  }

  predicate NoneOver(anchors: seq<Anchor>, n: nat) {
    forall i :: 0 <= i < |anchors| ==> anchors[i].batch <= n
  }

  lemma InsertOneRow(rail: Rail, delegate: string, env: Env, b: PlanBatch, r: Rail)
    requires b.legs != [] && InsertBatch(rail, delegate, env, b) == Ok(r) && NoneOver(rail.anchors, |rail.batches|)
    ensures rail.batches <= r.batches && NoneOver(r.anchors, |r.batches|)
    ensures |r.batches| > |rail.batches| ==>
      |r.batches| == |rail.batches| + 1 && RowOf(delegate, env, b, r.batches[|rail.batches|]) && Carries(r.anchors, |r.batches|, b.legs)
    ensures forall n: nat, legs :: n <= |rail.batches| && Carries(rail.anchors, n, legs) ==> Carries(r.anchors, n, legs)
  {
    AnchorAllMembers(rail.anchors, |rail.batches| + 1, b.legs, 0);
    forall n: nat, legs | n <= |rail.batches| && Carries(rail.anchors, n, legs) ensures Carries(r.anchors, n, legs) {
      forall i | 0 <= i < |r.anchors| && r.anchors[i].batch == n ensures r.anchors[i].leg in legs {
        assert i < |rail.anchors| && r.anchors[i] == rail.anchors[i];
      }
    }
  }

  lemma {:induction false} InsertedRow(rail: Rail, delegate: string, env: Env, bs: seq<PlanBatch>, r: Rail, i: nat) returns (j: nat)
    requires LegsNonEmpty(bs) && InsertAll(rail, delegate, env, bs) == Ok(r) && NoneOver(rail.anchors, |rail.batches|)
    requires |rail.batches| <= i < |r.batches|
    ensures j < |bs| && RowOf(delegate, env, bs[j], r.batches[i]) && Carries(r.anchors, i + 1, bs[j].legs)
  {
    var init, b := bs[..|bs| - 1], bs[|bs| - 1];
    var mid := InsertAll(rail, delegate, env, init).value;
    InsertedOver(rail, delegate, env, init, mid);
    InsertOneRow(mid, delegate, env, b, r);
    if i < |mid.batches| {
      j := InsertedRow(rail, delegate, env, init, mid, i);
      assert r.batches[i] == mid.batches[i];
    } else {
      j := |bs| - 1;
    }
  }

  lemma {:induction false} InsertedOver(rail: Rail, delegate: string, env: Env, bs: seq<PlanBatch>, r: Rail)
    requires LegsNonEmpty(bs) && InsertAll(rail, delegate, env, bs) == Ok(r) && NoneOver(rail.anchors, |rail.batches|)
    ensures NoneOver(r.anchors, |r.batches|)
  {
    if bs != [] {
      var init := bs[..|bs| - 1];
      InsertedOver(rail, delegate, env, init, InsertAll(rail, delegate, env, init).value);
      InsertOneRow(InsertAll(rail, delegate, env, init).value, delegate, env, bs[|bs| - 1], r);
    }
  }

  // ---------- a pass's new batches ----------

  /** Money from the buyer's own token account to the wallet where the sellers of its legs are paid: the
      sum of the buyer's selected legs to that wallet. */
  ghost predicate Transfers(rail: Rail, p: Params, env: Env, b: Batch) {
    var ids := Selected(rail, p);
    var legs := DestLegs(rail.ledger, ids, env, b.buyer, b.dest);
    && WalletOf(env, b.buyer) in env.atas && b.source == env.atas[WalletOf(env, b.buyer)]
    && GoesSomewhere(rail.ledger, ids, env, b.buyer, b.dest) && b.amount == DestSum(rail.ledger, ids, env, b.buyer, b.dest)
    && legs != []
    && b.ref == RefText("dset:" + Short(p.delegate) + ":" + Short(b.buyer) + ":" + Short(b.dest) + ":xfer", MinLeg(legs), MaxLeg(legs))
  }

  /** The treasury's fees on the buyer's selected requests. */
  ghost predicate CollectsFees(rail: Rail, p: Params, fees: seq<nat>, b: Batch)
    requires ValidIds(rail.ledger, fees)
  {
    var legs := BuyerLegs(rail.ledger, fees, b.buyer);
    && p.treasury != "" && b.dest == p.treasury && Owes(rail.ledger, fees, b.buyer) && b.amount == BuyerSum(rail.ledger, fees, b.buyer)
    && legs != []
    && b.ref == RefText("dset:" + Short(p.delegate) + ":" + Short(b.buyer) + ":" + Short(b.dest) + ":fee", MinLeg(legs), MaxLeg(legs))
  }

  /** An earn leg the batch carries is owed to an account paid at the batch's wallet, and is paid from the
      buyer's token account. */
  predicate EarnCarried(rail: Rail, env: Env, b: Batch, l: nat)
    requires 1 <= l <= |rail.ledger|
  {
    rail.ledger[l - 1].leg == SellerLeg ==>
      && WalletOf(env, rail.ledger[l - 1].account) == b.dest
      && WalletOf(env, b.buyer) in env.atas && b.source == env.atas[WalletOf(env, b.buyer)]
  }

  /** A fee leg goes to the treasury, and every leg is an earn or fee leg on a charge of the buyer's. */
  predicate LegCarried(rail: Rail, p: Params, env: Env, b: Batch, l: nat) {
    && 1 <= l <= |rail.ledger| && rail.ledger[l - 1].counterparty == b.buyer && EarnCarried(rail, env, b, l)
    && (rail.ledger[l - 1].leg == SellerLeg || (rail.ledger[l - 1].leg == FeeLeg && b.dest == p.treasury))
  }

  ghost predicate BatchDraws(rail: Rail, r: Rail, p: Params, env: Env, fees: seq<nat>, i: nat)
    requires ValidIds(rail.ledger, fees) && i < |r.batches|
  {
    var b := r.batches[i];
    && b.delegate == p.delegate && b.state == Pending && b.wire == None && b.amount > 0 && Pays(rail, p, env, b.buyer)
    && b.dest in env.atas && b.destAta == env.atas[b.dest]
    && (Transfers(rail, p, env, b) || CollectsFees(rail, p, fees, b))
    && (forall j :: 0 <= j < |r.anchors| && r.anchors[j].batch == i + 1 ==> LegCarried(rail, p, env, b, r.anchors[j].leg))
  }

  lemma TransferText(delegate: string, b: PlanBatch)
    requires b.legs != []
    ensures SettlementRef(delegate, b)
         == RefText("dset:" + Short(delegate) + ":" + Short(b.buyer) + ":" + Short(b.dest) + (if b.isFee then ":fee" else ":xfer"),
                    MinLeg(b.legs), MaxLeg(b.legs))
  {
    var head := "dset:" + Short(delegate) + ":" + Short(b.buyer) + ":" + Short(b.dest);
    assert head + ":fee" == head + ":" + "fee" && head + ":xfer" == head + ":" + "xfer";
  }

  lemma PlannedTransfers(rail: Rail, p: Params, env: Env, fees: seq<nat>, ps: Plans, buyer: string, x: nat, b: Batch)
    requires ValidIds(rail.ledger, fees) && PlanAll(rail.ledger, Selected(rail, p), fees, p.treasury, env) == Some(ps)
    requires Linked(rail.ledger, env, Selected(rail, p), buyer) && Owes(rail.ledger, Selected(rail, p), buyer)
    requires buyer in ps.of && x < |ps.of[buyer].batches| && ps.of[buyer].batches[x].buyer == buyer && ps.of[buyer].batches[x].legs != []
    requires RowOf(p.delegate, env, ps.of[buyer].batches[x], b)
    ensures if ps.of[buyer].batches[x].isFee then CollectsFees(rail, p, fees, b) else Transfers(rail, p, env, b)
  {
    var ids, bs := Selected(rail, p), ps.of[buyer].batches;
    PlanSources(rail.ledger, ids, fees, p.treasury, env);
    BatchOfPlan(rail.ledger, ids, fees, p.treasury, env, buyer, bs, x);
    TransferText(p.delegate, bs[x]);
    assert SourceOk(env, bs[x]);
  }

  /** A leg of a transfer's sum is an earn leg that goes there. */
  lemma {:induction false} DestLegGoes(ledger: seq<Row>, ids: seq<nat>, env: Env, buyer: string, dest: string, l: nat)
    requires ValidIds(ledger, ids) && l in DestLegs(ledger, ids, env, buyer, dest)
    ensures 1 <= l <= |ledger| && Goes(ledger[l - 1], env, buyer, dest)
  {
    var init := ids[..|ids| - 1];
    if l in DestLegs(ledger, init, env, buyer, dest) { DestLegGoes(ledger, init, env, buyer, dest, l); }
  }

  lemma CarriedGoes(rail: Rail, p: Params, env: Env, fees: seq<nat>, done: seq<nat>, ps: Plans, buyer: string, x: nat, b: Batch, l: nat)
    requires ValidIds(rail.ledger, fees) && PlanAll(rail.ledger, Selected(rail, p), fees, p.treasury, env) == Some(ps)
    requires Linked(rail.ledger, env, Selected(rail, p), buyer) && Owes(rail.ledger, Selected(rail, p), buyer)
    requires ValidIds(rail.ledger, done) && buyer in ps.of && PlanOk(rail.ledger, done, buyer, ps.of[buyer]) && x < |ps.of[buyer].batches|
    requires ps.of[buyer].batches[x].legs != [] && RowOf(p.delegate, env, ps.of[buyer].batches[x], b) && l in ps.of[buyer].batches[x].legs
    ensures LegCarried(rail, p, env, b, l)
  {
    var ids, bs := Selected(rail, p), ps.of[buyer].batches;
    assert PlannedOk(rail.ledger, done, buyer, bs[x]);
    assert LegOk(rail.ledger, done, buyer, bs[x].isFee, l);
    BatchOfPlan(rail.ledger, ids, fees, p.treasury, env, buyer, bs, x);
    if !bs[x].isFee {
      PlannedTransfers(rail, p, env, fees, ps, buyer, x, b);
      DestLegGoes(rail.ledger, ids, env, buyer, bs[x].dest, l);
    }
  }

  /** Every batch a successful pass inserts is a paying buyer's: a transfer out of that buyer's own token
      account, to the wallet of the accounts its earn legs are owed to, or the treasury's fees. */
  lemma NewBatchesDraw(rail: Rail, p: Params, env: Env, fees: seq<nat>, i: nat)
    requires RailOk(rail) && LedgerOk(rail.ledger) && FeesOf(rail.ledger, Selected(rail, p), fees) && ClaimTx(rail, p, env, fees).1.Ok?
    requires |rail.batches| <= i < |ClaimTx(rail, p, env, fees).0.batches|
    ensures BatchDraws(rail, ClaimTx(rail, p, env, fees).0, p, env, fees, i)
  {
    var ids := Selected(rail, p);
    SelectedEarn(rail, p);
    PlanAllReady(rail.ledger, ids, fees, p.treasury, env);
    PlanAllOk(rail.ledger, ids, fees, p.treasury, env);
    var ps := PlanAll(rail.ledger, ids, fees, p.treasury, env).value;
    CommittedDraws(rail, p, env, fees, ps, CommitAll(rail, p.delegate, env, ps, ps.order).value, i);
  }

  lemma RailOver(rail: Rail)
    requires RailOk(rail)
    ensures NoneOver(rail.anchors, |rail.batches|)
  {
    forall i | 0 <= i < |rail.anchors| ensures rail.anchors[i].batch <= |rail.batches| { assert AnchorOk(rail, rail.anchors[i]); }
  }

  lemma CommittedDraws(rail: Rail, p: Params, env: Env, fees: seq<nat>, ps: Plans, r: Rail, i: nat)
    requires RailOk(rail) && LedgerOk(rail.ledger) && FeesOf(rail.ledger, Selected(rail, p), fees)
    requires PlanAll(rail.ledger, Selected(rail, p), fees, p.treasury, env) == Some(ps) && PlansReady(ps)
    requires ValidIds(rail.ledger, Processed(Selected(rail, p), fees, p.treasury))
    requires PlansOk(rail.ledger, Processed(Selected(rail, p), fees, p.treasury), ps)
    requires CommitAll(rail, p.delegate, env, ps, ps.order) == Ok(r) && |rail.batches| <= i < |r.batches|
    ensures BatchDraws(rail, r, p, env, fees, i)
  {
    var done := Processed(Selected(rail, p), fees, p.treasury);
    var bs := Flat(rail, p.delegate, ps, ps.order);
    CommitIsInsert(rail, p.delegate, env, ps, ps.order);
    RailOver(rail);
    var j := InsertedRow(rail, p.delegate, env, bs, r.(allowances := rail.allowances), i);
    FlatFrom(rail, done, p.delegate, ps, ps.order, j);
    var buyer := bs[j].buyer;
    var x :| 0 <= x < |ps.of[buyer].batches| && ps.of[buyer].batches[x] == bs[j];
    SettlesIffPays(rail, p, env, fees, ps, buyer);
    assert PlanOk(rail.ledger, done, buyer, ps.of[buyer]);
    PlannedTransfers(rail, p, env, fees, ps, buyer, x, r.batches[i]);
    forall k | 0 <= k < |r.anchors| && r.anchors[k].batch == i + 1 ensures LegCarried(rail, p, env, r.batches[i], r.anchors[k].leg) {
      CarriedGoes(rail, p, env, fees, done, ps, buyer, x, r.batches[i], r.anchors[k].leg);
    }
  }

  // ---------- the answer of a pass ----------

  /** The delegate's cursor, and no other, is on the last leg the pass selected, and every eligible leg up to
      it, or any at all if the limit was not reached, was selected. */
  ghost predicate CursorMoved(rail: Rail, r: Rail, p: Params) {
    var ids := Selected(rail, p);
    && (forall d | d != p.delegate :: CursorOf(r, d) == CursorOf(rail, d))
    && (ids == [] ==> CursorOf(r, p.delegate) == CursorOf(rail, p.delegate))
    && (ids != [] ==> CursorOf(r, p.delegate) in ids && forall l | l in ids :: l <= CursorOf(r, p.delegate))
    && (forall l | l in ids :: Ahead(rail, p, l))
    && (forall l: nat | Ahead(rail, p, l) && (l <= CursorOf(r, p.delegate) || |ids| < ClampLimit(p.limit)) :: l in ids)
  }

  /** An earn leg that no earlier pass examined, whose buyer's allowance to this delegate is not revoked and
      not used up. */
  predicate Ahead(rail: Rail, p: Params, l: nat) {
    && CursorOf(rail, p.delegate) < l <= |rail.ledger| && rail.ledger[l - 1].leg == SellerLeg
    && var k := (rail.ledger[l - 1].counterparty, p.delegate);
       k in rail.allowances && !rail.allowances[k].revoked && rail.allowances[k].raw > 0
  }

  /** A failed pass changes nothing. A successful one returns exactly the batches it added, changes neither
      the ledger nor an earlier batch, and moves the cursor over nothing it did not select. */
  lemma PassAnswers(rail: Rail, p: Params, env: Env, fees: seq<nat>)
    requires ValidIds(rail.ledger, fees)
    ensures var (r, res) := ClaimTx(rail, p, env, fees);
      if res.Err? then r == rail
      else r.ledger == rail.ledger && r.batches == rail.batches + res.value && CursorMoved(rail, r, p)
  {
    if ClaimTx(rail, p, env, fees).1.Ok? {
      PassShape(rail, p, env, fees);
      CursorIs(rail, ClaimTx(rail, p, env, fees).0, p);
    }
  }

  lemma AheadIs(rail: Rail, p: Params, l: nat)
    ensures Ahead(rail, p, l) <==> CursorOf(rail, p.delegate) < l <= |rail.ledger| && Eligible(rail, p.delegate, l)
  {}

  lemma SelectedAhead(rail: Rail, p: Params, ids: seq<nat>, last: nat)
    requires ids == Selected(rail, p) && (ids != [] ==> last == ids[|ids| - 1])
    ensures forall l | l in ids :: Ahead(rail, p, l)
    ensures ids != [] ==> last in ids && forall l | l in ids :: l <= last
    ensures forall l: nat | Ahead(rail, p, l) && ((ids != [] && l <= last) || |ids| < ClampLimit(p.limit)) :: l in ids
  {
    forall l | l in ids ensures Ahead(rail, p, l) { AheadIs(rail, p, l); }
    forall l: nat | Ahead(rail, p, l) && ((ids != [] && l <= last) || |ids| < ClampLimit(p.limit)) ensures l in ids {
      AheadIs(rail, p, l);
      SelectLegsComplete(rail, p.delegate, CursorOf(rail, p.delegate), ClampLimit(p.limit), l);
    }
  }

  lemma CursorIs(rail: Rail, r: Rail, p: Params)
    requires var ids := Selected(rail, p);
      r.cursors == (if ids == [] then rail.cursors else rail.cursors[p.delegate := ids[|ids| - 1]])
    ensures CursorMoved(rail, r, p)
  {
    var ids := Selected(rail, p);
    SelectedAhead(rail, p, ids, CursorOf(r, p.delegate));
  }

  lemma PassShape(rail: Rail, p: Params, env: Env, fees: seq<nat>)
    requires ValidIds(rail.ledger, fees) && ClaimTx(rail, p, env, fees).1.Ok?
    ensures var (r, res) := ClaimTx(rail, p, env, fees);
      var ids := Selected(rail, p);
      && r.ledger == rail.ledger && r.batches == rail.batches + res.value
      && r.cursors == (if ids == [] then rail.cursors else rail.cursors[p.delegate := ids[|ids| - 1]])
  {
    var ids := Selected(rail, p);
    if ids != [] {
      PlanAllReady(rail.ledger, ids, fees, p.treasury, env);
      var ps := PlanAll(rail.ledger, ids, fees, p.treasury, env).value;
      CommitAllGrows(rail, p.delegate, env, ps, ps.order);
    } else {
      assert rail.batches + [] == rail.batches;
    }
  }
}

/** One whole claim pass: no leg is claimed twice, each buyer pays all or nothing, and what it pays
    is what its requests cost. */
module ClaimPass {
  import opened Common
  import opened Billing
  import opened Tables
  import opened Claims
  import opened ClaimProofs
  import opened ClaimCost
  import opened RailProofs
  import opened Settlement

  // ---------- nothing is claimed twice ----------

  predicate BehindCursor(rail: Rail, delegate: string, leg: nat, s: nat) {
    && 1 <= leg <= |rail.ledger| && 1 <= s <= CursorOf(rail, delegate) && s <= |rail.ledger|
    && rail.ledger[s - 1].leg == SellerLeg && rail.ledger[s - 1].ref == rail.ledger[leg - 1].ref
  }

  ghost predicate Passed(rail: Rail, delegate: string, leg: nat) {
    exists s :: BehindCursor(rail, delegate, leg, s)
  }

  /** Every anchored leg belongs to a request whose earn leg the delegate's cursor has passed. */
  ghost predicate CursorOk(rail: Rail, delegate: string) {
    forall l {:trigger Anchored(rail.anchors, l)} | Anchored(rail.anchors, l) :: Passed(rail, delegate, l)
  }

  lemma SelectedEarn(rail: Rail, p: Params)
    ensures EarnIds(rail.ledger, Selected(rail, p))
    ensures forall i :: 0 <= i < |Selected(rail, p)| ==> CursorOf(rail, p.delegate) < Selected(rail, p)[i]
  {}

  /** A leg whose request's earn leg lies ahead of the cursor is not behind it. */
  lemma AheadNotPassed(rail: Rail, delegate: string, l: nat, earn: nat)
    requires UniqueLegs(rail.ledger) && 1 <= l <= |rail.ledger| && CursorOf(rail, delegate) < earn <= |rail.ledger|
    requires rail.ledger[earn - 1].leg == SellerLeg && rail.ledger[earn - 1].ref == rail.ledger[l - 1].ref
    ensures !Passed(rail, delegate, l)
  {
    forall s: nat ensures !BehindCursor(rail, delegate, l, s) {
      assert s < earn ==> s - 1 < earn - 1;
    }
  }

  lemma SelectedNotPassed(rail: Rail, delegate: string, ids: seq<nat>, i: nat, l: nat)
    requires UniqueLegs(rail.ledger) && EarnIds(rail.ledger, ids) && i < |ids| && CursorOf(rail, delegate) < ids[i]
    requires 1 <= l <= |rail.ledger| && rail.ledger[ids[i] - 1].ref == rail.ledger[l - 1].ref
    ensures !Passed(rail, delegate, l)
  {
    AheadNotPassed(rail, delegate, l, ids[i]);
  }

  /** No leg a pass processes is behind the cursor. */
  lemma ProcessedNotPassed(rail: Rail, p: Params, fees: seq<nat>, l: nat)
    requires LedgerOk(rail.ledger) && FeesOf(rail.ledger, Selected(rail, p), fees)
    requires l in Processed(Selected(rail, p), fees, p.treasury)
    ensures !Passed(rail, p.delegate, l)
  {
    SelectedEarn(rail, p);
    var i := RequestOf(rail.ledger, Selected(rail, p), fees, p.treasury, l);
    SelectedNotPassed(rail, p.delegate, Selected(rail, p), i, l);
  }

  /** The selected earn leg of a processed leg's request. */
  lemma RequestOf(ledger: seq<Row>, ids: seq<nat>, fees: seq<nat>, treasury: string, l: nat) returns (i: nat)
    requires ValidIds(ledger, ids) && FeesOf(ledger, ids, fees) && l in Processed(ids, fees, treasury)
    ensures 1 <= l <= |ledger| && i < |ids| && ledger[ids[i] - 1].ref == ledger[l - 1].ref
  {
    if l in ids {
      i :| 0 <= i < |ids| && ids[i] == l;
    } else {
      assert l in fees && IsFeeOf(ledger, ids, l);
      i :| 0 <= i < |ids| && ledger[ids[i] - 1].ref == ledger[l - 1].ref;
    }
  }

  /** No leg a pass processes is anchored yet. */
  lemma PassIsFresh(rail: Rail, p: Params, fees: seq<nat>)
    requires LedgerOk(rail.ledger) && CursorOk(rail, p.delegate) && FeesOf(rail.ledger, Selected(rail, p), fees)
    ensures FreshLegs(rail, Processed(Selected(rail, p), fees, p.treasury))
  {
    forall l | l in Processed(Selected(rail, p), fees, p.treasury) ensures !Anchored(rail.anchors, l) {
      ProcessedNotPassed(rail, p, fees, l);
    }
  }

  // ---------- who is skipped ----------

  predicate LinkedLeg(ledger: seq<Row>, env: Env, id: nat)
    requires 1 <= id <= |ledger|
  {
    WalletOf(env, ledger[id - 1].counterparty) != "" && WalletOf(env, ledger[id - 1].account) != ""
  }

  /** The buyer and every seller it owes in this selection have a primary wallet. */
  predicate Linked(ledger: seq<Row>, env: Env, ids: seq<nat>, buyer: string)
    requires ValidIds(ledger, ids)
  {
    forall i :: 0 <= i < |ids| && ledger[ids[i] - 1].counterparty == buyer ==> LinkedLeg(ledger, env, ids[i])
  }

  /** The buyer has a selected leg. */
  predicate Owes(ledger: seq<Row>, ids: seq<nat>, buyer: string)
    requires ValidIds(ledger, ids)
  {
    exists i :: 0 <= i < |ids| && ledger[ids[i] - 1].counterparty == buyer
  }

  ghost predicate PlannedFor(ledger: seq<Row>, ids: seq<nat>, env: Env, ps: Plans, buyer: string)
    requires ValidIds(ledger, ids)
  {
    && (buyer in ps.of <==> Owes(ledger, ids, buyer))
    && (buyer in ps.of ==> (ps.of[buyer].skippable <==> !Linked(ledger, env, ids, buyer)))
  }

  lemma OwesStep(ledger: seq<Row>, init: seq<nat>, id: nat, buyer: string)
    requires ValidIds(ledger, init) && 1 <= id <= |ledger|
    ensures ValidIds(ledger, init + [id])
    ensures Owes(ledger, init + [id], buyer) <==> (Owes(ledger, init, buyer) || ledger[id - 1].counterparty == buyer)
  {
    var ids := init + [id];
    if Owes(ledger, init, buyer) {
      var i :| 0 <= i < |init| && ledger[init[i] - 1].counterparty == buyer;
      assert ledger[ids[i] - 1].counterparty == buyer;
    }
    if ledger[id - 1].counterparty == buyer { assert ledger[ids[|init|] - 1].counterparty == buyer; }
  }

  /** One earn leg's effect on who is planned and who is skipped. */
  lemma EarnStepFor(s: (Plans, string), ledger: seq<Row>, id: nat, env: Env, buyer: string)
    requires 1 <= id <= |ledger| && EarnStep(s, ledger[id - 1], id, env).Some?
    ensures var ps, qs := s.0, EarnStep(s, ledger[id - 1], id, env).value.0;
      var hit := ledger[id - 1].counterparty == buyer;
      && (buyer in qs.of <==> buyer in ps.of || hit)
      && (buyer in qs.of ==> (qs.of[buyer].skippable <==>
            (buyer in ps.of && ps.of[buyer].skippable) || (hit && !LinkedLeg(ledger, env, id))))
  {}

  lemma {:induction false} PlanEarnsFor(ledger: seq<Row>, ids: seq<nat>, env: Env, buyer: string)
    requires ValidIds(ledger, ids) && PlanEarns(ledger, ids, env).Some?
    ensures PlannedFor(ledger, ids, env, PlanEarns(ledger, ids, env).value.0, buyer)
  {
    if ids != [] {
      var init, id := ids[..|ids| - 1], ids[|ids| - 1];
      assert ids == init + [id];
      PlanEarnsSnoc(ledger, init, id, ids, env);
      PlanEarnsFor(ledger, init, env, buyer);
      PlannedForStep(PlanEarns(ledger, init, env).value, ledger, init, id, ids, env, buyer);
    }
  }

  lemma PlannedForStep(s: (Plans, string), ledger: seq<Row>, init: seq<nat>, id: nat, ids: seq<nat>, env: Env, buyer: string)
    requires ValidIds(ledger, init) && 1 <= id <= |ledger| && ids == init + [id]
    requires EarnStep(s, ledger[id - 1], id, env).Some? && PlannedFor(ledger, init, env, s.0, buyer)
    ensures PlannedFor(ledger, ids, env, EarnStep(s, ledger[id - 1], id, env).value.0, buyer)
  {
    OwesStep(ledger, init, id, buyer);
    LinkedStep(ledger, env, init, id, buyer);
    EarnStepFor(s, ledger, id, env, buyer);
  }

  lemma LinkedStep(ledger: seq<Row>, env: Env, init: seq<nat>, id: nat, buyer: string)
    requires ValidIds(ledger, init) && 1 <= id <= |ledger|
    ensures ValidIds(ledger, init + [id])
    ensures Linked(ledger, env, init + [id], buyer)
       <==> (Linked(ledger, env, init, buyer) && (ledger[id - 1].counterparty == buyer ==> LinkedLeg(ledger, env, id)))
  {
    if Linked(ledger, env, init + [id], buyer) {
      forall i | 0 <= i < |init| && ledger[init[i] - 1].counterparty == buyer ensures LinkedLeg(ledger, env, init[i]) {
        assert (init + [id])[i] == init[i];
      }
      assert (init + [id])[|init|] == id;
    }
  }

  lemma {:induction false} PlanFeesFor(ledger: seq<Row>, fees: seq<nat>, treasury: string, src: string, ps: Plans, buyer: string)
    requires ValidIds(ledger, fees)
    ensures var qs := PlanFees(ledger, fees, treasury, src, ps);
      (buyer in qs.of <==> buyer in ps.of) && (buyer in ps.of ==> qs.of[buyer].skippable == ps.of[buyer].skippable)
  {
    if fees != [] { PlanFeesFor(ledger, fees[..|fees| - 1], treasury, src, ps, buyer); }
  }

  lemma PlanAllFor(ledger: seq<Row>, ids: seq<nat>, fees: seq<nat>, treasury: string, env: Env, buyer: string)
    requires ValidIds(ledger, ids) && ValidIds(ledger, fees) && PlanAll(ledger, ids, fees, treasury, env).Some?
    ensures PlannedFor(ledger, ids, env, PlanAll(ledger, ids, fees, treasury, env).value, buyer)
  {
    PlanEarnsFor(ledger, ids, env, buyer);
    var s := PlanEarns(ledger, ids, env).value;
    PlanFeesFor(ledger, fees, treasury, s.1, s.0, buyer);
  }

  // ---------- the pass ----------

  /** What the buyer owes for the selection: the cost of its requests, or the sellers' shares alone
      when no treasury is configured. */
  function Price(rail: Rail, p: Params, buyer: string): int {
    if p.treasury != "" then DebitSum(rail.ledger, Selected(rail, p), buyer)
    else BuyerSum(rail.ledger, Selected(rail, p), buyer)
  }

  predicate Pays(rail: Rail, p: Params, env: Env, buyer: string) {
    && Owes(rail.ledger, Selected(rail, p), buyer) && Linked(rail.ledger, env, Selected(rail, p), buyer)
    && RawOf(rail.allowances, (buyer, p.delegate)) >= Price(rail, p, buyer)
  }

  /** All or nothing: either the row pays the price and every processed leg of the buyer is anchored,
      or the row keeps its amount and none is. */
  ghost predicate BuyerOutcome(rail: Rail, r: Rail, p: Params, env: Env, fees: seq<nat>, buyer: string)
    requires ValidIds(rail.ledger, fees)
  {
    var k := (buyer, p.delegate);
    && RawOf(r.allowances, k) == RawOf(rail.allowances, k) - (if Pays(rail, p, env, buyer) then Price(rail, p, buyer) else 0)
    && forall l | l in Processed(Selected(rail, p), fees, p.treasury) && rail.ledger[l - 1].counterparty == buyer ::
         Anchored(r.anchors, l) <==> Pays(rail, p, env, buyer)
  }

  /** Nothing is created or lost between a row and the batches drawn on it. */
  ghost predicate Conserves(rail: Rail, r: Rail, k: AllowanceKey) {
    && RawOf(r.allowances, k) + Outstanding(r.batches, k) == RawOf(rail.allowances, k) + Outstanding(rail.batches, k)
    && (k in r.allowances <==> k in rail.allowances) && (Revoked(r.allowances, k) <==> Revoked(rail.allowances, k))
  }

  lemma {:induction false} CommittedTotals(rail: Rail, delegate: string, env: Env, ps: Plans, order: seq<string>, b: string)
    requires PlansReady(ps) && (forall x | x in order :: x in ps.of) && CommitAll(rail, delegate, env, ps, order).Ok?
    requires b in order && !ps.of[b].skippable
    ensures ps.of[b].total > 0
  {
    var init, last := order[..|order| - 1], order[|order| - 1];
    assert order == init + [last];
    if b != last { CommittedTotals(rail, delegate, env, ps, init, b); }
  }

  /** The plan's total is the price. */
  lemma PlanPrice(rail: Rail, p: Params, env: Env, fees: seq<nat>, ps: Plans, buyer: string)
    requires LedgerOk(rail.ledger) && FeesOf(rail.ledger, Selected(rail, p), fees)
    requires PlanAll(rail.ledger, Selected(rail, p), fees, p.treasury, env) == Some(ps)
    ensures buyer in ps.of <==> Owes(rail.ledger, Selected(rail, p), buyer)
    ensures buyer in ps.of ==> (ps.of[buyer].skippable <==> !Linked(rail.ledger, env, Selected(rail, p), buyer))
    ensures buyer in ps.of && !ps.of[buyer].skippable ==> ps.of[buyer].total == Price(rail, p, buyer)
  {
    var ids := Selected(rail, p);
    SelectedEarn(rail, p);
    PlanAllOk(rail.ledger, ids, fees, p.treasury, env);
    PlanAllFor(rail.ledger, ids, fees, p.treasury, env, buyer);
    if buyer in ps.of {
      assert PlanOk(rail.ledger, Processed(ids, fees, p.treasury), buyer, ps.of[buyer]);
      BuyerSumConcat(rail.ledger, ids, fees, buyer);
      EarnPlusFee(rail.ledger, ids, fees, buyer);
    }
  }

  lemma OwesActive(rail: Rail, p: Params, buyer: string)
    requires Owes(rail.ledger, Selected(rail, p), buyer)
    ensures ActiveRow(rail.allowances, (buyer, p.delegate))
  {
    var ids := Selected(rail, p);
    var i :| 0 <= i < |ids| && rail.ledger[ids[i] - 1].counterparty == buyer;
    assert Eligible(rail, p.delegate, ids[i]);
  }

  lemma SettlesIffPays(rail: Rail, p: Params, env: Env, fees: seq<nat>, ps: Plans, buyer: string)
    requires LedgerOk(rail.ledger) && FeesOf(rail.ledger, Selected(rail, p), fees)
    requires PlanAll(rail.ledger, Selected(rail, p), fees, p.treasury, env) == Some(ps)
    requires PlansReady(ps) && (forall b :: b in ps.order <==> b in ps.of) && CommitAll(rail, p.delegate, env, ps, ps.order).Ok?
    ensures Settles(rail, p.delegate, ps, buyer) <==> Pays(rail, p, env, buyer)
    ensures Settles(rail, p.delegate, ps, buyer) ==> ps.of[buyer].total == Price(rail, p, buyer)
  {
    PlanPrice(rail, p, env, fees, ps, buyer);
    if buyer in ps.of {
      OwesActive(rail, p, buyer);
      if !ps.of[buyer].skippable { CommittedTotals(rail, p.delegate, env, ps, ps.order, buyer); }
    }
  }

  /** What a committed pass did, from the plans' point of view. */
  lemma ClaimCommits(rail: Rail, p: Params, env: Env, fees: seq<nat>) returns (ps: Plans)
    requires RailOk(rail) && LedgerOk(rail.ledger) && CursorOk(rail, p.delegate) && FeesOf(rail.ledger, Selected(rail, p), fees)
    requires Selected(rail, p) != [] && ClaimTx(rail, p, env, fees).1.Ok?
    ensures PlanAll(rail.ledger, Selected(rail, p), fees, p.treasury, env) == Some(ps)
    ensures ValidIds(rail.ledger, Processed(Selected(rail, p), fees, p.treasury))
    ensures PlansOk(rail.ledger, Processed(Selected(rail, p), fees, p.treasury), ps)
    ensures PlansReady(ps) && CommitAll(rail, p.delegate, env, ps, ps.order).Ok?
    ensures var done := CommitAll(rail, p.delegate, env, ps, ps.order).value;
      && Committed(rail, done, p.delegate, ps, ps.order)
      && ClaimTx(rail, p, env, fees).0 == done.(cursors := rail.cursors[p.delegate := Selected(rail, p)[|Selected(rail, p)| - 1]])
  {
    var ids := Selected(rail, p);
    SelectedEarn(rail, p);
    PlanAllReady(rail.ledger, ids, fees, p.treasury, env);
    ps := PlanAll(rail.ledger, ids, fees, p.treasury, env).value;
    PlanAllOk(rail.ledger, ids, fees, p.treasury, env);
    PassIsFresh(rail, p, fees);
    CommitAllOk(rail, p.delegate, env, Processed(ids, fees, p.treasury), ps, ps.order);
    CommitAllGrows(rail, p.delegate, env, ps, ps.order);
  }

  /** The rail's invariant holds, every row plus its batches is conserved, and everything else only grew. */
  ghost predicate Kept(rail: Rail, r: Rail, delegate: string) {
    && RailOk(r) && r.ledger == rail.ledger && rail.batches <= r.batches
    && CursorOf(rail, delegate) <= CursorOf(r, delegate)
    && (forall k {:trigger Conserves(rail, r, k)} :: Conserves(rail, r, k))
    && (forall l :: Anchored(rail.anchors, l) ==> Anchored(r.anchors, l))
  }

  /** Committing the buyers and moving the cursor. */
  lemma CommittedKeeps(rail: Rail, done: Rail, r: Rail, delegate: string, ps: Plans, order: seq<string>, last: nat)
    requires Committed(rail, done, delegate, ps, order) && CursorOf(rail, delegate) <= last
    requires r == done.(cursors := rail.cursors[delegate := last])
    ensures Kept(rail, r, delegate)
  {
    AllowancesDoNotMatter(done, r);
    forall k ensures Conserves(rail, r, k) {
      assert CommitEffect(rail, done, delegate, ps, order, k);
    }
  }

  /** A pass keeps the rail's invariant, conserves every row plus its batches, and only adds. */
  lemma ClaimKeeps(rail: Rail, p: Params, env: Env, fees: seq<nat>)
    requires RailOk(rail) && LedgerOk(rail.ledger) && CursorOk(rail, p.delegate) && FeesOf(rail.ledger, Selected(rail, p), fees)
    ensures Kept(rail, ClaimTx(rail, p, env, fees).0, p.delegate)
  {
    var (r, res) := ClaimTx(rail, p, env, fees);
    if res.Ok? && Selected(rail, p) != [] {
      var ids := Selected(rail, p);
      var ps := ClaimCommits(rail, p, env, fees);
      var done := CommitAll(rail, p.delegate, env, ps, ps.order).value;
      SelectedEarn(rail, p);
      CommittedKeeps(rail, done, r, p.delegate, ps, ps.order, ids[|ids| - 1]);
    }
  }

  lemma ClaimKeepsCursor(rail: Rail, p: Params, env: Env, fees: seq<nat>)
    requires RailOk(rail) && LedgerOk(rail.ledger) && CursorOk(rail, p.delegate) && FeesOf(rail.ledger, Selected(rail, p), fees)
    ensures CursorOk(ClaimTx(rail, p, env, fees).0, p.delegate)
  {
    var (r, res) := ClaimTx(rail, p, env, fees);
    if res.Ok? && Selected(rail, p) != [] {
      var ids := Selected(rail, p);
      var ps := ClaimCommits(rail, p, env, fees);
      var done := CommitAll(rail, p.delegate, env, ps, ps.order).value;
      SelectedEarn(rail, p);
      assert CursorOf(r, p.delegate) == ids[|ids| - 1];
      forall l | Anchored(r.anchors, l) ensures Passed(r, p.delegate, l) {
        assert Anchored(done.anchors, l);
        if Anchored(rail.anchors, l) {
          var s :| BehindCursor(rail, p.delegate, l, s);
          assert BehindCursor(r, p.delegate, l, s);
        } else {
          var b := rail.ledger[l - 1].counterparty;
          InBagMeans(rail.ledger, Processed(ids, fees, p.treasury), b, ps.of[b], l);
          ProcessedPassed(rail, r, p, fees, l);
        }
      }
    }
  }

  lemma ProcessedPassed(rail: Rail, r: Rail, p: Params, fees: seq<nat>, l: nat)
    requires FeesOf(rail.ledger, Selected(rail, p), fees) && l in Processed(Selected(rail, p), fees, p.treasury)
    requires r.ledger == rail.ledger && Selected(rail, p) != []
    requires CursorOf(r, p.delegate) == Selected(rail, p)[|Selected(rail, p)| - 1]
    ensures Passed(r, p.delegate, l)
  {
    var i := RequestOf(rail.ledger, Selected(rail, p), fees, p.treasury, l);
    assert BehindCursor(r, p.delegate, l, Selected(rail, p)[i]);
  }

  /** A pass neither anchors nor releases a leg whose earn leg the delegate's cursor has passed. */
  lemma PassedStays(rail: Rail, p: Params, env: Env, fees: seq<nat>, l: nat)
    requires RailOk(rail) && LedgerOk(rail.ledger) && CursorOk(rail, p.delegate) && FeesOf(rail.ledger, Selected(rail, p), fees)
    requires Passed(rail, p.delegate, l)
    ensures var r := ClaimTx(rail, p, env, fees).0;
      Passed(r, p.delegate, l) && (Anchored(r.anchors, l) <==> Anchored(rail.anchors, l))
  {
    var (r, res) := ClaimTx(rail, p, env, fees);
    ClaimKeeps(rail, p, env, fees);
    var s :| BehindCursor(rail, p.delegate, l, s);
    assert BehindCursor(r, p.delegate, l, s);
    if res.Ok? && Selected(rail, p) != [] {
      var ps := ClaimCommits(rail, p, env, fees);
      var done := CommitAll(rail, p.delegate, env, ps, ps.order).value;
      assert Anchored(done.anchors, l) <==> Anchored(rail.anchors, l) || Claimed(rail, p.delegate, ps, ps.order, l);
      if Claimed(rail, p.delegate, ps, ps.order, l) {
        var b := rail.ledger[l - 1].counterparty;
        InBagMeans(rail.ledger, Processed(Selected(rail, p), fees, p.treasury), b, ps.of[b], l);
        ProcessedNotPassed(rail, p, fees, l);
        assert false;
      }
    }
  }

  /** Every buyer pays its price in full or nothing at all, and legs are anchored accordingly. */
  lemma ClaimChargesExactly(rail: Rail, p: Params, env: Env, fees: seq<nat>, buyer: string)
    requires RailOk(rail) && LedgerOk(rail.ledger) && CursorOk(rail, p.delegate) && FeesOf(rail.ledger, Selected(rail, p), fees)
    requires ClaimTx(rail, p, env, fees).1.Ok?
    ensures BuyerOutcome(rail, ClaimTx(rail, p, env, fees).0, p, env, fees, buyer)
  {
    var r := ClaimTx(rail, p, env, fees).0;
    var ids := Selected(rail, p);
    if ids == [] {
      assert forall i :: 0 <= i < |fees| ==> fees[i] !in fees;
    } else {
      var done := Processed(ids, fees, p.treasury);
      var ps := ClaimCommits(rail, p, env, fees);
      var c := CommitAll(rail, p.delegate, env, ps, ps.order).value;
      SettlesIffPays(rail, p, env, fees, ps, buyer);
      PassIsFresh(rail, p, fees);
      assert CommitEffect(rail, c, p.delegate, ps, ps.order, (buyer, p.delegate));
      forall l | l in done && rail.ledger[l - 1].counterparty == buyer
        ensures Anchored(r.anchors, l) <==> Pays(rail, p, env, buyer)
      {
        assert Anchored(c.anchors, l) <==> Claimed(rail, p.delegate, ps, ps.order, l);
        if Settles(rail, p.delegate, ps, buyer) {
          assert PlanOk(rail.ledger, done, buyer, ps.of[buyer]);
          assert LegBag(ps.of[buyer].batches)[l] > 0;
        }
      }
    }
  }

  /** One linked buyer whose selection nets to nothing (a request whose whole cost was the fee, when no
      treasury is configured) fails the pass for everyone: nothing moves, not even the cursor. */
  lemma LinkedBuyerBlocks(rail: Rail, p: Params, env: Env, fees: seq<nat>, buyer: string)
    requires LedgerOk(rail.ledger) && FeesOf(rail.ledger, Selected(rail, p), fees)
    requires Owes(rail.ledger, Selected(rail, p), buyer) && Linked(rail.ledger, env, Selected(rail, p), buyer)
    requires Price(rail, p, buyer) <= 0
    ensures ClaimTx(rail, p, env, fees).1.Err? && ClaimTx(rail, p, env, fees).0 == rail
  {
    var ids := Selected(rail, p);
    SelectedEarn(rail, p);
    if ClaimTx(rail, p, env, fees).1.Ok? {
      PlanAllReady(rail.ledger, ids, fees, p.treasury, env);
      var ps := PlanAll(rail.ledger, ids, fees, p.treasury, env).value;
      PlanAllOk(rail.ledger, ids, fees, p.treasury, env);
      PlanPrice(rail, p, env, fees, ps, buyer);
      CommittedTotals(rail, p.delegate, env, ps, ps.order, buyer);
    }
  }

  // ---------- when a pass fails ----------

  predicate BatchesValid(env: Env, bs: seq<PlanBatch>) {
    forall i :: 0 <= i < |bs| ==> bs[i].dest in env.atas && bs[i].amount > 0
  }

  /** The buyer does not fail the pass. */
  predicate Harmless(rail: Rail, delegate: string, env: Env, ps: Plans, buyer: string)
    requires buyer in ps.of
  {
    var pl := ps.of[buyer];
    pl.skippable || (pl.total > 0 && (Settles(rail, delegate, ps, buyer) ==> BatchesValid(env, pl.batches)))
  }

  predicate AllHarmless(rail: Rail, delegate: string, env: Env, ps: Plans, order: seq<string>) {
    forall i :: 0 <= i < |order| ==> order[i] in ps.of && Harmless(rail, delegate, env, ps, order[i])
  }

  lemma AllHarmlessSnoc(rail: Rail, delegate: string, env: Env, ps: Plans, init: seq<string>, buyer: string)
    requires buyer in ps.of
    ensures AllHarmless(rail, delegate, env, ps, init + [buyer])
       <==> (AllHarmless(rail, delegate, env, ps, init) && Harmless(rail, delegate, env, ps, buyer))
  {
    var order := init + [buyer];
    assert order[|init|] == buyer;
    assert forall i :: 0 <= i < |init| ==> order[i] == init[i];
  }

  lemma {:induction false} InsertAllSucceeds(rail: Rail, delegate: string, env: Env, bs: seq<PlanBatch>)
    requires LegsNonEmpty(bs)
    ensures InsertAll(rail, delegate, env, bs).Ok? <==> BatchesValid(env, bs)
  {
    if bs != [] {
      var init, last := bs[..|bs| - 1], bs[|bs| - 1];
      InsertAllSucceeds(rail, delegate, env, init);
      assert BatchesValid(env, bs) <==> BatchesValid(env, init) && last.dest in env.atas && last.amount > 0 by {
        assert bs == init + [last];
      }
    }
  }

  lemma CommitBuyerSucceeds(rail: Rail, mid: Rail, delegate: string, env: Env, ps: Plans, init: seq<string>, buyer: string)
    requires Committed(rail, mid, delegate, ps, init) && PlansReady(ps) && buyer in ps.of && buyer !in init
    ensures CommitBuyer(mid, delegate, env, buyer, ps.of[buyer]).Ok? <==> Harmless(rail, delegate, env, ps, buyer)
  {
    BuyerUntouched(rail, mid, delegate, env, ps, init, buyer);
    var pl := ps.of[buyer];
    if !pl.skippable && pl.total > 0 && Settles(rail, delegate, ps, buyer) {
      InsertAllSucceeds(mid.(allowances := Consume(mid.allowances, (buyer, delegate), pl.total).value), delegate, env, pl.batches);
    }
  }

  lemma {:induction false} CommitAllSucceeds(rail: Rail, delegate: string, env: Env, done: seq<nat>, ps: Plans, order: seq<string>)
    requires ValidIds(rail.ledger, done) && RailOk(rail) && PlansReady(ps) && PlansOk(rail.ledger, done, ps)
    requires forall b | b in order :: b in ps.of
    requires forall i, j :: 0 <= i < j < |order| ==> order[i] != order[j]
    requires FreshLegs(rail, done)
    ensures CommitAll(rail, delegate, env, ps, order).Ok? <==> AllHarmless(rail, delegate, env, ps, order)
  {
    if order != [] {
      var init, buyer := order[..|order| - 1], order[|order| - 1];
      assert order == init + [buyer] && buyer !in init;
      CommitAllSucceeds(rail, delegate, env, done, ps, init);
      AllHarmlessSnoc(rail, delegate, env, ps, init, buyer);
      var mid := CommitAll(rail, delegate, env, ps, init);
      if mid.Ok? {
        CommitAllOk(rail, delegate, env, done, ps, init);
        CommitBuyerSucceeds(rail, mid.value, delegate, env, ps, init, buyer);
      }
    }
  }

  /** A planned pass succeeds exactly when every linked buyer owes a positive total and, if its row
      covers it, every batch has a derivable destination and a positive amount. */
  lemma PlannedSucceedsIff(rail: Rail, p: Params, env: Env, fees: seq<nat>, ps: Plans)
    requires RailOk(rail) && LedgerOk(rail.ledger) && CursorOk(rail, p.delegate) && FeesOf(rail.ledger, Selected(rail, p), fees)
    requires p.delegate != "" && p.mint != "" && p.tokenProgram != "" && Selected(rail, p) != []
    requires PlanAll(rail.ledger, Selected(rail, p), fees, p.treasury, env) == Some(ps)
    ensures ClaimTx(rail, p, env, fees).1.Ok? <==> forall b | b in ps.of :: Harmless(rail, p.delegate, env, ps, b)
  {
    var ids := Selected(rail, p);
    SelectedEarn(rail, p);
    PlanAllReady(rail.ledger, ids, fees, p.treasury, env);
    PlanAllOk(rail.ledger, ids, fees, p.treasury, env);
    PassIsFresh(rail, p, fees);
    CommitAllSucceeds(rail, p.delegate, env, Processed(ids, fees, p.treasury), ps, ps.order);
    assert ClaimTx(rail, p, env, fees).1.Ok? <==> CommitAll(rail, p.delegate, env, ps, ps.order).Ok?;
    InOrder(rail, p.delegate, env, ps);
  }

  lemma InOrder(rail: Rail, delegate: string, env: Env, ps: Plans)
    requires forall b :: b in ps.order <==> b in ps.of
    ensures AllHarmless(rail, delegate, env, ps, ps.order) <==> forall b | b in ps.of :: Harmless(rail, delegate, env, ps, b)
  {
    if AllHarmless(rail, delegate, env, ps, ps.order) {
      forall b | b in ps.of ensures Harmless(rail, delegate, env, ps, b) {
        var i :| 0 <= i < |ps.order| && ps.order[i] == b;
      }
    } else {
      var i :| 0 <= i < |ps.order| && !(ps.order[i] in ps.of && Harmless(rail, delegate, env, ps, ps.order[i]));
      assert ps.order[i] in ps.order;
    }
  }
}

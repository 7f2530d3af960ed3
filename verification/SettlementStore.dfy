/** The settlement store as it runs: tables as fields, the claim pass working on local copies it
    commits at the end. Each method is proved against its transaction function. */
module SettlementStore {
  import opened Common
  import opened Billing
  import opened Tables
  import opened Claims
  import opened ClaimProofs
  import opened Batches
  import opened ClaimMachine

  /** settlementRef: one loop over the leg ids. */
  method BatchRef(delegate: string, b: PlanBatch) returns (ref: string)
    requires b.legs != []
    ensures ref == SettlementRef(delegate, b)
  {
    var min, max := b.legs[0], b.legs[0];
    for i := 0 to |b.legs|
      invariant min in b.legs && max in b.legs
      invariant forall j :: 0 <= j < i ==> min <= b.legs[j] <= max
    {
      if b.legs[i] < min { min := b.legs[i]; }
      if b.legs[i] > max { max := b.legs[i]; }
    }
    assert min == MinLeg(b.legs) && max == MaxLeg(b.legs);
    ref := RefText(RefPrefix(delegate, b), min, max);
  }

  /** Everything before the first batch of the slot stays, and the rest is still to be searched. */
  lemma {:induction false} NetBatchSkips(bs: seq<PlanBatch>, b: PlanBatch, i: nat)
    requires i <= |bs| && forall j :: 0 <= j < i ==> !SameSlot(bs[j], b)
    ensures NetBatch(bs, b) == bs[..i] + NetBatch(bs[i..], b)
  {
    if i > 0 {
      NetBatchSkips(bs[1..], b, i - 1);
      assert bs[1..][..i - 1] == bs[1..i] && bs[1..][i - 1..] == bs[i..];
      assert bs[..i] == [bs[0]] + bs[1..i];
    }
  }

  /** The batch slice after one leg is netted into its slot. */
  lemma SlotMerged(exact: seq<PlanBatch>, b: PlanBatch, i: nat)
    requires i < |exact| && SameSlot(exact[i], b) && forall j :: 0 <= j < i ==> !SameSlot(exact[j], b)
    ensures WrapBatches(NetBatch(exact, b)) == WrapBatches(exact)[i := WrapBatch(Merge(WrapBatch(exact[i]), b))]
  {
    NetBatchSkips(exact, b, i);
    assert exact[i..][0] == exact[i] && exact[i..][1..] == exact[i + 1..];
    WrapMerge(exact[i], b);
    assert NetBatch(exact, b) == exact[i := Merge(exact[i], b)];
  }

  lemma SlotAppended(exact: seq<PlanBatch>, b: PlanBatch)
    requires forall j :: 0 <= j < |exact| ==> !SameSlot(exact[j], b)
    ensures WrapBatches(NetBatch(exact, b)) == WrapBatches(exact) + [WrapBatch(b)]
  {
    NetBatchSkips(exact, b, |exact|);
    assert exact[|exact|..] == [] && exact[..|exact|] == exact;
  }

  /** Wrapping goes through an update of one plan. */
  lemma WrapUpdate(ps: Plans, buyer: string, pl: Plan)
    ensures WrapPlans(ps.(of := ps.of[buyer := pl])) == WrapPlans(ps).(of := WrapPlans(ps).of[buyer := WrapPlan(pl)])
  {}

  lemma WrapNetted(pl: Plan, b: PlanBatch)
    ensures WrapPlan(Netted(pl, b))
         == WrapPlan(pl).(total := Wrap(WrapPlan(pl).total + b.amount), batches := WrapBatches(NetBatch(pl.batches, b)))
  {
    WrapAdd(pl.total, b.amount);
  }

  /** The plan map after one leg is netted. */
  lemma PlanNetted(exact: Plans, b: PlanBatch, bs: seq<PlanBatch>)
    requires bs == WrapBatches(NetBatch(Touch(exact, b.buyer).of[b.buyer].batches, b))
    ensures var ps := WrapPlans(Touch(exact, b.buyer));
      && b.buyer in ps.of
      && WrapPlans(NetInto(exact, b)) == ps.(of := ps.of[b.buyer := ps.of[b.buyer].(total := Wrap(ps.of[b.buyer].total + b.amount), batches := bs)])
  {
    var touched := Touch(exact, b.buyer);
    NetIntoTouched(exact, b);
    NetIntoIs(touched, b);
    WrapNetted(touched.of[b.buyer], b);
    WrapUpdate(touched, b.buyer, Netted(touched.of[b.buyer], b));
  }

  lemma TouchWrapped(exact: Plans, buyer: string)
    ensures Touch(WrapPlans(exact), buyer) == WrapPlans(Touch(exact, buyer))
  {
    if buyer !in exact.of {
      assert WrapBatches([]) == [];
      assert WrapPlans(Touch(exact, buyer)).of == WrapPlans(exact).of[buyer := Plan(0, [], false)];
    }
  }

  lemma MarkWrapped(exact: Plans, buyer: string)
    ensures MarkSkippable(WrapPlans(exact), buyer) == WrapPlans(MarkSkippable(exact, buyer))
  {
    TouchWrapped(exact, buyer);
    var qs := Touch(exact, buyer);
    WrapUpdate(qs, buyer, qs.of[buyer].(skippable := true));
  }

  /** The batch slice is searched in order and updated in place, or grows by one. */
  method NetSlot(slots: seq<PlanBatch>, b: PlanBatch, ghost exact: seq<PlanBatch>) returns (bs: seq<PlanBatch>)
    requires slots == WrapBatches(exact) && MIN_INT64 <= b.amount <= MAX_INT64
    ensures bs == WrapBatches(NetBatch(exact, b))
  {
    bs := slots;
    var i := 0;
    while i < |bs| && !SameSlot(bs[i], b)
      invariant 0 <= i <= |bs|
      invariant forall j :: 0 <= j < i ==> !SameSlot(exact[j], b)
    {
      i := i + 1;
    }
    if i < |bs| {
      SlotMerged(exact, b, i);
      bs := bs[i := bs[i].(amount := Wrap(bs[i].amount + b.amount), legs := bs[i].legs + b.legs)];
    } else {
      SlotAppended(exact, b);
      bs := bs + [b];
    }
  }

  /** netInto: total and slot, in int64 sums: they are the exact plans' sums, wrapped. */
  method NetLeg(ps: Plans, b: PlanBatch, ghost exact: Plans) returns (qs: Plans)
    requires ps == WrapPlans(exact) && MIN_INT64 <= b.amount <= MAX_INT64
    ensures qs == WrapPlans(NetInto(exact, b))
  {
    TouchWrapped(exact, b.buyer);
    var touched := Touch(ps, b.buyer);
    var pl := touched.of[b.buyer];
    var bs := NetSlot(pl.batches, b, Touch(exact, b.buyer).of[b.buyer].batches);
    PlanNetted(exact, b, bs);
    qs := touched.(of := touched.of[b.buyer := pl.(total := Wrap(pl.total + b.amount), batches := bs)]);
  }

  class Settlements {
    var ledger: seq<Row>
    var allowances: map<AllowanceKey, Allowance>
    var cursors: map<string, nat>
    var batches: seq<Batch>
    var anchors: seq<Anchor>

    function State(): Rail
      reads this
    {
      Rail(ledger, allowances, cursors, batches, anchors)
    }

    constructor (rail: Rail)
      ensures State() == rail
    {
      ledger, allowances, cursors, batches, anchors := rail.ledger, rail.allowances, rail.cursors, rail.batches, rail.anchors;
    }

    /** The earn-leg query: scan by id, stop at the limit. */
    method UnsettledLegs(delegate: string, from: nat, limit: nat) returns (ids: seq<nat>)
      ensures ids == SelectLegs(State(), delegate, from, limit)
    {
      ids := [];
      var id := from;
      while id < |ledger| && |ids| < limit
        invariant from <= id && |ids| <= limit
        invariant ids + SelectLegs(State(), delegate, id, limit - |ids|) == SelectLegs(State(), delegate, from, limit)
        decreases |ledger| - id
      {
        ghost var rest := SelectLegs(State(), delegate, id + 1, limit - |ids| - 1);
        if Eligible(State(), delegate, id + 1) {
          assert ids + ([id + 1] + rest) == (ids + [id + 1]) + rest;
          ids := ids + [id + 1];
        }
        id := id + 1;
      }
    }

    /** The loop over earn legs. */
    method NetEarns(ids: seq<nat>, env: Env) returns (ok: bool, plans: Plans, src: string)
      requires ValidIds(ledger, ids) && DeltasFit(ledger)
      ensures ok <==> PlanEarns(ledger, ids, env).Some?
      ensures ok ==> plans == WrapPlans(PlanEarns(ledger, ids, env).value.0) && src == PlanEarns(ledger, ids, env).value.1
    {
      ok, plans, src := true, NO_PLANS, "";
      for i := 0 to |ids|
        invariant ok && PlanEarns(ledger, ids[..i], env).Some?
        invariant plans == WrapPlans(PlanEarns(ledger, ids[..i], env).value.0) && src == PlanEarns(ledger, ids[..i], env).value.1
      {
        var row := ledger[ids[i] - 1];
        ghost var before := PlanEarns(ledger, ids[..i], env).value;
        assert ids[..i + 1][..i] == ids[..i];
        assert PlanEarns(ledger, ids[..i + 1], env) == EarnStep(before, row, ids[i], env);
        var bw := WalletOf(env, row.counterparty);
        if bw == "" {
          MarkWrapped(before.0, row.counterparty);
          plans := MarkSkippable(plans, row.counterparty);
        } else if bw !in env.atas {
          ok := false;
          PlanEarnsStops(ledger, ids, env, i + 1);
          return;
        } else {
          src := env.atas[bw];
          var w := WalletOf(env, row.account);
          if w == "" {
            MarkWrapped(before.0, row.counterparty);
            plans := MarkSkippable(plans, row.counterparty);
          } else {
            assert DeltaFits(row);
            plans := NetLeg(plans, PlanBatch(row.counterparty, src, w, row.delta, [ids[i]], false), before.0);
          }
        }
      }
      assert ids[..|ids|] == ids;
    }

    /** The loop over fee legs. */
    method NetFees(fees: seq<nat>, treasury: string, src: string, start: Plans, ghost exact: Plans) returns (plans: Plans)
      requires ValidIds(ledger, fees) && DeltasFit(ledger) && start == WrapPlans(exact)
      ensures plans == WrapPlans(PlanFees(ledger, fees, treasury, src, exact))
    {
      plans := start;
      for i := 0 to |fees|
        invariant plans == WrapPlans(PlanFees(ledger, fees[..i], treasury, src, exact))
      {
        var row := ledger[fees[i] - 1];
        ghost var before := PlanFees(ledger, fees[..i], treasury, src, exact);
        assert fees[..i + 1][..i] == fees[..i];
        assert PlanFees(ledger, fees[..i + 1], treasury, src, exact) == FeeStep(before, row, fees[i], treasury, src);
        if row.counterparty in plans.of {
          assert DeltaFits(row);
          plans := NetLeg(plans, PlanBatch(row.counterparty, src, treasury, row.delta, [fees[i]], true), before);
        }
      }
      assert fees[..|fees|] == fees;
    }

    static method AnchorLegs(anchors: seq<Anchor>, id: nat, legs: seq<nat>) returns (links: seq<Anchor>)
      ensures links == AnchorAll(anchors, id, legs)
    {
      links := anchors;
      for j := 0 to |legs|
        invariant links == AnchorAll(anchors, id, legs[..j])
      {
        assert legs[..j + 1][..j] == legs[..j];
        if !Anchored(links, legs[j]) { links := links + [Anchor(id, legs[j])]; }
      }
      assert legs[..|legs|] == legs;
    }

    /** Insert one buyer's batches and leg anchors into the transaction's tables. */
    method InsertBatches(delegate: string, env: Env, bs: seq<PlanBatch>, tx: Rail) returns (res: Result<Rail, ClaimError>)
      requires LegsNonEmpty(bs)
      ensures res == InsertAll(tx, delegate, env, bs)
    {
      var cur := tx;
      for i := 0 to |bs|
        invariant InsertAll(tx, delegate, env, bs[..i]) == Ok(cur)
      {
        var b := bs[i];
        assert bs[..i + 1][..i] == bs[..i];
        assert InsertAll(tx, delegate, env, bs[..i + 1]) == InsertBatch(cur, delegate, env, b);
        if b.dest !in env.atas || b.amount <= 0 {
          InsertAllStops(tx, delegate, env, bs, i + 1);
          return Err(if b.dest !in env.atas then Underivable else AmountCheck);
        }
        var ref := BatchRef(delegate, b);
        if !RefTaken(cur.batches, ref) {
          var links := AnchorLegs(cur.anchors, |cur.batches| + 1, b.legs);
          var row := Batch(ref, b.buyer, delegate, b.source, b.dest, env.atas[b.dest], b.amount, Pending, None);
          cur := cur.(batches := cur.batches + [row], anchors := links);
        }
      }
      assert bs[..|bs|] == bs;
      res := Ok(cur);
    }

    /** The loop over buyers, on the transaction's copy of the tables. */
    method CommitBuyers(delegate: string, env: Env, plans: Plans, start: Rail) returns (res: Result<Rail, ClaimError>)
      requires PlansReady(plans)
      ensures res == CommitAll(start, delegate, env, plans, plans.order)
    {
      var tx := start;
      for i := 0 to |plans.order|
        invariant CommitAll(start, delegate, env, plans, plans.order[..i]) == Ok(tx)
      {
        var buyer := plans.order[i];
        var pl := plans.of[buyer];
        assert plans.order[..i + 1][..i] == plans.order[..i];
        assert CommitAll(start, delegate, env, plans, plans.order[..i + 1]) == CommitBuyer(tx, delegate, env, buyer, pl);
        if !pl.skippable {
          if pl.total <= 0 {
            CommitAllStops(start, delegate, env, plans, plans.order, i + 1);
            return Err(NonPositive);
          }
          var paid := Consume(tx.allowances, (buyer, delegate), pl.total);
          if paid.Some? {
            var inserted := InsertBatches(delegate, env, pl.batches, tx.(allowances := paid.value));
            if inserted.Err? {
              CommitAllStops(start, delegate, env, plans, plans.order, i + 1);
              return inserted;
            }
            tx := inserted.value;
          }
        }
      }
      assert plans.order[..|plans.order|] == plans.order;
      res := Ok(tx);
    }

    /** Both netting loops. */
    method NetAll(p: Params, env: Env, ids: seq<nat>, fees: seq<nat>) returns (plans: Option<Plans>)
      requires ValidIds(ledger, ids) && ValidIds(ledger, fees) && DeltasFit(ledger)
      ensures plans.Some? <==> PlanAll(ledger, ids, fees, p.treasury, env).Some?
      ensures plans.Some? ==> plans.value == WrapPlans(PlanAll(ledger, ids, fees, p.treasury, env).value)
    {
      var ok, ps, src := NetEarns(ids, env);
      if !ok { return None; }
      if p.treasury != "" { ps := NetFees(fees, p.treasury, src, ps, PlanEarns(ledger, ids, env).value.0); }
      plans := Some(ps);
    }

    /** Commit the transaction's copy of the tables, or none of it. */
    method CommitPlans(delegate: string, env: Env, ids: seq<nat>, plans: Plans) returns (res: Result<seq<Batch>, ClaimError>)
      requires ids != [] && PlansReady(plans)
      modifies this
      ensures (State(), res) == CommitMachine(old(State()), delegate, env, ids, plans)
    {
      var tx := CommitBuyers(delegate, env, plans, State());
      if tx.Err? { return Err(tx.error); }
      CommitAllGrows(State(), delegate, env, plans, plans.order);
      res := Ok(tx.value.batches[|batches|..]);
      allowances, batches, anchors := tx.value.allowances, tx.value.batches, tx.value.anchors;
      cursors := cursors[delegate := ids[|ids| - 1]];
    }

    method ClaimDelegationSettlements(p: Params, env: Env, fees: seq<nat>) returns (res: Result<seq<Batch>, ClaimError>)
      requires ValidIds(ledger, fees) && DeltasFit(ledger)
      modifies this
      ensures (State(), res) == ClaimMachineTx(old(State()), p, env, fees)
    {
      if p.delegate == "" || p.mint == "" || p.tokenProgram == "" { return Err(BadParams); }
      var last := if p.delegate in cursors then cursors[p.delegate] else 0;
      var ids := UnsettledLegs(p.delegate, last, ClampLimit(p.limit));
      if ids == [] { return Ok([]); }
      PlanAllReady(ledger, ids, fees, p.treasury, env);
      var plans := NetAll(p, env, ids, fees);
      if plans.None? { return Err(Underivable); }
      WrapReady(PlanAll(ledger, ids, fees, p.treasury, env).value);
      res := CommitPlans(p.delegate, env, ids, plans.value);
    }

    method MarkSettlementSigned(id: nat, wire: Wire) returns (ok: bool)
      modifies this
      ensures (State(), ok) == SignTx(old(State()), id, wire)
    {
      if 1 <= id <= |batches| && batches[id - 1].state == Pending {
        batches := batches[id - 1 := batches[id - 1].(state := Signed, wire := Some(wire))];
        return true;
      }
      ok := false;
    }

    method MarkSettlementBroadcast(id: nat) returns (ok: bool)
      modifies this
      ensures (State(), ok) == BroadcastTx(old(State()), id)
    {
      if 1 <= id <= |batches| && batches[id - 1].state == Signed {
        batches := batches[id - 1 := batches[id - 1].(state := Broadcast)];
        return true;
      }
      ok := false;
    }

    method FinalizeSettlement(id: nat) returns (ok: bool)
      modifies this
      ensures (State(), ok) == FinalizeTx(old(State()), id)
    {
      if 1 <= id <= |batches| && batches[id - 1].state == Broadcast {
        batches := batches[id - 1 := batches[id - 1].(state := Finalized)];
        return true;
      }
      ok := false;
    }

    /** None when the refund overflows and everything rolls back. */
    method RestoreSettlement(id: nat) returns (ok: Option<bool>)
      modifies this
      ensures (State(), ok) == RestoreTx(old(State()), id)
    {
      if id < 1 || id > |batches| { return Some(false); }
      var b := batches[id - 1];
      if !b.state.Open() { return Some(false); }
      var k := (b.buyer, b.delegate);
      var table := allowances;
      if k in table && !table[k].revoked {
        var raw := table[k].raw + b.amount;
        if raw < MIN_INT64 || raw > MAX_INT64 { return None; }
        table := table[k := table[k].(raw := raw)];
      }
      allowances := table;
      batches := batches[id - 1 := b.(state := Restored)];
      ok := Some(true);
    }
  }

  // ---------- an error in the middle is the error of the whole pass ----------

  lemma {:induction false} PlanEarnsStops(ledger: seq<Row>, ids: seq<nat>, env: Env, i: nat)
    requires ValidIds(ledger, ids) && i <= |ids| && PlanEarns(ledger, ids[..i], env).None?
    ensures PlanEarns(ledger, ids, env).None?
  {
    if i == |ids| {
      assert ids[..i] == ids;
    } else {
      assert ids[..|ids| - 1][..i] == ids[..i];
      PlanEarnsStops(ledger, ids[..|ids| - 1], env, i);
    }
  }

  lemma {:induction false} InsertAllStops(rail: Rail, delegate: string, env: Env, bs: seq<PlanBatch>, i: nat)
    requires LegsNonEmpty(bs) && i <= |bs| && InsertAll(rail, delegate, env, bs[..i]).Err?
    ensures InsertAll(rail, delegate, env, bs) == InsertAll(rail, delegate, env, bs[..i])
  {
    if i == |bs| {
      assert bs[..i] == bs;
    } else {
      assert bs[..|bs| - 1][..i] == bs[..i];
      InsertAllStops(rail, delegate, env, bs[..|bs| - 1], i);
    }
  }

  lemma {:induction false} CommitAllStops(rail: Rail, delegate: string, env: Env, ps: Plans, order: seq<string>, i: nat)
    requires PlansReady(ps) && (forall b | b in order :: b in ps.of) && i <= |order|
    requires CommitAll(rail, delegate, env, ps, order[..i]).Err?
    ensures CommitAll(rail, delegate, env, ps, order) == CommitAll(rail, delegate, env, ps, order[..i])
  {
    if i == |order| {
      assert order[..i] == order;
    } else {
      assert order[..|order| - 1][..i] == order[..i];
      CommitAllStops(rail, delegate, env, ps, order[..|order| - 1], i);
    }
  }
}

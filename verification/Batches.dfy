/** The state-guarded updates of one settlement batch, and that they keep the rail's invariant. */
module Batches {
  import opened Common
  import opened Billing
  import opened Tables
  import opened Claims
  import opened ClaimProofs
  import opened ClaimCost
  import opened RailProofs
  import opened ClaimPass

  predicate Known(rail: Rail, id: nat) {
    1 <= id <= |rail.batches|
  }

  predicate InState(rail: Rail, id: nat, s: BatchState) {
    Known(rail, id) && rail.batches[id - 1].state == s
  }

  function Put(rail: Rail, id: nat, b: Batch): Rail
    requires Known(rail, id)
  {
    rail.(batches := rail.batches[id - 1 := b])
  }

  /** MarkSettlementSigned. The boolean of each update says whether a row changed. */
  function SignTx(rail: Rail, id: nat, wire: Wire): (Rail, bool) {
    if InState(rail, id, Pending) then (Put(rail, id, rail.batches[id - 1].(state := Signed, wire := Some(wire))), true)
    else (rail, false)
  }

  /** MarkSettlementBroadcast. */
  function BroadcastTx(rail: Rail, id: nat): (Rail, bool) {
    if InState(rail, id, Signed) then (Put(rail, id, rail.batches[id - 1].(state := Broadcast)), true)
    else (rail, false)
  }

  /** FinalizeSettlement. */
  function FinalizeTx(rail: Rail, id: nat): (Rail, bool) {
    if InState(rail, id, Broadcast) then (Put(rail, id, rail.batches[id - 1].(state := Finalized)), true)
    else (rail, false)
  }

  /** The refund UPDATE: a revoked or missing row is left alone; None when the bigint overflows. */
  function Refund(allowances: map<AllowanceKey, Allowance>, k: AllowanceKey, amount: int): Option<map<AllowanceKey, Allowance>> {
    if k !in allowances || allowances[k].revoked then Some(allowances)
    else if !(MIN_INT64 <= allowances[k].raw + amount <= MAX_INT64) then None
    else Some(allowances[k := allowances[k].(raw := allowances[k].raw + amount)])
  }

  /** RestoreSettlement. None when the refund fails and the transaction rolls back. */
  function RestoreTx(rail: Rail, id: nat): (Rail, Option<bool>) {
    if !Known(rail, id) || !rail.batches[id - 1].state.Open() then (rail, Some(false))
    else
      var b := rail.batches[id - 1];
      match Refund(rail.allowances, (b.buyer, b.delegate), b.amount)
      case None => (rail, None)
      case Some(allowances) => (Put(rail, id, b.(state := Restored)).(allowances := allowances), Some(true))
  }

  // ---------- what an update does ----------

  /** One batch now has this state and wire, and nothing else on the rail differs. */
  predicate BatchMoved(rail: Rail, r: Rail, id: nat, state: BatchState, wire: Option<Wire>) {
    && 1 <= id <= |rail.batches| && |r.batches| == |rail.batches|
    && (forall i :: 0 <= i < |rail.batches| && i != id - 1 ==> r.batches[i] == rail.batches[i])
    && r.batches[id - 1] == rail.batches[id - 1].(state := state, wire := wire)
    && r == rail.(batches := r.batches)
  }

  /** Each update happens exactly to a row in the state before it, and leaves every other row alone. */
  lemma UpdatesAnswer(rail: Rail, id: nat, wire: Wire)
    requires 1 <= id <= |rail.batches|
    ensures var b := rail.batches[id - 1];
      && (if b.state == Pending then SignTx(rail, id, wire).1 && BatchMoved(rail, SignTx(rail, id, wire).0, id, Signed, Some(wire))
          else SignTx(rail, id, wire) == (rail, false))
      && (if b.state == Signed then BroadcastTx(rail, id).1 && BatchMoved(rail, BroadcastTx(rail, id).0, id, Broadcast, b.wire)
          else BroadcastTx(rail, id) == (rail, false))
      && (if b.state == Broadcast then FinalizeTx(rail, id).1 && BatchMoved(rail, FinalizeTx(rail, id).0, id, Finalized, b.wire)
          else FinalizeTx(rail, id) == (rail, false))
  {}

  /** The allowance row the batch drew on, if it is still there and not revoked. */
  predicate Refundable(rail: Rail, b: Batch) {
    (b.buyer, b.delegate) in rail.allowances && !rail.allowances[(b.buyer, b.delegate)].revoked
  }

  /** An open batch is restored and its amount goes back to its unrevoked row, unless that row's bigint
      would overflow; then nothing happens, and neither does it to a batch that is closed. */
  lemma RestoreAnswers(rail: Rail, id: nat)
    requires 1 <= id <= |rail.batches|
    ensures var b := rail.batches[id - 1];
      var k := (b.buyer, b.delegate);
      var (r, res) := RestoreTx(rail, id);
      if b.state == Finalized || b.state == Restored then r == rail && res == Some(false)
      else if Refundable(rail, b) && !(MIN_INT64 <= rail.allowances[k].raw + b.amount <= MAX_INT64) then r == rail && res == None
      else
        && res == Some(true) && BatchMoved(rail.(allowances := r.allowances), r, id, Restored, b.wire)
        && r.allowances == if Refundable(rail, b) then rail.allowances[k := Allowance(rail.allowances[k].raw + b.amount, false)] else rail.allowances
  {}

  /** No update reaches a row that is not there. */
  lemma UnknownBatch(rail: Rail, id: nat, wire: Wire)
    requires id == 0 || id > |rail.batches|
    ensures SignTx(rail, id, wire) == (rail, false) && BroadcastTx(rail, id) == (rail, false) && FinalizeTx(rail, id) == (rail, false)
    ensures RestoreTx(rail, id) == (rail, Some(false))
  {}

  // ---------- the rail's invariant ----------

  /** Only a batch's state and wire change. */
  predicate SameBatch(a: Batch, b: Batch) {
    b == a.(state := b.state, wire := b.wire)
  }

  predicate OnlyStates(rail: Rail, r: Rail) {
    && r.ledger == rail.ledger && r.anchors == rail.anchors && r.cursors == rail.cursors && |r.batches| == |rail.batches|
    && forall i :: 0 <= i < |rail.batches| ==> SameBatch(rail.batches[i], r.batches[i])
  }

  lemma StatesDoNotMatter(rail: Rail, r: Rail)
    requires RailOk(rail) && OnlyStates(rail, r)
    ensures RailOk(r)
  {
    forall i | 0 <= i < |r.anchors| ensures AnchorOk(r, r.anchors[i]) {
      assert AnchorOk(rail, rail.anchors[i]);
      assert SameBatch(rail.batches[rail.anchors[i].batch - 1], r.batches[rail.anchors[i].batch - 1]);
    }
    forall i: nat | i < |r.batches| ensures BatchOk(r, i) {
      assert BatchOk(rail, i) && SameBatch(rail.batches[i], r.batches[i]);
      var j :| 0 <= j < |rail.anchors| && rail.anchors[j].batch == i + 1 && RefMin(rail.batches[i].ref, rail.anchors[j].leg);
      assert r.anchors[j].batch == i + 1;
    }
  }

  lemma StatesKeepCursor(rail: Rail, r: Rail, delegate: string)
    requires CursorOk(rail, delegate) && OnlyStates(rail, r)
    ensures CursorOk(r, delegate)
  {
    forall l | Anchored(r.anchors, l) ensures Passed(r, delegate, l) {
      assert Anchored(rail.anchors, l);
      var s :| BehindCursor(rail, delegate, l, s);
      assert BehindCursor(r, delegate, l, s);
    }
  }

  // ---------- new ledger rows ----------

  lemma {:induction false} AnchorSumGrows(ledger: seq<Row>, more: seq<Row>, anchors: seq<Anchor>, id: nat)
    requires LegsExist(ledger, anchors)
    ensures LegsExist(ledger + more, anchors) && AnchorSum(ledger + more, anchors, id) == AnchorSum(ledger, anchors, id)
  {
    if anchors != [] { AnchorSumGrows(ledger, more, anchors[..|anchors| - 1], id); }
  }

  lemma LedgerGrowsKeeps(rail: Rail, more: seq<Row>)
    requires RailOk(rail)
    ensures RailOk(rail.(ledger := rail.ledger + more))
  {
    var r := rail.(ledger := rail.ledger + more);
    forall i | 0 <= i < |r.anchors| ensures AnchorOk(r, r.anchors[i]) {
      assert AnchorOk(rail, rail.anchors[i]);
    }
    AnchorSumGrows(rail.ledger, more, rail.anchors, 0);
    forall i: nat | i < |r.batches| ensures BatchOk(r, i) {
      assert BatchOk(rail, i);
      AnchorSumGrows(rail.ledger, more, rail.anchors, i + 1);
      var j :| 0 <= j < |rail.anchors| && rail.anchors[j].batch == i + 1 && RefMin(rail.batches[i].ref, rail.anchors[j].leg);
      assert r.anchors[j].batch == i + 1;
    }
  }

  lemma LedgerGrowsKeepsCursor(rail: Rail, more: seq<Row>, delegate: string)
    requires CursorOk(rail, delegate)
    ensures CursorOk(rail.(ledger := rail.ledger + more), delegate)
  {
    var r := rail.(ledger := rail.ledger + more);
    forall l | Anchored(r.anchors, l) ensures Passed(r, delegate, l) {
      assert Anchored(rail.anchors, l);
      var s :| BehindCursor(rail, delegate, l, s);
      assert BehindCursor(r, delegate, l, s);
    }
  }

  // ---------- amounts ----------

  /** Moving a batch between states other than Restored leaves every row's outstanding amount;
      restoring it takes its amount out. */
  lemma {:induction false} OutstandingPut(batches: seq<Batch>, i: nat, b: Batch, k: AllowanceKey)
    requires i < |batches| && SameBatch(batches[i], b) && batches[i].state != Restored
    ensures Outstanding(batches[i := b], k)
         == Outstanding(batches, k) - (if (b.buyer, b.delegate) == k && b.state == Restored then b.amount else 0)
  {
    var n := |batches| - 1;
    if i == n {
      assert batches[i := b][..n] == batches[..n];
    } else {
      assert batches[i := b][..n] == batches[..n][i := b];
      OutstandingPut(batches[..n], i, b, k);
    }
  }

  /** A restore gives back exactly what the claim took, unless the row was revoked since. */
  lemma RestoreRefunds(rail: Rail, id: nat, k: AllowanceKey)
    ensures var r := RestoreTx(rail, id).0;
      && (k in r.allowances <==> k in rail.allowances)
      && (k in rail.allowances ==> r.allowances[k].revoked == rail.allowances[k].revoked)
      && (k in rail.allowances && !rail.allowances[k].revoked ==>
            RawOf(r.allowances, k) + Outstanding(r.batches, k) == RawOf(rail.allowances, k) + Outstanding(rail.batches, k))
      && (k in rail.allowances && rail.allowances[k].revoked ==> r.allowances[k] == rail.allowances[k])
  {
    if RestoreTx(rail, id).1 == Some(true) {
      var b := rail.batches[id - 1];
      OutstandingPut(rail.batches, id - 1, b.(state := Restored), k);
    }
  }
}

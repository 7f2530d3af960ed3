/** Settlement workers as replicas (internal/delegations/worker.go): each acts on the batch row it
    last read, which may be stale, while the others, the poller and the billing store go on. */
module Replicas {
  import opened Common
  import opened Billing
  import opened Tables
  import opened Claims
  import opened ClaimProofs
  import opened ClaimCost
  import opened RailProofs
  import opened Settlement
  import opened ClaimPass
  import opened Batches

  datatype Send = Send(replica: nat, id: nat, wire: Wire)

  /** views[(replica, id)] is the row the replica read. sends, refunds and finals log what happened. */
  datatype World = World(rail: Rail, views: map<(nat, nat), Batch>, sends: seq<Send>, refunds: seq<nat>, finals: seq<nat>)

  datatype Event =
    | Claim(p: Params, env: Env, fees: seq<nat>)
    | Charge(rows: seq<Row>)
    | Observe(k: AllowanceKey, raw: int64)
    | Read(replica: nat, id: nat)
    | Sign(replica: nat, id: nat, wire: Wire)
    | SendWire(replica: nat, id: nat)
    | MarkSent(replica: nat, id: nat)
    | Finalize(replica: nat, id: nat)
    | Restore(replica: nat, id: nat)

  predicate Sees(w: World, replica: nat, id: nat) {
    (replica, id) in w.views
  }

  predicate HasSent(w: World, replica: nat, id: nat) {
    exists i :: 0 <= i < |w.sends| && w.sends[i].replica == replica && w.sends[i].id == id
  }

  /** What a worker's code lets the event happen on: its view of the batch, never the current row. */
  ghost predicate Enabled(w: World, delegate: string, e: Event) {
    match e
    case Claim(p, env, fees) => p.delegate == delegate && FeesOf(w.rail.ledger, Selected(w.rail, p), fees)
    case Charge(rows) => LedgerOk(w.rail.ledger + rows)
    case Observe(k, raw) => true
    case Read(replica, id) => Known(w.rail, id) && w.rail.batches[id - 1].state.Open()
    case Sign(replica, id, wire) => Sees(w, replica, id) && w.views[(replica, id)].state == Pending
    case SendWire(replica, id) =>
      Sees(w, replica, id) && w.views[(replica, id)].state == Signed && w.views[(replica, id)].wire.Some?
    case MarkSent(replica, id) => Sees(w, replica, id) && w.views[(replica, id)].state == Signed && HasSent(w, replica, id)
    case Finalize(replica, id) => Sees(w, replica, id) && w.views[(replica, id)].state == Broadcast
    case Restore(replica, id) => Sees(w, replica, id) && w.views[(replica, id)].state.Open()
  }

  ghost function Next(w: World, delegate: string, e: Event): World
    requires Enabled(w, delegate, e)
  {
    match e
    case Claim(p, env, fees) => w.(rail := ClaimTx(w.rail, p, env, fees).0)
    case Charge(rows) => w.(rail := w.rail.(ledger := w.rail.ledger + rows))
    case Observe(k, raw) => w.(rail := w.rail.(allowances := w.rail.allowances[k := Allowance(raw, raw == 0)]))
    case Read(replica, id) => w.(views := w.views[(replica, id) := w.rail.batches[id - 1]])
    case Sign(replica, id, wire) => w.(rail := SignTx(w.rail, id, wire).0)
    case SendWire(replica, id) => w.(sends := w.sends + [Send(replica, id, w.views[(replica, id)].wire.value)])
    case MarkSent(replica, id) => w.(rail := BroadcastTx(w.rail, id).0)
    case Finalize(replica, id) =>
      var t := FinalizeTx(w.rail, id);
      w.(rail := t.0, finals := if t.1 then w.finals + [id] else w.finals)
    case Restore(replica, id) =>
      var t := RestoreTx(w.rail, id);
      w.(rail := t.0, refunds := if t.1 == Some(true) then w.refunds + [id] else w.refunds)
  }

  /** Any number of replicas, any interleaving. */
  ghost predicate Runs(w: World, delegate: string, es: seq<Event>, w': World)
    decreases |es|
  {
    if es == [] then w' == w
    else Enabled(w, delegate, es[0]) && Runs(Next(w, delegate, es[0]), delegate, es[1..], w')
  }

  // ---------- one batch over time ----------

  function Rank(s: BatchState): nat {
    match s
    case Pending => 0
    case Signed => 1
    case Broadcast => 2
    case Finalized => 3
    case Restored => 3
  }

  /** b may be a later version of a: states move forward, terminal ones stay, a wire is never replaced. */
  predicate Later(a: Batch, b: Batch) {
    && SameBatch(a, b)
    && (a.state != b.state ==> a.state.Open() && Rank(a.state) < Rank(b.state))
    && (a.wire.Some? ==> b.wire == a.wire)
    && (a.wire.None? && b.wire.Some? ==> a.state == Pending)
  }

  predicate WireOk(b: Batch) {
    && (b.state == Pending ==> b.wire.None?)
    && (b.state == Signed || b.state == Broadcast || b.state == Finalized ==> b.wire.Some?)
  }

  predicate AllLater(a: seq<Batch>, b: seq<Batch>) {
    |a| <= |b| && forall i :: 0 <= i < |a| ==> Later(a[i], b[i])
  }

  lemma AllLaterTransitive(a: seq<Batch>, b: seq<Batch>, c: seq<Batch>)
    requires AllLater(a, b) && AllLater(b, c) && forall i :: 0 <= i < |a| ==> WireOk(a[i])
    ensures AllLater(a, c)
  {
    forall i | 0 <= i < |a| ensures Later(a[i], c[i]) {
      assert Later(a[i], b[i]) && Later(b[i], c[i]);
    }
  }

  // ---------- the invariant ----------

  ghost predicate ViewsOk(w: World) {
    forall v {:trigger w.views[v]} | v in w.views :: Known(w.rail, v.1) && WireOk(w.views[v]) && Later(w.views[v], w.rail.batches[v.1 - 1])
  }

  predicate SendOk(w: World, s: Send) {
    Known(w.rail, s.id) && w.rail.batches[s.id - 1].wire == Some(s.wire)
  }

  ghost predicate SendsOk(w: World) {
    forall i {:trigger SendOk(w, w.sends[i])} :: 0 <= i < |w.sends| ==> SendOk(w, w.sends[i])
  }

  predicate SentByOne(w: World, id: nat) {
    exists i :: 0 <= i < |w.sends| && w.sends[i].id == id
  }

  ghost predicate BatchRowOk(w: World, i: nat)
    requires i < |w.rail.batches|
  {
    var b := w.rail.batches[i];
    && WireOk(b)
    && (b.state == Broadcast || b.state == Finalized ==> SentByOne(w, i + 1))
    && (b.state == Restored <==> i + 1 in w.refunds)
    && (b.state == Finalized <==> i + 1 in w.finals)
  }

  ghost predicate RowsOk(w: World) {
    forall i: nat {:trigger BatchRowOk(w, i)} | i < |w.rail.batches| :: BatchRowOk(w, i)
  }

  predicate NoRepeats(ids: seq<nat>) {
    forall i, j :: 0 <= i < j < |ids| ==> ids[i] != ids[j]
  }

  ghost predicate LogsOk(w: World) {
    && NoRepeats(w.refunds) && NoRepeats(w.finals)
    && (forall x | x in w.refunds :: Known(w.rail, x)) && (forall x | x in w.finals :: Known(w.rail, x))
  }

  ghost predicate RailInv(rail: Rail, delegate: string) {
    RailOk(rail) && LedgerOk(rail.ledger) && CursorOk(rail, delegate)
  }

  ghost predicate Inv(w: World, delegate: string) {
    RailInv(w.rail, delegate) && ViewsOk(w) && SendsOk(w) && RowsOk(w) && LogsOk(w)
  }

  ghost predicate Starts(w: World) {
    w.rail.batches == [] && w.rail.anchors == [] && LedgerOk(w.rail.ledger)
    && w.views == map[] && w.sends == [] && w.refunds == [] && w.finals == []
  }

  lemma StartInv(w: World, delegate: string)
    requires Starts(w)
    ensures Inv(w, delegate)
  {}

  // ---------- each event keeps it ----------

  lemma StepKeepsRail(w: World, delegate: string, e: Event)
    requires RailInv(w.rail, delegate) && Enabled(w, delegate, e)
    ensures RailInv(Next(w, delegate, e).rail, delegate)
  {
    var w' := Next(w, delegate, e);
    match e
    case Claim(p, env, fees) =>
      ClaimKeeps(w.rail, p, env, fees);
      ClaimKeepsCursor(w.rail, p, env, fees);
    case Charge(rows) =>
      LedgerGrowsKeeps(w.rail, rows);
      LedgerGrowsKeepsCursor(w.rail, rows, delegate);
    case _ =>
      StatesDoNotMatter(w.rail, w'.rail);
      StatesKeepCursor(w.rail, w'.rail, delegate);
  }

  /** New batches of a claim are pending, with no wire. */
  lemma ClaimAddsPending(rail: Rail, p: Params, env: Env, fees: seq<nat>)
    requires ValidIds(rail.ledger, fees)
    ensures var r := ClaimTx(rail, p, env, fees).0;
      rail.batches <= r.batches && forall i :: |rail.batches| <= i < |r.batches| ==> r.batches[i].state == Pending && r.batches[i].wire == None
  {
    var res := ClaimTx(rail, p, env, fees).1;
    if res.Ok? && Selected(rail, p) != [] {
      var ids := Selected(rail, p);
      PlanAllReady(rail.ledger, ids, fees, p.treasury, env);
      var ps := PlanAll(rail.ledger, ids, fees, p.treasury, env).value;
      CommitAllGrows(rail, p.delegate, env, ps, ps.order);
      CommitAllPending(rail, p.delegate, env, ps, ps.order);
    }
  }

  lemma {:induction false} InsertAllPending(rail: Rail, delegate: string, env: Env, bs: seq<PlanBatch>)
    requires LegsNonEmpty(bs) && InsertAll(rail, delegate, env, bs).Ok?
    ensures var r := InsertAll(rail, delegate, env, bs).value;
      rail.batches <= r.batches && forall i :: |rail.batches| <= i < |r.batches| ==> r.batches[i].state == Pending && r.batches[i].wire == None
  {
    InsertAllGrows(rail, delegate, env, bs);
    if bs != [] { InsertAllPending(rail, delegate, env, bs[..|bs| - 1]); }
  }

  lemma {:induction false} CommitAllPending(rail: Rail, delegate: string, env: Env, ps: Plans, order: seq<string>)
    requires PlansReady(ps) && (forall b | b in order :: b in ps.of) && CommitAll(rail, delegate, env, ps, order).Ok?
    ensures var r := CommitAll(rail, delegate, env, ps, order).value;
      rail.batches <= r.batches && forall i :: |rail.batches| <= i < |r.batches| ==> r.batches[i].state == Pending && r.batches[i].wire == None
  {
    if order != [] {
      var init, buyer := order[..|order| - 1], order[|order| - 1];
      CommitAllPending(rail, delegate, env, ps, init);
      var mid := CommitAll(rail, delegate, env, ps, init).value;
      var pl := ps.of[buyer];
      if !pl.skippable && Consume(mid.allowances, (buyer, delegate), pl.total).Some? {
        InsertAllPending(mid.(allowances := Consume(mid.allowances, (buyer, delegate), pl.total).value), delegate, env, pl.batches);
      }
    }
  }

  /** Batches only move forward. */
  lemma StepForward(w: World, delegate: string, e: Event)
    requires Enabled(w, delegate, e) && RowsOk(w)
    ensures AllLater(w.rail.batches, Next(w, delegate, e).rail.batches)
  {
    if e.Claim? { ClaimAddsPending(w.rail, e.p, e.env, e.fees); }
    forall i: nat | i < |w.rail.batches| ensures WireOk(w.rail.batches[i]) {
      assert BatchRowOk(w, i);
    }
  }

  lemma StepKeepsViews(w: World, delegate: string, e: Event)
    requires Enabled(w, delegate, e) && ViewsOk(w) && RowsOk(w)
    ensures ViewsOk(Next(w, delegate, e))
  {
    var w' := Next(w, delegate, e);
    StepForward(w, delegate, e);
    forall v | v in w'.views ensures Known(w'.rail, v.1) && WireOk(w'.views[v]) && Later(w'.views[v], w'.rail.batches[v.1 - 1]) {
      assert v in w.views ==> Known(w.rail, v.1);
      if e.Read? && v == (e.replica, e.id) {
        assert BatchRowOk(w, e.id - 1);
      } else {
        var a, b, c := w.views[v], w.rail.batches[v.1 - 1], w'.rail.batches[v.1 - 1];
        assert Later(a, b) && Later(b, c);
      }
    }
  }

  /** A send uses the stored wire even when the view is stale. */
  lemma StepKeepsSends(w: World, delegate: string, e: Event)
    requires Enabled(w, delegate, e) && ViewsOk(w) && RowsOk(w) && SendsOk(w)
    ensures SendsOk(Next(w, delegate, e))
  {
    var w' := Next(w, delegate, e);
    StepForward(w, delegate, e);
    forall i | 0 <= i < |w'.sends| ensures SendOk(w', w'.sends[i]) {
      if i < |w.sends| {
        assert SendOk(w, w.sends[i]);
        assert Later(w.rail.batches[w.sends[i].id - 1], w'.rail.batches[w.sends[i].id - 1]);
      } else {
        assert Later(w.views[(e.replica, e.id)], w.rail.batches[e.id - 1]);
      }
    }
  }

  lemma SentStays(w: World, delegate: string, e: Event, id: nat)
    requires Enabled(w, delegate, e) && (SentByOne(w, id) || (e.MarkSent? && e.id == id))
    ensures SentByOne(Next(w, delegate, e), id)
  {
    if e.MarkSent? && e.id == id { HasSentBy(w, e.replica, id); }
    var j :| 0 <= j < |w.sends| && w.sends[j].id == id;
    assert Next(w, delegate, e).sends[j].id == id;
  }

  lemma HasSentBy(w: World, replica: nat, id: nat)
    requires HasSent(w, replica, id)
    ensures SentByOne(w, id)
  {
    var j :| 0 <= j < |w.sends| && w.sends[j].replica == replica && w.sends[j].id == id;
    assert w.sends[j].id == id;
  }

  /** A row the event leaves alone. */
  lemma SameRowKeeps(w: World, w': World, i: nat)
    requires i < |w.rail.batches| && BatchRowOk(w, i) && i < |w'.rail.batches| && w'.rail.batches[i] == w.rail.batches[i]
    requires SentByOne(w, i + 1) ==> SentByOne(w', i + 1)
    requires (i + 1 in w'.refunds <==> i + 1 in w.refunds) && (i + 1 in w'.finals <==> i + 1 in w.finals)
    ensures BatchRowOk(w', i)
  {}

  predicate Touches(e: Event, id: nat) {
    (e.Sign? || e.MarkSent? || e.Finalize? || e.Restore?) && e.id == id
  }

  /** The row the event is about. */
  lemma TouchedRowKeeps(w: World, delegate: string, e: Event, i: nat)
    requires Enabled(w, delegate, e) && i < |w.rail.batches| && BatchRowOk(w, i) && Touches(e, i + 1)
    ensures i < |Next(w, delegate, e).rail.batches| && BatchRowOk(Next(w, delegate, e), i)
  {
    if e.MarkSent? { SentStays(w, delegate, e, i + 1); }
  }

  lemma OldRowKeeps(w: World, delegate: string, e: Event, i: nat)
    requires Enabled(w, delegate, e) && i < |w.rail.batches| && BatchRowOk(w, i)
    requires w.rail.batches[..i + 1] <= Next(w, delegate, e).rail.batches || !e.Claim?
    ensures i < |Next(w, delegate, e).rail.batches| && BatchRowOk(Next(w, delegate, e), i)
  {
    var w' := Next(w, delegate, e);
    if Touches(e, i + 1) {
      TouchedRowKeeps(w, delegate, e, i);
    } else {
      if e.Claim? { assert w'.rail.batches[i] == w.rail.batches[..i + 1][i]; }
      if SentByOne(w, i + 1) { SentStays(w, delegate, e, i + 1); }
      SameRowKeeps(w, w', i);
    }
  }

  lemma StepKeepsRows(w: World, delegate: string, e: Event)
    requires Enabled(w, delegate, e) && RowsOk(w) && LogsOk(w)
    ensures RowsOk(Next(w, delegate, e))
  {
    var w' := Next(w, delegate, e);
    if e.Claim? { ClaimAddsPending(w.rail, e.p, e.env, e.fees); }
    forall i: nat | i < |w'.rail.batches| ensures BatchRowOk(w', i) {
      if i < |w.rail.batches| {
        assert BatchRowOk(w, i);
        OldRowKeeps(w, delegate, e, i);
      } else {
        assert i + 1 !in w.refunds && i + 1 !in w.finals;
      }
    }
  }

  lemma StepKeepsLogs(w: World, delegate: string, e: Event)
    requires Enabled(w, delegate, e) && RowsOk(w) && LogsOk(w)
    ensures LogsOk(Next(w, delegate, e))
  {
    StepForward(w, delegate, e);
    if (e.Finalize? || e.Restore?) && Known(w.rail, e.id) {
      assert BatchRowOk(w, e.id - 1);
    }
  }

  lemma StepKeeps(w: World, delegate: string, e: Event)
    requires Inv(w, delegate) && Enabled(w, delegate, e)
    ensures Inv(Next(w, delegate, e), delegate)
    ensures AllLater(w.rail.batches, Next(w, delegate, e).rail.batches)
  {
    StepKeepsRail(w, delegate, e);
    StepForward(w, delegate, e);
    StepKeepsViews(w, delegate, e);
    StepKeepsSends(w, delegate, e);
    StepKeepsRows(w, delegate, e);
    StepKeepsLogs(w, delegate, e);
  }

  // ---------- whole runs ----------

  /** Every reachable state keeps the invariant, and every batch that existed has only moved forward. */
  lemma {:induction false} RunKeeps(w: World, delegate: string, es: seq<Event>, w': World)
    requires Inv(w, delegate) && Runs(w, delegate, es, w')
    ensures Inv(w', delegate) && AllLater(w.rail.batches, w'.rail.batches)
    decreases |es|
  {
    if es != [] {
      var next := Next(w, delegate, es[0]);
      StepKeeps(w, delegate, es[0]);
      RunKeeps(next, delegate, es[1..], w');
      forall i: nat | i < |w.rail.batches| ensures WireOk(w.rail.batches[i]) {
        assert BatchRowOk(w, i);
      }
      AllLaterTransitive(w.rail.batches, next.rail.batches, w'.rail.batches);
    } else {
      forall i: nat | i < |w.rail.batches| ensures Later(w.rail.batches[i], w.rail.batches[i]) {
        assert BatchRowOk(w, i);
      }
    }
  }

  /** Whatever the replicas do, every broadcast of a batch sends the same bytes. */
  lemma OneWirePerBatch(w: World, delegate: string, es: seq<Event>, w': World, i: nat, j: nat)
    requires Starts(w) && Runs(w, delegate, es, w') && i < |w'.sends| && j < |w'.sends| && w'.sends[i].id == w'.sends[j].id
    ensures w'.sends[i].wire == w'.sends[j].wire
  {
    StartInv(w, delegate);
    RunKeeps(w, delegate, es, w');
    assert SendOk(w', w'.sends[i]) && SendOk(w', w'.sends[j]);
  }

  /** A batch is refunded at most once, finalized at most once, and never both. */
  lemma RefundedOnceOrFinalized(w: World, delegate: string, es: seq<Event>, w': World, id: nat)
    requires Starts(w) && Runs(w, delegate, es, w')
    ensures NoRepeats(w'.refunds) && NoRepeats(w'.finals) && !(id in w'.refunds && id in w'.finals)
    ensures id in w'.refunds <==> InState(w'.rail, id, Restored)
    ensures id in w'.finals <==> InState(w'.rail, id, Finalized)
    ensures id in w'.finals ==> SentByOne(w', id)
  {
    StartInv(w, delegate);
    RunKeeps(w, delegate, es, w');
    if Known(w'.rail, id) { assert BatchRowOk(w', id - 1); }
  }

  /** In every reachable state batches equal the sums of their legs, legs are anchored once and refs differ. */
  lemma BatchesAddUp(w: World, delegate: string, es: seq<Event>, w': World, i: nat, j: nat)
    requires Starts(w) && Runs(w, delegate, es, w') && i < |w'.rail.batches| && j < |w'.rail.batches|
    ensures LegsExist(w'.rail.ledger, w'.rail.anchors) && UniqueAnchors(w'.rail.anchors)
    ensures w'.rail.batches[i].amount == AnchorSum(w'.rail.ledger, w'.rail.anchors, i + 1) && w'.rail.batches[i].amount > 0
    ensures i != j ==> w'.rail.batches[i].ref != w'.rail.batches[j].ref
  {
    StartInv(w, delegate);
    RunKeeps(w, delegate, es, w');
    assert BatchOk(w'.rail, i);
    if w'.rail.batches[i].ref == w'.rail.batches[j].ref { RefsDistinct(w'.rail, i, j); }
  }

  // ---------- passed legs ----------

  lemma StepKeepsPassed(w: World, delegate: string, e: Event, l: nat)
    requires RailInv(w.rail, delegate) && Enabled(w, delegate, e) && Passed(w.rail, delegate, l)
    ensures var r := Next(w, delegate, e).rail;
      Passed(r, delegate, l) && (Anchored(r.anchors, l) <==> Anchored(w.rail.anchors, l))
  {
    if e.Claim? {
      PassedStays(w.rail, e.p, e.env, e.fees, l);
    } else {
      var s :| BehindCursor(w.rail, delegate, l, s);
      assert BehindCursor(Next(w, delegate, e).rail, delegate, l, s);
    }
  }

  /** The rail decision on a passed leg is final: once the delegate's cursor is past the earn leg of a
      request, its legs are anchored later if and only if they are anchored now. */
  lemma {:induction false} PassedIsFinal(w: World, delegate: string, es: seq<Event>, w': World, l: nat)
    requires Inv(w, delegate) && Runs(w, delegate, es, w') && Passed(w.rail, delegate, l)
    ensures Anchored(w'.rail.anchors, l) <==> Anchored(w.rail.anchors, l)
    decreases |es|
  {
    if es != [] {
      StepKeeps(w, delegate, es[0]);
      StepKeepsPassed(w, delegate, es[0], l);
      PassedIsFinal(Next(w, delegate, es[0]), delegate, es[1..], w', l);
    }
  }

  // ---------- conservation ----------

  /** Outstanding is what is still moving plus what arrived. */
  function InFlight(batches: seq<Batch>, k: AllowanceKey): int {
    if batches == [] then 0
    else
      var b := batches[|batches| - 1];
      InFlight(batches[..|batches| - 1], k) + (if (b.buyer, b.delegate) == k && b.state.Open() then b.amount else 0)
  }

  function Arrived(batches: seq<Batch>, k: AllowanceKey): int {
    if batches == [] then 0
    else
      var b := batches[|batches| - 1];
      Arrived(batches[..|batches| - 1], k) + (if (b.buyer, b.delegate) == k && b.state == Finalized then b.amount else 0)
  }

  lemma {:induction false} OutstandingSplits(batches: seq<Batch>, k: AllowanceKey)
    ensures Outstanding(batches, k) == InFlight(batches, k) + Arrived(batches, k)
  {
    if batches != [] { OutstandingSplits(batches[..|batches| - 1], k); }
  }

  /** What the row still allows, plus what is moving, plus what arrived. */
  function Held(rail: Rail, k: AllowanceKey): int {
    RawOf(rail.allowances, k) + InFlight(rail.batches, k) + Arrived(rail.batches, k)
  }

  predicate Live(rail: Rail, k: AllowanceKey) {
    k in rail.allowances && !rail.allowances[k].revoked
  }

  predicate SameHeld(rail: Rail, r: Rail, k: AllowanceKey) {
    Live(r, k) && Held(r, k) == Held(rail, k)
  }

  lemma PutConserves(rail: Rail, id: nat, b: Batch, k: AllowanceKey)
    requires Known(rail, id) && SameBatch(rail.batches[id - 1], b) && Live(rail, k)
    requires rail.batches[id - 1].state != Restored && b.state != Restored
    ensures SameHeld(rail, Put(rail, id, b), k)
  {
    OutstandingPut(rail.batches, id - 1, b, k);
    OutstandingSplits(rail.batches, k);
    OutstandingSplits(rail.batches[id - 1 := b], k);
  }

  lemma ClaimConserves(rail: Rail, p: Params, env: Env, fees: seq<nat>, k: AllowanceKey)
    requires RailInv(rail, p.delegate) && FeesOf(rail.ledger, Selected(rail, p), fees) && Live(rail, k)
    ensures SameHeld(rail, ClaimTx(rail, p, env, fees).0, k)
  {
    var r := ClaimTx(rail, p, env, fees).0;
    ClaimKeeps(rail, p, env, fees);
    assert Conserves(rail, r, k);
    OutstandingSplits(rail.batches, k);
    OutstandingSplits(r.batches, k);
  }

  lemma RestoreConserves(rail: Rail, id: nat, k: AllowanceKey)
    requires Live(rail, k)
    ensures SameHeld(rail, RestoreTx(rail, id).0, k)
  {
    RestoreRefunds(rail, id, k);
    OutstandingSplits(rail.batches, k);
    OutstandingSplits(RestoreTx(rail, id).0.batches, k);
  }

  lemma StepConserves(w: World, delegate: string, e: Event, k: AllowanceKey)
    requires RailInv(w.rail, delegate) && Enabled(w, delegate, e) && Live(w.rail, k) && !(e.Observe? && e.k == k)
    ensures SameHeld(w.rail, Next(w, delegate, e).rail, k)
  {
    match e
    case Claim(p, env, fees) => ClaimConserves(w.rail, p, env, fees, k);
    case Sign(_, id, wire) =>
      if InState(w.rail, id, Pending) { PutConserves(w.rail, id, w.rail.batches[id - 1].(state := Signed, wire := Some(wire)), k); }
    case MarkSent(_, id) =>
      if InState(w.rail, id, Signed) { PutConserves(w.rail, id, w.rail.batches[id - 1].(state := Broadcast), k); }
    case Finalize(_, id) =>
      if InState(w.rail, id, Broadcast) { PutConserves(w.rail, id, w.rail.batches[id - 1].(state := Finalized), k); }
    case Restore(_, id) => RestoreConserves(w.rail, id, k);
    case _ =>
  }

  /** While the poller does not write the row and it stays unrevoked, allowance + open batches +
      finalized batches is constant, whatever the replicas do. */
  lemma {:induction false} RunConserves(w: World, delegate: string, es: seq<Event>, w': World, k: AllowanceKey)
    requires Inv(w, delegate) && Runs(w, delegate, es, w') && Live(w.rail, k)
    requires forall i :: 0 <= i < |es| ==> !(es[i].Observe? && es[i].k == k)
    ensures Live(w'.rail, k) && Held(w'.rail, k) == Held(w.rail, k)
    decreases |es|
  {
    if es != [] {
      StepKeeps(w, delegate, es[0]);
      StepConserves(w, delegate, es[0], k);
      RunConserves(Next(w, delegate, es[0]), delegate, es[1..], w', k);
    }
  }
}

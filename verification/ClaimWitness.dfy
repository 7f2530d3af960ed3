/** Concrete passes that show where the claim step's guarantees stop. */
module ClaimWitness {
  import opened Common
  import opened Billing
  import opened Tables
  import opened Claims
  import opened ClaimProofs
  import opened ClaimCost
  import opened RailProofs
  import opened ClaimPass

  const ENV := Env(map["b" := "B", "s" := "S"], map["B" := "x", "S" := "y", "T" := "z"])

  function TestParams(delegate: string, treasury: string): Params {
    Params(delegate, "m", "t", treasury, 10)
  }

  /** One request that cost two units, all of it the seller's. */
  const SHARED := [Row("b", -2, BuyerLeg, "p", "r"), Row("s", 2, SellerLeg, "b", "r")]

  const TWO := Rail(SHARED, map[("b", "d1") := Allowance(2, false), ("b", "d2") := Allowance(2, false)], map[], [], [])

  lemma OneSelects(rail: Rail, d: string)
    requires rail.ledger == SHARED && d !in rail.cursors
    requires ("b", d) in rail.allowances && rail.allowances[("b", d)] == Allowance(2, false)
    ensures Selected(rail, TestParams(d, "")) == [2]
  {
    assert !Eligible(rail, d, 1) && Eligible(rail, d, 2);
    assert SelectLegs(rail, d, 2, 9) == [];
    assert SelectLegs(rail, d, 1, 10) == [2];
  }

  const FIRST := PlanBatch("b", "x", "S", 2, [2], false)

  const PLANS := Plans(map["b" := Plan(2, [FIRST], false)], ["b"])

  function FirstBatch(d: string): Batch {
    Batch(SettlementRef(d, FIRST), "b", d, "x", "S", "y", 2, Pending, None)
  }

  /** The row is drawn on. */
  function Drawn(rail: Rail, d: string): Rail {
    rail.(allowances := rail.allowances[("b", d) := Allowance(0, false)])
  }

  /** And the batch is inserted. */
  function Batched(rail: Rail, d: string): Rail {
    Drawn(rail, d).(batches := rail.batches + [FirstBatch(d)],
                    anchors := if Anchored(rail.anchors, 2) then rail.anchors else rail.anchors + [Anchor(|rail.batches| + 1, 2)])
  }

  predicate Ready(rail: Rail, d: string) {
    && rail.ledger == SHARED && d != "" && d !in rail.cursors
    && ("b", d) in rail.allowances && rail.allowances[("b", d)] == Allowance(2, false)
  }

  lemma OneInserts(rail: Rail, d: string)
    ensures InsertAll(rail, d, ENV, [FIRST])
         == Ok(if RefTaken(rail.batches, SettlementRef(d, FIRST)) then rail
               else rail.(batches := rail.batches + [FirstBatch(d)],
                          anchors := if Anchored(rail.anchors, 2) then rail.anchors else rail.anchors + [Anchor(|rail.batches| + 1, 2)]))
  {
    assert [FIRST][..0] == [] && [2][..0] == [];
    assert AnchorAll(rail.anchors, |rail.batches| + 1, [2][..0]) == rail.anchors;
    assert InsertAll(rail, d, ENV, [FIRST][..0]) == Ok(rail);
  }

  lemma OneCommits(rail: Rail, d: string)
    requires Ready(rail, d)
    ensures CommitAll(rail, d, ENV, PLANS, ["b"])
         == Ok(if RefTaken(rail.batches, SettlementRef(d, FIRST)) then Drawn(rail, d) else Batched(rail, d))
  {
    assert ["b"][..0] == [];
    assert CommitAll(rail, d, ENV, PLANS, ["b"][..0]) == Ok(rail);
    assert CommitAll(rail, d, ENV, PLANS, ["b"]) == CommitBuyer(rail, d, ENV, "b", PLANS.of["b"]);
    assert Consume(rail.allowances, ("b", d), 2) == Some(Drawn(rail, d).allowances);
    OneInserts(Drawn(rail, d), d);
  }

  /** One pass of any delegate over the shared leg, from a rail it has not examined: the allowance is drawn
      on, and the batch is inserted unless its ref is taken. */
  lemma OnePass(rail: Rail, d: string)
    requires Ready(rail, d)
    ensures ClaimTx(rail, TestParams(d, ""), ENV, []).1.Ok?
    ensures ClaimTx(rail, TestParams(d, ""), ENV, []).0
         == (if RefTaken(rail.batches, SettlementRef(d, FIRST)) then Drawn(rail, d) else Batched(rail, d)).(cursors := rail.cursors[d := 2])
  {
    OneSelects(rail, d);
    PlanOne(FIRST);
    OneCommits(rail, d);
  }

  lemma PlanOne(b: PlanBatch)
    requires b == PlanBatch("b", "x", "S", 2, [2], false)
    ensures PlanAll(SHARED, [2], [], "", ENV) == Some(Plans(map["b" := Plan(2, [b], false)], ["b"]))
  {
    assert [2][..0] == [];
    assert PlanEarns(SHARED, [2][..0], ENV) == Some((NO_PLANS, ""));
    assert PlanEarns(SHARED, [2], ENV) == EarnStep((NO_PLANS, ""), SHARED[1], 2, ENV) == Some((NetInto(NO_PLANS, b), "x"));
    assert NetBatch([], b) == [b];
    assert NetInto(NO_PLANS, b) == Plans(map["b" := Plan(2, [b], false)], ["b"]) by {
      assert NetInto(NO_PLANS, b).of == map["b" := Plan(2, [b], false)];
    }
  }

  /** A pass of the delegate succeeds and leaves this rail. */
  predicate Passes(rail: Rail, d: string, r: Rail) {
    var (after, res) := ClaimTx(rail, TestParams(d, ""), ENV, []);
    res.Ok? && after == r
  }

  lemma FirstPass(rail: Rail, d: string) returns (once: Rail)
    requires Ready(rail, d) && rail.batches == [] && rail.anchors == []
    ensures Passes(rail, d, once) && once.ledger == SHARED && once.cursors == rail.cursors[d := 2]
    ensures once.batches == [FirstBatch(d)] && once.anchors == [Anchor(1, 2)]
    ensures once.allowances == rail.allowances[("b", d) := Allowance(0, false)]
  {
    OnePass(rail, d);
    once := Batched(rail, d).(cursors := rail.cursors[d := 2]);
  }

  /** Two delegates that both hold an allowance of the buyer settle the same leg twice: the second
      pass creates a batch that no leg is anchored to. */
  lemma TwoDelegatesDouble() returns (once: Rail, twice: Rail)
    ensures LedgerOk(TWO.ledger) && Passes(TWO, "d1", once) && Passes(once, "d2", twice)
    ensures LegsExist(once.ledger, once.anchors) && |once.batches| == 1
    ensures once.batches[0].amount == 2 == AnchorSum(once.ledger, once.anchors, 1)
    ensures LegsExist(twice.ledger, twice.anchors) && |twice.batches| == 2
    ensures twice.batches[1].amount == 2 && AnchorSum(twice.ledger, twice.anchors, 2) == 0
  {
    SharedOk();
    once := FirstPass(TWO, "d1");
    OtherShort();
    twice := SecondPass(once);
    SharedSums();
  }

  lemma OtherShort()
    ensures SettlementRef("d1", FIRST) != SettlementRef("d2", FIRST)
  {
    assert SettlementRef("d1", FIRST)[6] == '1' && SettlementRef("d2", FIRST)[6] == '2';
  }

  lemma SecondPass(once: Rail) returns (twice: Rail)
    requires Ready(once, "d2") && once.batches == [FirstBatch("d1")] && once.anchors == [Anchor(1, 2)]
    requires SettlementRef("d1", FIRST) != SettlementRef("d2", FIRST)
    ensures Passes(once, "d2", twice) && twice.ledger == SHARED
    ensures twice.batches == [FirstBatch("d1"), FirstBatch("d2")] && twice.anchors == [Anchor(1, 2)]
  {
    OnePass(once, "d2");
    assert once.anchors[0].leg == 2;
    twice := Batched(once, "d2").(cursors := once.cursors["d2" := 2]);
  }

  lemma SharedSums()
    ensures LegsExist(SHARED, [Anchor(1, 2)]) && AnchorSum(SHARED, [Anchor(1, 2)], 1) == 2 && AnchorSum(SHARED, [Anchor(1, 2)], 2) == 0
  {
    assert [Anchor(1, 2)][..0] == [];
  }

  // ---------- paid without a batch ----------

  const ALIKE := Rail(SHARED, map[("b", "AAAAAAAA1") := Allowance(2, false), ("b", "AAAAAAAA2") := Allowance(2, false)], map[], [], [])

  lemma AlikeRefs()
    ensures SettlementRef("AAAAAAAA1", FIRST) == SettlementRef("AAAAAAAA2", FIRST)
  {
    assert Short("AAAAAAAA1") == "AAAAAAAA" == Short("AAAAAAAA2");
  }

  /** The row was drawn on, and no batch was made of it. */
  ghost predicate PaidForNothing(rail: Rail, r: Rail, k: AllowanceKey) {
    && r.batches == rail.batches && r.anchors == rail.anchors
    && RawOf(r.allowances, k) < RawOf(rail.allowances, k) && !Conserves(rail, r, k)
  }

  /** A pass whose batch ref is taken. */
  lemma DrawsForNothing(rail: Rail, d: string) returns (r: Rail)
    requires Ready(rail, d) && RefTaken(rail.batches, SettlementRef(d, FIRST))
    ensures Passes(rail, d, r) && PaidForNothing(rail, r, ("b", d))
  {
    OnePass(rail, d);
    r := Drawn(rail, d).(cursors := rail.cursors[d := 2]);
  }

  /** Two delegates that share the eight characters a ref keeps. */
  lemma AlikeDelegatesPayForNothing() returns (once: Rail, twice: Rail)
    ensures RailOk(ALIKE) && LedgerOk(ALIKE.ledger) && RailOk(once)
    ensures Passes(ALIKE, "AAAAAAAA1", once) && Passes(once, "AAAAAAAA2", twice)
    ensures PaidForNothing(once, twice, ("b", "AAAAAAAA2"))
  {
    SharedOk();
    once := FirstPass(ALIKE, "AAAAAAAA1");
    PassIsSound(ALIKE, "AAAAAAAA1", once);
    AlikeRefs();
    assert once.batches[0].ref == SettlementRef("AAAAAAAA2", FIRST);
    twice := DrawsForNothing(once, "AAAAAAAA2");
  }

  /** One delegate whose cursor went back, after the poller topped its allowance up: the anchors keep the leg
      from being batched again, and the allowance is drawn on all the same. */
  lemma CursorRegressionPaysForNothing() returns (once: Rail, back: Rail, again: Rail)
    ensures LedgerOk(TWO.ledger) && Passes(TWO, "d1", once) && RailOk(once)
    ensures back == once.(cursors := map[], allowances := once.allowances[("b", "d1") := Allowance(2, false)])
    ensures Passes(back, "d1", again) && PaidForNothing(back, again, ("b", "d1"))
  {
    SharedOk();
    once := FirstPass(TWO, "d1");
    PassIsSound(TWO, "d1", once);
    back := once.(cursors := map[], allowances := once.allowances[("b", "d1") := Allowance(2, false)]);
    assert back.batches[0].ref == SettlementRef("d1", FIRST);
    again := DrawsForNothing(back, "d1");
  }

  /** A first pass keeps the rail's invariant. */
  lemma PassIsSound(rail: Rail, d: string, once: Rail)
    requires Ready(rail, d) && rail.batches == [] && rail.anchors == [] && Passes(rail, d, once)
    ensures RailOk(rail) && RailOk(once)
  {
    SharedOk();
    OneSelects(rail, d);
    NoFees();
    ClaimKeeps(rail, TestParams(d, ""), ENV, []);
  }

  lemma NoFees()
    ensures FeesOf(SHARED, [2], [])
  {
    forall f: nat ensures !IsFeeOf(SHARED, [2], f) { assert f == 1 || f == 2 ==> SHARED[f - 1].leg != FeeLeg; }
  }

  lemma SharedOk()
    ensures LedgerOk(SHARED)
  {
    assert SHARED[..1] == [SHARED[0]] && SHARED[..1][..0] == [];
    forall ref ensures UsageSum(SHARED, ref) == 0 {
      assert UsageSum(SHARED[..1][..0], ref) == 0;
      assert UsageSum(SHARED[..1], ref) == (if ref == "r" then -2 else 0);
    }
  }

  /** The whole cost is the fee: the platform keeps 100 %. */
  const ALL_FEE := [Row("b", -2, BuyerLeg, "p", "r"), Row("s", 0, SellerLeg, "b", "r"), Row("treasury", 2, FeeLeg, "b", "r")]

  const ZERO := Rail(ALL_FEE, map[("b", "d1") := Allowance(2, false)], map[], [], [])

  lemma ZeroSelects()
    ensures Selected(ZERO, TestParams("d1", "T")) == [2]
    ensures FeesOf(ALL_FEE, [2], [3])
  {
    assert !Eligible(ZERO, "d1", 1) && Eligible(ZERO, "d1", 2) && !Eligible(ZERO, "d1", 3);
    assert SelectLegs(ZERO, "d1", 3, 9) == [];
    assert SelectLegs(ZERO, "d1", 2, 9) == [];
    assert SelectLegs(ZERO, "d1", 1, 10) == [2];
    assert SelectLegs(ZERO, "d1", 0, 10) == [2];
    ZeroFees();
  }

  lemma ZeroFees()
    ensures FeesOf(ALL_FEE, [2], [3])
  {
    assert ALL_FEE[[2][0] - 1].ref == ALL_FEE[2].ref;
    forall f: nat ensures f in [3] <==> IsFeeOf(ALL_FEE, [2], f) {
      assert f == 1 || f == 2 ==> ALL_FEE[f - 1].leg != FeeLeg;
    }
  }

  lemma ZeroCommits(e: PlanBatch, f: PlanBatch)
    requires e == PlanBatch("b", "x", "S", 0, [2], false) && f == PlanBatch("b", "x", "T", 2, [3], true)
    ensures CommitAll(ZERO, "d1", ENV, Plans(map["b" := Plan(2, [e, f], false)], ["b"]), ["b"]) == Err(AmountCheck)
  {
    var ps := Plans(map["b" := Plan(2, [e, f], false)], ["b"]);
    assert [e, f][..1] == [e] && [e][..0] == [] && ["b"][..0] == [];
    var paid := ZERO.(allowances := ZERO.allowances[("b", "d1") := Allowance(0, false)]);
    assert InsertAll(paid, "d1", ENV, [e][..0]) == Ok(paid);
    assert InsertAll(paid, "d1", ENV, [e, f][..1]) == Err(AmountCheck);
    assert InsertAll(paid, "d1", ENV, [e, f]) == Err(AmountCheck);
    assert CommitAll(ZERO, "d1", ENV, ps, ["b"][..0]) == Ok(ZERO);
    assert CommitBuyer(ZERO, "d1", ENV, "b", ps.of["b"]) == Err(AmountCheck);
  }

  /** A seller share of zero makes a covered buyer's batch violate amount_raw > 0, which fails the pass. */
  lemma ZeroShareFails()
    ensures FeesOf(ALL_FEE, Selected(ZERO, TestParams("d1", "T")), [3])
    ensures ClaimTx(ZERO, TestParams("d1", "T"), ENV, [3]) == (ZERO, Err(AmountCheck))
  {
    var e, f := PlanBatch("b", "x", "S", 0, [2], false), PlanBatch("b", "x", "T", 2, [3], true);
    ZeroSelects();
    ZeroPlan(e, f);
    ZeroCommits(e, f);
  }

  lemma ZeroPlan(e: PlanBatch, f: PlanBatch)
    requires e == PlanBatch("b", "x", "S", 0, [2], false) && f == PlanBatch("b", "x", "T", 2, [3], true)
    ensures PlanAll(ALL_FEE, [2], [3], "T", ENV) == Some(Plans(map["b" := Plan(2, [e, f], false)], ["b"]))
  {
    assert [2][..0] == [] && [3][..0] == [];
    assert PlanEarns(ALL_FEE, [2][..0], ENV) == Some((NO_PLANS, ""));
    assert PlanEarns(ALL_FEE, [2], ENV) == EarnStep((NO_PLANS, ""), ALL_FEE[1], 2, ENV) == Some((NetInto(NO_PLANS, e), "x"));
    assert NetBatch([], e) == [e] && NetBatch([e], f) == [e, f];
    var ps := NetInto(NO_PLANS, e);
    assert ps.of == map["b" := Plan(0, [e], false)];
    assert PlanFees(ALL_FEE, [3][..0], "T", "x", ps) == ps;
    assert PlanFees(ALL_FEE, [3], "T", "x", ps) == FeeStep(ps, ALL_FEE[2], 3, "T", "x") == NetInto(ps, f);
    assert NetInto(ps, f) == Plans(map["b" := Plan(2, [e, f], false)], ["b"]) by {
      assert NetInto(ps, f).of == map["b" := Plan(2, [e, f], false)];
    }
  }
}

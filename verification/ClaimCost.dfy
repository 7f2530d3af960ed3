/** A settled buyer pays on chain exactly what the selected requests debited from its credit. */
module ClaimCost {
  import opened Common
  import opened Billing
  import opened Tables
  import opened Claims
  import opened ClaimProofs
  import Transactions
  import Projection

  // ---------- what a claim pass may rely on in the ledger ----------

  predicate OneBuyer(a: Row, b: Row) {
    a.ref == b.ref && a.leg == SellerLeg && b.leg == FeeLeg ==> a.counterparty == b.counterparty
  }

  /** Legs are unique, each request's usage legs sum to zero, and its earn and fee legs name one buyer. */
  ghost predicate LedgerOk(ledger: seq<Row>) {
    && UniqueLegs(ledger)
    && (forall ref :: UsageSum(ledger, ref) == 0)
    && (forall i, j :: 0 <= i < |ledger| && 0 <= j < |ledger| ==> OneBuyer(ledger[i], ledger[j]))
  }

  /** Every ledger the billing transactions can produce qualifies. */
  lemma InvLedgerOk(db: DB)
    requires Projection.Inv(db)
    ensures LedgerOk(db.ledger)
  {
    forall i, j | 0 <= i < |db.ledger| && 0 <= j < |db.ledger| ensures OneBuyer(db.ledger[i], db.ledger[j]) {
      assert Projection.UsageRowOk(db, db.ledger[i]) && Projection.UsageRowOk(db, db.ledger[j]);
    }
  }

  // ---------- one request's legs ----------

  /** SUM(delta_raw) over one leg of one request. */
  function RefLegSum(ledger: seq<Row>, ref: string, leg: Leg): int {
    if ledger == [] then 0
    else
      var last := ledger[|ledger| - 1];
      RefLegSum(ledger[..|ledger| - 1], ref, leg) + (if last.ref == ref && last.leg == leg then last.delta else 0)
  }

  /** What the request took from its buyer's credit. */
  function Debited(ledger: seq<Row>, ref: string): int {
    -RefLegSum(ledger, ref, BuyerLeg)
  }

  lemma {:induction false} UsageSplits(ledger: seq<Row>, ref: string)
    ensures UsageSum(ledger, ref) == RefLegSum(ledger, ref, BuyerLeg) + RefLegSum(ledger, ref, SellerLeg) + RefLegSum(ledger, ref, FeeLeg)
  {
    if ledger != [] { UsageSplits(ledger[..|ledger| - 1], ref); }
  }

  lemma {:induction false} NoLegNoSum(ledger: seq<Row>, ref: string, leg: Leg)
    requires !HasLeg(ledger, ref, leg)
    ensures RefLegSum(ledger, ref, leg) == 0
  {
    if ledger != [] {
      var init, n := ledger[..|ledger| - 1], |ledger| - 1;
      forall i | 0 <= i < |init| ensures init[i].ref != ref || init[i].leg != leg {
        assert init[i] == ledger[i];
      }
      NoLegNoSum(init, ref, leg);
      assert ledger[n].ref != ref || ledger[n].leg != leg;
    }
  }

  lemma {:induction false} OneLegOneSum(ledger: seq<Row>, i: nat)
    requires UniqueLegs(ledger) && i < |ledger|
    ensures RefLegSum(ledger, ledger[i].ref, ledger[i].leg) == ledger[i].delta
  {
    var n := |ledger| - 1;
    var init := ledger[..n];
    if i < n {
      OneLegOneSum(init, i);
      assert ledger[n].ref != ledger[i].ref || ledger[n].leg != ledger[i].leg;
    } else {
      assert !HasLeg(init, ledger[n].ref, ledger[n].leg);
      NoLegNoSum(init, ledger[n].ref, ledger[n].leg);
    }
  }

  // ---------- all selected legs ----------

  /** What the selected requests of one buyer took from its credit. */
  function DebitSum(ledger: seq<Row>, ids: seq<nat>, buyer: string): int
    requires ValidIds(ledger, ids)
  {
    if ids == [] then 0
    else
      var row := ledger[ids[|ids| - 1] - 1];
      DebitSum(ledger, ids[..|ids| - 1], buyer) + (if row.counterparty == buyer then Debited(ledger, row.ref) else 0)
  }

  ghost predicate EarnIds(ledger: seq<Row>, ids: seq<nat>) {
    && ValidIds(ledger, ids)
    && (forall i :: 0 <= i < |ids| ==> ledger[ids[i] - 1].leg == SellerLeg)
    && (forall i, j :: 0 <= i < j < |ids| ==> ids[i] != ids[j])
  }

  lemma DistinctRefs(ledger: seq<Row>, ids: seq<nat>, i: nat, j: nat)
    requires UniqueLegs(ledger) && EarnIds(ledger, ids) && i < j < |ids|
    ensures ledger[ids[i] - 1].ref != ledger[ids[j] - 1].ref
  {
    var x, y := ids[i] - 1, ids[j] - 1;
    assert x < y || y < x;
  }

  /** Taking the last selected leg away takes its fee leg, if any, away. */
  lemma FeesWithout(ledger: seq<Row>, ids: seq<nat>, fees: seq<nat>, buyer: string) returns (fees': seq<nat>)
    requires LedgerOk(ledger) && EarnIds(ledger, ids) && ids != [] && FeesOf(ledger, ids, fees)
    ensures ValidIds(ledger, ids[..|ids| - 1]) && FeesOf(ledger, ids[..|ids| - 1], fees') && |fees| <= |fees'| + 1
    ensures var row := ledger[ids[|ids| - 1] - 1];
      BuyerSum(ledger, fees, buyer)
        == BuyerSum(ledger, fees', buyer) + (if row.counterparty == buyer then RefLegSum(ledger, row.ref, FeeLeg) else 0)
  {
    var row := ledger[ids[|ids| - 1] - 1];
    if k: nat :| k < |fees| && ledger[fees[k] - 1].ref == row.ref {
      fees' := fees[..k] + fees[k + 1..];
      FeeRemoved(ledger, ids, fees, k, fees');
      assert fees[k] in fees;
      FeeTaken(ledger, fees, k, buyer);
      OneLegOneSum(ledger, fees[k] - 1);
      assert OneBuyer(row, ledger[fees[k] - 1]);
    } else {
      fees' := fees;
      NoFee(ledger, ids, fees);
    }
  }

  lemma FeeTaken(ledger: seq<Row>, fees: seq<nat>, k: nat, buyer: string)
    requires ValidIds(ledger, fees) && k < |fees|
    ensures ValidIds(ledger, fees[..k] + fees[k + 1..])
    ensures var row := ledger[fees[k] - 1];
      BuyerSum(ledger, fees, buyer)
        == BuyerSum(ledger, fees[..k] + fees[k + 1..], buyer) + (if row.counterparty == buyer then row.delta else 0)
  {
    assert fees == fees[..k] + [fees[k]] + fees[k + 1..];
    BuyerSumConcat(ledger, fees[..k] + [fees[k]], fees[k + 1..], buyer);
    BuyerSumStep(ledger, fees[..k], fees[k], buyer);
    BuyerSumConcat(ledger, fees[..k], fees[k + 1..], buyer);
  }

  lemma NoFee(ledger: seq<Row>, ids: seq<nat>, fees: seq<nat>)
    requires LedgerOk(ledger) && EarnIds(ledger, ids) && ids != [] && FeesOf(ledger, ids, fees)
    requires forall k: nat | k < |fees| :: ledger[fees[k] - 1].ref != ledger[ids[|ids| - 1] - 1].ref
    ensures ValidIds(ledger, ids[..|ids| - 1]) && FeesOf(ledger, ids[..|ids| - 1], fees)
    ensures RefLegSum(ledger, ledger[ids[|ids| - 1] - 1].ref, FeeLeg) == 0
  {
    var ref := ledger[ids[|ids| - 1] - 1].ref;
    forall i | 0 <= i < |ledger| ensures ledger[i].ref != ref || ledger[i].leg != FeeLeg {
      if ledger[i].ref == ref {
        assert IsFeeOf(ledger, ids, i + 1) <==> i + 1 in fees;
      }
    }
    NoLegNoSum(ledger, ref, FeeLeg);
    forall f: nat ensures f in fees <==> IsFeeOf(ledger, ids[..|ids| - 1], f) {
      FeeOfFewer(ledger, ids, f);
    }
  }

  predicate NamesRef(ledger: seq<Row>, ids: seq<nat>, ref: string)
    requires ValidIds(ledger, ids)
  {
    exists i :: 0 <= i < |ids| && ledger[ids[i] - 1].ref == ref
  }

  lemma NamesRefSnoc(ledger: seq<Row>, init: seq<nat>, id: nat, ref: string)
    requires ValidIds(ledger, init) && 1 <= id <= |ledger|
    ensures ValidIds(ledger, init + [id])
    ensures NamesRef(ledger, init + [id], ref) <==> NamesRef(ledger, init, ref) || ledger[id - 1].ref == ref
  {
    var ids := init + [id];
    if NamesRef(ledger, init, ref) {
      var i :| 0 <= i < |init| && ledger[init[i] - 1].ref == ref;
      assert ledger[ids[i] - 1].ref == ref;
    }
    assert ids[|init|] == id;
  }

  /** A fee row of the selection belongs to the last leg or to the selection without it. */
  lemma FeeOfFewer(ledger: seq<Row>, ids: seq<nat>, f: nat)
    requires UniqueLegs(ledger) && EarnIds(ledger, ids) && ids != []
    ensures ValidIds(ledger, ids[..|ids| - 1])
    ensures var last := ledger[ids[|ids| - 1] - 1];
      IsFeeOf(ledger, ids, f) <==> (
        || IsFeeOf(ledger, ids[..|ids| - 1], f)
        || (1 <= f <= |ledger| && ledger[f - 1].leg == FeeLeg && ledger[f - 1].ref == last.ref))
  {
    if 1 <= f <= |ledger| {
      assert ids == ids[..|ids| - 1] + [ids[|ids| - 1]];
      NamesRefSnoc(ledger, ids[..|ids| - 1], ids[|ids| - 1], ledger[f - 1].ref);
    }
  }

  lemma RemovedAt(s: seq<nat>, k: nat, x: nat)
    requires k < |s| && forall i, j :: 0 <= i < j < |s| ==> s[i] != s[j]
    ensures x in s[..k] + s[k + 1..] <==> x in s && x != s[k]
  {}

  /** A fee row of the shorter selection is not the last leg's. */
  lemma OtherFee(ledger: seq<Row>, ids: seq<nat>, f: nat)
    requires UniqueLegs(ledger) && EarnIds(ledger, ids) && ids != [] && ValidIds(ledger, ids[..|ids| - 1])
    requires IsFeeOf(ledger, ids[..|ids| - 1], f)
    ensures ledger[f - 1].ref != ledger[ids[|ids| - 1] - 1].ref
  {
    var init := ids[..|ids| - 1];
    var i :| 0 <= i < |init| && ledger[init[i] - 1].ref == ledger[f - 1].ref;
    DistinctRefs(ledger, ids, i, |ids| - 1);
  }

  lemma SameFee(ledger: seq<Row>, f: nat, g: nat)
    requires UniqueLegs(ledger) && 1 <= f <= |ledger| && 1 <= g <= |ledger|
    requires ledger[f - 1].leg == ledger[g - 1].leg && ledger[f - 1].ref == ledger[g - 1].ref
    ensures f == g
  {
    var x, y := f - 1, g - 1;
    assert !(x < y) && !(y < x);
  }

  lemma FeeStays(ledger: seq<Row>, ids: seq<nat>, g: nat, f: nat)
    requires UniqueLegs(ledger) && EarnIds(ledger, ids) && ids != [] && IsFeeOf(ledger, ids, g)
    requires ledger[g - 1].ref == ledger[ids[|ids| - 1] - 1].ref
    ensures ValidIds(ledger, ids[..|ids| - 1])
    ensures IsFeeOf(ledger, ids, f) && f != g <==> IsFeeOf(ledger, ids[..|ids| - 1], f)
  {
    FeeOfFewer(ledger, ids, f);
    if IsFeeOf(ledger, ids[..|ids| - 1], f) {
      OtherFee(ledger, ids, f);
    } else if IsFeeOf(ledger, ids, f) {
      SameFee(ledger, f, g);
    }
  }

  lemma FeeRemoved(ledger: seq<Row>, ids: seq<nat>, fees: seq<nat>, k: nat, fees': seq<nat>)
    requires LedgerOk(ledger) && EarnIds(ledger, ids) && ids != [] && FeesOf(ledger, ids, fees)
    requires k < |fees| && ledger[fees[k] - 1].ref == ledger[ids[|ids| - 1] - 1].ref && fees' == fees[..k] + fees[k + 1..]
    ensures ValidIds(ledger, ids[..|ids| - 1]) && FeesOf(ledger, ids[..|ids| - 1], fees')
  {
    var init := ids[..|ids| - 1];
    assert fees[k] in fees && IsFeeOf(ledger, ids, fees[k]);
    forall f: nat ensures f in fees' <==> IsFeeOf(ledger, init, f) {
      FeeStays(ledger, ids, fees[k], f);
      RemovedAt(fees, k, f);
      assert f in fees <==> IsFeeOf(ledger, ids, f);
    }
  }

  /** Seller shares plus platform fees of a buyer's selected requests are what they debited. */
  lemma {:induction false} EarnPlusFee(ledger: seq<Row>, ids: seq<nat>, fees: seq<nat>, buyer: string)
    requires LedgerOk(ledger) && EarnIds(ledger, ids) && FeesOf(ledger, ids, fees)
    ensures BuyerSum(ledger, ids, buyer) + BuyerSum(ledger, fees, buyer) == DebitSum(ledger, ids, buyer)
    decreases |ids|
  {
    if ids == [] {
      assert forall i :: 0 <= i < |fees| ==> fees[i] !in fees;
    } else {
      var init, id := ids[..|ids| - 1], ids[|ids| - 1];
      var fees' := FeesWithout(ledger, ids, fees, buyer);
      EarnPlusFee(ledger, init, fees', buyer);
      UsageSplits(ledger, ledger[id - 1].ref);
      OneLegOneSum(ledger, id - 1);
    }
  }

  /** At most one fee row per selected leg. */
  lemma {:induction false} FeesAtMost(ledger: seq<Row>, ids: seq<nat>, fees: seq<nat>)
    requires LedgerOk(ledger) && EarnIds(ledger, ids) && FeesOf(ledger, ids, fees)
    ensures |fees| <= |ids|
    decreases |ids|
  {
    if ids == [] {
      assert forall i :: 0 <= i < |fees| ==> fees[i] !in fees;
    } else {
      var fees' := FeesWithout(ledger, ids, fees, "");
      FeesAtMost(ledger, ids[..|ids| - 1], fees');
    }
  }
}

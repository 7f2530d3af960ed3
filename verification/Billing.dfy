/** The exact integer money arithmetic of internal/billing/billing.go. */
module Billing {
  import opened Common

  datatype ArithError = Overflow | NegativeTokens | NegativeRate | NegativeCeiling | BadDivisor

  type Checked = Result<int64, ArithError>

  const MILLION: int := 1_000_000
  /** The largest charge Cost can return. */
  const MAX_COST: int := MAX_INT64 / MILLION

  datatype Quote = Quote(peer: string, seller: string, inRate: int64, cachedRate: int64, outRate: int64)
  datatype Usage = Usage(input: int64, cached: int64, output: int64)

  // ---------- checked operators ----------

  /** Dividing the wrapped product back catches exactly the overflows. */
  function CheckedMul(a: int64, b: int64): (r: Checked)
    ensures r.Ok? <==> a >= 0 && b >= 0 && a * b <= MAX_INT64
    ensures r.Ok? ==> r.value == a * b
    ensures r.Err? ==> r.error == Overflow
  {
    if a < 0 || b < 0 then Err(Overflow)
    else if a == 0 || b == 0 then Ok(0)
    else
      var r := Wrap(a * b);
      DivideBack(a, b, r);
      if TruncDiv(r, a) != b then Err(Overflow) else Ok(r)
  }

  /** Dividing the wrapped product back gives b exactly when nothing wrapped. */
  lemma DivideBack(a: int64, b: int64, r: int64)
    requires a > 0 && b > 0 && r == Wrap(a * b)
    ensures TruncDiv(r, a) == b <==> r == a * b
    ensures r == a * b <==> a * b <= MAX_INT64
  {
    MulGrows(1, b, a);
    if r >= 0 { QuotientIs(a, b, a * b, r); } else { NegativeQuotient(r, a); }
  }

  lemma NegativeQuotient(r: int, a: int)
    requires r < 0 && a > 0
    ensures TruncDiv(r, a) <= 0
  {
    DivBounds(-r, a);
  }

  lemma MulGrows(x: int, y: int, a: int)
    requires x <= y && a >= 0
    ensures x * a <= y * a
  {}

  /** A quotient by a is b only between a * b and a * (b + 1). */
  lemma QuotientIs(a: int, b: int, p: int, r: int)
    requires a > 0 && b > 0 && p == a * b && 0 <= r <= p
    ensures r / a == b <==> r == p
  {
    DivBounds(r, a);
    if r == p && r / a < b { MulGrows(r / a + 1, b, a); }
    if r == p && r / a > b { MulGrows(b + 1, r / a, a); }
  }

  function CheckedAdd(a: int64, b: int64): (r: Checked)
    ensures r.Ok? <==> a >= 0 && b >= 0 && a + b <= MAX_INT64
    ensures r.Ok? ==> r.value == a + b
    ensures r.Err? ==> r.error == Overflow
  {
    if a < 0 || b < 0 then Err(Overflow)
    else
      var r := Wrap(a + b);
      if r < a then Err(Overflow) else Ok(r)
  }

  function CheckedSub(a: int64, b: int64): (r: Checked)
    ensures r.Ok? <==> 0 <= b <= a
    ensures r.Ok? ==> r.value == a - b
    ensures r.Err? ==> r.error == Overflow
  {
    if a < 0 || b < 0 then Err(Overflow)
    else if a < b then Err(Overflow)
    else Ok(a - b)
  }

  /** c is num / den rounded up. */
  ghost predicate IsCeil(num: int, den: int, c: int) {
    (c - 1) * den < num <= c * den
  }

  function CeilDiv(num: int64, den: int64): (r: Checked)
    ensures r.Ok? <==> den > 0 && 0 <= num && num + den - 1 <= MAX_INT64
    ensures r.Ok? ==> IsCeil(num, den, r.value)
  {
    if den <= 0 then Err(BadDivisor)
    else if num < 0 then Err(Overflow)
    else
      match CheckedAdd(num, den - 1)
      case Err(e) => Err(e)
      case Ok(rounded) =>
        DivBounds(rounded, den);
        Ok(rounded / den)
  }

  lemma DivBounds(x: int, d: int)
    requires d > 0 && x >= 0
    ensures (x / d) * d <= x < (x / d + 1) * d
    ensures 0 <= x / d <= x
  {
    QuotientBounds(x, d, x / d, x % d);
  }

  lemma QuotientBounds(x: int, d: int, q: int, m: int)
    requires d > 0 && x >= 0 && 0 <= m < d && x == d * q + m
    ensures q * d <= x < (q + 1) * d
    ensures 0 <= q <= x
  {
    assert (q + 1) * d > 0;
    assert q >= 0;
    assert d * q >= q;
  }

  // ---------- cost ----------

  /** The exact charge in millionths of a base unit. */
  function Exact(u: Usage, inRate: int, cachedRate: int, outRate: int): int {
    inRate * u.input + cachedRate * u.cached + outRate * u.output
  }

  ghost predicate Priceable(u: Usage, inRate: int, cachedRate: int, outRate: int) {
    && u.input >= 0 && u.cached >= 0 && u.output >= 0
    && inRate >= 0 && cachedRate >= 0 && outRate >= 0
    && Exact(u, inRate, cachedRate, outRate) + MILLION - 1 <= MAX_INT64
  }

  /** Succeeds exactly when the exact sum and its rounding fit an int64, and rounds the
      combined sum up once. */
  function Cost(u: Usage, inRate: int64, cachedRate: int64, outRate: int64): (r: Checked)
    ensures r.Ok? <==> Priceable(u, inRate, cachedRate, outRate)
    ensures r.Ok? ==> IsCeil(Exact(u, inRate, cachedRate, outRate), MILLION, r.value)
    ensures r.Ok? ==> 0 <= r.value <= MAX_COST
  {
    if u.input < 0 || u.cached < 0 || u.output < 0 then Err(NegativeTokens)
    else if inRate < 0 || cachedRate < 0 || outRate < 0 then Err(NegativeRate)
    else
      ProductsNonNegative(u, inRate, cachedRate, outRate);
      match CheckedMul(inRate, u.input)
      case Err(e) => Err(e)
      case Ok(pIn) =>
        match CheckedMul(cachedRate, u.cached)
        case Err(e) => Err(e)
        case Ok(pCached) =>
          match CheckedMul(outRate, u.output)
          case Err(e) => Err(e)
          case Ok(pOut) =>
            match CheckedAdd(pIn, pCached)
            case Err(e) => Err(e)
            case Ok(s1) =>
              match CheckedAdd(s1, pOut)
              case Err(e) => Err(e)
              case Ok(sum) => if sum == 0 then Ok(0) else CeilDiv(sum, MILLION)
  }

  lemma ProductsNonNegative(u: Usage, inRate: int, cachedRate: int, outRate: int)
    requires u.input >= 0 && u.cached >= 0 && u.output >= 0
    requires inRate >= 0 && cachedRate >= 0 && outRate >= 0
    ensures inRate * u.input >= 0 && cachedRate * u.cached >= 0 && outRate * u.output >= 0
  {}

  // ---------- fee ----------

  function ClampBps(feeBps: int): int {
    if feeBps < 0 then 0 else if feeBps > 10000 then 10000 else feeBps
  }

  /** The fee is the floor of cost * bps / 10000 and the seller gets exactly the rest; no
      charge Cost can return makes it fail. */
  function Fee(cost: int64, feeBps: int): (r: Result<(int, int), ArithError>)
    ensures 0 <= cost <= MAX_COST ==> r.Ok?
    ensures r.Ok? ==> r.value.0 + r.value.1 == cost && r.value.0 >= 0 && r.value.1 >= 0
    ensures r.Ok? ==> r.value.0 * 10000 <= cost * ClampBps(feeBps) < (r.value.0 + 1) * 10000
  {
    if cost < 0 then Err(Overflow)
    else
      var bps := ClampBps(feeBps);
      if bps == 0 || cost == 0 then Ok((0, cost))
      else
        FeeFits(cost, bps);
        match CheckedMul(cost, bps)
        case Err(e) => Err(e)
        case Ok(num) =>
          var fee := num / 10000;
          match CheckedSub(cost, fee)
          case Err(e) => Err(e)
          case Ok(seller) => Ok((fee, seller))
  }

  /** The rate is taken as no less than nothing and no more than everything. */
  lemma FeeClamped(cost: int64, feeBps: int)
    requires 0 <= cost <= MAX_COST
    ensures Fee(cost, feeBps).Ok?
    ensures feeBps <= 0 ==> Fee(cost, feeBps).value == (0, cost)
    ensures feeBps >= 10000 ==> Fee(cost, feeBps).value == (cost, 0)
    ensures 0 <= feeBps <= 10000 ==> Fee(cost, feeBps).value.0 * 10000 <= cost * feeBps < (Fee(cost, feeBps).value.0 + 1) * 10000
  {
    var fee := Fee(cost, feeBps).value.0;
    if feeBps >= 10000 { assert fee * 10000 <= cost * 10000 < (fee + 1) * 10000; }
    if feeBps <= 0 { assert cost * ClampBps(feeBps) == 0; }
  }

  lemma FeeFits(cost: int, bps: int)
    requires 0 <= cost && 0 < bps <= 10000
    ensures cost * bps <= cost * 10000
    ensures cost <= MAX_COST ==> cost * bps <= MAX_INT64
    ensures 0 <= cost * bps / 10000 <= cost
  {
    MulGrows(0, bps, cost);
    MulGrows(bps, 10000, cost);
    TenThousandth(cost, cost * bps);
  }

  lemma TenThousandth(cost: int, num: int)
    requires 0 <= num <= cost * 10000
    ensures 0 <= num / 10000 <= cost
  {}

  // ---------- reserve ----------

  /** The whole input ceiling at the dearer input rate, plus the output ceiling. */
  function Worst(q: Quote, inputCeil: int, outputCeil: int): int {
    Max(q.inRate, q.cachedRate) * inputCeil + q.outRate * outputCeil
  }

  function WorstCaseCost(q: Quote, inputCeil: int64, outputCeil: int64): (r: Checked)
    ensures r.Ok? <==> && inputCeil >= 0 && outputCeil >= 0 && Max(q.inRate, q.cachedRate) >= 0 && q.outRate >= 0
                       && Worst(q, inputCeil, outputCeil) + MILLION - 1 <= MAX_INT64
    ensures r.Ok? ==> IsCeil(Worst(q, inputCeil, outputCeil), MILLION, r.value) && 0 <= r.value <= MAX_COST
  {
    if inputCeil < 0 || outputCeil < 0 then Err(NegativeCeiling)
    else
      var inRate := if q.cachedRate > q.inRate then q.cachedRate else q.inRate;
      CeilingProducts(inRate, inputCeil, q.outRate, outputCeil);
      match CheckedMul(inRate, inputCeil)
      case Err(e) => Err(e)
      case Ok(pIn) =>
        match CheckedMul(q.outRate, outputCeil)
        case Err(e) => Err(e)
        case Ok(pOut) =>
          match CheckedAdd(pIn, pOut)
          case Err(e) => Err(e)
          case Ok(sum) => if sum == 0 then Ok(0) else CeilDiv(sum, MILLION)
  }

  lemma CeilingProducts(inRate: int, inputCeil: int, outRate: int, outputCeil: int)
    requires inputCeil >= 0 && outputCeil >= 0
    ensures inRate >= 0 ==> inRate * inputCeil >= 0
    ensures outRate >= 0 ==> outRate * outputCeil >= 0
  {}

  /** The largest worst-case cost over the snapshot, or the first quote's error. */
  function ReserveOf(quotes: seq<Quote>, inputCeil: int64, outputCeil: int64): (r: Checked)
    ensures r.Ok? ==> 0 <= r.value <= MAX_COST
  {
    if quotes == [] then Ok(0)
    else
      match ReserveOf(quotes[..|quotes| - 1], inputCeil, outputCeil)
      case Err(e) => Err(e)
      case Ok(m) =>
        match WorstCaseCost(quotes[|quotes| - 1], inputCeil, outputCeil)
        case Err(e) => Err(e)
        case Ok(c) => Ok(if c > m then c else m)
  }

  method ReserveAmount(quotes: seq<Quote>, inputCeil: int64, outputCeil: int64) returns (r: Checked)
    ensures r == ReserveOf(quotes, inputCeil, outputCeil)
  {
    var max: int64 := 0;
    for i := 0 to |quotes|
      invariant ReserveOf(quotes[..i], inputCeil, outputCeil) == Ok(max)
    {
      assert quotes[..i + 1][..i] == quotes[..i];
      match WorstCaseCost(quotes[i], inputCeil, outputCeil) {
        case Err(e) =>
          ReserveOfPrefixError(quotes, i + 1, inputCeil, outputCeil);
          return Err(e);
        case Ok(c) =>
          if c > max { max := c; }
      }
    }
    assert quotes[..|quotes|] == quotes;
    r := Ok(max);
  }

  lemma {:induction false} ReserveOfPrefixError(quotes: seq<Quote>, n: nat, inputCeil: int64, outputCeil: int64)
    requires n <= |quotes|
    requires ReserveOf(quotes[..n], inputCeil, outputCeil).Err?
    ensures ReserveOf(quotes, inputCeil, outputCeil) == ReserveOf(quotes[..n], inputCeil, outputCeil)
  {
    if n == |quotes| {
      assert quotes[..n] == quotes;
    } else {
      var init := quotes[..|quotes| - 1];
      assert init[..n] == quotes[..n];
      ReserveOfPrefixError(init, n, inputCeil, outputCeil);
    }
  }

  ghost predicate WithinCeilings(u: Usage, inputCeil: int, outputCeil: int) {
    u.input >= 0 && u.cached >= 0 && u.output >= 0 && u.input + u.cached <= inputCeil && u.output <= outputCeil
  }

  ghost predicate RatesNonNegative(q: Quote) {
    q.inRate >= 0 && q.cachedRate >= 0 && q.outRate >= 0
  }

  lemma {:induction false} ReserveOfCoversQuote(quotes: seq<Quote>, k: nat, inputCeil: int64, outputCeil: int64)
    requires k < |quotes| && ReserveOf(quotes, inputCeil, outputCeil).Ok?
    ensures WorstCaseCost(quotes[k], inputCeil, outputCeil).Ok?
    ensures WorstCaseCost(quotes[k], inputCeil, outputCeil).value <= ReserveOf(quotes, inputCeil, outputCeil).value
  {
    if k < |quotes| - 1 {
      ReserveOfCoversQuote(quotes[..|quotes| - 1], k, inputCeil, outputCeil);
    }
  }

  /** The input budget spent at the dearer rate bounds every split between regular and cached. */
  lemma SplitBound(u: Usage, q: Quote, inputCeil: int, outputCeil: int)
    requires WithinCeilings(u, inputCeil, outputCeil) && RatesNonNegative(q)
    ensures Exact(u, q.inRate, q.cachedRate, q.outRate)
         <= Worst(q, inputCeil, outputCeil)
    ensures Exact(u, q.inRate, q.cachedRate, q.outRate) >= 0
  {
    var m := Max(q.inRate, q.cachedRate);
    assert q.inRate * u.input <= m * u.input;
    assert q.cachedRate * u.cached <= m * u.cached;
    assert m * u.input + m * u.cached == m * (u.input + u.cached) <= m * inputCeil;
    assert q.outRate * u.output <= q.outRate * outputCeil;
    ProductsNonNegative(u, q.inRate, q.cachedRate, q.outRate);
  }

  lemma CeilMonotone(x: int, y: int, cx: int, cy: int)
    requires x <= y && IsCeil(x, MILLION, cx) && IsCeil(y, MILLION, cy)
    ensures cx <= cy
  {}

  /** A successful reserve covers every usage within the ceilings, whichever quote serves it and
      however the input splits: the cost is computable and never above the reserve. */
  lemma ReserveCovers(quotes: seq<Quote>, inputCeil: int64, outputCeil: int64, k: nat, u: Usage)
    requires k < |quotes| && RatesNonNegative(quotes[k])
    requires ReserveOf(quotes, inputCeil, outputCeil).Ok?
    requires WithinCeilings(u, inputCeil, outputCeil)
    ensures Cost(u, quotes[k].inRate, quotes[k].cachedRate, quotes[k].outRate).Ok?
    ensures Cost(u, quotes[k].inRate, quotes[k].cachedRate, quotes[k].outRate).value
         <= ReserveOf(quotes, inputCeil, outputCeil).value
  {
    var q := quotes[k];
    ReserveOfCoversQuote(quotes, k, inputCeil, outputCeil);
    SplitBound(u, q, inputCeil, outputCeil);
    var worst := Worst(q, inputCeil, outputCeil);
    var w := WorstCaseCost(q, inputCeil, outputCeil);
    assert worst + MILLION - 1 <= MAX_INT64 && IsCeil(worst, MILLION, w.value);
    var c := Cost(u, q.inRate, q.cachedRate, q.outRate);
    CeilMonotone(Exact(u, q.inRate, q.cachedRate, q.outRate), worst, c.value, w.value);
  }

  /** The reserve is attained, so it is the least amount with that guarantee: an empty or unpriced
      snapshot reserves nothing, and otherwise some quote and usage within the ceilings cost all of it. */
  lemma {:induction false} ReserveAttained(quotes: seq<Quote>, inputCeil: int64, outputCeil: int64) returns (k: nat, u: Usage)
    requires forall q | q in quotes :: RatesNonNegative(q)
    requires ReserveOf(quotes, inputCeil, outputCeil).Ok?
    requires ReserveOf(quotes, inputCeil, outputCeil).value > 0
    ensures k < |quotes| && WithinCeilings(u, inputCeil, outputCeil)
    ensures Cost(u, quotes[k].inRate, quotes[k].cachedRate, quotes[k].outRate)
         == ReserveOf(quotes, inputCeil, outputCeil)
  {
    var last := |quotes| - 1;
    var w := WorstCaseCost(quotes[last], inputCeil, outputCeil);
    if w.value == ReserveOf(quotes, inputCeil, outputCeil).value {
      var q := quotes[last];
      assert q in quotes;
      k := last;
      u := if q.cachedRate > q.inRate then Usage(0, inputCeil, outputCeil) else Usage(inputCeil, 0, outputCeil);
      var worst := Worst(q, inputCeil, outputCeil);
      assert Exact(u, q.inRate, q.cachedRate, q.outRate) == worst;
      var c := Cost(u, q.inRate, q.cachedRate, q.outRate);
      ProductsNonNegative(u, q.inRate, q.cachedRate, q.outRate);
      CeilMonotone(worst, worst, c.value, w.value);
      CeilMonotone(worst, worst, w.value, c.value);
    } else {
      k, u := ReserveAttained(quotes[..last], inputCeil, outputCeil);
    }
  }

  /** The quote's worst case has a price. */
  ghost predicate Computable(q: Quote, inputCeil: int, outputCeil: int) {
    && inputCeil >= 0 && outputCeil >= 0 && Max(q.inRate, q.cachedRate) >= 0 && q.outRate >= 0
    && Worst(q, inputCeil, outputCeil) + MILLION - 1 <= MAX_INT64
  }

  /** The reserve is computable if and only if every quote's worst case is; otherwise it is refused with the
      first one's error. */
  lemma {:induction false} ReserveComputableIff(quotes: seq<Quote>, inputCeil: int64, outputCeil: int64)
    ensures ReserveOf(quotes, inputCeil, outputCeil).Ok? <==> forall i :: 0 <= i < |quotes| ==> Computable(quotes[i], inputCeil, outputCeil)
    ensures ReserveOf(quotes, inputCeil, outputCeil).Err? ==> exists i :: FirstUncomputable(quotes, inputCeil, outputCeil, i)
  {
    if quotes != [] {
      var init, last := quotes[..|quotes| - 1], |quotes| - 1;
      ReserveComputableIff(init, inputCeil, outputCeil);
      assert forall i :: 0 <= i < last ==> init[i] == quotes[i];
      if ReserveOf(init, inputCeil, outputCeil).Err? {
        var i :| FirstUncomputable(init, inputCeil, outputCeil, i);
        assert FirstUncomputable(quotes, inputCeil, outputCeil, i);
      } else if ReserveOf(quotes, inputCeil, outputCeil).Err? {
        assert FirstUncomputable(quotes, inputCeil, outputCeil, last);
      }
    }
  }

  /** The reserve fails with the error of quote i, and every quote before it is computable. */
  ghost predicate FirstUncomputable(quotes: seq<Quote>, inputCeil: int64, outputCeil: int64, i: int) {
    && 0 <= i < |quotes| && !Computable(quotes[i], inputCeil, outputCeil)
    && (forall j :: 0 <= j < i ==> Computable(quotes[j], inputCeil, outputCeil))
    && WorstCaseCost(quotes[i], inputCeil, outputCeil).Err?
    && ReserveOf(quotes, inputCeil, outputCeil) == Err(WorstCaseCost(quotes[i], inputCeil, outputCeil).error)
  }

  // ---------- the delegation bound ----------

  datatype Allowance = Allowance(raw: int64, revoked: bool) {
    predicate Active() { !revoked && raw > 0 }
  }

  function ActiveSum(rows: seq<Allowance>): (s: nat) {
    if rows == [] then 0
    else ActiveSum(rows[..|rows| - 1]) + (if rows[|rows| - 1].Active() then rows[|rows| - 1].raw else 0)
  }

  /** The bound the design asks for: credit not reserved, capped by the active allowances if any. */
  function DelegationBound(credit: int, reserved: int, rows: seq<Allowance>): int {
    var avail := Max(credit - reserved, 0);
    if ActiveSum(rows) > 0 then Min(avail, ActiveSum(rows)) else avail
  }

  lemma WrapAdd(x: int, y: int)
    ensures Wrap(Wrap(x) + y) == Wrap(x + y)
  {
    var k := (x - Wrap(x)) / TWO_64;
    assert x == Wrap(x) + k * TWO_64;
    var a, b := Wrap(x) + y, x + y;
    assert b == a + k * TWO_64;
    assert b % TWO_64 == a % TWO_64 by { ModShift(a, k); }
  }

  lemma ModShift(a: int, k: int)
    ensures (a + k * TWO_64) % TWO_64 == a % TWO_64
  {
    var q, m := a / TWO_64, a % TWO_64;
    assert a + k * TWO_64 == (q + k) * TWO_64 + m;
  }

  /** The running sum is not overflow-checked. It can wrap, but then the result only gets
      stricter: it never exceeds the bound, and it is the bound unless the wrapped sum lands
      strictly between zero and the available credit. */
  method DelegationAvailable(credit: int64, reserved: int64, rows: seq<Allowance>) returns (r: int)
    requires 0 <= credit && 0 <= reserved
    ensures r <= DelegationBound(credit, reserved, rows)
    ensures r == DelegationBound(credit, reserved, rows)
       <==> !(ActiveSum(rows) > MAX_INT64 && 0 < Wrap(ActiveSum(rows)) < credit - reserved)
  {
    var sum: int64 := 0;
    for i := 0 to |rows|
      invariant sum == Wrap(ActiveSum(rows[..i]))
    {
      assert rows[..i + 1][..i] == rows[..i];
      if rows[i].Active() {
        WrapAdd(ActiveSum(rows[..i]), rows[i].raw);
        sum := Wrap(sum + rows[i].raw);
      }
    }
    assert rows[..|rows|] == rows;
    var avail := credit - reserved;
    if avail < 0 { return 0; }
    if sum > 0 && sum < avail { return sum; }
    r := avail;
  }
}

/** Base conversion with leading zeros kept (internal/solana/base58.go): what the two in-place loops
    compute, that they undo each other, and how many digits they need. */
module Base58 {
  import opened Common

  // ---------- division, by repeated subtraction ----------

  function Quot(v: nat, b: nat): (q: nat)
    requires b >= 2
    ensures v > 0 ==> q < v
    ensures q == 0 <==> v < b
  {
    if v < b then 0 else 1 + Quot(v - b, b)
  }

  function Rem(v: nat, b: nat): (r: nat)
    requires b >= 2
    ensures r < b
  {
    if v < b then v else Rem(v - b, b)
  }

  lemma {:induction false} QuotRem(v: nat, b: nat)
    requires b >= 2
    ensures v == b * Quot(v, b) + Rem(v, b)
  {
    if v >= b {
      QuotRem(v - b, b);
      Distribute(b, Quot(v - b, b), 1);
    }
  }

  lemma {:induction false} QuotRemUnique(b: nat, q: nat, r: nat)
    requires b >= 2 && r < b
    ensures b * q + r >= 0 && Quot(b * q + r, b) == q && Rem(b * q + r, b) == r
  {
    if q > 0 {
      Distribute(b, q - 1, 1);
      QuotRemUnique(b, q - 1, r);
      QuotRemStep(b, b * (q - 1) + r);
    }
  }

  lemma QuotRemStep(b: nat, v: nat)
    requires b >= 2
    ensures Quot(v + b, b) == 1 + Quot(v, b) && Rem(v + b, b) == Rem(v, b)
  {}

  lemma Distribute(a: int, b: int, c: int)
    ensures a * (b + c) == a * b + a * c
  {}

  lemma Associate(a: int, b: int, c: int)
    ensures a * (b * c) == b * (a * c)
  {}

  // ---------- numbers and their digits ----------

  /** Least significant first, without a zero at the end. */
  function Digits(base: nat, v: nat): (r: seq<nat>)
    requires base >= 2
    ensures forall i :: 0 <= i < |r| ==> r[i] < base
    ensures r != [] ==> r[|r| - 1] != 0
    ensures r == [] <==> v == 0
    decreases v
  {
    if v == 0 then [] else [Rem(v, base)] + Digits(base, Quot(v, base))
  }

  /** The number a big-endian digit string denotes. */
  function Value(base: nat, x: seq<nat>): nat {
    if x == [] then 0 else base * Value(base, x[..|x| - 1]) + x[|x| - 1]
  }

  function LeadingZeros(x: seq<nat>): (z: nat)
    ensures z <= |x| && (forall i :: 0 <= i < z ==> x[i] == 0) && (z < |x| ==> x[z] != 0)
  {
    if x == [] || x[0] != 0 then 0 else 1 + LeadingZeros(x[1..])
  }

  function Zeros(n: nat): (z: seq<nat>)
    ensures |z| == n && forall i :: 0 <= i < n ==> z[i] == 0
  {
    seq(n, i => 0)
  }

  predicate InBase(base: nat, x: seq<nat>) {
    forall i :: 0 <= i < |x| ==> x[i] < base
  }

  /** Every leading zero is kept; the rest is rewritten in the other base. */
  function Convert(from: nat, to: nat, x: seq<nat>): (y: seq<nat>)
    requires to >= 2
    ensures InBase(to, y)
  {
    Zeros(LeadingZeros(x)) + Rev(Digits(to, Value(from, x)))
  }

  lemma {:induction false} LeadingZerosIs(x: seq<nat>, z: nat)
    requires z <= |x| && (forall i :: 0 <= i < z ==> x[i] == 0) && (z < |x| ==> x[z] != 0)
    ensures LeadingZeros(x) == z
  {
    if z > 0 {
      LeadingZerosIs(x[1..], z - 1);
    }
  }

  lemma {:induction false} ValueSkipsZeros(base: nat, x: seq<nat>, z: nat)
    requires z <= |x| && forall i :: 0 <= i < z ==> x[i] == 0
    ensures Value(base, x) == Value(base, x[z..])
    decreases |x|
  {
    if z == |x| {
      if z > 0 {
        ValueSkipsZeros(base, x[..z - 1], z - 1);
        assert x[..z - 1][z - 1..] == [] && x[z..] == [];
      }
    } else {
      var n := |x| - 1;
      ValueSkipsZeros(base, x[..n], z);
      assert x[..n][z..] == x[z..][..n - z];
    }
  }

  lemma {:induction false} ValueOfDigits(base: nat, v: nat)
    requires base >= 2
    ensures Value(base, Rev(Digits(base, v))) == v
    decreases v
  {
    if v > 0 {
      var rest := Digits(base, Quot(v, base));
      ValueOfDigits(base, Quot(v, base));
      assert Digits(base, v)[1..] == rest;
      assert Rev(Digits(base, v)) == Rev(rest) + [Rem(v, base)];
      ValueSnoc(base, Rev(rest), Rem(v, base));
      QuotRem(v, base);
    }
  }

  lemma ValueSnoc(base: nat, x: seq<nat>, d: nat)
    ensures Value(base, x + [d]) == base * Value(base, x) + d
  {
    assert (x + [d])[..|x|] == x;
  }

  lemma {:induction false} DigitsOfValue(base: nat, x: seq<nat>)
    requires base >= 2 && InBase(base, x) && (x != [] ==> x[0] != 0)
    ensures Rev(Digits(base, Value(base, x))) == x
    ensures x != [] ==> Value(base, x) > 0
    decreases |x|
  {
    if x != [] {
      var init, last := x[..|x| - 1], x[|x| - 1];
      assert x == init + [last];
      DigitsOfValue(base, init);
      ValueSnoc(base, init, last);
      DigitsSnoc(base, Value(base, init), last);
    }
  }

  /** Appending a digit at the little end. */
  lemma DigitsSnoc(base: nat, v: nat, d: nat)
    requires base >= 2 && d < base && (v > 0 || d > 0)
    ensures base * v + d > 0 && Rev(Digits(base, base * v + d)) == Rev(Digits(base, v)) + [d]
  {
    assert v > 0 ==> base * v >= v;
    QuotRemUnique(base, v, d);
    var all := Digits(base, base * v + d);
    assert all[1..] == Digits(base, v) && all[0] == d;
  }

  lemma ConvertParts(from: nat, to: nat, x: seq<nat>)
    requires to >= 2
    ensures var y := Convert(from, to, x);
      LeadingZeros(y) == LeadingZeros(x) && Value(to, y) == Value(from, x)
  {
    var z := LeadingZeros(x);
    var d := Digits(to, Value(from, x));
    var y := Convert(from, to, x);
    LeadingZerosIs(y, z);
    ValueSkipsZeros(to, y, z);
    assert y[z..] == Rev(d);
    ValueOfDigits(to, Value(from, x));
  }

  lemma ConvertIs(from: nat, to: nat, y: seq<nat>, z: nat, v: nat)
    requires to >= 2 && LeadingZeros(y) == z && Value(from, y) == v
    ensures Convert(from, to, y) == Zeros(z) + Rev(Digits(to, v))
  {}

  lemma ZerosFirst(x: seq<nat>, z: nat)
    requires z <= |x| && forall i :: 0 <= i < z ==> x[i] == 0
    ensures x == Zeros(z) + x[z..]
  {}

  /** A sequence is its leading zeros and the digits of its value. */
  lemma ZerosAndDigits(base: nat, x: seq<nat>)
    requires base >= 2 && InBase(base, x)
    ensures x == Zeros(LeadingZeros(x)) + Rev(Digits(base, Value(base, x)))
  {
    var z := LeadingZeros(x);
    ValueSkipsZeros(base, x, z);
    SuffixDigits(base, x[z..]);
    ZerosFirst(x, z);
  }

  /** Converting there and back gives the original: both round trips of the codec in one statement. */
  lemma RoundTrip(from: nat, to: nat, x: seq<nat>)
    requires from >= 2 && to >= 2 && InBase(from, x)
    ensures Convert(to, from, Convert(from, to, x)) == x
  {
    ConvertParts(from, to, x);
    ZerosAndDigits(from, x);
    ConvertIs(to, from, Convert(from, to, x), LeadingZeros(x), Value(from, x));
  }

  lemma SuffixDigits(base: nat, x: seq<nat>)
    requires base >= 2 && InBase(base, x) && (x != [] ==> x[0] != 0)
    ensures Rev(Digits(base, Value(base, x))) == x
  {
    DigitsOfValue(base, x);
  }

  // ---------- multiply and add, digit by digit ----------

  /** What one pass over the digits with a carry leaves behind. */
  function MulAdd(base: nat, d: seq<nat>, m: nat, carry: nat): seq<nat>
    requires base >= 2
  {
    if d == [] then Digits(base, carry)
    else [Rem(carry + d[0] * m, base)] + MulAdd(base, d[1..], m, Quot(carry + d[0] * m, base))
  }

  lemma {:induction false} MulAddDigits(base: nat, v: nat, m: nat, carry: nat, n: nat)
    requires base >= 2 && m >= 1 && n == m * v + carry
    ensures MulAdd(base, Digits(base, v), m, carry) == Digits(base, n)
    decreases v
  {
    if v > 0 {
      var t := carry + Rem(v, base) * m;
      var q := m * Quot(v, base) + Quot(t, base);
      CarryStep(base, v, m, carry, t, n, q);
      MulAddDigits(base, Quot(v, base), m, Quot(t, base), q);
      Scale(m, v);
      MulAddUnfold(base, v, m, carry, t);
    }
  }

  lemma MulAddUnfold(base: nat, v: nat, m: nat, carry: nat, t: nat)
    requires base >= 2 && v > 0 && t == carry + Rem(v, base) * m
    ensures MulAdd(base, Digits(base, v), m, carry) == [Rem(t, base)] + MulAdd(base, Digits(base, Quot(v, base)), m, Quot(t, base))
  {
    assert Digits(base, v)[1..] == Digits(base, Quot(v, base));
  }

  lemma Regroup(b: int, m: int, q: int, r: int, c: int, q': int, r': int)
    requires c + r * m == b * q' + r'
    ensures m * (b * q + r) + c == b * (m * q + q') + r'
  {
    Distribute(m, b * q, r);
    Associate(m, b, q);
    Distribute(b, m * q, q');
  }

  lemma Scale(m: int, v: int)
    requires m >= 1 && v >= 0
    ensures m * v >= v
  {}

  lemma CarryStep(base: nat, v: nat, m: nat, carry: nat, t: nat, n: nat, q: nat)
    requires base >= 2 && t == carry + Rem(v, base) * m && m >= 1 && n == m * v + carry
    requires q == m * Quot(v, base) + Quot(t, base)
    ensures Rem(n, base) == Rem(t, base) && Quot(n, base) == q
  {
    CarrySplit(base, v, m, carry, t, n, q);
    QuotRemIs(n, base, q, Rem(t, base));
  }

  lemma QuotRemIs(v: nat, b: nat, q: nat, r: nat)
    requires b >= 2 && r < b && v == b * q + r
    ensures Quot(v, b) == q && Rem(v, b) == r
  {
    QuotRemUnique(b, q, r);
  }

  lemma CarrySplit(base: nat, v: nat, m: nat, carry: nat, t: nat, n: nat, q: nat)
    requires base >= 2 && t == carry + Rem(v, base) * m && n == m * v + carry && q == m * Quot(v, base) + Quot(t, base)
    ensures n == base * q + Rem(t, base)
  {
    QuotRem(v, base);
    QuotRem(t, base);
    Regroup(base, m, Quot(v, base), Rem(v, base), carry, Quot(t, base), Rem(t, base));
  }

  // ---------- how many digits ----------

  function Pow(base: nat, n: nat): nat {
    if n == 0 then 1 else base * Pow(base, n - 1)
  }

  lemma {:induction false} DigitsLength(base: nat, v: nat, n: nat)
    requires base >= 2 && v < Pow(base, n)
    ensures |Digits(base, v)| <= n
    decreases n
  {
    if v > 0 {
      assert n > 0;
      var p := Pow(base, n - 1);
      QuotRem(v, base);
      QuotBelow(base, Quot(v, base), p);
      DigitsLength(base, Quot(v, base), n - 1);
    }
  }

  lemma QuotBelow(base: nat, q: nat, p: nat)
    requires base * q < base * p
    ensures q < p
  {
    if q >= p { Distribute(base, q - p, p); }
  }

  lemma {:induction false} ValueBound(base: nat, x: seq<nat>)
    requires InBase(base, x)
    ensures Value(base, x) < Pow(base, |x|)
  {
    if x != [] {
      ValueBound(base, x[..|x| - 1]);
      DigitBound(base, Value(base, x[..|x| - 1]), Pow(base, |x| - 1), x[|x| - 1]);
    }
  }

  lemma DigitBound(base: nat, v: nat, p: nat, d: nat)
    requires v < p && d < base
    ensures base * v + d < base * p
  {
    Distribute(base, v, 1);
    Distribute(base, v + 1, p - v - 1);
    assert base * (p - v - 1) >= 0;
  }

  lemma Reassociate(a: int, b: int, c: int)
    ensures a * (b * c) == (a * b) * c
  {}

  lemma {:induction false} PowAdd(base: nat, a: nat, b: nat)
    ensures Pow(base, a + b) == Pow(base, a) * Pow(base, b)
  {
    if a > 0 {
      PowAdd(base, a - 1, b);
      Reassociate(base, Pow(base, a - 1), Pow(base, b));
    }
  }

  lemma {:induction false} PowMonotone(base: nat, a: nat, b: nat)
    requires base >= 1 && a <= b
    ensures 1 <= Pow(base, a) <= Pow(base, b)
    decreases b
  {
    if a < b {
      PowMonotone(base, a, b - 1);
      assert base * Pow(base, b - 1) >= Pow(base, b - 1);
    } else if a > 0 {
      PowMonotone(base, a - 1, b - 1);
    }
  }

  lemma ProductGrows(a: nat, b: nat, x: nat, y: nat)
    requires a <= b && x <= y
    ensures a * x <= b * y
  {
    Distribute(b, x, y - x);
    Distribute(x, a, b - a);
  }

  lemma {:induction false} PowSmaller(a: nat, b: nat, n: nat)
    requires a <= b
    ensures Pow(a, n) <= Pow(b, n)
  {
    if n > 0 {
      PowSmaller(a, b, n - 1);
      ProductGrows(a, b, Pow(a, n - 1), Pow(b, n - 1));
    }
  }

  /** The capacity the encoder reserves: n * 138 / 100 + 1 digits hold any n bytes. */
  function Capacity(n: nat): nat {
    n * 138 / 100 + 1
  }

  lemma {:induction false} CapacityHolds(n: nat)
    ensures Pow(256, n) <= Pow(58, Capacity(n))
  {
    if n < 8 {
      SmallCapacity(n);
    } else {
      CapacityHolds(n - 8);
      PowAdd(256, 8, n - 8);
      PowAdd(58, 11, Capacity(n - 8));
      EightBytes();
      ProductGrows(Pow(256, 8), Pow(58, 11), Pow(256, n - 8), Pow(58, Capacity(n - 8)));
      PowMonotone(58, 11 + Capacity(n - 8), Capacity(n));
    }
  }

  lemma EightBytes()
    ensures Pow(256, 8) == 18446744073709551616 && Pow(58, 11) == 24986644000165537792
  {
    assert Pow(256, 4) == 4294967296;
    PowAdd(256, 4, 4);
    assert Pow(58, 5) == 656356768;
    assert Pow(58, 6) == 38068692544;
    PowAdd(58, 5, 6);
  }

  lemma PowNext(base: nat, n: nat, p: nat)
    requires Pow(base, n) == p
    ensures Pow(base, n + 1) == base * p
  {}

  lemma PowersOf256()
    ensures Pow(256, 0) == 1 && Pow(256, 1) == 256 && Pow(256, 2) == 65536 && Pow(256, 3) == 16777216
    ensures Pow(256, 4) == 4294967296 && Pow(256, 5) == 1099511627776 && Pow(256, 6) == 281474976710656 && Pow(256, 7) == 72057594037927936
  {
    PowNext(256, 0, 1);
    PowNext(256, 1, 256);
    PowNext(256, 2, 65536);
    PowNext(256, 3, 16777216);
    PowNext(256, 4, 4294967296);
    PowNext(256, 5, 1099511627776);
    PowNext(256, 6, 281474976710656);
  }

  lemma PowersOf58()
    ensures Pow(58, 1) == 58 && Pow(58, 2) == 3364 && Pow(58, 3) == 195112 && Pow(58, 5) == 656356768
    ensures Pow(58, 6) == 38068692544 && Pow(58, 7) == 2207984167552 && Pow(58, 9) == 7427658739644928 && Pow(58, 10) == 430804206899405824
  {
    PowNext(58, 0, 1);
    PowNext(58, 1, 58);
    PowNext(58, 2, 3364);
    PowNext(58, 3, 195112);
    PowNext(58, 4, 11316496);
    PowNext(58, 5, 656356768);
    PowNext(58, 6, 38068692544);
    PowNext(58, 7, 2207984167552);
    PowNext(58, 8, 128063081718016);
    PowNext(58, 9, 7427658739644928);
  }

  lemma Holds(n: nat, k: nat, p: nat, q: nat)
    requires k == Capacity(n) && Pow(256, n) == p && Pow(58, k) == q && p <= q
    ensures Pow(256, n) <= Pow(58, Capacity(n))
  {}

  lemma SmallCapacity(n: nat)
    requires n < 8
    ensures Pow(256, n) <= Pow(58, Capacity(n))
  {
    PowersOf256();
    PowersOf58();
    match n
    case 0 => Holds(0, 1, 1, 58);
    case 1 => Holds(1, 2, 256, 3364);
    case 2 => Holds(2, 3, 65536, 195112);
    case 3 => Holds(3, 5, 16777216, 656356768);
    case 4 => Holds(4, 6, 4294967296, 38068692544);
    case 5 => Holds(5, 7, 1099511627776, 2207984167552);
    case 6 => Holds(6, 9, 281474976710656, 7427658739644928);
    case _ => Holds(7, 10, 72057594037927936, 430804206899405824);
  }

  /** So n bytes never produce more digits than that, and n digits never more than n bytes. */
  lemma EncodedFits(b: seq<nat>)
    requires InBase(256, b)
    ensures |Digits(58, Value(256, b))| <= Capacity(|b|)
  {
    ValueBound(256, b);
    CapacityHolds(|b|);
    DigitsLength(58, Value(256, b), Capacity(|b|));
  }

  lemma DecodedFits(x: seq<nat>)
    requires InBase(58, x)
    ensures |Digits(256, Value(58, x))| <= |x|
  {
    ValueBound(58, x);
    PowSmaller(58, 256, |x|);
    DigitsLength(256, Value(58, x), |x|);
  }
}

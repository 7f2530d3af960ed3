/** The opaque page cursors of the billing API (internal/billingapi/api.go), as the bytes inside
    their base64 form. */
module Cursors {
  import opened Common
  import opened Bytes

  datatype LedgerCursor = LedgerCursor(at: int64, id: int64)
  datatype DepositCursor = DepositCursor(at: int64, signature: seq<byte>, index: int)

  function EncodeLedger(c: LedgerCursor): seq<byte> {
    BigEndian(U64(c.at), 8) + BigEndian(U64(c.id), 8)
  }

  /** None: malformed. */
  function DecodeLedger(buf: seq<byte>): Option<LedgerCursor> {
    if |buf| != 16 then None
    else Some(LedgerCursor(Wrap(Unsigned(buf[..8])), Wrap(Unsigned(buf[8..]))))
  }

  /** Every cursor, negative times and ids included, comes back. */
  lemma LedgerRoundTrip(c: LedgerCursor)
    ensures DecodeLedger(EncodeLedger(c)) == Some(c)
  {
    var buf := EncodeLedger(c);
    assert buf[..8] == BigEndian(U64(c.at), 8) && buf[8..] == BigEndian(U64(c.id), 8);
    SignedRoundTrip(c.at);
    SignedRoundTrip(c.id);
  }

  /** The time stands before the id, both most significant byte first. */
  lemma LedgerFields(c: LedgerCursor)
    ensures var buf := EncodeLedger(c);
      |buf| == 16 && Wrap(Unsigned(buf[..8])) == c.at && Wrap(Unsigned(buf[8..])) == c.id
  {
    var buf := EncodeLedger(c);
    assert buf[..8] == BigEndian(U64(c.at), 8) && buf[8..] == BigEndian(U64(c.id), 8);
    SignedRoundTrip(c.at);
    SignedRoundTrip(c.id);
  }

  /** And every 16 bytes are the encoding of what they decode to. */
  lemma LedgerCanonical(buf: seq<byte>)
    requires |buf| == 16
    ensures EncodeLedger(DecodeLedger(buf).value) == buf
  {
    EightBytes(buf[..8]);
    EightBytes(buf[8..]);
    assert buf == buf[..8] + buf[8..];
  }

  lemma Reinterpret(n: nat)
    requires n < TWO_64
    ensures U64(Wrap(n)) == n
  {}

  lemma EightBytes(b: seq<byte>)
    requires |b| == 8
    ensures BigEndian(U64(Wrap(Unsigned(b))), 8) == b
  {
    WidthOf64();
    UnsignedBound(b);
    Reinterpret(Unsigned(b));
    BigEndianUnsigned(b);
  }

  lemma {:induction false} UnsignedBound(b: seq<byte>)
    ensures Unsigned(b) < Pow256(|b|)
  {
    if b != [] { UnsignedBound(b[..|b| - 1]); }
  }

  lemma {:induction false} BigEndianUnsigned(b: seq<byte>)
    ensures BigEndian(Unsigned(b), |b|) == b
  {
    if b != [] {
      BigEndianUnsigned(b[..|b| - 1]);
      assert b == b[..|b| - 1] + [b[|b| - 1]];
    }
  }

  function EncodeDeposit(c: DepositCursor): seq<byte> {
    c.signature + [0] + BigEndian(U64(c.at), 8) + BigEndian(c.index % TWO_32, 4)
  }

  /** The position of the first zero byte. */
  function FirstZero(buf: seq<byte>): (i: nat)
    ensures i <= |buf| && (forall j :: 0 <= j < i ==> buf[j] != 0) && (i < |buf| ==> buf[i] == 0)
  {
    if buf == [] || buf[0] == 0 then 0 else 1 + FirstZero(buf[1..])
  }

  function DecodeDeposit(buf: seq<byte>): Option<DepositCursor> {
    var sep := FirstZero(buf);
    if |buf| < 13 || sep == |buf| || |buf| < sep + 13 then None
    else Some(DepositCursor(Wrap(Unsigned(buf[sep + 1..sep + 9])), buf[..sep], Unsigned(buf[sep + 9..sep + 13])))
  }

  /** A deposit cursor comes back exactly when its signature has no zero byte and its index fits 32 bits. */
  lemma DepositRoundTripIff(c: DepositCursor)
    ensures DecodeDeposit(EncodeDeposit(c)) == Some(c) <==> 0 !in c.signature && 0 <= c.index < TWO_32
  {
    var buf := EncodeDeposit(c);
    var sep := FirstZero(buf);
    assert buf[|c.signature|] == 0;
    assert buf[..|c.signature|] == c.signature;
    if 0 !in c.signature {
      forall j | 0 <= j < |c.signature| ensures buf[j] != 0 {
        assert buf[j] == c.signature[j];
      }
      assert sep == |c.signature|;
      DepositFields(c);
    } else {
      var j :| 0 <= j < |c.signature| && c.signature[j] == 0;
      assert buf[j] == 0;
    }
  }

  lemma DepositFields(c: DepositCursor)
    ensures var buf, sep := EncodeDeposit(c), |c.signature|;
      && |buf| == sep + 13
      && Wrap(Unsigned(buf[sep + 1..sep + 9])) == c.at && Unsigned(buf[sep + 9..sep + 13]) == c.index % TWO_32
  {
    var buf, sep := EncodeDeposit(c), |c.signature|;
    assert buf[sep + 1..sep + 9] == BigEndian(U64(c.at), 8);
    assert buf[sep + 9..sep + 13] == BigEndian(c.index % TWO_32, 4);
    SignedRoundTrip(c.at);
    WidthOf64();
    UnsignedBigEndian(c.index % TWO_32, 4);
  }

  // ---------- the loops ----------

  /** x >> 8*k, arithmetically. */
  function Shift(x: int, k: nat): int
    decreases k
  {
    if k == 0 then x else Shift(x / 256, k - 1)
  }

  /** byte(x >> (56 - 8*i)) for i in 0..8. */
  method PutInt64(x: int64) returns (buf: array<byte>)
    ensures fresh(buf) && buf[..] == BigEndian(U64(x), 8)
  {
    buf := new byte[8];
    for i := 0 to 8
      invariant forall j :: 0 <= j < i ==> buf[j] == BigEndian(U64(x), 8)[j]
    {
      BigEndianAt(U64(x), 8, 7 - i);
      ShiftUnsigned(x, 7 - i);
      buf[i] := Shift(x, 7 - i) % 256;
    }
  }

  lemma {:induction false} BigEndianAt(u: nat, w: nat, k: nat)
    requires k < w
    ensures BigEndian(u, w)[w - 1 - k] == Shift(u, k) % 256
  {
    if k > 0 { BigEndianAt(u / 256, w - 1, k - 1); }
  }

  lemma ShiftOnce(x: int, p: int)
    ensures (x - 256 * p) / 256 == x / 256 - p
  {}

  lemma {:induction false} ShiftMinus(x: int, n: nat, k: nat)
    requires k <= n
    ensures Shift(x - Pow256(n), k) == Shift(x, k) - Pow256(n - k)
    decreases k
  {
    if k > 0 {
      var p := Pow256(n - 1);
      ShiftOnce(x, p);
      ShiftMinus(x / 256, n - 1, k - 1);
    }
  }

  /** The low byte of an arithmetic shift is that of the unsigned one: 2^64 only adds multiples of 256. */
  lemma ShiftUnsigned(x: int64, k: nat)
    requires k < 8
    ensures Shift(x, k) % 256 == Shift(U64(x), k) % 256
  {
    if x < 0 {
      WidthOf64();
      NegativeU64(x);
      ShiftMinus(U64(x), 8, k);
      SameLowByte(Shift(U64(x), k), Pow256(7 - k));
    }
  }

  lemma NegativeU64(x: int64)
    requires x < 0
    ensures x == U64(x) - TWO_64
  {}

  lemma SameLowByte(y: int, q: int)
    ensures (y - 256 * q) % 256 == y % 256
  {}

  /** ts = ts<<8 | int64(buf[i]), in wrapping int64 arithmetic. */
  method GetInt64(buf: seq<byte>) returns (x: int64)
    requires |buf| == 8
    ensures x == Wrap(Unsigned(buf))
  {
    x := 0;
    for i := 0 to 8
      invariant x == Wrap(Unsigned(buf[..i]))
    {
      assert buf[..i + 1][..i] == buf[..i];
      ShiftIn(Unsigned(buf[..i]), buf[i]);
      x := Wrap(x * 256 + buf[i]);
    }
    assert buf[..8] == buf;
  }

  /** Wrapping on every step is wrapping once at the end. */
  lemma ShiftIn(u: nat, b: byte)
    ensures Wrap(Wrap(u) * 256 + b) == Wrap(256 * u + b)
  {
    var k := (u - Wrap(u)) / TWO_64;
    assert u == Wrap(u) + TWO_64 * k;
    WrapPeriodic(Wrap(u) * 256 + b, 256 * k);
  }

  lemma WrapPeriodic(x: int, k: int)
    ensures Wrap(x + TWO_64 * k) == Wrap(x)
  {
    assert (x + TWO_64 * k) % TWO_64 == x % TWO_64;
  }

  method EncodeLedgerCursor(c: LedgerCursor) returns (buf: seq<byte>)
    ensures buf == EncodeLedger(c)
  {
    var at := PutInt64(c.at);
    var id := PutInt64(c.id);
    buf := at[..] + id[..];
  }

  method DecodeLedgerCursor(buf: seq<byte>) returns (c: Option<LedgerCursor>)
    ensures c == DecodeLedger(buf)
  {
    if |buf| != 16 { return None; }
    var at := GetInt64(buf[..8]);
    var id := GetInt64(buf[8..]);
    c := Some(LedgerCursor(at, id));
  }
}

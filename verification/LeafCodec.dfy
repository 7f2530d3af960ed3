/** What LedgerLeaf (internal/billing/merkle.go) feeds to its hash, and that the encoding can be read
    in one way only, so that equal roots mean equal ledgers. */
module LeafCodec {
  import opened Common
  import opened Bytes
  import opened Merkle
  import opened MerkleBinding

  datatype LeafInput = LeafInput(id: int64, delta: int64, source: seq<byte>, leg: seq<byte>, counterparty: seq<byte>,
                                 ref: seq<byte>, createdAt: seq<byte>)

  /** The length prefix is 32 bits wide. */
  predicate Encodable(row: LeafInput) {
    && |row.source| < TWO_32 && |row.leg| < TWO_32 && |row.counterparty| < TWO_32
    && |row.ref| < TWO_32 && |row.createdAt| < TWO_32
  }

  function I64(x: int64): (b: seq<byte>)
    ensures |b| == 8
  {
    LittleEndian(U64(x), 8)
  }

  function Str(s: seq<byte>): seq<byte> {
    LittleEndian(|s| % TWO_32, 4) + s
  }

  function Preimage(domain: seq<byte>, row: LeafInput): seq<byte> {
    domain + I64(row.id) + I64(row.delta) + Str(row.source) + Str(row.leg) + Str(row.counterparty) + Str(row.ref) + Str(row.createdAt)
  }

  lemma SplitFixed(a: seq<byte>, x: seq<byte>, b: seq<byte>, y: seq<byte>)
    requires |a| == |b| && a + x == b + y
    ensures a == b && x == y
  {
    assert a == (a + x)[..|a|] == (b + y)[..|b|] == b;
    assert x == (a + x)[|a|..] == (b + y)[|b|..] == y;
  }

  lemma I64Injective(a: int64, b: int64)
    requires I64(a) == I64(b)
    ensures a == b
  {
    WidthOf64();
    LittleEndianInjective(U64(a), U64(b), 8);
    SameU64(a, b);
  }

  lemma SameU64(a: int64, b: int64)
    requires U64(a) == U64(b)
    ensures a == b
  {
    assert U64(a) == (if a < 0 then a + TWO_64 else a) && U64(b) == (if b < 0 then b + TWO_64 else b);
  }

  lemma StrParts(a: seq<byte>, x: seq<byte>)
    requires |a| < TWO_32
    ensures Str(a) + x == LittleEndian(|a|, 4) + (a + x)
  {
    Concat3(LittleEndian(|a|, 4), a, x);
  }

  lemma Concat3(a: seq<byte>, b: seq<byte>, c: seq<byte>)
    ensures a + b + c == a + (b + c)
  {}

  /** A length-prefixed string ends in one place only. */
  lemma SplitStr(a: seq<byte>, x: seq<byte>, b: seq<byte>, y: seq<byte>)
    requires |a| < TWO_32 && |b| < TWO_32 && Str(a) + x == Str(b) + y
    ensures a == b && x == y
  {
    StrParts(a, x);
    StrParts(b, y);
    SplitFixed(LittleEndian(|a|, 4), a + x, LittleEndian(|b|, 4), b + y);
    SameLength(|a|, |b|);
    SplitFixed(a, x, b, y);
  }

  lemma SameLength(m: nat, n: nat)
    requires m < TWO_32 && n < TWO_32 && LittleEndian(m, 4) == LittleEndian(n, 4)
    ensures m == n
  {
    WidthOf64();
    LittleEndianInjective(m, n, 4);
  }

  /** The fields after the two integers. */
  function Strings(row: LeafInput): seq<byte> {
    Str(row.source) + (Str(row.leg) + (Str(row.counterparty) + (Str(row.ref) + (Str(row.createdAt) + []))))
  }

  lemma PreimageParts(domain: seq<byte>, row: LeafInput)
    ensures Preimage(domain, row) == domain + (I64(row.id) + (I64(row.delta) + Strings(row)))
  {}

  /** Rows with equal hash inputs are the same movement. */
  lemma Decodable(domain: seq<byte>, a: LeafInput, b: LeafInput)
    requires Encodable(a) && Encodable(b) && Preimage(domain, a) == Preimage(domain, b)
    ensures a == b
  {
    PreimageParts(domain, a);
    PreimageParts(domain, b);
    SplitFixed(domain, I64(a.id) + (I64(a.delta) + Strings(a)), domain, I64(b.id) + (I64(b.delta) + Strings(b)));
    SplitFixed(I64(a.id), I64(a.delta) + Strings(a), I64(b.id), I64(b.delta) + Strings(b));
    SplitFixed(I64(a.delta), Strings(a), I64(b.delta), Strings(b));
    I64Injective(a.id, b.id);
    I64Injective(a.delta, b.delta);
    StringsDecodable(a, b);
  }

  lemma StringsDecodable(a: LeafInput, b: LeafInput)
    requires Encodable(a) && Encodable(b) && Strings(a) == Strings(b)
    ensures a.source == b.source && a.leg == b.leg && a.counterparty == b.counterparty && a.ref == b.ref && a.createdAt == b.createdAt
  {
    var at, bt := Str(a.createdAt) + [], Str(b.createdAt) + [];
    var ar, br := Str(a.ref) + at, Str(b.ref) + bt;
    var ac, bc := Str(a.counterparty) + ar, Str(b.counterparty) + br;
    var al, bl := Str(a.leg) + ac, Str(b.leg) + bc;
    SplitStr(a.source, al, b.source, bl);
    SplitStr(a.leg, ac, b.leg, bc);
    SplitStr(a.counterparty, ar, b.counterparty, br);
    SplitStr(a.ref, at, b.ref, bt);
    SplitStr(a.createdAt, [], b.createdAt, []);
  }

  // ---------- where the fields stand ----------

  /** The little-endian reading of bytes. */
  function LittleValue(b: seq<byte>): nat {
    if b == [] then 0 else b[0] + 256 * LittleValue(b[1..])
  }

  lemma {:induction false} RevUnsigned(b: seq<byte>)
    ensures LittleValue(Rev(b)) == Unsigned(b)
  {
    if b != [] {
      var init, last := b[..|b| - 1], b[|b| - 1];
      assert Rev(b)[0] == last && Rev(b)[1..] == Rev(init);
      RevUnsigned(init);
    }
  }

  lemma LittleEndianReads(u: nat, w: nat)
    requires u < Pow256(w)
    ensures LittleValue(LittleEndian(u, w)) == u
  {
    RevUnsigned(BigEndian(u, w));
    UnsignedBigEndian(u, w);
  }

  /** At this offset stand the eight bytes of x in two's complement, least significant first. */
  predicate Int64At(w: seq<byte>, at: nat, x: int64) {
    at + 8 <= |w| && LittleValue(w[at..at + 8]) == if x < 0 then x + TWO_64 else x
  }

  /** At this offset stand the length in four bytes, least significant first, and the string. */
  predicate StringAt(w: seq<byte>, at: nat, s: seq<byte>) {
    at + 4 + |s| <= |w| && LittleValue(w[at..at + 4]) == |s| && w[at + 4..at + 4 + |s|] == s
  }

  /** Two parts stand where the parts before them end. */
  lemma PartsStand(w: seq<byte>, before: seq<byte>, x: seq<byte>, y: seq<byte>, rest: seq<byte>)
    requires w == before + (x + (y + rest))
    ensures before <= w && |w| == |before| + |x| + |y| + |rest|
    ensures w[|before|..|before| + |x|] == x && w[|before| + |x|..|before| + |x| + |y|] == y
    ensures w == (before + (x + y)) + rest
  {}

  lemma LengthReads(s: seq<byte>)
    requires |s| < TWO_32
    ensures LittleValue(LittleEndian(|s|, 4)) == |s|
  {
    WidthOf64();
    LittleEndianReads(|s|, 4);
  }

  lemma IntReads(x: int64)
    ensures LittleValue(I64(x)) == if x < 0 then x + TWO_64 else x
  {
    WidthOf64();
    LittleEndianReads(U64(x), 8);
    SameU64(x, x);
  }

  lemma StringStands(w: seq<byte>, before: seq<byte>, s: seq<byte>, rest: seq<byte>)
    requires |s| < TWO_32 && w == before + (Str(s) + rest)
    ensures StringAt(w, |before|, s) && w == (before + Str(s)) + rest
  {
    StrParts(s, rest);
    PartsStand(w, before, LittleEndian(|s|, 4), s, rest);
    LengthReads(s);
  }

  /** The strings of a row, in the order in which they are written. */
  function StringsOf(row: LeafInput): seq<seq<byte>> {
    [row.source, row.leg, row.counterparty, row.ref, row.createdAt]
  }

  function Joined(ss: seq<seq<byte>>): seq<byte> {
    if ss == [] then [] else Str(ss[0]) + Joined(ss[1..])
  }

  /** Where string i starts: behind the ones before it and their lengths. */
  function Offset(ss: seq<seq<byte>>, i: nat): nat
    requires i <= |ss|
  {
    if i == 0 then 0 else 4 + |ss[0]| + Offset(ss[1..], i - 1)
  }

  lemma JoinedCons(s: seq<byte>, rest: seq<seq<byte>>, ss: seq<seq<byte>>)
    requires ss == [s] + rest
    ensures Joined(ss) == Str(s) + Joined(rest)
  {
    assert ss[0] == s && ss[1..] == rest;
  }

  lemma JoinedIs(row: LeafInput)
    ensures Joined(StringsOf(row)) == Strings(row)
  {
    JoinedCons(row.createdAt, [], [row.createdAt]);
    JoinedCons(row.ref, [row.createdAt], [row.ref, row.createdAt]);
    JoinedCons(row.counterparty, [row.ref, row.createdAt], [row.counterparty, row.ref, row.createdAt]);
    JoinedCons(row.leg, [row.counterparty, row.ref, row.createdAt], [row.leg, row.counterparty, row.ref, row.createdAt]);
    JoinedCons(row.source, [row.leg, row.counterparty, row.ref, row.createdAt], StringsOf(row));
  }

  lemma {:induction false} JoinedStands(w: seq<byte>, before: seq<byte>, ss: seq<seq<byte>>, i: nat)
    requires w == before + Joined(ss) && i < |ss| && forall j :: 0 <= j < |ss| ==> |ss[j]| < TWO_32
    ensures StringAt(w, |before| + Offset(ss, i), ss[i])
    decreases i
  {
    StringStands(w, before, ss[0], Joined(ss[1..]));
    if i > 0 { JoinedStands(w, before + Str(ss[0]), ss[1..], i - 1); }
  }

  lemma {:induction false} JoinedLength(ss: seq<seq<byte>>)
    ensures |Joined(ss)| == Offset(ss, |ss|)
  {
    if ss != [] { JoinedLength(ss[1..]); }
  }

  /** The domain, then the two integers. */
  predicate IntsLaid(w: seq<byte>, domain: seq<byte>, id: int64, delta: int64) {
    domain <= w && Int64At(w, |domain|, id) && Int64At(w, |domain| + 8, delta)
  }

  /** The strings, each behind its length, and nothing else. */
  predicate StringsLaid(w: seq<byte>, at: nat, ss: seq<seq<byte>>) {
    && (forall i {:trigger ss[i]} :: 0 <= i < |ss| ==> StringAt(w, at + Offset(ss, i), ss[i]))
    && |w| == at + Offset(ss, |ss|)
  }

  lemma IntStands(w: seq<byte>, at: nat, x: int64, part: seq<byte>)
    requires part == I64(x) && at + 8 <= |w| && w[at..at + 8] == part
    ensures Int64At(w, at, x)
  {
    IntReads(x);
  }

  lemma LaidOut(w: seq<byte>, domain: seq<byte>, id: int64, delta: int64, x: seq<byte>, y: seq<byte>, rest: seq<byte>)
    requires x == I64(id) && y == I64(delta) && w == domain + (x + (y + rest))
    ensures IntsLaid(w, domain, id, delta) && w == (domain + (x + y)) + rest && |domain + (x + y)| == |domain| + 16
  {
    PartsStand(w, domain, x, y, rest);
    IntStands(w, |domain|, id, x);
    IntStands(w, |domain| + 8, delta, y);
  }

  lemma AllStand(w: seq<byte>, before: seq<byte>, ss: seq<seq<byte>>)
    requires w == before + Joined(ss) && forall j :: 0 <= j < |ss| ==> |ss[j]| < TWO_32
    ensures StringsLaid(w, |before|, ss)
  {
    JoinedLength(ss);
    forall i | 0 <= i < |ss| ensures StringAt(w, |before| + Offset(ss, i), ss[i]) { JoinedStands(w, before, ss, i); }
  }

  /** Where every field of a row stands in what is hashed. */
  lemma LayoutIs(domain: seq<byte>, row: LeafInput)
    requires Encodable(row)
    ensures IntsLaid(Preimage(domain, row), domain, row.id, row.delta)
    ensures StringsLaid(Preimage(domain, row), |domain| + 16, StringsOf(row))
  {
    PreimageParts(domain, row);
    JoinedIs(row);
    LaidOut(Preimage(domain, row), domain, row.id, row.delta, I64(row.id), I64(row.delta), Strings(row));
    AllStand(Preimage(domain, row), domain + (I64(row.id) + I64(row.delta)), StringsOf(row));
  }

  /** LedgerLeaf: the fields written into a running hash in order. */
  method LedgerPreimage(domain: seq<byte>, row: LeafInput) returns (w: seq<byte>)
    ensures w == Preimage(domain, row)
  {
    w := domain;
    w := w + I64(row.id);
    w := w + I64(row.delta);
    w := w + Str(row.source);
    w := w + Str(row.leg);
    w := w + Str(row.counterparty);
    w := w + Str(row.ref);
    w := w + Str(row.createdAt);
  }

  // ---------- whole ledgers ----------

  function LedgerLeaf(h: Hash, row: LeafInput): Octets {
    h(Preimage(LEAF_DOMAIN, row))
  }

  function LedgerLeaves(h: Hash, rows: seq<LeafInput>): (leaves: seq<Octets>)
    ensures |leaves| == |rows| && forall i :: 0 <= i < |rows| ==> leaves[i] == LedgerLeaf(h, rows[i])
  {
    seq(|rows|, i requires 0 <= i < |rows| => LedgerLeaf(h, rows[i]))
  }

  lemma LedgerLeafIs(h: Hash, row: LeafInput)
    ensures LeafHash(h, LedgerLeaf(h, row))
  {
    PreimageParts(LEAF_DOMAIN, row);
    var x: Octets := I64(row.id) + (I64(row.delta) + Strings(row));
    assert LedgerLeaf(h, row) == h(LEAF_DOMAIN + x);
  }

  lemma LedgerLeavesAre(h: Hash, rows: seq<LeafInput>)
    ensures LeafHashes(h, LedgerLeaves(h, rows))
  {
    forall i | 0 <= i < |rows| ensures LeafHash(h, LedgerLeaves(h, rows)[i]) { LedgerLeafIs(h, rows[i]); }
  }

  lemma LedgerLeafBinds(h: Hash, a: LeafInput, b: LeafInput)
    requires Ideal(h) && Encodable(a) && Encodable(b)
    ensures LedgerLeaf(h, a) == LedgerLeaf(h, b) <==> a == b
  {
    if LedgerLeaf(h, a) == LedgerLeaf(h, b) { Decodable(LEAF_DOMAIN, a, b); }
  }

  /** Two ledgers with the same root are the same ledger, however many rows they claim to have. */
  lemma EqualRootsEqualLedgers(h: Hash, a: seq<LeafInput>, b: seq<LeafInput>)
    requires Ideal(h) && (forall i :: 0 <= i < |a| ==> Encodable(a[i])) && (forall i :: 0 <= i < |b| ==> Encodable(b[i]))
    requires Root(h, LedgerLeaves(h, a)) == Root(h, LedgerLeaves(h, b))
    ensures a == b
  {
    LedgerLeavesAre(h, a);
    LedgerLeavesAre(h, b);
    RootDetermines(h, LedgerLeaves(h, a), LedgerLeaves(h, b));
    forall i | 0 <= i < |a| ensures a[i] == b[i] {
      assert LedgerLeaves(h, a)[i] == LedgerLeaves(h, b)[i];
      LedgerLeafBinds(h, a[i], b[i]);
    }
  }

  /** A user who hashes the row itself need check no lengths: the proof is accepted exactly for the row at
      that position, with a path of the tree's height made of the real siblings. */
  lemma ProvenRowIff(h: Hash, rows: seq<LeafInput>, row: LeafInput, path: seq<Octets>, index: nat)
    requires Ideal(h) && (forall i :: 0 <= i < |rows| ==> Encodable(rows[i])) && Encodable(row) && index < |rows|
    ensures Verify(h, LedgerLeaf(h, row), path, index, |rows|, Root(h, LedgerLeaves(h, rows)))
       <==> |path| == Height(|rows|) && row == rows[index] && RealSiblings(h, LedgerLeaves(h, rows), path, index)
  {
    LedgerLeavesAre(h, rows);
    LedgerLeafIs(h, row);
    LedgerLeafBinds(h, row, rows[index]);
    LeafHashBindsIff(h, LedgerLeaves(h, rows), LedgerLeaf(h, row), path, index);
  }
}

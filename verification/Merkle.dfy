/** The ledger's Merkle tree (internal/billing/merkle.go): every level is padded to even length with
    one fixed hash, and a path is checked from the leaf up. SHA-256 is a parameter. */
module Merkle {
  import opened Common
  import opened Bytes

  /** What is hashed and what a hash returns. An octet is an unbounded integer here: of 256 values no hash
      of fixed length could be one-to-one, of integers one is (IdealExists). */
  type Octets = seq<int>
  type Hash = Octets -> Octets

  function Letter(c: char): byte {
    (c as int) % 256
  }

  function Ascii(s: string): (b: seq<byte>)
    ensures |b| == |s| && forall i :: 0 <= i < |s| ==> b[i] == Letter(s[i])
  {
    seq(|s|, i requires 0 <= i < |s| => Letter(s[i]))
  }

  const LEAF_DOMAIN := Ascii("otela-ledger-leaf:v1")
  const NODE_DOMAIN := Ascii("otela-merkle-node:v1")
  const PAD_DOMAIN := Ascii("otela-merkle-pad:v1")

  /** merkleNode: the children are concatenated as they are, without their lengths. */
  function Node(h: Hash, left: Octets, right: Octets): Octets {
    h(NODE_DOMAIN + left + right)
  }

  /** merklePadHash. */
  function Pad(h: Hash): Octets {
    h(PAD_DOMAIN)
  }

  // ---------- the tree ----------

  function At(h: Hash, level: seq<Octets>, i: nat): Octets {
    if i < |level| then level[i] else Pad(h)
  }

  /** The next level up. */
  function Pair(h: Hash, level: seq<Octets>): (up: seq<Octets>)
    ensures |up| == (|level| + 1) / 2
    ensures forall i :: 0 <= i < |up| ==> up[i] == Node(h, At(h, level, 2 * i), At(h, level, 2 * i + 1))
  {
    seq((|level| + 1) / 2, i requires 0 <= i => Node(h, At(h, level, 2 * i), At(h, level, 2 * i + 1)))
  }

  function Root(h: Hash, leaves: seq<Octets>): Octets
    decreases |leaves|
  {
    if leaves == [] then Pad(h) else if |leaves| == 1 then leaves[0] else Root(h, Pair(h, leaves))
  }

  /** The smallest trees written out: the left child comes first, and a missing right child is padding. */
  lemma SmallRoots(h: Hash, a: Octets, b: Octets, c: Octets)
    ensures var pad, node := h(Ascii("otela-merkle-pad:v1")), Ascii("otela-merkle-node:v1");
      && Root(h, []) == pad && Root(h, [a]) == a && Root(h, [a, b]) == h(node + a + b)
      && Root(h, [a, b, c]) == h(node + h(node + a + b) + h(node + c + pad))
  {
    assert Pair(h, [a, b]) == [Node(h, a, b)];
    assert Pair(h, [a, b, c]) == [Node(h, a, b), Node(h, c, Pad(h))];
    var up := [Node(h, a, b), Node(h, c, Pad(h))];
    assert Root(h, [a, b, c]) == Root(h, up);
    assert Pair(h, up) == [Node(h, up[0], up[1])];
  }

  function Sibling(i: nat): nat {
    if i % 2 == 0 then i + 1 else i - 1
  }

  function Path(h: Hash, leaves: seq<Octets>, index: nat): seq<Octets>
    requires index < |leaves|
    decreases |leaves|
  {
    if |leaves| == 1 then [] else [At(h, leaves, Sibling(index))] + Path(h, Pair(h, leaves), index / 2)
  }

  /** How many levels lie above n leaves. */
  function Height(n: nat): nat {
    if n <= 1 then 0 else 1 + Height((n + 1) / 2)
  }

  /** sizeAtLevel. */
  function SizeAtLevel(n: nat, level: nat): nat {
    if level == 0 then n else (SizeAtLevel(n, level - 1) + 1) / 2
  }

  // ---------- verification ----------

  function Up(h: Hash, cur: Octets, sib: Octets, idx: nat): Octets {
    if idx % 2 == 0 then Node(h, cur, sib) else Node(h, sib, cur)
  }

  /** The hash the verifier ends with, n being the size of the level cur is on. */
  function Climb(h: Hash, cur: Octets, path: seq<Octets>, idx: nat, n: nat): Octets
    decreases |path|
  {
    if path == [] then cur
    else
      var sib := if Sibling(idx) >= n then Pad(h) else path[0];
      Climb(h, Up(h, cur, sib, idx), path[1..], idx / 2, (n + 1) / 2)
  }

  predicate Verify(h: Hash, leaf: Octets, path: seq<Octets>, index: int, leafCount: int, root: Octets) {
    leafCount > 0 && 0 <= index < leafCount && Climb(h, leaf, path, index, leafCount) == root
  }

  lemma UpIsParent(h: Hash, level: seq<Octets>, i: nat)
    requires i < |level|
    ensures i / 2 < |Pair(h, level)| && Pair(h, level)[i / 2] == Up(h, level[i], At(h, level, Sibling(i)), i)
  {
    assert i % 2 == 0 ==> 2 * (i / 2) == i;
    assert i % 2 == 1 ==> 2 * (i / 2) + 1 == i;
  }

  /** Every leaf's own path is accepted. */
  lemma {:induction false} Completeness(h: Hash, leaves: seq<Octets>, index: nat)
    requires index < |leaves|
    ensures |Path(h, leaves, index)| == Height(|leaves|)
    ensures Verify(h, leaves[index], Path(h, leaves, index), index, |leaves|, Root(h, leaves))
    decreases |leaves|
  {
    if |leaves| > 1 {
      UpIsParent(h, leaves, index);
      Completeness(h, Pair(h, leaves), index / 2);
      var path := Path(h, leaves, index);
      assert path[1..] == Path(h, Pair(h, leaves), index / 2);
    }
  }

  // ---------- the loops ----------

  lemma {:induction false} SizeAtLevelStep(n: nat, level: nat)
    ensures SizeAtLevel(n, level + 1) == SizeAtLevel((n + 1) / 2, level)
  {
    if level > 0 { SizeAtLevelStep(n, level - 1); }
  }

  /** One pass over an even level. */
  method PairUp(h: Hash, level: seq<Octets>) returns (next: seq<Octets>)
    requires |level| % 2 == 0
    ensures next == Pair(h, level)
  {
    next := [];
    var i := 0;
    while i < |level|
      invariant i % 2 == 0 && 0 <= i <= |level| && next == Pair(h, level)[..i / 2]
    {
      assert Pair(h, level)[i / 2] == Node(h, level[i], level[i + 1]);
      next := next + [Node(h, level[i], level[i + 1])];
      i := i + 2;
    }
  }

  lemma PadChangesNothing(h: Hash, level: seq<Octets>)
    requires |level| % 2 == 1
    ensures Pair(h, level + [Pad(h)]) == Pair(h, level)
  {}

  /** Pad to even length, then hash in pairs. */
  method NextLevel(h: Hash, level: seq<Octets>) returns (next: seq<Octets>)
    ensures next == Pair(h, level)
  {
    var padded := level;
    if |padded| % 2 == 1 {
      PadChangesNothing(h, level);
      padded := padded + [Pad(h)];
    }
    next := PairUp(h, padded);
  }

  method MerkleRoot(h: Hash, leaves: seq<Octets>) returns (root: Octets)
    ensures root == Root(h, leaves)
  {
    if |leaves| == 0 { return Pad(h); }
    var level := leaves;
    while |level| > 1
      invariant level != [] && Root(h, level) == Root(h, leaves)
      decreases |level|
    {
      level := NextLevel(h, level);
    }
    root := level[0];
  }

  lemma PathStep(h: Hash, level: seq<Octets>, idx: nat, path: seq<Octets>, whole: seq<Octets>)
    requires idx < |level| && |level| > 1 && path + Path(h, level, idx) == whole
    ensures idx / 2 < |Pair(h, level)|
    ensures (path + [At(h, level, Sibling(idx))]) + Path(h, Pair(h, level), idx / 2) == whole
  {}

  method MerklePath(h: Hash, leaves: seq<Octets>, index: int) returns (res: Option<seq<Octets>>)
    ensures res == if 0 <= index < |leaves| then Some(Path(h, leaves, index)) else None
  {
    if index < 0 || index >= |leaves| { return None; }
    var padded, idx: nat := leaves, index;
    var path: seq<Octets> := [];
    while |padded| > 1
      invariant idx < |padded| && path + Path(h, padded, idx) == Path(h, leaves, index)
      decreases |padded|
    {
      PathStep(h, padded, idx, path, Path(h, leaves, index));
      path := path + [if Sibling(idx) < |padded| then padded[Sibling(idx)] else Pad(h)];
      padded := NextLevel(h, padded);
      idx := idx / 2;
    }
    assert path + [] == path;
    res := Some(path);
  }

  method SizeAt(leaves: nat, level: nat) returns (n: nat)
    ensures n == SizeAtLevel(leaves, level)
  {
    n := leaves;
    for i := 0 to level
      invariant n == SizeAtLevel(leaves, i)
    {
      n := (n + 1) / 2;
    }
  }

  method Parent(h: Hash, cur: Octets, sib: Octets, idx: nat) returns (up: Octets)
    ensures up == Up(h, cur, sib, idx)
  {
    if idx % 2 == 0 { up := Node(h, cur, sib); } else { up := Node(h, sib, cur); }
  }

  /** One step of the climb, from one level to the next. */
  lemma ClimbStep(h: Hash, cur: Octets, path: seq<Octets>, level: nat, idx: nat, n: nat, sib: Octets)
    requires level < |path| && sib == if Sibling(idx) >= SizeAtLevel(n, level) then Pad(h) else path[level]
    ensures Climb(h, cur, path[level..], idx, SizeAtLevel(n, level))
         == Climb(h, Up(h, cur, sib, idx), path[level + 1..], idx / 2, SizeAtLevel(n, level + 1))
  {
    assert path[level..][0] == path[level] && path[level..][1..] == path[level + 1..];
  }

  method VerifyMerklePath(h: Hash, leaf: Octets, path: seq<Octets>, index: int, leafCount: int, root: Octets) returns (ok: bool)
    ensures ok == Verify(h, leaf, path, index, leafCount, root)
  {
    if leafCount <= 0 || index < 0 || index >= leafCount { return false; }
    var cur := leaf;
    var idx: nat := index;
    ghost var top := Climb(h, leaf, path, index, leafCount);
    assert path[0..] == path;
    for level := 0 to |path|
      invariant Climb(h, cur, path[level..], idx, SizeAtLevel(leafCount, level)) == top
    {
      var size := SizeAt(leafCount, level);
      var sib := if Sibling(idx) >= size then Pad(h) else path[level];
      ClimbStep(h, cur, path, level, idx, leafCount, sib);
      cur := Parent(h, cur, sib, idx);
      idx := idx / 2;
    }
    ok := cur == root;
  }
}

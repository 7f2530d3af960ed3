/** What an accepted Merkle path and a Merkle root prove, and exactly when. Node hashes concatenate their
    children without lengths, so this rests on the length of the digests. */
module MerkleBinding {
  import opened Common
  import opened Bytes
  import opened Merkle

  // ---------- the hash ----------

  /** sha256.Size. */
  const DIGEST: nat := 32

  /** No two inputs hash alike, and every digest has the same length. */
  ghost predicate Ideal(h: Hash) {
    && (forall s {:trigger h(s)} :: |h(s)| == DIGEST)
    && (forall s, t {:trigger h(s), h(t)} :: h(s) == h(t) ==> s == t)
  }

  predicate Digests(level: seq<Octets>) {
    forall i :: 0 <= i < |level| ==> |level[i]| == DIGEST
  }

  /** The hash of something under the leaf prefix. */
  ghost predicate LeafHash(h: Hash, leaf: Octets) {
    exists x: Octets {:trigger LEAF_DOMAIN + x} :: leaf == h(LEAF_DOMAIN + x)
  }

  ghost predicate LeafHashes(h: Hash, leaves: seq<Octets>) {
    forall i {:trigger leaves[i]} :: 0 <= i < |leaves| ==> LeafHash(h, leaves[i])
  }

  /** The concatenation of two children splits in one way when one child's length is known. */
  lemma NodeSplits(h: Hash, a: Octets, b: Octets, c: Octets, d: Octets)
    requires Ideal(h) && Node(h, a, b) == Node(h, c, d) && (|a| == |c| || |b| == |d|)
    ensures a == c && b == d
  {
    var s, t := NODE_DOMAIN + a + b, NODE_DOMAIN + c + d;
    var n := |NODE_DOMAIN|;
    assert s == t;
    assert a == s[n..n + |a|] && c == t[n..n + |c|];
    assert b == s[n + |a|..] && d == t[n + |c|..];
  }

  /** The three domain prefixes keep leaves, nodes and padding apart. */
  lemma Separated(h: Hash, leaf: Octets, a: Octets, b: Octets)
    requires Ideal(h)
    ensures Node(h, a, b) != Pad(h)
    ensures LeafHash(h, leaf) ==> leaf != Node(h, a, b) && leaf != Pad(h)
  {
    PrefixesDiffer(a, b);
    if LeafHash(h, leaf) {
      var x: Octets :| leaf == h(LEAF_DOMAIN + x);
      assert (LEAF_DOMAIN + x)[6] == Letter('l');
    }
  }

  lemma PrefixesDiffer(a: Octets, b: Octets)
    ensures |NODE_DOMAIN + a + b| > |PAD_DOMAIN| && |LEAF_DOMAIN| > |PAD_DOMAIN|
    ensures (NODE_DOMAIN + a + b)[6] == Letter('m')
  {}

  lemma LeafHashesAre(h: Hash, leaves: seq<Octets>)
    requires Ideal(h) && LeafHashes(h, leaves)
    ensures Digests(leaves) && PadFree(h, leaves)
  {
    forall i | 0 <= i < |leaves| ensures |leaves[i]| == DIGEST && leaves[i] != Pad(h) {
      Separated(h, leaves[i], [], []);
    }
  }

  predicate PadFree(h: Hash, level: seq<Octets>) {
    forall i :: 0 <= i < |level| ==> level[i] != Pad(h)
  }

  lemma PairsAre(h: Hash, level: seq<Octets>)
    requires Ideal(h)
    ensures Digests(Pair(h, level)) && PadFree(h, Pair(h, level))
  {
    forall i | 0 <= i < |Pair(h, level)| ensures |Pair(h, level)[i]| == DIGEST && Pair(h, level)[i] != Pad(h) {
      Separated(h, [], At(h, level, 2 * i), At(h, level, 2 * i + 1));
    }
  }

  // ---------- paths of the tree's height ----------

  /** The path entries the verifier reads are the siblings; those standing for padding are not read. */
  predicate RealSiblings(h: Hash, leaves: seq<Octets>, path: seq<Octets>, index: nat)
    requires index < |leaves| && |path| == Height(|leaves|)
    decreases |leaves|
  {
    |leaves| > 1 ==>
      && (Sibling(index) < |leaves| ==> path[0] == leaves[Sibling(index)])
      && RealSiblings(h, Pair(h, leaves), path[1..], index / 2)
  }

  /** Binding, exactly: for a leaf of digest length, a path of the tree's height is accepted if and only if
      the leaf is the one at that index and every sibling that is not padding is the real one. The path's
      entries may have any length. */
  lemma {:induction false} BindingIff(h: Hash, leaves: seq<Octets>, leaf: Octets, path: seq<Octets>, index: nat)
    requires Ideal(h) && Digests(leaves) && |leaf| == DIGEST && index < |leaves| && |path| == Height(|leaves|)
    ensures Verify(h, leaf, path, index, |leaves|, Root(h, leaves)) <==> leaf == leaves[index] && RealSiblings(h, leaves, path, index)
    decreases |leaves|
  {
    if |leaves| > 1 {
      var up := Pair(h, leaves);
      var sib := if Sibling(index) >= |leaves| then Pad(h) else path[0];
      PairsAre(h, leaves);
      RootUp(h, leaves);
      VerifyOneUp(h, |leaves|, leaf, sib, path, index, Root(h, up));
      SiblingsOneUp(h, leaves, up, path, index, sib);
      UpIsDigest(h, leaf, sib, index);
      BindingIff(h, up, Up(h, leaf, sib, index), path[1..], index / 2);
      LevelBinds(h, leaves, up, leaf, sib, index);
    }
  }

  lemma UpIsDigest(h: Hash, leaf: Octets, sib: Octets, index: nat)
    requires Ideal(h)
    ensures |Up(h, leaf, sib, index)| == DIGEST
  {}

  lemma SiblingsOneUp(h: Hash, leaves: seq<Octets>, up: seq<Octets>, path: seq<Octets>, index: nat, sib: Octets)
    requires |leaves| > 1 && up == Pair(h, leaves) && index < |leaves| && |path| == Height(|leaves|)
    requires sib == if Sibling(index) >= |leaves| then Pad(h) else path[0]
    ensures index / 2 < |up| && |path[1..]| == Height(|up|)
    ensures RealSiblings(h, leaves, path, index) <==> sib == At(h, leaves, Sibling(index)) && RealSiblings(h, up, path[1..], index / 2)
  {}

  /** A parent on the next level is that of the entry and its sibling only. */
  lemma LevelBinds(h: Hash, leaves: seq<Octets>, up: seq<Octets>, leaf: Octets, sib: Octets, index: nat)
    requires Ideal(h) && |leaf| == DIGEST && index < |leaves| && |leaves[index]| == DIGEST && up == Pair(h, leaves) && index / 2 < |up|
    ensures Up(h, leaf, sib, index) == up[index / 2] <==> leaf == leaves[index] && sib == At(h, leaves, Sibling(index))
  {
    UpIsParent(h, leaves, index);
    UpBinds(h, leaves[index], At(h, leaves, Sibling(index)), leaf, sib, index);
  }

  lemma RootUp(h: Hash, leaves: seq<Octets>)
    requires |leaves| > 1
    ensures Root(h, leaves) == Root(h, Pair(h, leaves))
  {}

  lemma VerifyOneUp(h: Hash, n: nat, leaf: Octets, sib: Octets, path: seq<Octets>, index: nat, root: Octets)
    requires n > 1 && index < n && path != [] && sib == if Sibling(index) >= n then Pad(h) else path[0]
    ensures Verify(h, leaf, path, index, n, root) <==> Verify(h, Up(h, leaf, sib, index), path[1..], index / 2, (n + 1) / 2, root)
  {}

  lemma UpBinds(h: Hash, a: Octets, b: Octets, leaf: Octets, sib: Octets, index: nat)
    requires Ideal(h) && |leaf| == |a|
    ensures Up(h, leaf, sib, index) == Up(h, a, b, index) <==> leaf == a && sib == b
  {
    if Up(h, leaf, sib, index) == Up(h, a, b, index) {
      if index % 2 == 0 { NodeSplits(h, leaf, sib, a, b); } else { NodeSplits(h, sib, leaf, b, a); }
    }
  }

  // ---------- roots ----------

  /** Equal roots over equally many digests mean equal digests. */
  lemma {:induction false} RootBinds(h: Hash, a: seq<Octets>, b: seq<Octets>)
    requires Ideal(h) && Digests(a) && Digests(b) && |a| == |b| && Root(h, a) == Root(h, b)
    ensures a == b
    decreases |a|
  {
    if |a| > 1 {
      PairsAre(h, a);
      PairsAre(h, b);
      RootBinds(h, Pair(h, a), Pair(h, b));
      forall i | 0 <= i < |a| ensures a[i] == b[i] { PairBinds(h, a, b, i); }
    }
  }

  lemma PadIsDigest(h: Hash, level: seq<Octets>, i: nat)
    requires Ideal(h) && Digests(level)
    ensures |At(h, level, i)| == DIGEST
  {}

  /** Equal levels come from equal children, padding included. */
  lemma PairBinds(h: Hash, a: seq<Octets>, b: seq<Octets>, i: nat)
    requires Ideal(h) && Digests(a) && Digests(b) && Pair(h, a) == Pair(h, b) && i / 2 < |Pair(h, a)|
    ensures At(h, a, i) == At(h, b, i)
  {
    var k := i / 2;
    PadIsDigest(h, a, 2 * k);
    PadIsDigest(h, b, 2 * k);
    assert Pair(h, a)[k] == Pair(h, b)[k];
    NodeSplits(h, At(h, a, 2 * k), At(h, a, 2 * k + 1), At(h, b, 2 * k), At(h, b, 2 * k + 1));
    assert i == 2 * k || i == 2 * k + 1;
  }

  /** Where no entry is the padding hash, trees of equal height need no equal count. */
  lemma {:induction false} SameHeightBinds(h: Hash, a: seq<Octets>, b: seq<Octets>)
    requires Ideal(h) && Digests(a) && Digests(b) && PadFree(h, a) && PadFree(h, b)
    requires a != [] && b != [] && Height(|a|) == Height(|b|) && Root(h, a) == Root(h, b)
    ensures a == b
    decreases |a|
  {
    if |a| > 1 {
      PairsAre(h, a);
      PairsAre(h, b);
      SameHeightBinds(h, Pair(h, a), Pair(h, b));
      SameLength(h, a, b);
      forall i | 0 <= i < |a| ensures a[i] == b[i] { PairBinds(h, a, b, i); }
    }
  }

  lemma SameLength(h: Hash, a: seq<Octets>, b: seq<Octets>)
    requires Ideal(h) && Digests(a) && Digests(b) && PadFree(h, a) && PadFree(h, b) && Pair(h, a) == Pair(h, b)
    ensures |a| == |b|
  {
    if |a| < |b| { PairBinds(h, a, b, |a|); }
    if |b| < |a| { PairBinds(h, a, b, |b|); }
  }

  /** A list of leaf hashes is not the inside of a taller tree. */
  lemma {:induction false} TallerDiffers(h: Hash, a: seq<Octets>, b: seq<Octets>)
    requires Ideal(h) && LeafHashes(h, a) && a != [] && b != [] && Height(|a|) < Height(|b|)
    ensures Root(h, a) != Root(h, b)
    decreases |b|
  {
    var up := Pair(h, b);
    if Height(|up|) > Height(|a|) {
      TallerDiffers(h, a, up);
    } else if Root(h, a) == Root(h, up) {
      LeafHashesAre(h, a);
      PairsAre(h, b);
      SameHeightBinds(h, a, up);
      Separated(h, a[0], At(h, b, 0), At(h, b, 1));
    }
  }

  /** A root determines the leaf hashes it was built over, their number included. */
  lemma RootDetermines(h: Hash, a: seq<Octets>, b: seq<Octets>)
    requires Ideal(h) && LeafHashes(h, a) && LeafHashes(h, b) && Root(h, a) == Root(h, b)
    ensures a == b
  {
    LeafHashesAre(h, a);
    LeafHashesAre(h, b);
    if a == [] {
      RootIsNotPad(h, b);
    } else if b == [] {
      RootIsNotPad(h, a);
    } else if Height(|a|) < Height(|b|) {
      TallerDiffers(h, a, b);
    } else if Height(|b|) < Height(|a|) {
      TallerDiffers(h, b, a);
    } else {
      SameHeightBinds(h, a, b);
    }
  }

  lemma {:induction false} RootIsNotPad(h: Hash, leaves: seq<Octets>)
    requires Ideal(h) && PadFree(h, leaves)
    ensures leaves != [] ==> Root(h, leaves) != Pad(h)
    decreases |leaves|
  {
    if |leaves| > 1 {
      PairsAre(h, leaves);
      RootIsNotPad(h, Pair(h, leaves));
    }
  }

  // ---------- other lengths ----------

  /** The nodes k levels above the leaves. */
  function Level(h: Hash, leaves: seq<Octets>, k: nat): seq<Octets>
    decreases k
  {
    if k == 0 then leaves else Level(h, Pair(h, leaves), k - 1)
  }

  /** Above the leaves there are only hashes of pairs. */
  lemma {:induction false} LevelIsNodes(h: Hash, leaves: seq<Octets>, k: nat) returns (a: Octets, b: Octets)
    requires leaves != [] && 0 < k <= Height(|leaves|)
    ensures Level(h, leaves, k) != [] && Level(h, leaves, k)[0] == Node(h, a, b)
    decreases k
  {
    if k == 1 {
      a, b := At(h, leaves, 0), At(h, leaves, 1);
    } else {
      a, b := LevelIsNodes(h, Pair(h, leaves), k - 1);
    }
  }

  lemma FirstStep(h: Hash, level: seq<Octets>, n: nat, up: seq<Octets>, path: seq<Octets>, rest: seq<Octets>)
    requires |level| > 1 && n > 1 && up == Pair(h, level) && path == [At(h, level, 1)] + rest
    ensures Climb(h, level[0], path, 0, n) == Climb(h, up[0], rest, 0, (n + 1) / 2)
  {
    assert path[1..] == rest;
    assert up[0] == Node(h, level[0], level[1]);
  }

  /** The leftmost path of a tree leads to its root even when the verifier believes the level is wider. */
  lemma {:induction false} ClimbFirst(h: Hash, level: seq<Octets>, n: nat)
    requires level != [] && n >= |level|
    ensures |Path(h, level, 0)| == Height(|level|)
    ensures Climb(h, level[0], Path(h, level, 0), 0, n) == Root(h, level)
    decreases |level|
  {
    if |level| > 1 {
      var up := Pair(h, level);
      ClimbFirst(h, up, (n + 1) / 2);
      FirstStep(h, level, n, up, Path(h, level, 0), Path(h, up, 0));
    }
  }

  /** The path's length is not checked: for every length up to the tree's height, a path of that length
      is accepted at index 0 for the first node that many levels below the root. */
  lemma ShortPathAccepted(h: Hash, leaves: seq<Octets>, k: nat, len: nat) returns (node: Octets, path: seq<Octets>)
    requires leaves != [] && k + len == Height(|leaves|)
    ensures Level(h, leaves, k) != [] && node == Level(h, leaves, k)[0]
    ensures |path| == len && Verify(h, node, path, 0, |leaves|, Root(h, leaves))
  {
    node, path := FirstOfLevel(h, leaves, k, |leaves|);
  }

  lemma {:induction false} FirstOfLevel(h: Hash, leaves: seq<Octets>, k: nat, n: nat) returns (node: Octets, path: seq<Octets>)
    requires leaves != [] && k <= Height(|leaves|) && n >= |leaves|
    ensures Level(h, leaves, k) != [] && node == Level(h, leaves, k)[0]
    ensures |path| == Height(|leaves|) - k && Climb(h, node, path, 0, n) == Root(h, leaves)
    decreases k
  {
    if k == 0 {
      ClimbFirst(h, leaves, n);
      node, path := leaves[0], Path(h, leaves, 0);
    } else {
      node, path := FirstOfLevel(h, Pair(h, leaves), k - 1, n);
    }
  }

  /** So a shorter length proves nothing: an inner node passes as the first leaf. */
  lemma ShortPathUnbound(h: Hash, leaves: seq<Octets>, len: nat) returns (node: Octets, path: seq<Octets>)
    requires Ideal(h) && LeafHashes(h, leaves) && leaves != [] && len < Height(|leaves|)
    ensures |path| == len && Verify(h, node, path, 0, |leaves|, Root(h, leaves)) && node != leaves[0] && |node| == DIGEST
  {
    var k := Height(|leaves|) - len;
    node, path := ShortPathAccepted(h, leaves, k, len);
    var a, b := LevelIsNodes(h, leaves, k);
    Separated(h, leaves[0], a, b);
  }

  lemma {:induction false} ClimbSplit(h: Hash, cur: Octets, path: seq<Octets>, k: nat, idx: nat, n: nat) returns (idx': nat, n': nat)
    requires k <= |path|
    ensures Climb(h, cur, path, idx, n) == Climb(h, Climb(h, cur, path[..k], idx, n), path[k..], idx', n')
    decreases k
  {
    if k == 0 {
      assert path[0..] == path;
      idx', n' := idx, n;
    } else {
      var sib := if Sibling(idx) >= n then Pad(h) else path[0];
      idx', n' := ClimbSplit(h, Up(h, cur, sib, idx), path[1..], k - 1, idx / 2, (n + 1) / 2);
      assert path[..k][1..] == path[1..][..k - 1] && path[1..][k - 1..] == path[k..];
    }
  }

  lemma {:induction false} ClimbIsNode(h: Hash, cur: Octets, path: seq<Octets>, idx: nat, n: nat) returns (a: Octets, b: Octets)
    requires path != []
    ensures Climb(h, cur, path, idx, n) == Node(h, a, b)
    decreases |path|
  {
    var sib := if Sibling(idx) >= n then Pad(h) else path[0];
    if |path| == 1 {
      a, b := if idx % 2 == 0 then cur else sib, if idx % 2 == 0 then sib else cur;
    } else {
      a, b := ClimbIsNode(h, Up(h, cur, sib, idx), path[1..], idx / 2, (n + 1) / 2);
    }
  }

  /** Whatever index and size a climb of the tree's height believes in, a digest reaches the root only from
      the tree's own lowest level, padding included. */
  lemma {:induction false} ClimbsFromLevel(h: Hash, level: seq<Octets>, cur: Octets, path: seq<Octets>, idx: nat, n: nat)
    requires Ideal(h) && Digests(level) && |cur| == DIGEST
    requires level != [] && |path| == Height(|level|) && Climb(h, cur, path, idx, n) == Root(h, level)
    ensures cur in level || cur == Pad(h)
    decreases |level|
  {
    if |level| > 1 {
      var sib := if Sibling(idx) >= n then Pad(h) else path[0];
      PairsAre(h, level);
      ClimbsFromLevel(h, Pair(h, level), Up(h, cur, sib, idx), path[1..], idx / 2, (n + 1) / 2);
      var i := UpInPair(h, level, cur, sib, idx);
      PadIsDigest(h, level, 2 * i);
      PadIsDigest(h, level, 2 * i + 1);
      UpBinds(h, At(h, level, if idx % 2 == 0 then 2 * i else 2 * i + 1), At(h, level, if idx % 2 == 0 then 2 * i + 1 else 2 * i), cur, sib, idx);
    }
  }

  /** A parent on the next level is the parent of two neighbours. */
  lemma UpInPair(h: Hash, level: seq<Octets>, cur: Octets, sib: Octets, idx: nat) returns (i: nat)
    requires Ideal(h) && (Up(h, cur, sib, idx) in Pair(h, level) || Up(h, cur, sib, idx) == Pad(h))
    ensures i < |Pair(h, level)| && Up(h, cur, sib, idx) == Node(h, At(h, level, 2 * i), At(h, level, 2 * i + 1))
  {
    Separated(h, [], cur, sib);
    Separated(h, [], sib, cur);
    i :| 0 <= i < |Pair(h, level)| && Pair(h, level)[i] == Up(h, cur, sib, idx);
  }

  lemma NotALeaf(h: Hash, leaves: seq<Octets>, a: Octets, b: Octets)
    requires Ideal(h) && LeafHashes(h, leaves)
    ensures Node(h, a, b) !in leaves && Node(h, a, b) != Pad(h)
  {
    Separated(h, [], a, b);
    forall i | 0 <= i < |leaves| ensures leaves[i] != Node(h, a, b) { Separated(h, leaves[i], a, b); }
  }

  /** No inner node climbs the whole tree. */
  lemma NodeClimbsLess(h: Hash, leaves: seq<Octets>, a: Octets, b: Octets, path: seq<Octets>, idx: nat, n: nat)
    requires Ideal(h) && LeafHashes(h, leaves) && leaves != [] && |path| == Height(|leaves|)
    ensures Climb(h, Node(h, a, b), path, idx, n) != Root(h, leaves)
  {
    LeafHashesAre(h, leaves);
    NotALeaf(h, leaves, a, b);
    if Climb(h, Node(h, a, b), path, idx, n) == Root(h, leaves) {
      ClimbsFromLevel(h, leaves, Node(h, a, b), path, idx, n);
    }
  }

  /** No path longer than the tree is accepted at all, whatever the leaf. */
  lemma LongerPathRefused(h: Hash, leaves: seq<Octets>, leaf: Octets, path: seq<Octets>, index: int, leafCount: int)
    requires Ideal(h) && LeafHashes(h, leaves) && leaves != [] && |path| > Height(|leaves|)
    ensures !Verify(h, leaf, path, index, leafCount, Root(h, leaves))
  {
    if leafCount > 0 && 0 <= index < leafCount {
      var k := |path| - Height(|leaves|);
      var a, b := ClimbIsNode(h, leaf, path[..k], index, leafCount);
      var idx', n' := ClimbSplit(h, leaf, path, k, index, leafCount);
      NodeClimbsLess(h, leaves, a, b, path[k..], idx', n');
    }
  }

  /** The hash of a leaf does not pass for an inner node: with it, no shorter path is accepted either. */
  lemma {:induction false} LeafClimbsAllTheWay(h: Hash, level: seq<Octets>, leaf: Octets, path: seq<Octets>, idx: nat, n: nat)
    requires Ideal(h) && LeafHash(h, leaf) && |path| < Height(|level|)
    ensures Climb(h, leaf, path, idx, n) != Root(h, level)
    decreases |level|
  {
    var up := Pair(h, level);
    if |path| < Height(|up|) {
      LeafClimbsAllTheWay(h, up, leaf, path, idx, n);
    } else if Climb(h, leaf, path, idx, n) == Root(h, up) {
      PairsAre(h, level);
      ClimbsFromLevel(h, up, leaf, path, idx, n);
      forall i | 0 <= i < |up| ensures leaf != up[i] { Separated(h, leaf, At(h, level, 2 * i), At(h, level, 2 * i + 1)); }
      Separated(h, leaf, [], []);
      assert false;
    }
  }

  /** For the hash of a leaf no length has to be checked: it is accepted if and only if it is the one at the
      index, with a path of the tree's height made of the real siblings. */
  lemma LeafHashBindsIff(h: Hash, leaves: seq<Octets>, leaf: Octets, path: seq<Octets>, index: nat)
    requires Ideal(h) && LeafHashes(h, leaves) && LeafHash(h, leaf) && index < |leaves|
    ensures Verify(h, leaf, path, index, |leaves|, Root(h, leaves))
       <==> |path| == Height(|leaves|) && leaf == leaves[index] && RealSiblings(h, leaves, path, index)
  {
    LeafHashesAre(h, leaves);
    if |path| == Height(|leaves|) {
      BindingIff(h, leaves, leaf, path, index);
    } else if |path| > Height(|leaves|) {
      LongerPathRefused(h, leaves, leaf, path, index, |leaves|);
    } else {
      LeafClimbsAllTheWay(h, leaves, leaf, path, index, |leaves|);
    }
  }

  // ---------- exactly which lengths bind ----------

  /** The root of digests is one. */
  lemma {:induction false} RootIsDigest(h: Hash, leaves: seq<Octets>)
    requires Ideal(h) && Digests(leaves)
    ensures |Root(h, leaves)| == DIGEST
    decreases |leaves|
  {
    if |leaves| > 1 {
      PairsAre(h, leaves);
      RootIsDigest(h, Pair(h, leaves));
    }
  }

  /** A leaf and its sibling together must be as long as two digests. */
  lemma {:induction false} WideLeafRefused(h: Hash, level: seq<Octets>, leaf: Octets, path: seq<Octets>, idx: nat, n: nat)
    requires Ideal(h) && Digests(level) && |leaf| > 2 * DIGEST && 0 < |path| <= Height(|level|)
    ensures Climb(h, leaf, path, idx, n) != Root(h, level)
    decreases |level|
  {
    PairsAre(h, level);
    if |path| < Height(|level|) {
      WideLeafRefused(h, Pair(h, level), leaf, path, idx, n);
    } else if Climb(h, leaf, path, idx, n) == Root(h, level) {
      var sib := if Sibling(idx) >= n then Pad(h) else path[0];
      ClimbsFromLevel(h, Pair(h, level), Up(h, leaf, sib, idx), path[1..], idx / 2, (n + 1) / 2);
      var i := UpInPair(h, level, leaf, sib, idx);
      PadIsDigest(h, level, 2 * i);
      PadIsDigest(h, level, 2 * i + 1);
      UpLength(h, leaf, sib, idx, At(h, level, 2 * i), At(h, level, 2 * i + 1));
    }
  }

  lemma UpLength(h: Hash, leaf: Octets, sib: Octets, idx: nat, a: Octets, b: Octets)
    requires Ideal(h) && Up(h, leaf, sib, idx) == Node(h, a, b)
    ensures |leaf| + |sib| == |a| + |b|
  {
    if idx % 2 == 0 { SameTotal(h, leaf, sib, a, b); } else { SameTotal(h, sib, leaf, a, b); }
  }

  lemma SameTotal(h: Hash, a: Octets, b: Octets, c: Octets, d: Octets)
    requires Ideal(h) && Node(h, a, b) == Node(h, c, d)
    ensures |a| + |b| == |c| + |d|
  {
    assert |NODE_DOMAIN + a + b| == |NODE_DOMAIN + c + d|;
  }

  lemma SameNode(h: Hash, a: Octets, b: Octets, c: Octets, d: Octets)
    requires a + b == c + d
    ensures Node(h, a, b) == Node(h, c, d)
  {
    assert NODE_DOMAIN + a + b == NODE_DOMAIN + (a + b) && NODE_DOMAIN + c + d == NODE_DOMAIN + (c + d);
  }

  lemma RecutStep(h: Hash, level: seq<Octets>, up: seq<Octets>, leaf: Octets, sib: Octets, rest: seq<Octets>, path: seq<Octets>, n: nat)
    requires |level| > 1 && n > 1 && up == Pair(h, level) && leaf + sib == level[0] + level[1] && path == [sib] + rest
    ensures Climb(h, leaf, path, 0, n) == Climb(h, up[0], rest, 0, (n + 1) / 2)
  {
    SameNode(h, leaf, sib, level[0], level[1]);
    assert path[1..] == rest;
    assert up[0] == Node(h, level[0], level[1]);
  }

  lemma Cut(both: Octets, m: nat) returns (leaf: Octets, sib: Octets)
    requires m <= |both|
    ensures |leaf| == m && leaf + sib == both
  {
    leaf, sib := both[..m], both[m..];
  }

  /** Two neighbours cut in another place. */
  lemma RecutHere(h: Hash, level: seq<Octets>, up: seq<Octets>, m: nat, n: nat) returns (leaf: Octets, path: seq<Octets>)
    requires |level| > 1 && m <= |level[0]| + |level[1]| && n >= |level| && up == Pair(h, level)
    ensures |leaf| == m && |path| == 1 + Height(|up|) && Climb(h, leaf, path, 0, n) == Root(h, up)
  {
    var sib;
    leaf, sib := Cut(level[0] + level[1], m);
    ClimbFirst(h, up, (n + 1) / 2);
    path := [sib] + Path(h, up, 0);
    RecutStep(h, level, up, leaf, sib, Path(h, up, 0), path, n);
  }

  lemma {:induction false} RecutAccepted(h: Hash, level: seq<Octets>, m: nat, k: nat, n: nat) returns (leaf: Octets, path: seq<Octets>)
    requires Ideal(h) && Digests(level) && m <= 2 * DIGEST && k < Height(|level|) && n >= |level|
    ensures |leaf| == m && |path| == Height(|level|) - k && Climb(h, leaf, path, 0, n) == Root(h, level)
    decreases k
  {
    var up := Pair(h, level);
    if k == 0 {
      leaf, path := RecutHere(h, level, up, m, n);
    } else {
      PairsAre(h, level);
      leaf, path := RecutAccepted(h, up, m, k - 1, n);
    }
  }

  /** Everything accepted with a leaf of length m and a path of length len carries the leaf at its index. */
  ghost predicate LengthsBind(h: Hash, leaves: seq<Octets>, m: nat, len: nat) {
    forall leaf, path, index: nat {:trigger Verify(h, leaf, path, index, |leaves|, Root(h, leaves))} |
      index < |leaves| && |leaf| == m && |path| == len && Verify(h, leaf, path, index, |leaves|, Root(h, leaves)) :: leaf == leaves[index]
  }

  /** For leaves of digest length: exactly the paths not shorter than the tree. */
  lemma PathLengthIff(h: Hash, leaves: seq<Octets>, len: nat)
    requires Ideal(h) && LeafHashes(h, leaves) && leaves != []
    ensures LengthsBind(h, leaves, DIGEST, len) <==> len >= Height(|leaves|)
  {
    LeafHashesAre(h, leaves);
    if len < Height(|leaves|) {
      var node, path := ShortPathUnbound(h, leaves, len);
      assert Verify(h, node, path, 0, |leaves|, Root(h, leaves));
    } else {
      forall leaf, path, index: nat |
        index < |leaves| && |leaf| == DIGEST && |path| == len && Verify(h, leaf, path, index, |leaves|, Root(h, leaves))
        ensures leaf == leaves[index]
      {
        if len > Height(|leaves|) {
          LongerPathRefused(h, leaves, leaf, path, index, |leaves|);
        } else {
          BindingIff(h, leaves, leaf, path, index);
        }
      }
    }
  }

  /** For every other length nothing may be accepted, and exactly then something is: a path of at most the
      tree's height, and a leaf no longer than two digests. */
  lemma OtherLeafLengthIff(h: Hash, leaves: seq<Octets>, m: nat, len: nat)
    requires Ideal(h) && LeafHashes(h, leaves) && leaves != [] && m != DIGEST
    ensures LengthsBind(h, leaves, m, len) <==> len == 0 || len > Height(|leaves|) || m > 2 * DIGEST
  {
    LeafHashesAre(h, leaves);
    if 0 < len <= Height(|leaves|) && m <= 2 * DIGEST {
      var leaf, path := RecutAccepted(h, leaves, m, Height(|leaves|) - len, |leaves|);
      assert Verify(h, leaf, path, 0, |leaves|, Root(h, leaves)) && |leaves[0]| != |leaf|;
    } else {
      forall leaf: Octets, path: seq<Octets>, index: nat | index < |leaves| && |leaf| == m && |path| == len
        ensures !Verify(h, leaf, path, index, |leaves|, Root(h, leaves))
      {
        if len == 0 {
          RootIsDigest(h, leaves);
        } else if len > Height(|leaves|) {
          LongerPathRefused(h, leaves, leaf, path, index, |leaves|);
        } else {
          WideLeafRefused(h, leaves, leaf, path, index, |leaves|);
        }
      }
    }
  }

  /** Exactly which lengths of leaf and path prove membership in a tree of leaf hashes. */
  lemma LengthsBindIff(h: Hash, leaves: seq<Octets>, m: nat, len: nat)
    requires Ideal(h) && LeafHashes(h, leaves) && leaves != []
    ensures LengthsBind(h, leaves, m, len)
       <==> (if m == DIGEST then len >= Height(|leaves|) else len == 0 || len > Height(|leaves|) || m > 2 * DIGEST)
  {
    if m == DIGEST { PathLengthIff(h, leaves, len); } else { OtherLeafLengthIff(h, leaves, m, len); }
  }

  // ---------- where it stops ----------

  /** An empty leaf passes with a path of the tree's height, whatever the hash. */
  lemma EmptyLeafAccepted(h: Hash, a: Octets, b: Octets)
    ensures Height(2) == 1 && Verify(h, [], [a + b], 0, 2, Root(h, [a, b]))
  {
    assert Pair(h, [a, b]) == [Node(h, a, b)];
    SameNode(h, [], a + b, a, b);
    assert [a + b][1..] == [];
  }

  /** Leaves of other lengths run together: moving the cut leaves the root as it is. */
  lemma LeavesRunTogether(h: Hash, a: Octets, b: Octets, c: Octets)
    ensures Root(h, [a + b, c]) == Root(h, [a, b + c])
  {
    assert Pair(h, [a + b, c]) == [Node(h, a + b, c)] && Pair(h, [a, b + c]) == [Node(h, a, b + c)];
    assert a + b + c == a + (b + c);
    SameNode(h, a + b, c, a, b + c);
  }

  /** Nor is the leaf count bound by the root: against a smaller count the root of a two-leaf tree accepts
      a path longer than the claimed tree. */
  lemma LongPathAccepted(h: Hash, leaf: Octets, extra: Octets)
    ensures Verify(h, leaf, [extra], 0, 1, Root(h, [leaf, Pad(h)])) && Height(1) == 0
  {
    assert Pair(h, [leaf, Pad(h)]) == [Node(h, leaf, Pad(h))];
    assert [extra][1..] == [];
  }

  /** The leaf count is part of what is signed: a padding hash as an extra last leaf leaves the root as it is. */
  lemma PadLeafHidden(h: Hash, leaves: seq<Octets>)
    requires |leaves| % 2 == 1 && |leaves| > 1
    ensures Root(h, leaves + [Pad(h)]) == Root(h, leaves)
  {
    PadChangesNothing(h, leaves);
  }

  // ---------- such a hash exists ----------

  function Pow2(n: nat): (p: nat)
    ensures p > 0
  {
    if n == 0 then 1 else 2 * Pow2(n - 1)
  }

  function ZigZag(x: int): nat {
    if x >= 0 then 2 * x else -2 * x - 1
  }

  /** A number for every sequence. */
  function Code(s: Octets): nat {
    if s == [] then 0 else Pow2(ZigZag(s[0])) * (2 * Code(s[1..]) + 1)
  }

  lemma {:induction false} OddPart(a: nat, x: nat, b: nat, y: nat)
    requires Pow2(a) * (2 * x + 1) == Pow2(b) * (2 * y + 1)
    ensures a == b && x == y
  {
    if a > 0 && b > 0 {
      Halve(Pow2(a - 1), 2 * x + 1, Pow2(b - 1), 2 * y + 1);
      OddPart(a - 1, x, b - 1, y);
    } else if a > 0 {
      Even(Pow2(a - 1), 2 * x + 1);
    } else if b > 0 {
      Even(Pow2(b - 1), 2 * y + 1);
    }
  }

  lemma Halve(p: int, x: int, q: int, y: int)
    requires (2 * p) * x == (2 * q) * y
    ensures p * x == q * y
  {
    Even(p, x);
    Even(q, y);
  }

  lemma Even(p: int, x: int)
    ensures (2 * p) * x == 2 * (p * x)
  {}

  lemma {:induction false} CodeInjective(s: Octets, t: Octets)
    requires Code(s) == Code(t)
    ensures s == t
    decreases |s|
  {
    if s != [] && t != [] {
      OddPart(ZigZag(s[0]), Code(s[1..]), ZigZag(t[0]), Code(t[1..]));
      CodeInjective(s[1..], t[1..]);
      assert s == [s[0]] + s[1..] && t == [t[0]] + t[1..];
    } else if s != [] {
      Positive(Pow2(ZigZag(s[0])), 2 * Code(s[1..]) + 1);
    } else if t != [] {
      Positive(Pow2(ZigZag(t[0])), 2 * Code(t[1..]) + 1);
    }
  }

  lemma Positive(p: int, x: int)
    requires p > 0 && x > 0
    ensures p * x > 0
  {}

  function IdealHash(s: Octets): (d: Octets)
    ensures |d| == DIGEST && d[0] == Code(s)
  {
    [Code(s)] + seq(DIGEST - 1, _ => 0)
  }

  /** The hypothesis can be met. */
  lemma IdealExists()
    ensures Ideal(IdealHash)
  {
    forall s, t | IdealHash(s) == IdealHash(t) ensures s == t { CodeInjective(s, t); }
  }
}

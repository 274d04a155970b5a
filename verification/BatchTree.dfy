// server/internal/anchor/batch.go, tree half: leaves padded to a power of two
// with copies of the last one, then a tree without unpaired nodes.
module BatchTree {
  import opened Bits
  import opened MerkleSpec
  import opened Sequences
  import opened Hashing

  // The leaves with copies of the last one appended up to length m.
  function PadTo<D>(leaves: seq<D>, m: nat): (r: seq<D>)
    requires 0 < |leaves| <= m
    ensures |r| == m
  {
    leaves + seq(m - |leaves|, i => leaves[|leaves| - 1])
  }

  // The least power of two that is at least n.
  function PaddedSize(n: nat): nat
    requires n >= 1
  {
    Pow2(Height(n) - 1)
  }

  lemma {:induction false} PaddedSizeIsLeast(n: nat, m: nat)
    requires n >= 1
    ensures n <= PaddedSize(n) && IsPow2(PaddedSize(n))
    ensures Height(PaddedSize(n)) == Height(n)
    ensures IsPow2(m) && n <= m ==> PaddedSize(n) <= m
  {
    var d := Height(n) - 1;
    HeightBound(n, d);
    Pow2IsPow2(d);
    HeightBound(Pow2(d), d);
    HeightMonotone(n, Pow2(d));
    if IsPow2(m) && n <= m {
      IsPow2Height(m);
      HeightMonotone(n, m);
      Pow2Monotone(d, Height(m) - 1);
    }
  }

  lemma {:induction false} Pow2Monotone(a: nat, b: nat)
    requires a <= b
    ensures Pow2(a) <= Pow2(b)
    decreases b
  {
    if a < b {
      Pow2Monotone(a, b - 1);
    }
  }

  method Pad<D>(leaves: seq<D>) returns (padded: seq<D>)
    requires leaves != []
    ensures |leaves| <= PaddedSize(|leaves|) && padded == PadTo(leaves, PaddedSize(|leaves|))
  {
    ghost var m := PaddedSize(|leaves|);
    PaddedSizeIsLeast(|leaves|, |leaves|);
    padded := leaves;
    BitAndPredecessor(|padded|);
    while BitAnd(|padded|, |padded| - 1) != 0
      invariant |leaves| <= |padded| <= m
      invariant padded == PadTo(leaves, |padded|)
      invariant BitAnd(|padded|, |padded| - 1) == 0 <==> IsPow2(|padded|)
      decreases m - |padded|
    {
      padded := padded + [padded[|padded| - 1]];
      BitAndPredecessor(|padded|);
    }
    PaddedSizeIsLeast(|leaves|, |padded|);
  }

  // One level of the loop below: no index check, because the length is even.
  method NextLevel<D>(h: (D, D) -> D, current: seq<D>) returns (next: seq<D>)
    requires |current| % 2 == 0
    ensures next == Up(h, current)
  {
    next := [];
    var i := 0;
    while i < |current|
      invariant i % 2 == 0 && 0 <= i <= |current|
      invariant next == Up(h, current)[..i / 2]
    {
      assert h(current[i], current[i + 1]) == Parent(h, current, i / 2);
      next := next + [h(current[i], current[i + 1])];
      i := i + 2;
    }
  }

  method Build<D>(h: (D, D) -> D, leaves: seq<D>) returns (root: Option<D>, nodes: seq<seq<D>>)
    ensures leaves == [] ==> root == None && nodes == []
    ensures leaves != [] ==>
              |leaves| <= PaddedSize(|leaves|)
              && nodes == Levels(h, PadTo(leaves, PaddedSize(|leaves|)))
              && root == Some(Root(h, PadTo(leaves, PaddedSize(|leaves|))))
  {
    if |leaves| == 0 {
      return None, [];
    }
    var padded := Pad(leaves);
    PaddedSizeIsLeast(|leaves|, |leaves|);
    nodes := [padded];
    var current := padded;
    while |current| > 1
      invariant IsPow2(|current|)
      invariant nodes != [] && nodes[|nodes| - 1] == current
      invariant nodes[..|nodes| - 1] + Levels(h, current) == Levels(h, padded)
      invariant Root(h, current) == Root(h, padded)
      decreases |current|
    {
      var next := NextLevel(h, current);
      assert |next| == |current| / 2;
      ghost var before := nodes;
      nodes := nodes + [next];
      assert before[..|before| - 1] + Levels(h, current) == before + Levels(h, next);
      assert nodes[..|nodes| - 1] == before;
      current := next;
    }
    assert nodes[..|nodes| - 1] + Levels(h, current) == nodes;
    root := Some(current[0]);
  }

  // -------------------------------------------------------------- proofs

  // The siblings along node i's path, without their sides.
  function Siblings<D>(h: (D, D) -> D, s: seq<D>, i: nat): seq<D>
    requires i < |s|
    decreases |s|
  {
    if |s| == 1 then [] else [SiblingHash(s, i)] + Siblings(h, Up(h, s), i / 2)
  }

  // index / 2 as Go divides: towards zero.
  function Half(index: int): int {
    if index >= 0 then index / 2 else -(-index / 2)
  }

  // A bare list of siblings, with the sides that the digits of the index give it.
  function WithSides<D>(proof: seq<D>, index: int): (r: seq<ProofNode<D>>)
    ensures |r| == |proof|
  {
    if proof == [] then []
    else [ProofNode(proof[0], if index % 2 == 0 then "right" else "left")] + WithSides(proof[1..], Half(index))
  }

  lemma {:induction false} WithSidesMatches<D>(proof: seq<D>, index: nat)
    ensures MatchesIndex(WithSides(proof, index), index)
    ensures forall k :: 0 <= k < |proof| ==> WithSides(proof, index)[k].hash == proof[k]
  {
    if proof != [] {
      WithSidesMatches(proof[1..], index / 2);
    }
  }

  lemma {:induction false} WithSidesOfSiblings<D>(h: (D, D) -> D, s: seq<D>, index: nat)
    requires index < |s|
    ensures WithSides(Siblings(h, s, index), index) == Path(h, s, index)
    decreases |s|
  {
    if |s| > 1 {
      WithSidesOfSiblings(h, Up(h, s), index / 2);
      assert Siblings(h, s, index)[1..] == Siblings(h, Up(h, s), index / 2);
    }
  }

  // The levels of a tree over a power of two are full: every node below the root has
  // a sibling.
  lemma {:induction false} FullLevels<D>(h: (D, D) -> D, s: seq<D>, k: nat)
    requires IsPow2(|s|) && k < |Levels(h, s)|
    ensures IsPow2(|Levels(h, s)[k]|)
    decreases |s|
  {
    if k > 0 {
      FullLevels(h, Up(h, s), k - 1);
    }
  }

  lemma SiblingsStep<D>(h: (D, D) -> D, s: seq<D>, i: nat, before: seq<D>)
    requires |s| > 1 && |s| % 2 == 0 && i < |s|
    ensures Sibling(i) < |s|
    ensures before + Siblings(h, s, i) == before + [s[Sibling(i)]] + Siblings(h, Up(h, s), i / 2)
  {
    assert Sibling(i) < |s| && SiblingHash(s, i) == s[Sibling(i)];
    var rest := Siblings(h, Up(h, s), i / 2);
    assert Siblings(h, s, i) == [s[Sibling(i)]] + rest;
    Regroup(before, s[Sibling(i)], rest);
  }

  method GetBatchProof<D>(nodes: seq<seq<D>>, startIndex: nat, ghost h: (D, D) -> D, ghost padded: seq<D>)
    returns (proof: seq<D>)
    requires IsPow2(|padded|) && startIndex < |padded| && nodes == Levels(h, padded)
    ensures proof == Siblings(h, padded, startIndex)
  {
    var index: nat := startIndex;
    proof := [];
    LevelsStep(h, padded, 0);
    for level := 0 to |nodes| - 1
      invariant index < |nodes[level]|
      invariant proof + Siblings(h, nodes[level], index) == Siblings(h, padded, startIndex)
    {
      LevelsStep(h, padded, level);
      FullLevels(h, padded, level);
      SiblingsStep(h, nodes[level], index, proof);
      var siblingIndex := Sibling(index);
      if siblingIndex < |nodes[level]| {
        proof := proof + [nodes[level][siblingIndex]];
      }
      index := index / 2;
    }
    LevelsStep(h, padded, |nodes| - 1);
    assert proof + [] == proof;
  }

  function VerifySpec<D(==)>(h: (D, D) -> D, rootHash: D, itemHash: D, proof: seq<D>, index: int): bool {
    Climb(h, itemHash, WithSides(proof, index)) == rootHash
  }

  method VerifyBatchProof<D(==)>(h: (D, D) -> D, rootHash: D, itemHash: D, proof: seq<D>, startIndex: int)
    returns (ok: bool)
    ensures ok == VerifySpec(h, rootHash, itemHash, proof, startIndex)
  {
    var current, index := itemHash, startIndex;
    for k := 0 to |proof|
      invariant Climb(h, current, WithSides(proof[k..], index)) == Climb(h, itemHash, WithSides(proof, startIndex))
    {
      assert proof[k..][1..] == proof[k + 1..];
      var sibling := proof[k];
      if index % 2 == 0 {
        current := h(current, sibling);
      } else {
        current := h(sibling, current);
      }
      index := Half(index);
    }
    ok := current == rootHash;
  }

  // ------------------------------------------------------------ theorems

  function BatchRoot<D>(h: (D, D) -> D, leaves: seq<D>): D
    requires |leaves| > 0
  {
    PaddedSizeIsLeast(|leaves|, 0);
    Root(h, PadTo(leaves, PaddedSize(|leaves|)))
  }

  function BatchNodes<D>(h: (D, D) -> D, leaves: seq<D>): seq<seq<D>>
    requires |leaves| > 0
  {
    PaddedSizeIsLeast(|leaves|, 0);
    Levels(h, PadTo(leaves, PaddedSize(|leaves|)))
  }

  function BatchProof<D>(h: (D, D) -> D, leaves: seq<D>, i: nat): seq<D>
    requires i < |leaves|
  {
    PaddedSizeIsLeast(|leaves|, 0);
    Siblings(h, PadTo(leaves, PaddedSize(|leaves|)), i)
  }

  // Every original leaf's proof verifies against the batch root, and its length
  // is the logarithm of the padded size.
  lemma BatchProofVerifies<D>(h: (D, D) -> D, leaves: seq<D>, i: nat)
    requires i < |leaves|
    ensures VerifySpec(h, BatchRoot(h, leaves), leaves[i], BatchProof(h, leaves, i), i)
    ensures Pow2(|BatchProof(h, leaves, i)|) == PaddedSize(|leaves|)
  {
    PaddedSizeIsLeast(|leaves|, 0);
    var padded := PadTo(leaves, PaddedSize(|leaves|));
    WithSidesOfSiblings(h, padded, i);
    PathClimbs(h, padded, i);
  }

  // An accepted proof of the right length for an original index is that leaf with
  // its own siblings, or PathCollision exhibits a collision.
  lemma BatchProofBinds<D>(h: (D, D) -> D, leaves: seq<D>, i: nat, item: D, proof: seq<D>)
    requires i < |leaves| && |proof| == |BatchProof(h, leaves, i)|
    requires VerifySpec(h, BatchRoot(h, leaves), item, proof, i)
    ensures (item == leaves[i] && proof == BatchProof(h, leaves, i))
            || FoundCollision(h, PathCollision(h, item, WithSides(proof, i),
                                               leaves[i], WithSides(BatchProof(h, leaves, i), i)))
  {
    PaddedSizeIsLeast(|leaves|, 0);
    var padded := PadTo(leaves, PaddedSize(|leaves|));
    WithSidesOfSiblings(h, padded, i);
    PathClimbs(h, padded, i);
    WithSidesMatches(proof, i);
    WithSidesMatches(Siblings(h, padded, i), i);
    var p, q := WithSides(proof, i), Path(h, padded, i);
    PathBinding(h, item, p, leaves[i], q, i);
    if SameHashes(p, q) {
      assert forall k :: 0 <= k < |proof| ==> proof[k] == p[k].hash;
    }
  }

  // The batch tree hashes concatenations, and root hashes are not checked when they are
  // submitted. For an item as long as the leaf, the collision is one of the string hash.
  lemma BatchProofBindsStrings(sha: string -> string, width: nat, leaves: seq<string>, i: nat,
                               item: string, proof: seq<string>)
    requires FixedWidth(sha, width)
    requires i < |leaves| && |proof| == |BatchProof(Concat(sha), leaves, i)| && |item| == |leaves[i]|
    requires VerifySpec(Concat(sha), BatchRoot(Concat(sha), leaves), item, proof, i)
    ensures (item == leaves[i] && proof == BatchProof(Concat(sha), leaves, i))
            || FoundShaCollision(sha, PathCollision(Concat(sha), item, WithSides(proof, i), leaves[i],
                                                    WithSides(BatchProof(Concat(sha), leaves, i), i)))
  {
    var h := Concat(sha);
    var p, q := WithSides(proof, i), WithSides(BatchProof(h, leaves, i), i);
    BatchProofBinds(h, leaves, i, item, proof);
    WithSidesMatches(proof, i);
    WithSidesMatches(BatchProof(h, leaves, i), i);
    if PathCollision(h, item, p, leaves[i], q).Some? {
      PathCollisionJoined(sha, width, item, p, leaves[i], q, i);
    }
  }

  // The length is needed: in any batch, move a part of the next leaf into an item at an
  // even index, and the rest of that leaf is the sibling it passes with.
  lemma ItemLengthNeeded(sha: string -> string, leaves: seq<string>, i: nat, moved: string, rest: string)
    requires i + 1 < |leaves| && i % 2 == 0 && leaves[i + 1] == moved + rest
    ensures var proof := BatchProof(Concat(sha), leaves, i);
            && |proof| > 0
            && VerifySpec(Concat(sha), BatchRoot(Concat(sha), leaves), leaves[i] + moved, proof[0 := rest], i)
  {
    var h := Concat(sha);
    PaddedSizeIsLeast(|leaves|, 0);
    BatchProofVerifies(h, leaves, i);
    var padded := PadTo(leaves, PaddedSize(|leaves|));
    var proof := BatchProof(h, leaves, i);
    assert proof[0] == SiblingHash(padded, i) == leaves[i + 1];
    assert (leaves[i] + moved) + rest == leaves[i] + (moved + rest);
    FirstStep(h, leaves[i], proof, i);
    FirstStep(h, leaves[i] + moved, proof[0 := rest], i);
    assert proof[0 := rest][1..] == proof[1..];
  }

  lemma FirstStep(h: (string, string) -> string, x: string, proof: seq<string>, i: nat)
    requires |proof| > 0 && i % 2 == 0
    ensures Climb(h, x, WithSides(proof, i)) == Climb(h, h(x, proof[0]), WithSides(proof[1..], Half(i)))
  {
    assert WithSides(proof, i)[1..] == WithSides(proof[1..], Half(i));
  }
}

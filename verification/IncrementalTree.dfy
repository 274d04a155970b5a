// server/internal/merkle/incremental.go: the append-only tree. Each append
// rewrites one leaf-to-root path; the levels stay those of a full rebuild.
module IncrementalTree {
  import opened Bits
  import opened MerkleSpec

  // Panicked: an index ran past the preallocated levels (a Go run-time panic; the
  // deferred unlock still runs, so a caller that recovers goes on using the tree).
  datatype Status = Done | CapacityExceeded | Panicked

  datatype Result<T> = Ok(value: T) | ErrTreeEmpty | ErrTreeCorrupted | ErrInvalidIndex | Panic

  datatype Proof<D> = Proof(leafIndex: int, leafHash: D, root: D, path: seq<ProofNode<D>>)

  datatype ConsistencyProof<D> =
    ConsistencyProof(oldRoot: D, newRoot: D, oldSize: int, newSize: int, proofPath: seq<D>)

  // Level k of the stored array: the tree's levels, one spare node above the
  // root, and nothing higher.
  function StoredLevel<D>(h: (D, D) -> D, leaves: seq<D>, k: nat): seq<D> {
    if k <= Height(|leaves|) then LevelAt(h, leaves, k) else []
  }

  // The number of leaves up to which the spare node above the root has a slot:
  // half of the 2^maxDepth that Append checks.
  function Usable(maxDepth: nat): nat {
    if maxDepth == 0 then 0 else Pow2(maxDepth - 1)
  }

  // The spare node of n leaves needs slot Height(n).
  lemma SpareFits(n: nat, maxDepth: nat)
    requires n >= 1
    ensures Height(n) <= maxDepth <==> n <= Usable(maxDepth)
  {
    if maxDepth >= 1 {
      HeightBound(n, maxDepth - 1);
    }
  }

  // s and t are equal up to s's last element, and t is at most that element short.
  predicate LastDiffers<D(==)>(s: seq<D>, t: seq<D>) {
    |s| > 0 && |s| - 1 <= |t| <= |s| && s[..|s| - 1] == t[..|s| - 1]
  }

  lemma ParentOfLast<D>(h: (D, D) -> D, s: seq<D>, i: nat, left: D, right: D)
    requires i < (|s| + 1) / 2 && left == s[i * 2]
    requires right == if i * 2 + 1 < |s| then s[i * 2 + 1] else left
    ensures h(left, right) == Parent(h, s, i)
  {
  }

  // One step of the path update: if level s differs from t only at its end, the
  // same holds one level up, and the parent of s's last node repairs it.
  lemma LastDiffersUp<D>(h: (D, D) -> D, s: seq<D>, t: seq<D>)
    requires LastDiffers(s, t)
    ensures LastDiffers(Up(h, s), Up(h, t))
    ensures (|s| - 1) / 2 == |Up(h, s)| - 1
  {
    var m := (|s| - 1) / 2;
    forall i | 0 <= i < m
      ensures Up(h, s)[i] == Up(h, t)[i]
    {
      assert s[2 * i] == s[..|s| - 1][2 * i] == t[2 * i];
      assert s[2 * i + 1] == s[..|s| - 1][2 * i + 1] == t[2 * i + 1];
    }
    assert Up(h, s)[..m] == Up(h, t)[..m];
  }

  lemma {:induction false} LastDiffersAt<D>(h: (D, D) -> D, s: seq<D>, t: seq<D>, k: nat)
    requires LastDiffers(s, t)
    ensures LastDiffers(LevelAt(h, s, k), LevelAt(h, t, k))
  {
    if k > 0 {
      LastDiffersAt(h, s, t, k - 1);
      LastDiffersUp(h, LevelAt(h, s, k - 1), LevelAt(h, t, k - 1));
    }
  }

  // t with its end rewritten: element `last` is replaced or appended.
  function Rewritten<D>(t: seq<D>, last: nat, x: D): seq<D>
    requires last <= |t| <= last + 1
  {
    if last < |t| then t[last := x] else t + [x]
  }

  lemma RewriteLast<D>(s: seq<D>, t: seq<D>)
    requires LastDiffers(s, t)
    ensures Rewritten(t, |s| - 1, s[|s| - 1]) == s
  {
    assert s == s[..|s| - 1] + [s[|s| - 1]];
    assert t == t[..|s| - 1] + t[|s| - 1..];
  }

  // What the slots of levels k and k + 1 hold while the path is rewritten.
  lemma PathLevels<D>(h: (D, D) -> D, leaves: seq<D>, oldLeaves: seq<D>, k: nat)
    requires |oldLeaves| + 1 == |leaves| && leaves[..|oldLeaves|] == oldLeaves
    requires k < Height(|leaves|)
    ensures LastDiffers(LevelAt(h, leaves, k + 1), StoredLevel(h, oldLeaves, k + 1))
    ensures |LevelAt(h, leaves, k)| > 0
    ensures |LevelAt(h, leaves, k + 1)| - 1 == (|LevelAt(h, leaves, k)| - 1) / 2
  {
    LevelSize(h, leaves, k);
    assert LastDiffers(leaves, oldLeaves);
    LastDiffersAt(h, leaves, oldLeaves, k);
    LastDiffersUp(h, LevelAt(h, leaves, k), LevelAt(h, oldLeaves, k));
    HeightStep(|oldLeaves|);
  }

  // The slot above level k, rewritten at the end, holds the rebuilt level k + 1.
  lemma RebuiltParent<D>(h: (D, D) -> D, leaves: seq<D>, oldLeaves: seq<D>, k: nat)
    requires |oldLeaves| + 1 == |leaves| && leaves[..|oldLeaves|] == oldLeaves
    requires k < Height(|leaves|)
    ensures |LevelAt(h, leaves, k)| > 0
    ensures |LevelAt(h, leaves, k + 1)| - 1 == (|LevelAt(h, leaves, k)| - 1) / 2
    ensures var was, last := StoredLevel(h, oldLeaves, k + 1), (|LevelAt(h, leaves, k)| - 1) / 2;
            last <= |was| <= last + 1
            && LevelAt(h, leaves, k + 1) == Rewritten(was, last, Parent(h, LevelAt(h, leaves, k), last))
  {
    PathLevels(h, leaves, oldLeaves, k);
    RewriteLast(LevelAt(h, leaves, k + 1), StoredLevel(h, oldLeaves, k + 1));
  }

  class Tree<D(==)> {
    const h: (D, D) -> D
    const maxDepth: nat
    const levels: array<seq<D>>
    var leafCount: nat

    ghost function Leaves(): seq<D>
      reads levels
      requires levels.Length > 0
    {
      levels[0]
    }

    // The refinement: every slot holds what a rebuild from the leaves puts there.
    ghost predicate Valid()
      reads this, levels
    {
      && levels.Length == maxDepth + 1
      && leafCount == |Leaves()| <= Pow2(maxDepth)
      && forall k {:trigger levels[k]} :: 0 <= k <= maxDepth ==> levels[k] == StoredLevel(h, Leaves(), k)
    }

    constructor (h: (D, D) -> D, maxDepth: nat)
      ensures Valid() && Leaves() == [] && fresh(levels)
      ensures this.h == h && this.maxDepth == maxDepth
    {
      this.h := h;
      this.maxDepth := maxDepth;
      levels := new seq<D>[maxDepth + 1](_ => []);
      leafCount := 0;
      new;
      forall k: nat ensures LevelAt(h, [], k) == [] {
        LevelAtEmpty(h, k);
      }
    }

    method CurrentHeight() returns (r: nat)
      ensures r == Height(leafCount)
    {
      if leafCount == 0 {
        return 0;
      }
      var height := 0;
      var n := leafCount;
      while n > 1
        invariant n >= 1 && height + Height(n) == Height(leafCount)
        decreases n
      {
        height := height + 1;
        n := (n + 1) / 2;
      }
      return height + 1;
    }

    // One turn of the path update: hash the last node of a level with its sibling
    // into the level above. Fails when there is no slot above.
    method RewriteParent(level: nat, currentIndex: nat) returns (ok: bool)
      requires levels.Length == maxDepth + 1 && level <= maxDepth
      requires levels[level] != [] && currentIndex == |levels[level]| - 1
      requires level < maxDepth ==> currentIndex / 2 <= |levels[level + 1]| <= currentIndex / 2 + 1
      modifies levels
      ensures ok <==> level < maxDepth
      ensures ok ==> levels[level + 1] == Rewritten(old(levels[level + 1]), currentIndex / 2,
                                                    Parent(h, old(levels[level]), currentIndex / 2))
      ensures forall k {:trigger levels[k]} :: 0 <= k <= maxDepth && k != level + 1 ==> levels[k] == old(levels[k])
    {
      var parentIndex := currentIndex / 2;
      var leftIndex := parentIndex * 2;
      var rightIndex := leftIndex + 1;
      var left := levels[level][leftIndex];
      var right := left;
      if rightIndex < |levels[level]| {
        right := levels[level][rightIndex];
      }
      var parentHash := h(left, right);
      ParentOfLast(h, levels[level], parentIndex, left, right);
      var nextLevel := level + 1;
      if nextLevel >= levels.Length {
        return false;  // index out of range
      }
      if parentIndex < |levels[nextLevel]| {
        levels[nextLevel] := levels[nextLevel][parentIndex := parentHash];
      } else {
        levels[nextLevel] := levels[nextLevel] + [parentHash];
      }
      ok := true;
    }

    // The same turn seen as a rebuild: the slot above comes to hold level + 1 of the
    // tree of all leaves.
    method RebuildLevel(level: nat, currentIndex: nat, ghost leaves: seq<D>, ghost oldLeaves: seq<D>)
      returns (ok: bool)
      requires levels.Length == maxDepth + 1 && level <= maxDepth && level < Height(|leaves|)
      requires |oldLeaves| + 1 == |leaves| && leaves[..|oldLeaves|] == oldLeaves
      requires levels[level] == LevelAt(h, leaves, level) && currentIndex == |levels[level]| - 1
      requires level < maxDepth ==> levels[level + 1] == StoredLevel(h, oldLeaves, level + 1)
      modifies levels
      ensures ok <==> level < maxDepth
      ensures ok ==> levels[level + 1] == LevelAt(h, leaves, level + 1)
      ensures ok ==> currentIndex / 2 == |levels[level + 1]| - 1
      ensures forall k {:trigger levels[k]} :: 0 <= k <= maxDepth && k != level + 1 ==> levels[k] == old(levels[k])
    {
      RebuiltParent(h, leaves, oldLeaves, level);
      ok := RewriteParent(level, currentIndex);
    }

    // The path is rewritten up to a level: slots up to it are those of all leaves,
    // slots above it still those of the leaves before the append.
    ghost predicate RewrittenUpTo(level: nat, leaves: seq<D>, oldLeaves: seq<D>)
      requires levels.Length == maxDepth + 1
      reads levels
    {
      && level <= maxDepth
      && (forall k {:trigger levels[k]} :: 0 <= k <= level ==> levels[k] == LevelAt(h, leaves, k))
      && (forall k {:trigger levels[k]} :: level < k <= maxDepth ==> levels[k] == StoredLevel(h, oldLeaves, k))
    }

    lemma PathDone(level: nat, leaves: seq<D>, oldLeaves: seq<D>)
      requires levels.Length == maxDepth + 1 && RewrittenUpTo(level, leaves, oldLeaves)
      requires |oldLeaves| + 1 == |leaves| == leafCount <= Pow2(maxDepth)
      requires level == Height(|leaves|) || (level == maxDepth && level < Height(|leaves|))
      ensures Valid() && Leaves() == leaves
    {
      HeightStep(|oldLeaves|);
    }

    // Rewrites the path above the leaf just appended to oldLeaves. It runs one
    // level past the root, and fails there when no slot is left.
    method UpdatePath(leafIndex: nat, ghost oldLeaves: seq<D>) returns (ok: bool)
      requires levels.Length == maxDepth + 1
      requires leafCount == |Leaves()| == leafIndex + 1 <= Pow2(maxDepth)
      requires Leaves()[..leafIndex] == oldLeaves
      requires RewrittenUpTo(0, Leaves(), oldLeaves)
      modifies levels
      ensures Valid() && Leaves() == old(Leaves())
      ensures ok <==> leafCount <= Usable(maxDepth)
    {
      ghost var leaves := Leaves();
      var currentIndex := leafIndex;
      var height := CurrentHeight();
      SpareFits(leafCount, maxDepth);
      var level := 0;
      while level < height
        invariant 0 <= level <= height
        invariant RewrittenUpTo(level, leaves, oldLeaves)
        invariant currentIndex == |levels[level]| - 1
      {
        var written := RebuildLevel(level, currentIndex, leaves, oldLeaves);
        if !written {
          PathDone(level, leaves, oldLeaves);
          return false;
        }
        currentIndex := currentIndex / 2;
        level := level + 1;
      }
      PathDone(level, leaves, oldLeaves);
      ok := true;
    }

    method Append(leaf: D) returns (status: Status)
      requires Valid()
      modifies this`leafCount, levels
      ensures Valid()
      ensures status == CapacityExceeded <==> old(leafCount) >= Pow2(maxDepth)
      ensures Leaves() == old(Leaves()) + (if status == CapacityExceeded then [] else [leaf])
      ensures status == Panicked <==> Usable(maxDepth) <= old(leafCount) < Pow2(maxDepth)
    {
      var maxLeaves := Pow2(maxDepth);
      if leafCount >= maxLeaves {
        return CapacityExceeded;
      }
      status := AppendOne(leaf);
    }

    // The body both Append and AppendBatch run per leaf.
    method AppendOne(leaf: D) returns (status: Status)
      requires Valid() && leafCount < Pow2(maxDepth)
      modifies this`leafCount, levels
      ensures Valid() && Leaves() == old(Leaves()) + [leaf]
      ensures status == if leafCount <= Usable(maxDepth) then Done else Panicked
    {
      ghost var oldLeaves := Leaves();
      levels[0] := levels[0] + [leaf];
      leafCount := leafCount + 1;
      var ok := UpdatePath(leafCount - 1, oldLeaves);
      status := if ok then Done else Panicked;
    }

    // All leaves are appended, or none because they exceed the capacity, or those
    // up to and including the first one whose spare node has no slot.
    method AppendBatch(batch: seq<D>) returns (status: Status)
      requires Valid()
      modifies this`leafCount, levels
      ensures Valid()
      ensures status == CapacityExceeded <==> old(leafCount) + |batch| > Pow2(maxDepth)
      ensures status == Done <==> old(leafCount) + |batch| <= Usable(maxDepth)
                                  || (batch == [] && old(leafCount) <= Pow2(maxDepth))
      ensures Leaves() == old(Leaves()) + batch[..Taken(status, old(leafCount), |batch|)]
    {
      var maxLeaves := Pow2(maxDepth);
      if leafCount + |batch| > maxLeaves {
        return CapacityExceeded;
      }
      for k := 0 to |batch|
        invariant Valid() && Leaves() == old(Leaves()) + batch[..k]
        invariant k == 0 || old(leafCount) + k <= Usable(maxDepth)
      {
        var s := AppendOne(batch[k]);
        assert batch[..k + 1] == batch[..k] + [batch[k]];
        if s == Panicked {
          return Panicked;
        }
      }
      return Done;
    }

    // How many of m leaves a batch append takes into a tree of n leaves.
    function Taken(status: Status, n: nat, m: nat): (r: nat)
      requires status == Done || status == CapacityExceeded || n + m > Usable(maxDepth)
      requires status == Panicked ==> m > 0
      ensures r <= m
    {
      match status
      case Done => m
      case CapacityExceeded => 0
      case Panicked => if n >= Usable(maxDepth) then 1 else Usable(maxDepth) - n + 1
    }

    method RootLocked() returns (r: Result<D>)
      requires Valid()
      ensures r == if leafCount == 0 then ErrTreeEmpty else Ok(Root(h, Leaves()))
    {
      if leafCount == 0 {
        return ErrTreeEmpty;
      }
      var height := CurrentHeight();
      HeightBound(leafCount, maxDepth);
      LevelsAre(h, Leaves());
      var topLevel := levels[height - 1];
      if |topLevel| == 0 {
        return ErrTreeCorrupted;
      }
      r := Ok(topLevel[0]);
    }

    // One turn of the proof loop: the sibling of a node and its side.
    method SiblingNode(level: nat, currentIndex: nat) returns (node: ProofNode<D>)
      requires level < levels.Length && currentIndex < |levels[level]|
      ensures node == ProofNode(SiblingHash(levels[level], currentIndex), SideOf(currentIndex))
    {
      var siblingIndex := Sibling(currentIndex);
      var siblingHash;
      if siblingIndex < |levels[level]| {
        siblingHash := levels[level][siblingIndex];
      } else {
        siblingHash := levels[level][currentIndex];
      }
      var position := "right";
      if currentIndex % 2 == 1 {
        position := "left";
      }
      node := ProofNode(siblingHash, position);
    }

    method CollectPath(index: nat, height: nat, ghost built: seq<seq<D>>, ghost leaves: seq<D>)
      returns (path: seq<ProofNode<D>>)
      requires leaves != [] && built == Levels(h, leaves) && index < |leaves|
      requires height == |built| <= levels.Length
      requires forall k {:trigger levels[k]} :: 0 <= k < height ==> levels[k] == built[k]
      ensures path == Path(h, leaves, index)
    {
      path := [];
      var currentIndex: nat := index;
      LevelsStep(h, leaves, 0);
      for level := 0 to height - 1
        invariant currentIndex < |built[level]|
        invariant path + Path(h, built[level], currentIndex) == Path(h, leaves, index)
      {
        LevelsStep(h, leaves, level);
        PathStep(h, built[level], currentIndex, path);
        var node := SiblingNode(level, currentIndex);
        path := path + [node];
        currentIndex := currentIndex / 2;
      }
      LevelsStep(h, leaves, height - 1);
      assert path + [] == path;
    }

    method GetProof(index: int) returns (r: Result<Proof<D>>)
      requires Valid()
      ensures r == ErrInvalidIndex <==> index < 0 || index >= leafCount
      ensures 0 <= index < leafCount ==>
                r == Ok(Proof(index, Leaves()[index], Root(h, Leaves()), Path(h, Leaves(), index)))
    {
      if index < 0 || index >= leafCount {
        return ErrInvalidIndex;
      }
      var root := RootLocked();
      var height := CurrentHeight();
      HeightBound(leafCount, maxDepth);
      LevelsAre(h, Leaves());
      var path := CollectPath(index, height, Levels(h, Leaves()), Leaves());
      r := Ok(Proof(index, levels[0][index], root.value, path));
    }

    // Rebuilds the tree of the first oldSize leaves by appending them again.
    method GetConsistencyProof(oldSize: int) returns (r: Result<ConsistencyProof<D>>)
      requires Valid()
      ensures r == ErrInvalidIndex <==> oldSize <= 0 || oldSize > leafCount
      ensures r == Panic <==> 0 < oldSize <= leafCount && oldSize > Usable(maxDepth)
      ensures 0 < oldSize <= leafCount && oldSize <= Usable(maxDepth) ==>
                r == Ok(ConsistencyProof(Root(h, Leaves()[..oldSize]), Root(h, Leaves()),
                                         oldSize, leafCount, Leaves()[oldSize..]))
    {
      if oldSize <= 0 || oldSize > leafCount {
        return ErrInvalidIndex;
      }
      var oldTree := new Tree(h, maxDepth);
      for i := 0 to oldSize
        invariant oldTree.Valid() && oldTree.h == h && oldTree.maxDepth == maxDepth
        invariant fresh(oldTree) && fresh(oldTree.levels) && Valid() && Leaves() == old(Leaves())
        invariant oldTree.Leaves() == Leaves()[..i]
        invariant i <= Usable(maxDepth)
      {
        var s := oldTree.Append(levels[0][i]);
        assert Leaves()[..i + 1] == Leaves()[..i] + [Leaves()[i]];
        if s == Panicked {
          return Panic;
        }
      }
      assert Leaves()[..oldSize] == oldTree.Leaves();
      var oldRoot := oldTree.RootLocked();
      var newRoot := RootLocked();
      var proofPath: seq<D> := [];
      for i := oldSize to leafCount
        invariant proofPath == Leaves()[oldSize..i]
      {
        proofPath := proofPath + [levels[0][i]];
      }
      assert oldRoot.value == Root(h, Leaves()[..oldSize]);
      assert newRoot.value == Root(h, Leaves());
      assert proofPath == Leaves()[oldSize..];
      r := Ok(ConsistencyProof(oldRoot.value, newRoot.value, oldSize, leafCount, proofPath));
    }
  }

  method Verify<D(==)>(h: (D, D) -> D, p: Proof<D>) returns (ok: bool)
    ensures ok <==> Climb(h, p.leafHash, p.path) == p.root
  {
    var currentHash := p.leafHash;
    for k := 0 to |p.path|
      invariant Climb(h, currentHash, p.path[k..]) == Climb(h, p.leafHash, p.path)
    {
      var node := p.path[k];
      assert p.path[k..][1..] == p.path[k + 1..];
      if node.position == "right" {
        currentHash := h(currentHash, node.hash);
      } else {
        currentHash := h(node.hash, currentHash);
      }
    }
    ok := currentHash == p.root;
  }

  // ------------------------------------------------------------- theorems

  // An accepted proof against the tree's root, of the tree's path length and with
  // the positions of its index, carries that leaf and that path, or PathCollision
  // exhibits a collision.
  lemma AcceptedProofBinds<D>(h: (D, D) -> D, leaves: seq<D>, p: Proof<D>)
    requires 0 <= p.leafIndex < |leaves| && |p.path| == Height(|leaves|) - 1
    requires MatchesIndex(p.path, p.leafIndex) && p.root == Root(h, leaves)
    requires Climb(h, p.leafHash, p.path) == p.root
    ensures |Path(h, leaves, p.leafIndex)| == |p.path|
    ensures (p.leafHash == leaves[p.leafIndex] && SameHashes(p.path, Path(h, leaves, p.leafIndex)))
            || FoundCollision(h, PathCollision(h, p.leafHash, p.path,
                                               leaves[p.leafIndex], Path(h, leaves, p.leafIndex)))
  {
    PathClimbs(h, leaves, p.leafIndex);
    PathBinding(h, p.leafHash, p.path, leaves[p.leafIndex], Path(h, leaves, p.leafIndex), p.leafIndex);
  }
}

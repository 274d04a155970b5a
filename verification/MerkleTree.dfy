// server/internal/merkle/tree.go: the tree rebuilt from scratch, its proofs and
// the exact condition under which they verify.
module MerkleTree {
  import opened Bits
  import opened MerkleSpec
  import opened Sequences

  datatype Tree<D> = Tree(leaves: seq<D>, nodes: seq<seq<D>>, root: D)

  datatype Proof<D> = Proof(leafIndex: int, leafHash: D, path: seq<ProofNode<D>>, root: D)

  datatype Result<T> = Ok(value: T) | EmptyLeaves | IndexOutOfRange

  // The tree NewTree builds over s.
  ghost predicate TreeOf<D>(h: (D, D) -> D, t: Tree<D>, s: seq<D>) {
    |s| > 0 && t.leaves == s && t.nodes == Levels(h, s) && t.root == Root(h, s)
  }

  method BuildTree<D>(h: (D, D) -> D, leaves: seq<D>) returns (levels: seq<seq<D>>)
    ensures leaves == [] ==> levels == []
    ensures leaves != [] ==> levels == Levels(h, leaves)
  {
    if |leaves| == 0 {
      return [];
    }
    levels := [leaves];
    var currentLevel := leaves;
    while |currentLevel| > 1
      invariant |currentLevel| > 0
      invariant levels != [] && levels[|levels| - 1] == currentLevel
      invariant levels[..|levels| - 1] + Levels(h, currentLevel) == Levels(h, leaves)
      decreases |currentLevel|
    {
      var nextLevel: seq<D> := [];
      var i := 0;
      while i < |currentLevel|
        invariant i % 2 == 0 && 0 <= i <= |currentLevel| + 1
        invariant |nextLevel| == i / 2
        invariant nextLevel == Up(h, currentLevel)[..i / 2]
      {
        var left := currentLevel[i];
        var right := left;
        if i + 1 < |currentLevel| {
          right := currentLevel[i + 1];
        }
        assert h(left, right) == Parent(h, currentLevel, i / 2);
        nextLevel := nextLevel + [h(left, right)];
        i := i + 2;
      }
      assert nextLevel == Up(h, currentLevel);
      ghost var before := levels;
      levels := levels + [nextLevel];
      assert before[..|before| - 1] + Levels(h, currentLevel) == before + Levels(h, nextLevel);
      assert levels[..|levels| - 1] == before;
      currentLevel := nextLevel;
    }
    assert levels[..|levels| - 1] + Levels(h, currentLevel) == levels;
  }

  method NewTree<D>(h: (D, D) -> D, leaves: seq<D>) returns (r: Result<Tree<D>>)
    ensures r == EmptyLeaves <==> leaves == []
    ensures leaves != [] ==> r.Ok? && TreeOf(h, r.value, leaves)
  {
    if |leaves| == 0 {
      return EmptyLeaves;
    }
    var nodes := BuildTree(h, leaves);
    LevelsStep(h, leaves, |nodes| - 1);
    r := Ok(Tree(leaves, nodes, nodes[|nodes| - 1][0]));
  }

  // ------------------------------------------------------------ GetProof

  // The path GetProof collects: Path without the siblings of unpaired nodes.
  function ShortPath<D>(h: (D, D) -> D, s: seq<D>, i: nat): seq<ProofNode<D>>
    requires i < |s|
    decreases |s|
  {
    if |s| == 1 then []
    else if Sibling(i) < |s| then [ProofNode(s[Sibling(i)], SideOf(i))] + ShortPath(h, Up(h, s), i / 2)
    else ShortPath(h, Up(h, s), i / 2)
  }

  lemma ShortPathStep<D>(h: (D, D) -> D, s: seq<D>, i: nat, before: seq<ProofNode<D>>)
    requires |s| > 1 && i < |s|
    ensures before + ShortPath(h, s, i)
            == before + (if Sibling(i) < |s| then [ProofNode(s[Sibling(i)], SideOf(i))] else [])
               + ShortPath(h, Up(h, s), i / 2)
  {
    if Sibling(i) < |s| {
      Regroup(before, ProofNode(s[Sibling(i)], SideOf(i)), ShortPath(h, Up(h, s), i / 2));
    } else {
      assert before + [] == before;
    }
  }

  method GetProof<D>(t: Tree<D>, index: int, ghost h: (D, D) -> D) returns (r: Result<Proof<D>>)
    requires TreeOf(h, t, t.leaves)
    ensures r == IndexOutOfRange <==> index < 0 || index >= |t.leaves|
    ensures 0 <= index < |t.leaves| ==>
              r == Ok(Proof(index, t.leaves[index], ShortPath(h, t.leaves, index), Root(h, t.leaves)))
  {
    if index < 0 || index >= |t.leaves| {
      return IndexOutOfRange;
    }
    var path: seq<ProofNode<D>> := [];
    var currentIndex: nat := index;
    LevelsStep(h, t.leaves, 0);
    for level := 0 to |t.nodes| - 1
      invariant currentIndex < |t.nodes[level]|
      invariant path + ShortPath(h, t.nodes[level], currentIndex) == ShortPath(h, t.leaves, index)
    {
      LevelsStep(h, t.leaves, level);
      ShortPathStep(h, t.nodes[level], currentIndex, path);
      var levelNodes := t.nodes[level];
      var siblingIndex := Sibling(currentIndex);
      if siblingIndex < |levelNodes| {
        path := path + [ProofNode(levelNodes[siblingIndex], SideOf(currentIndex))];
      }
      currentIndex := currentIndex / 2;
    }
    LevelsStep(h, t.leaves, |t.nodes| - 1);
    assert path + [] == path;
    r := Ok(Proof(index, t.leaves[index], path, t.root));
  }

  method VerifyProof<D(==)>(h: (D, D) -> D, proof: Proof<D>) returns (ok: bool)
    ensures ok <==> Climb(h, proof.leafHash, proof.path) == proof.root
  {
    var currentHash := proof.leafHash;
    for k := 0 to |proof.path|
      invariant Climb(h, currentHash, proof.path[k..]) == Climb(h, proof.leafHash, proof.path)
    {
      var node := proof.path[k];
      assert proof.path[k..][1..] == proof.path[k + 1..];
      if node.position == "right" {
        currentHash := h(currentHash, node.hash);
      } else {
        currentHash := h(node.hash, currentHash);
      }
    }
    ok := currentHash == proof.root;
  }

  // -------------------------------------------- when a short path verifies

  // Whether node i of a level of n nodes, or an ancestor below the root, has no sibling.
  predicate MeetsUnpaired(n: nat, i: nat)
    requires i < n
    decreases n
  {
    n > 1 && (Sibling(i) >= n || MeetsUnpaired((n + 1) / 2, i / 2))
  }

  lemma {:induction false} ShortPathIsPath<D>(h: (D, D) -> D, s: seq<D>, i: nat)
    requires i < |s| && !MeetsUnpaired(|s|, i)
    ensures ShortPath(h, s, i) == Path(h, s, i)
    decreases |s|
  {
    if |s| > 1 {
      ShortPathIsPath(h, Up(h, s), i / 2);
    }
  }

  // An ideal hash: digests are the terms they were computed from.
  datatype Term = Atom(id: nat) | Node(left: Term, right: Term)

  function Free(): (Term, Term) -> Term {
    (l: Term, r: Term) => Node(l, r)
  }

  function Size(t: Term): nat {
    match t
    case Atom(_) => 1
    case Node(l, r) => 1 + Size(l) + Size(r)
  }

  // Under the ideal hash the short path computes a term no larger than the root,
  // and a strictly smaller one as soon as it has skipped a duplicated node.
  lemma {:induction false} ShortPathSize(x: Term, s: seq<Term>, i: nat)
    requires i < |s| && Size(x) <= Size(s[i])
    ensures Size(Climb(Free(), x, ShortPath(Free(), s, i))) <= Size(Root(Free(), s))
    ensures Size(x) < Size(s[i]) || MeetsUnpaired(|s|, i) ==>
              Size(Climb(Free(), x, ShortPath(Free(), s, i))) < Size(Root(Free(), s))
    decreases |s|
  {
    if |s| > 1 {
      var t := Up(Free(), s);
      var p := ShortPath(Free(), s, i);
      assert t[i / 2] == Parent(Free(), s, i / 2);
      if Sibling(i) < |s| {
        var node := ProofNode(s[Sibling(i)], SideOf(i));
        assert p[0] == node && p[1..] == ShortPath(Free(), t, i / 2);
        ShortPathSize(ClimbStep(Free(), x, node), t, i / 2);
      } else {
        ShortPathSize(x, t, i / 2);
      }
    }
  }

  // The proof of index i verifies for every hash when no node on i's path is
  // unpaired, and under the ideal hash only then.
  lemma ProofVerifiesIff<D>(h: (D, D) -> D, s: seq<D>, terms: seq<Term>, i: nat)
    requires i < |s| && |terms| == |s|
    ensures !MeetsUnpaired(|s|, i) ==> Climb(h, s[i], ShortPath(h, s, i)) == Root(h, s)
    ensures Climb(Free(), terms[i], ShortPath(Free(), terms, i)) == Root(Free(), terms)
            <==> !MeetsUnpaired(|terms|, i)
  {
    if MeetsUnpaired(|s|, i) {
      ShortPathSize(terms[i], terms, i);
    } else {
      ShortPathIsPath(h, s, i);
      PathClimbs(h, s, i);
      ShortPathIsPath(Free(), terms, i);
      PathClimbs(Free(), terms, i);
    }
  }

  // Some proof of the tree is short exactly when the leaf count is not a power of
  // two, and then the last leaf's proof is one of them.
  lemma {:induction false} AllProofsVerifyIffPow2(n: nat)
    requires n >= 1
    ensures MeetsUnpaired(n, n - 1) <==> !IsPow2(n)
    ensures (forall i :: 0 <= i < n ==> !MeetsUnpaired(n, i)) <==> IsPow2(n)
    decreases n
  {
    if n > 1 {
      AllProofsVerifyIffPow2((n + 1) / 2);
      if n % 2 == 0 {
        assert (n + 1) / 2 == n / 2 && (n - 1) / 2 == n / 2 - 1;
        forall i | 0 <= i < n && IsPow2(n)
          ensures !MeetsUnpaired(n, i)
        {
          assert Sibling(i) < n;
          assert !MeetsUnpaired((n + 1) / 2, i / 2);
        }
      } else {
        assert Sibling(n - 1) >= n;
      }
    }
  }

  // ---------------------------------- accepted short paths under any other hash

  // Node q of level b is node p of level a, or an ancestor of it.
  predicate Over(p: nat, a: nat, q: nat, b: nat)
    decreases b - a
  {
    if a >= b then a == b && p == q else Over(p / 2, a + 1, q, b)
  }

  // Some digest of the tree equals one of its own proper ancestors.
  ghost predicate OwnAncestor<D>(h: (D, D) -> D, s: seq<D>) {
    exists a: nat, p: nat, b: nat, q: nat :: a < b < Height(|s|) && MeetsAgain(h, s, a, p, b, q)
  }

  ghost predicate MeetsAgain<D>(h: (D, D) -> D, s: seq<D>, a: nat, p: nat, b: nat, q: nat) {
    && Over(p, a, q, b)
    && p < |LevelAt(h, s, a)| && q < |LevelAt(h, s, b)| && LevelAt(h, s, a)[p] == LevelAt(h, s, b)[q]
  }

  ghost predicate Repeated<D>(h: (D, D) -> D, base: seq<D>, c: Option<Collision<D>>) {
    OwnAncestor(h, base) || FoundCollision(h, c)
  }

  // The climb of a short path enters node i of level s with value y, last hashed from
  // `last`. The collision shows at the highest node that is skipped, or above it.
  function ShortCollision<D(==)>(h: (D, D) -> D, s: seq<D>, i: nat, y: D, last: Option<Pair<D>>): Option<Collision<D>>
    requires i < |s|
    decreases |s|
  {
    if |s| == 1 then None
    else
      var up := Up(h, s);
      if Sibling(i) < |s| then
        var pair := StepOperands(y, ProofNode(s[Sibling(i)], SideOf(i)));
        ShortCollision(h, up, i / 2, h(pair.left, pair.right), Some(pair))
      else if MeetsUnpaired(|up|, i / 2) then ShortCollision(h, up, i / 2, y, last)
      else
        var above := PathCollision(h, y, Path(h, up, i / 2), up[i / 2], Path(h, up, i / 2));
        if above.Some? then above
        else if last.Some? && last.value != Pair(s[i], s[i]) then Some(Collision(last.value, Pair(s[i], s[i])))
        else None
  }

  // Where the value of the climb comes from: it is a digest below node i, or it was
  // hashed from a pair that contains one.
  ghost predicate Origin<D>(h: (D, D) -> D, base: seq<D>, level: nat, i: nat, y: D, last: Option<Pair<D>>,
                            a: nat, p: nat) {
    && a <= level && p < |LevelAt(h, base, a)| && Over(p, a, i, level)
    && match last
       case None => LevelAt(h, base, a)[p] == y
       case Some(pair) =>
         && a < level && h(pair.left, pair.right) == y
         && (LevelAt(h, base, a)[p] == pair.left || LevelAt(h, base, a)[p] == pair.right)
  }

  lemma {:induction false} OverStep(p: nat, a: nat, q: nat, b: nat)
    requires Over(p, a, q, b)
    ensures Over(p, a, q / 2, b + 1)
    decreases b - a
  {
    if a < b {
      OverStep(p / 2, a + 1, q, b);
    } else {
      assert Over(p / 2, a + 1, q / 2, b + 1);
    }
  }

  // One level up without hashing.
  lemma OriginSkips<D>(h: (D, D) -> D, base: seq<D>, level: nat, i: nat, y: D, last: Option<Pair<D>>, a: nat, p: nat)
    requires Origin(h, base, level, i, y, last, a, p)
    ensures Origin(h, base, level + 1, i / 2, y, last, a, p)
  {
    OverStep(p, a, i, level);
  }

  // One level up by hashing with the sibling.
  lemma OriginHashes<D>(h: (D, D) -> D, base: seq<D>, level: nat, i: nat, y: D)
    requires i < |LevelAt(h, base, level)| && Sibling(i) < |LevelAt(h, base, level)|
    ensures var pair := StepOperands(y, ProofNode(LevelAt(h, base, level)[Sibling(i)], SideOf(i)));
            Origin(h, base, level + 1, i / 2, h(pair.left, pair.right), Some(pair), level, Sibling(i))
  {
    assert Over(Sibling(i), level, Sibling(i), level);
    OverStep(Sibling(i), level, Sibling(i), level);
  }

  // The parent of an unpaired node is the node hashed with itself.
  lemma DuplicatedParent<D>(h: (D, D) -> D, s: seq<D>, i: nat)
    requires i < |s| && Sibling(i) >= |s|
    ensures Up(h, s)[i / 2] == h(s[i], s[i])
  {
    assert Up(h, s)[i / 2] == Parent(h, s, i / 2);
  }

  // At the highest skipped node the climb's value must be the hash of that node with
  // itself, or two pairs above collide.
  lemma SkippedValue<D>(h: (D, D) -> D, s: seq<D>, i: nat, y: D)
    requires i < |s| && |s| > 1 && Sibling(i) >= |s| && !MeetsUnpaired(|Up(h, s)|, i / 2)
    requires Climb(h, y, ShortPath(h, Up(h, s), i / 2)) == Root(h, Up(h, s))
    ensures var path := Path(h, Up(h, s), i / 2);
            var above := PathCollision(h, y, path, Up(h, s)[i / 2], path);
            FoundCollision(h, above) || (above == None && y == Up(h, s)[i / 2] == h(s[i], s[i]))
  {
    var up := Up(h, s);
    ShortPathIsPath(h, up, i / 2);
    SamePath(h, up, i / 2, y);
    DuplicatedParent(h, s, i);
  }

  lemma SamePath<D>(h: (D, D) -> D, s: seq<D>, i: nat, y: D)
    requires i < |s| && Climb(h, y, Path(h, s, i)) == Root(h, s)
    ensures var found := PathCollision(h, y, Path(h, s, i), s[i], Path(h, s, i));
            FoundCollision(h, found) || (found == None && y == s[i])
  {
    PathClimbs(h, s, i);
    PathBinding(h, y, Path(h, s, i), s[i], Path(h, s, i), i);
    PathCollisionSound(h, y, Path(h, s, i), s[i], Path(h, s, i));
  }

  // Then a digest below the node repeats above, unless the pair that was hashed last
  // collides with it.
  lemma OriginRepeats<D>(h: (D, D) -> D, base: seq<D>, level: nat, i: nat, x: D, y: D, last: Option<Pair<D>>,
                         a: nat, p: nat)
    requires Origin(h, base, level, i, y, last, a, p) && level + 1 < Height(|base|)
    requires i < |LevelAt(h, base, level)| && LevelAt(h, base, level)[i] == x
    requires i / 2 < |LevelAt(h, base, level + 1)| && LevelAt(h, base, level + 1)[i / 2] == y
    requires last.None? || last.value == Pair(x, x)
    ensures OwnAncestor(h, base)
  {
    if last.None? {
      OverStep(p, a, i, level);
      assert MeetsAgain(h, base, a, p, level + 1, i / 2);
    } else {
      assert MeetsAgain(h, base, a, p, level, i);
    }
  }

  lemma HighestSkip<D>(h: (D, D) -> D, base: seq<D>, level: nat, i: nat, y: D, last: Option<Pair<D>>, a: nat, p: nat)
    requires Origin(h, base, level, i, y, last, a, p) && level + 1 < Height(|base|)
    requires var s := LevelAt(h, base, level);
             |s| > 1 && i < |s| && Sibling(i) >= |s| && !MeetsUnpaired(|Up(h, s)|, i / 2)
             && Climb(h, y, ShortPath(h, Up(h, s), i / 2)) == Root(h, Up(h, s))
    ensures Repeated(h, base, ShortCollision(h, LevelAt(h, base, level), i, y, last))
  {
    var s := LevelAt(h, base, level);
    SkippedValue(h, s, i, y);
    var path := Path(h, Up(h, s), i / 2);
    if PathCollision(h, y, path, Up(h, s)[i / 2], path) == None {
      if last == None || last.value == Pair(s[i], s[i]) {
        OriginRepeats(h, base, level, i, s[i], y, last, a, p);
      }
    }
  }

  lemma ShortStep<D>(h: (D, D) -> D, s: seq<D>, i: nat, y: D)
    requires i < |s| && |s| > 1 && Sibling(i) < |s|
    ensures var pair := StepOperands(y, ProofNode(s[Sibling(i)], SideOf(i)));
            Climb(h, y, ShortPath(h, s, i)) == Climb(h, h(pair.left, pair.right), ShortPath(h, Up(h, s), i / 2))
  {
    var node := ProofNode(s[Sibling(i)], SideOf(i));
    assert ShortPath(h, s, i)[0] == node && ShortPath(h, s, i)[1..] == ShortPath(h, Up(h, s), i / 2);
  }

  // The short path of node i skips a node from there on, and its climb from y still ends
  // in the root.
  ghost predicate Skips<D>(h: (D, D) -> D, s: seq<D>, i: nat, y: D) {
    i < |s| && MeetsUnpaired(|s|, i) && Climb(h, y, ShortPath(h, s, i)) == Root(h, s)
  }

  lemma SkipsHigher<D>(h: (D, D) -> D, s: seq<D>, i: nat, y: D)
    requires Skips(h, s, i, y) && Sibling(i) < |s|
    ensures var pair := StepOperands(y, ProofNode(s[Sibling(i)], SideOf(i)));
            Skips(h, Up(h, s), i / 2, h(pair.left, pair.right))
  {
    ShortStep(h, s, i, y);
  }

  lemma LevelAbove<D>(h: (D, D) -> D, base: seq<D>, s: seq<D>, level: nat)
    requires |base| > 0 && level < Height(|base|) && s == LevelAt(h, base, level) && |s| > 1
    ensures level + 1 < Height(|base|) && Up(h, s) == LevelAt(h, base, level + 1)
  {
    LevelSize(h, base, level);
  }

  // An accepted path that skipped a node exhibits a collision or a digest that is its
  // own ancestor, whatever the hash.
  lemma {:induction false} ShortClimb<D>(h: (D, D) -> D, base: seq<D>, s: seq<D>, level: nat, i: nat, y: D,
                                         last: Option<Pair<D>>, a: nat, p: nat)
    requires |base| > 0 && level < Height(|base|) && s == LevelAt(h, base, level)
    requires Origin(h, base, level, i, y, last, a, p) && Skips(h, s, i, y)
    ensures Repeated(h, base, ShortCollision(h, s, i, y, last))
    decreases |s|, 1
  {
    LevelAbove(h, base, s, level);
    if Sibling(i) < |s| {
      ClimbPaired(h, base, s, level, i, y, last);
    } else if MeetsUnpaired(|Up(h, s)|, i / 2) {
      OriginSkips(h, base, level, i, y, last, a, p);
      ClimbSkipped(h, base, s, level, i, y, last, a, p);
    } else {
      HighestSkip(h, base, level, i, y, last, a, p);
    }
  }

  lemma {:induction false} ClimbPaired<D>(h: (D, D) -> D, base: seq<D>, s: seq<D>, level: nat, i: nat, y: D,
                                          last: Option<Pair<D>>)
    requires |base| > 0 && level + 1 < Height(|base|)
    requires s == LevelAt(h, base, level) && Up(h, s) == LevelAt(h, base, level + 1)
    requires Skips(h, s, i, y) && Sibling(i) < |s|
    ensures Repeated(h, base, ShortCollision(h, s, i, y, last))
    decreases |s|, 0
  {
    var pair := StepOperands(y, ProofNode(s[Sibling(i)], SideOf(i)));
    OriginHashes(h, base, level, i, y);
    SkipsHigher(h, s, i, y);
    ShortClimb(h, base, Up(h, s), level + 1, i / 2, h(pair.left, pair.right), Some(pair), level, Sibling(i));
  }

  lemma {:induction false} ClimbSkipped<D>(h: (D, D) -> D, base: seq<D>, s: seq<D>, level: nat, i: nat, y: D,
                                           last: Option<Pair<D>>, a: nat, p: nat)
    requires |base| > 0 && level + 1 < Height(|base|) && Up(h, s) == LevelAt(h, base, level + 1)
    requires Origin(h, base, level + 1, i / 2, y, last, a, p)
    requires Skips(h, s, i, y) && Sibling(i) >= |s| && MeetsUnpaired(|Up(h, s)|, i / 2)
    ensures Repeated(h, base, ShortCollision(h, s, i, y, last))
    decreases |s|, 0
  {
    ShortClimb(h, base, Up(h, s), level + 1, i / 2, y, last, a, p);
  }

  lemma ShortProofAccepted<D>(h: (D, D) -> D, s: seq<D>, i: nat)
    requires i < |s| && Climb(h, s[i], ShortPath(h, s, i)) == Root(h, s)
    ensures !MeetsUnpaired(|s|, i) || OwnAncestor(h, s) || FoundCollision(h, ShortCollision(h, s, i, s[i], None))
  {
    if MeetsUnpaired(|s|, i) {
      assert LevelAt(h, s, 0) == s && Origin(h, s, 0, i, s[i], None, 0, i);
      ShortClimb(h, s, s, 0, i, s[i], None, 0, i);
    }
  }
}

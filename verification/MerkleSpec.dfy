// What the Merkle trees of this repository compute, independently of how each
// file computes it: a level is halved by hashing neighbours, and an unpaired
// node is hashed with itself. SHA-256 over two concatenated digests is an
// arbitrary function `h` of the pair; security statements say "equal, or here is
// a collision of h", with the collision computed by a function.
module MerkleSpec {
  import opened Bits
  import opened Hashing
  import opened Sequences

  // "right": the sibling is the right operand; any other string means left.
  datatype ProofNode<D> = ProofNode(hash: D, position: string)

  datatype Pair<D> = Pair(left: D, right: D)

  datatype Collision<D> = Collision(first: Pair<D>, second: Pair<D>)

  predicate IsCollision<D(==)>(h: (D, D) -> D, c: Collision<D>) {
    c.first != c.second && h(c.first.left, c.first.right) == h(c.second.left, c.second.right)
  }

  predicate FoundCollision<D(==)>(h: (D, D) -> D, c: Option<Collision<D>>) {
    c.Some? && IsCollision(h, c.value)
  }

  // ---------------------------------------------------------------- levels

  // The operands hashed into parent i of level s.
  function Operands<D>(s: seq<D>, i: nat): Pair<D>
    requires i < (|s| + 1) / 2
  {
    Pair(s[2 * i], if 2 * i + 1 < |s| then s[2 * i + 1] else s[2 * i])
  }

  function Parent<D>(h: (D, D) -> D, s: seq<D>, i: nat): D
    requires i < (|s| + 1) / 2
  {
    h(Operands(s, i).left, Operands(s, i).right)
  }

  function Up<D>(h: (D, D) -> D, s: seq<D>): (r: seq<D>)
    ensures |r| == (|s| + 1) / 2
  {
    seq((|s| + 1) / 2, i requires 0 <= i < (|s| + 1) / 2 => Parent(h, s, i))
  }

  function LevelAt<D>(h: (D, D) -> D, s: seq<D>, k: nat): seq<D> {
    if k == 0 then s else Up(h, LevelAt(h, s, k - 1))
  }

  function Levels<D>(h: (D, D) -> D, s: seq<D>): seq<seq<D>>
    decreases |s|
  {
    if |s| <= 1 then [s] else [s] + Levels(h, Up(h, s))
  }

  function Root<D>(h: (D, D) -> D, s: seq<D>): D
    requires |s| > 0
    decreases |s|
  {
    if |s| == 1 then s[0] else Root(h, Up(h, s))
  }

  lemma {:induction false} LevelAtUp<D>(h: (D, D) -> D, s: seq<D>, k: nat)
    ensures LevelAt(h, Up(h, s), k) == LevelAt(h, s, k + 1)
  {
    if k > 0 {
      LevelAtUp(h, s, k - 1);
    }
  }

  // Levels lists exactly the first Height(|s|) levels, and the last one is the root.
  lemma {:induction false} LevelsAre<D>(h: (D, D) -> D, s: seq<D>)
    requires |s| > 0
    ensures |Levels(h, s)| == Height(|s|)
    ensures forall k :: 0 <= k < Height(|s|) ==> Levels(h, s)[k] == LevelAt(h, s, k)
    ensures LevelAt(h, s, Height(|s|) - 1) == [Root(h, s)]
    decreases |s|
  {
    if |s| > 1 {
      var t := Up(h, s);
      LevelsAre(h, t);
      assert Levels(h, s) == [s] + Levels(h, t) && Height(|s|) == Height(|t|) + 1;
      forall k | 0 <= k < Height(|s|)
        ensures Levels(h, s)[k] == LevelAt(h, s, k)
      {
        if k > 0 {
          LevelAtUp(h, s, k - 1);
          assert Levels(h, s)[k] == Levels(h, t)[k - 1];
        }
      }
      LevelAtUp(h, s, Height(|t|) - 1);
    }
  }

  // The levels of a tree, one after the other.
  lemma {:induction false} LevelsStep<D>(h: (D, D) -> D, s: seq<D>, k: nat)
    requires |s| > 0 && k < |Levels(h, s)|
    ensures Levels(h, s)[0] == s && |Levels(h, s)[k]| > 0
    ensures k + 1 == |Levels(h, s)| ==> |Levels(h, s)[k]| == 1 && Levels(h, s)[k] == [Root(h, s)]
    ensures k + 1 < |Levels(h, s)| ==> |Levels(h, s)[k]| > 1 && Levels(h, s)[k + 1] == Up(h, Levels(h, s)[k])
    decreases |s|
  {
    if |s| > 1 {
      var t := Up(h, s);
      if k > 0 {
        LevelsStep(h, t, k - 1);
        assert Levels(h, s)[k] == Levels(h, t)[k - 1];
      } else {
        LevelsStep(h, t, 0);
      }
    }
  }

  lemma {:induction false} LevelAtEmpty<D>(h: (D, D) -> D, k: nat)
    ensures LevelAt(h, [], k) == []
  {
    if k > 0 {
      LevelAtEmpty(h, k - 1);
    }
  }

  // Sizes of the levels, by the same halving as Height.
  lemma {:induction false} LevelSize<D>(h: (D, D) -> D, s: seq<D>, k: nat)
    requires |s| > 0 && k < Height(|s|)
    ensures |LevelAt(h, s, k)| > 0
    ensures Height(|LevelAt(h, s, k)|) == Height(|s|) - k
  {
    if k > 0 {
      LevelSize(h, s, k - 1);
    }
  }

  // ----------------------------------------------------------------- paths

  // index ^ 1
  function Sibling(i: nat): nat {
    if i % 2 == 0 then i + 1 else i - 1
  }

  function SideOf(i: nat): string {
    if i % 2 == 1 then "left" else "right"
  }

  // The sibling of node i, where an unpaired node is its own sibling.
  function SiblingHash<D>(s: seq<D>, i: nat): D
    requires i < |s|
  {
    if Sibling(i) < |s| then s[Sibling(i)] else s[i]
  }

  function Path<D>(h: (D, D) -> D, s: seq<D>, i: nat): seq<ProofNode<D>>
    requires i < |s|
    decreases |s|
  {
    if |s| == 1 then []
    else [ProofNode(SiblingHash(s, i), SideOf(i))] + Path(h, Up(h, s), i / 2)
  }

  function StepOperands<D>(x: D, node: ProofNode<D>): Pair<D> {
    if node.position == "right" then Pair(x, node.hash) else Pair(node.hash, x)
  }

  function ClimbStep<D>(h: (D, D) -> D, x: D, node: ProofNode<D>): D {
    h(StepOperands(x, node).left, StepOperands(x, node).right)
  }

  function Climb<D>(h: (D, D) -> D, x: D, path: seq<ProofNode<D>>): D {
    if path == [] then x else Climb(h, ClimbStep(h, x, path[0]), path[1..])
  }

  // The positions of a path spell the binary digits of an index, lowest first.
  predicate MatchesIndex<D>(path: seq<ProofNode<D>>, i: nat) {
    path == [] || ((path[0].position == "right" <==> i % 2 == 0) && MatchesIndex(path[1..], i / 2))
  }

  // Completeness: the path of every index climbs from its leaf to the root.
  lemma {:induction false} PathClimbs<D>(h: (D, D) -> D, s: seq<D>, i: nat)
    requires i < |s|
    ensures Climb(h, s[i], Path(h, s, i)) == Root(h, s)
    ensures |Path(h, s, i)| == Height(|s|) - 1
    ensures MatchesIndex(Path(h, s, i), i)
    decreases |s|
  {
    if |s| > 1 {
      var node := ProofNode(SiblingHash(s, i), SideOf(i));
      assert ClimbStep(h, s[i], node) == Up(h, s)[i / 2];
      PathClimbs(h, Up(h, s), i / 2);
      assert Path(h, s, i)[1..] == Path(h, Up(h, s), i / 2);
    }
  }

  // One step of a path, appended to the nodes collected before it.
  lemma PathStep<D>(h: (D, D) -> D, s: seq<D>, i: nat, before: seq<ProofNode<D>>)
    requires |s| > 1 && i < |s|
    ensures before + Path(h, s, i)
            == before + [ProofNode(SiblingHash(s, i), SideOf(i))] + Path(h, Up(h, s), i / 2)
  {
    Regroup(before, ProofNode(SiblingHash(s, i), SideOf(i)), Path(h, Up(h, s), i / 2));
  }

  // --------------------------------------------------------------- binding

  // The first step at which two climbs hash different pairs to the same digest.
  function PathCollision<D(==)>(h: (D, D) -> D, x: D, p: seq<ProofNode<D>>, y: D, q: seq<ProofNode<D>>)
    : Option<Collision<D>>
    requires |p| == |q|
  {
    if p == [] then None
    else
      var a, b := StepOperands(x, p[0]), StepOperands(y, q[0]);
      if a != b && ClimbStep(h, x, p[0]) == ClimbStep(h, y, q[0]) then Some(Collision(a, b))
      else PathCollision(h, ClimbStep(h, x, p[0]), p[1..], ClimbStep(h, y, q[0]), q[1..])
  }

  lemma {:induction false} PathCollisionSound<D>(h: (D, D) -> D, x: D, p: seq<ProofNode<D>>, y: D, q: seq<ProofNode<D>>)
    requires |p| == |q|
    ensures PathCollision(h, x, p, y, q).Some? ==> IsCollision(h, PathCollision(h, x, p, y, q).value)
    decreases |p|
  {
    if p != [] {
      PathCollisionSound(h, ClimbStep(h, x, p[0]), p[1..], ClimbStep(h, y, q[0]), q[1..]);
    }
  }

  predicate SameHashes<D(==)>(p: seq<ProofNode<D>>, q: seq<ProofNode<D>>) {
    |p| == |q| && forall k :: 0 <= k < |p| ==> p[k].hash == q[k].hash
  }

  // Two climbs with the same sides that end in the same digest started from the
  // same leaf and saw the same siblings, or PathCollision is a collision.
  lemma {:induction false} PathBinding<D>(h: (D, D) -> D, x: D, p: seq<ProofNode<D>>,
                                          y: D, q: seq<ProofNode<D>>, i: nat)
    requires |p| == |q|
    requires MatchesIndex(p, i) && MatchesIndex(q, i)
    requires Climb(h, x, p) == Climb(h, y, q)
    ensures (x == y && SameHashes(p, q)) || FoundCollision(h, PathCollision(h, x, p, y, q))
  {
    if p != [] {
      var a, b := StepOperands(x, p[0]), StepOperands(y, q[0]);
      var x', y' := ClimbStep(h, x, p[0]), ClimbStep(h, y, q[0]);
      PathBinding(h, x', p[1..], y', q[1..], i / 2);
      if a == b && SameHashes(p[1..], q[1..]) {
        forall k | 0 <= k < |p|
          ensures p[k].hash == q[k].hash
        {
          if k > 0 {
            assert p[1..][k - 1].hash == q[1..][k - 1].hash;
          }
        }
      }
    }
  }

  // The first pair of level s hashed like a different pair of level t, if any.
  function LevelCollision<D(==)>(h: (D, D) -> D, s: seq<D>, t: seq<D>, i: nat): Option<Collision<D>>
    requires |s| == |t|
    decreases (|s| + 1) / 2 - i
  {
    if i >= (|s| + 1) / 2 then None
    else if Operands(s, i) != Operands(t, i) && Parent(h, s, i) == Parent(h, t, i)
      then Some(Collision(Operands(s, i), Operands(t, i)))
    else LevelCollision(h, s, t, i + 1)
  }

  // Search the levels from the leaves up.
  function TreeCollision<D(==)>(h: (D, D) -> D, s: seq<D>, t: seq<D>): Option<Collision<D>>
    requires |s| == |t|
    decreases |s|
  {
    if |s| <= 1 then None
    else if LevelCollision(h, s, t, 0).Some? then LevelCollision(h, s, t, 0)
    else TreeCollision(h, Up(h, s), Up(h, t))
  }

  lemma {:induction false} LevelCollisionFinds<D>(h: (D, D) -> D, s: seq<D>, t: seq<D>, i: nat, j: nat)
    requires |s| == |t| && i <= j < (|s| + 1) / 2
    requires Operands(s, j) != Operands(t, j) && Parent(h, s, j) == Parent(h, t, j)
    ensures FoundCollision(h, LevelCollision(h, s, t, i))
    decreases j - i
  {
    if i < j {
      LevelCollisionFinds(h, s, t, i + 1, j);
    }
  }

  lemma {:induction false} LevelCollisionSound<D>(h: (D, D) -> D, s: seq<D>, t: seq<D>, i: nat)
    requires |s| == |t|
    ensures LevelCollision(h, s, t, i).Some? ==> IsCollision(h, LevelCollision(h, s, t, i).value)
    decreases (|s| + 1) / 2 - i
  {
    if i < (|s| + 1) / 2 {
      LevelCollisionSound(h, s, t, i + 1);
    }
  }

  // Root binding: equally long leaf lists with one root are equal, or
  // TreeCollision is a collision.
  lemma {:induction false} RootBinding<D>(h: (D, D) -> D, s: seq<D>, t: seq<D>)
    requires |s| == |t| && |s| > 0
    requires Root(h, s) == Root(h, t)
    ensures s == t || FoundCollision(h, TreeCollision(h, s, t))
    decreases |s|
  {
    if |s| > 1 && s != t {
      LevelCollisionSound(h, s, t, 0);
      RootBinding(h, Up(h, s), Up(h, t));
      if Up(h, s) == Up(h, t) {
        var j :| 0 <= j < |s| && s[j] != t[j];
        assert Up(h, s)[j / 2] == Parent(h, s, j / 2) && Up(h, t)[j / 2] == Parent(h, t, j / 2);
        LevelCollisionFinds(h, s, t, 0, j / 2);
      }
    }
  }

  // Equal length is needed: repeating the last leaf of an odd list keeps the root.
  lemma RepeatedLastLeaf<D>(h: (D, D) -> D, s: seq<D>)
    requires |s| > 1 && |s| % 2 == 1
    ensures Root(h, s + [s[|s| - 1]]) == Root(h, s)
  {
    var n := |s|;
    var t := s + [s[n - 1]];
    assert |t| == n + 1 && t[n] == s[n - 1];
    forall i | 0 <= i < (n + 1) / 2
      ensures Up(h, t)[i] == Up(h, s)[i]
    {
      assert 2 * i < n;
      assert t[2 * i] == s[2 * i];
      assert 2 * i + 1 < n ==> t[2 * i + 1] == s[2 * i + 1];
      assert 2 * i + 1 >= n ==> 2 * i == n - 1;
      assert Operands(t, i) == Operands(s, i);
    }
    assert (n + 2) / 2 == (n + 1) / 2;
    assert Up(h, t) == Up(h, s);
  }

  // ------------------------------------------- binding when pairs are concatenated

  // A pair is hashed as the concatenation of its strings, and the leaves are strings of
  // any length. The collisions above are then collisions of the string hash, provided
  // the leaves compared have equal lengths.

  function Joined(p: Pair<string>): string {
    p.left + p.right
  }

  ghost predicate FoundShaCollision(sha: string -> string, c: Option<Collision<string>>) {
    c.Some? && ShaCollision(sha, Joined(c.value.first), Joined(c.value.second))
  }

  lemma {:induction false} PathCollisionJoined(sha: string -> string, width: nat, x: string, p: seq<ProofNode<string>>,
                                               y: string, q: seq<ProofNode<string>>, i: nat)
    requires FixedWidth(sha, width) && |x| == |y|
    requires |p| == |q| && MatchesIndex(p, i) && MatchesIndex(q, i)
    requires PathCollision(Concat(sha), x, p, y, q).Some?
    ensures FoundShaCollision(sha, PathCollision(Concat(sha), x, p, y, q))
    decreases |p|
  {
    var h := Concat(sha);
    var a, b := StepOperands(x, p[0]), StepOperands(y, q[0]);
    if a != b && ClimbStep(h, x, p[0]) == ClimbStep(h, y, q[0]) {
      if Joined(a) == Joined(b) {
        SameCut(a.left, a.right, b.left, b.right);
      }
    } else {
      PathCollisionJoined(sha, width, ClimbStep(h, x, p[0]), p[1..], ClimbStep(h, y, q[0]), q[1..], i / 2);
    }
  }

  lemma PathBindingJoined(sha: string -> string, width: nat, x: string, p: seq<ProofNode<string>>,
                          y: string, q: seq<ProofNode<string>>, i: nat)
    requires FixedWidth(sha, width) && |x| == |y|
    requires |p| == |q| && MatchesIndex(p, i) && MatchesIndex(q, i)
    requires Climb(Concat(sha), x, p) == Climb(Concat(sha), y, q)
    ensures (x == y && SameHashes(p, q)) || FoundShaCollision(sha, PathCollision(Concat(sha), x, p, y, q))
  {
    PathBinding(Concat(sha), x, p, y, q, i);
    if PathCollision(Concat(sha), x, p, y, q).Some? {
      PathCollisionJoined(sha, width, x, p, y, q, i);
    }
  }

  ghost predicate SameLengths(s: seq<string>, t: seq<string>) {
    |s| == |t| && forall k :: 0 <= k < |s| ==> |s[k]| == |t[k]|
  }

  lemma {:induction false} LevelCollisionJoined(sha: string -> string, s: seq<string>, t: seq<string>, i: nat)
    requires SameLengths(s, t) && LevelCollision(Concat(sha), s, t, i).Some?
    ensures FoundShaCollision(sha, LevelCollision(Concat(sha), s, t, i))
    decreases (|s| + 1) / 2 - i
  {
    var a, b := Operands(s, i), Operands(t, i);
    if a != b && Parent(Concat(sha), s, i) == Parent(Concat(sha), t, i) {
      if Joined(a) == Joined(b) {
        SameCut(a.left, a.right, b.left, b.right);
      }
    } else {
      LevelCollisionJoined(sha, s, t, i + 1);
    }
  }

  lemma {:induction false} TreeCollisionJoined(sha: string -> string, width: nat, s: seq<string>, t: seq<string>)
    requires FixedWidth(sha, width) && SameLengths(s, t) && TreeCollision(Concat(sha), s, t).Some?
    ensures FoundShaCollision(sha, TreeCollision(Concat(sha), s, t))
    decreases |s|
  {
    if LevelCollision(Concat(sha), s, t, 0).Some? {
      LevelCollisionJoined(sha, s, t, 0);
    } else {
      TreeCollisionJoined(sha, width, Up(Concat(sha), s), Up(Concat(sha), t));
    }
  }

  lemma RootBindingJoined(sha: string -> string, width: nat, s: seq<string>, t: seq<string>)
    requires FixedWidth(sha, width) && SameLengths(s, t) && |s| > 0
    requires Root(Concat(sha), s) == Root(Concat(sha), t)
    ensures s == t || FoundShaCollision(sha, TreeCollision(Concat(sha), s, t))
  {
    RootBinding(Concat(sha), s, t);
    if TreeCollision(Concat(sha), s, t).Some? {
      TreeCollisionJoined(sha, width, s, t);
    }
  }

  // Equal lengths are needed: the boundary between two leaves can be moved anywhere.
  lemma LengthsNeeded(sha: string -> string, x: string, y: string, z: string)
    ensures Root(Concat(sha), [x + y, z]) == Root(Concat(sha), [x, y + z])
  {
    assert (x + y) + z == x + (y + z);
    assert Up(Concat(sha), [x + y, z]) == [sha((x + y) + z)];
    assert Up(Concat(sha), [x, y + z]) == [sha(x + (y + z))];
  }
}

// verifier/pkg/verify/verifier.go: the offline verifier. It keeps one level at a
// time and decides certificates and disclosure proofs by a list of checks.
module OfflineVerifier {
  import opened Hashing
  import opened MerkleSpec
  import opened Sequences
  import MerkleTree

  type Hash = (string, string) -> string

  datatype CheckName =
    | SchemaVersion | RootHashFormat | MerkleProofs
    | CertificateID | EventHashes | MerkleTreeIntegrity
    | TimeProof | AnchorProof | EvidenceLevel

  datatype Check = Check(name: CheckName, passed: bool)

  datatype VerifyResult =
    VerifyResult(valid: bool, certID: string, rootHash: string, eventCount: nat, checks: seq<Check>)

  datatype EventProof = EventProof(eventIndex: int, eventHash: string, proofPath: seq<ProofNode<string>>)

  datatype Disclosure = Disclosure(
    schemaVersion: string, certID: string, rootHash: string, merkleProofs: seq<EventProof>)

  datatype Certificate = Certificate(
    certID: string, eventHashes: seq<string>, merkleTree: Option<MerkleTree.Tree<string>>, rootHash: string)

  predicate AllPassed(checks: seq<Check>) {
    forall k :: 0 <= k < |checks| ==> checks[k].passed
  }

  const SHA_PREFIX := "sha256:"

  predicate HasPrefix(s: string, prefix: string) {
    prefix <= s
  }

  method VerifyMerkleProof(h: Hash, leafHash: string, path: seq<ProofNode<string>>, rootHash: string)
    returns (ok: bool)
    ensures ok <==> Climb(h, leafHash, path) == rootHash
  {
    var currentHash := leafHash;
    for k := 0 to |path|
      invariant Climb(h, currentHash, path[k..]) == Climb(h, leafHash, path)
    {
      assert path[k..][1..] == path[k + 1..];
      if path[k].position == "right" {
        currentHash := h(currentHash, path[k].hash);
      } else {
        currentHash := h(path[k].hash, currentHash);
      }
    }
    ok := currentHash == rootHash;
  }

  // The same root as the full rebuild, holding one level at a time.
  method BuildMerkleRoot(h: Hash, leaves: seq<string>) returns (root: string)
    ensures root == if leaves == [] then "" else Root(h, leaves)
  {
    if |leaves| == 0 {
      return "";
    }
    var currentLevel := leaves;
    while |currentLevel| > 1
      invariant |currentLevel| > 0 && Root(h, currentLevel) == Root(h, leaves)
      decreases |currentLevel|
    {
      var nextLevel: seq<string> := [];
      var i := 0;
      while i < |currentLevel|
        invariant i % 2 == 0 && 0 <= i <= |currentLevel| + 1
        invariant |nextLevel| == i / 2
        invariant nextLevel == Up(h, currentLevel)[..i / 2]
      {
        var left := currentLevel[i];
        var right := left;
        if i + 1 < |currentLevel| {
          right := currentLevel[i + 1];
        }
        assert h(left, right) == Parent(h, currentLevel, i / 2);
        nextLevel := nextLevel + [h(left, right)];
        i := i + 2;
      }
      assert nextLevel == Up(h, currentLevel);
      currentLevel := nextLevel;
    }
    root := currentLevel[0];
  }

  predicate ProofAccepted(h: Hash, p: EventProof, rootHash: string) {
    Climb(h, p.eventHash, p.proofPath) == rootHash
  }

  ghost predicate AllAccepted(h: Hash, d: Disclosure) {
    forall k :: 0 <= k < |d.merkleProofs| ==> ProofAccepted(h, d.merkleProofs[k], d.rootHash)
  }

  ghost predicate DisclosureValid(h: Hash, d: Disclosure) {
    && d.schemaVersion != ""
    && HasPrefix(d.rootHash, SHA_PREFIX)
    && d.merkleProofs != []
    && AllAccepted(h, d)
  }

  method VerifyProof(h: Hash, d: Disclosure) returns (r: VerifyResult)
    ensures r.valid <==> DisclosureValid(h, d)
    ensures r.valid <==> AllPassed(r.checks)
    ensures r.certID == d.certID && r.rootHash == d.rootHash && r.eventCount == |d.merkleProofs|
    ensures r.checks == [Check(SchemaVersion, d.schemaVersion != ""), Check(RootHashFormat, "sha256:" <= d.rootHash),
                         Check(MerkleProofs, d.merkleProofs != [] && AllAccepted(h, d)),
                         Check(TimeProof, true), Check(AnchorProof, true)]
  {
    var valid := true;
    var checks := [];

    var schemaOk := d.schemaVersion != "";
    if !schemaOk {
      valid := false;
    }
    checks := checks + [Check(SchemaVersion, schemaOk)];

    var rootOk := HasPrefix(d.rootHash, SHA_PREFIX);
    if !rootOk {
      valid := false;
    }
    checks := checks + [Check(RootHashFormat, rootOk)];

    var merkleOk := true;
    if |d.merkleProofs| == 0 {
      merkleOk := false;
      valid := false;
    } else {
      var validProofs := 0;
      for k := 0 to |d.merkleProofs|
        invariant 0 <= validProofs <= k
        invariant validProofs == k <==>
                  forall j :: 0 <= j < k ==> ProofAccepted(h, d.merkleProofs[j], d.rootHash)
      {
        var mp := d.merkleProofs[k];
        var ok := VerifyMerkleProof(h, mp.eventHash, mp.proofPath, d.rootHash);
        if ok {
          validProofs := validProofs + 1;
        }
      }
      if validProofs != |d.merkleProofs| {
        merkleOk := false;
        valid := false;
      }
    }
    checks := checks + [Check(MerkleProofs, merkleOk)];
    checks := checks + [Check(TimeProof, true)] + [Check(AnchorProof, true)];
    assert valid <==> checks[0].passed && checks[1].passed && checks[2].passed;
    r := VerifyResult(valid, d.certID, d.rootHash, |d.merkleProofs|, checks);
  }

  ghost predicate CertificateValid(h: Hash, c: Certificate) {
    && c.certID != ""
    && c.eventHashes != []
    && MerkleOk(h, c)
  }

  // With the tree attached the root is rebuilt from the events; nothing hashes to "".
  ghost predicate MerkleOk(h: Hash, c: Certificate) {
    if c.merkleTree.None? then HasPrefix(c.rootHash, SHA_PREFIX)
    else c.rootHash == if c.eventHashes == [] then "" else Root(h, c.eventHashes)
  }

  method VerifyCertificate(h: Hash, c: Certificate) returns (r: VerifyResult)
    ensures r.valid <==> CertificateValid(h, c)
    ensures r.valid <==> AllPassed(r.checks)
    ensures r.certID == c.certID && r.rootHash == c.rootHash && r.eventCount == |c.eventHashes|
    ensures r.checks == [Check(CertificateID, c.certID != ""), Check(EventHashes, c.eventHashes != []),
                         Check(MerkleTreeIntegrity, MerkleOk(h, c)),
                         Check(TimeProof, true), Check(AnchorProof, true), Check(EvidenceLevel, true)]
  {
    var valid := true;
    var checks := [];

    var idOk := c.certID != "";
    if !idOk {
      valid := false;
    }
    checks := checks + [Check(CertificateID, idOk)];

    var eventsOk := |c.eventHashes| != 0;
    if !eventsOk {
      valid := false;
    }
    checks := checks + [Check(EventHashes, eventsOk)];

    var merkleOk := true;
    if c.merkleTree.Some? {
      var rebuiltRoot := BuildMerkleRoot(h, c.eventHashes);
      merkleOk := rebuiltRoot == c.rootHash;
    } else {
      merkleOk := HasPrefix(c.rootHash, SHA_PREFIX);
    }
    if !merkleOk {
      valid := false;
    }
    checks := checks + [Check(MerkleTreeIntegrity, merkleOk)];
    checks := checks + [Check(TimeProof, true)] + [Check(AnchorProof, true)] + [Check(EvidenceLevel, true)];
    assert valid <==> checks[0].passed && checks[1].passed && checks[2].passed;
    r := VerifyResult(valid, c.certID, c.rootHash, |c.eventHashes|, checks);
  }

  // ------------------------------------------------------------- theorems

  // A certificate as the server issues it, over the tree of its event hashes and with
  // the tree attached, passes the verifier.
  method IssueAndVerify(h: Hash, certID: string, eventHashes: seq<string>) returns (r: VerifyResult)
    requires eventHashes != []
    ensures r.valid <==> certID != ""
    ensures r.rootHash == Root(h, eventHashes) && r.eventCount == |eventHashes|
  {
    var tree := MerkleTree.NewTree(h, eventHashes);
    r := VerifyCertificate(h, Certificate(certID, eventHashes, Some(tree.value), tree.value.root));
  }

  // Two valid certificates with the tree attached, one root hash and equally many
  // events list the same events, or TreeCollision exhibits a collision. Without the
  // tree the events are not bound at all.
  lemma CertificateBindsEvents(h: Hash, c: Certificate, d: Certificate)
    requires c.merkleTree.Some? && d.merkleTree.Some?
    requires CertificateValid(h, c) && CertificateValid(h, d)
    requires c.rootHash == d.rootHash && |c.eventHashes| == |d.eventHashes|
    ensures c.eventHashes == d.eventHashes
            || FoundCollision(h, TreeCollision(h, c.eventHashes, d.eventHashes))
  {
    RootBinding(h, c.eventHashes, d.eventHashes);
  }

  // The verifier hashes concatenations: for event hashes of equal lengths the collision is
  // one of the string hash.
  lemma CertificateBindsStrings(sha: string -> string, width: nat, c: Certificate, d: Certificate)
    requires FixedWidth(sha, width) && c.merkleTree.Some? && d.merkleTree.Some?
    requires CertificateValid(Concat(sha), c) && CertificateValid(Concat(sha), d)
    requires c.rootHash == d.rootHash && SameLengths(c.eventHashes, d.eventHashes)
    ensures c.eventHashes == d.eventHashes
            || FoundShaCollision(sha, TreeCollision(Concat(sha), c.eventHashes, d.eventHashes))
  {
    RootBindingJoined(sha, width, c.eventHashes, d.eventHashes);
  }

  // The proofs the server's tree hands out for a list of event indices.
  function Disclosed(h: Hash, events: seq<string>, indices: seq<nat>): (r: seq<EventProof>)
    requires forall k :: 0 <= k < |indices| ==> indices[k] < |events|
    ensures |r| == |indices|
  {
    seq(|indices|, k requires 0 <= k < |indices| =>
      EventProof(indices[k], events[indices[k]], MerkleTree.ShortPath(h, events, indices[k])))
  }

  // They are all accepted when no disclosed index has an unpaired node below the root.
  lemma ServerProofsAccepted(h: Hash, events: seq<string>, indices: seq<nat>, schema: string, certID: string)
    requires events != [] && indices != [] && schema != ""
    requires forall k :: 0 <= k < |indices| ==> indices[k] < |events| && !MerkleTree.MeetsUnpaired(|events|, indices[k])
    requires HasPrefix(Root(h, events), SHA_PREFIX)
    ensures DisclosureValid(h, Disclosure(schema, certID, Root(h, events), Disclosed(h, events, indices)))
  {
    var proofs := Disclosed(h, events, indices);
    forall k | 0 <= k < |proofs|
      ensures ProofAccepted(h, proofs[k], Root(h, events))
    {
      MerkleTree.ShortPathIsPath(h, events, indices[k]);
      PathClimbs(h, events, indices[k]);
    }
  }

  // The tree shows neither a collision along the path of an index nor a digest that is
  // its own ancestor.
  ghost predicate Sound(h: Hash, events: seq<string>, i: nat)
    requires i < |events|
  {
    && !MerkleTree.OwnAncestor(h, events)
    && !FoundCollision(h, MerkleTree.ShortCollision(h, events, i, events[i], None))
  }

  lemma ServerProofIff(h: Hash, events: seq<string>, i: nat)
    requires i < |events| && Sound(h, events, i)
    ensures Climb(h, events[i], MerkleTree.ShortPath(h, events, i)) == Root(h, events)
            <==> !MerkleTree.MeetsUnpaired(|events|, i)
  {
    if MerkleTree.MeetsUnpaired(|events|, i) {
      if Climb(h, events[i], MerkleTree.ShortPath(h, events, i)) == Root(h, events) {
        MerkleTree.ShortProofAccepted(h, events, i);
      }
    } else {
      MerkleTree.ShortPathIsPath(h, events, i);
      PathClimbs(h, events, i);
    }
  }

  // In such a tree they are accepted only then.
  lemma ServerProofsIff(h: Hash, events: seq<string>, indices: seq<nat>, schema: string, certID: string)
    requires events != [] && forall k :: 0 <= k < |indices| ==> indices[k] < |events| && Sound(h, events, indices[k])
    ensures DisclosureValid(h, Disclosure(schema, certID, Root(h, events), Disclosed(h, events, indices))) <==>
            schema != "" && HasPrefix(Root(h, events), SHA_PREFIX) && indices != []
            && forall k :: 0 <= k < |indices| ==> !MerkleTree.MeetsUnpaired(|events|, indices[k])
  {
    EachProofIff(h, events, indices, Disclosure(schema, certID, Root(h, events), Disclosed(h, events, indices)));
  }

  lemma EachProofIff(h: Hash, events: seq<string>, indices: seq<nat>, d: Disclosure)
    requires events != [] && forall k :: 0 <= k < |indices| ==> indices[k] < |events| && Sound(h, events, indices[k])
    requires d.rootHash == Root(h, events) && d.merkleProofs == Disclosed(h, events, indices)
    ensures AllAccepted(h, d) <==> forall k :: 0 <= k < |indices| ==> !MerkleTree.MeetsUnpaired(|events|, indices[k])
  {
    forall k | 0 <= k < |indices|
      ensures ProofAccepted(h, d.merkleProofs[k], d.rootHash) <==> !MerkleTree.MeetsUnpaired(|events|, indices[k])
    {
      ServerProofIff(h, events, indices[k]);
    }
  }
}

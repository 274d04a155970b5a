// SHA-256 over strings, as the repository uses it: an arbitrary function whose digests
// all have one length, applied to concatenations.
module Hashing {

  ghost predicate FixedWidth(sha: string -> string, width: nat) {
    forall s :: |sha(s)| == width
  }

  predicate ShaCollision(sha: string -> string, x: string, y: string) {
    x != y && sha(x) == sha(y)
  }

  // Hashing a pair by hashing its concatenation.
  function Concat(sha: string -> string): (string, string) -> string {
    (a, b) => sha(a + b)
  }

  // A concatenation can be cut in only one way when the length of a part is known.
  lemma SameCut(a: string, b: string, c: string, d: string)
    requires a + b == c + d && (|a| == |c| || |b| == |d|)
    ensures a == c && b == d
  {
    assert |a| + |b| == |c| + |d|;
    assert a == (a + b)[..|a|] == (c + d)[..|c|] == c;
    assert b == (a + b)[|a|..] == (c + d)[|c|..] == d;
  }
}

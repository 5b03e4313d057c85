/** Sequence facts shared by the two parsers' round-trip proofs. */
module Seqs {

  /** Where the pieces of a parenthesised rendering of length `n` sit in a
      sequence: `x` at `i`, `l` up to `k`, `y` at `k`, `r` up to `m` and
      `z` at `m`. */
  lemma Split<T>(ts: seq<T>, i: nat, n: nat, x: T, l: seq<T>, y: T, r: seq<T>, z: T) returns (k: nat, m: nat)
    requires i + n <= |ts| && n == |l| + |r| + 3
    requires ts[i..i + n] == [x] + l + [y] + r + [z]
    ensures k == i + 1 + |l| && m == k + 1 + |r| && m + 1 == i + n
    ensures ts[i] == x && ts[i + 1..k] == l && ts[k] == y && ts[k + 1..m] == r && ts[m] == z
  {
    k, m := i + 1 + |l|, i + 2 + |l| + |r|;
    var w := [x] + l + [y] + r + [z];
    forall j | 0 <= j < n
      ensures ts[i + j] == w[j]
    {
      assert ts[i..i + n][j] == w[j];
    }
    assert ts[i] == w[0];
    forall j | 0 <= j < |l|
      ensures ts[i + 1 + j] == l[j]
    {
      assert w[1 + j] == l[j];
    }
    assert ts[k] == w[1 + |l|];
    forall j | 0 <= j < |r|
      ensures ts[k + 1 + j] == r[j]
    {
      assert w[2 + |l| + j] == r[j];
    }
    assert ts[m] == w[2 + |l| + |r|];
    assert ts[i + 1..k] == l;
    assert ts[k + 1..m] == r;
  }
}

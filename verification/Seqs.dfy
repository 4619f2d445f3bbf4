/** Facts about sequences that the other modules name instead of rediscovering them. */
module Seqs {

  lemma SliceSlice<T>(s: seq<T>, a: nat, b: nat, c: nat, d: nat)
    requires a <= b <= |s| && c <= d <= b - a
    ensures s[a..b][c..d] == s[a + c..a + d]
  {
    var t, u := s[a..b], s[a + c..a + d];
    forall i | 0 <= i < d - c
      ensures t[c..d][i] == u[i]
    {
      assert t[c..d][i] == t[c + i] == s[a + (c + i)];
    }
    assert t[c..d] == u;
  }

  lemma ConcatParts<T>(x: seq<T>, y: seq<T>, z: seq<T>)
    ensures (x + y + z)[..|x|] == x
    ensures (x + y + z)[|x|..|x| + |y|] == y
    ensures (x + y + z)[|x| + |y|..] == z
  {
  }
}

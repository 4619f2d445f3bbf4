/** Machine words as their bits, the most significant first. */
module Bits {

  type Word = seq<bool>

  function Zeros(n: nat): (r: Word)
    ensures |r| == n && forall i :: 0 <= i < n ==> !r[i]
  {
    seq(n, _ => false)
  }

  function Xor(a: Word, b: Word): (r: Word)
    requires |a| == |b|
    ensures |r| == |a| && forall i :: 0 <= i < |a| ==> r[i] == (a[i] != b[i])
  {
    seq(|a|, i requires 0 <= i < |a| => a[i] != b[i])
  }

  function Not(a: Word): (r: Word)
    ensures |r| == |a|
  {
    seq(|a|, i requires 0 <= i < |a| => !a[i])
  }

  lemma XorLaws(a: Word, b: Word)
    requires |a| == |b|
    ensures Xor(Xor(a, b), b) == a && Xor(a, b) == Xor(b, a)
    ensures Xor(Not(a), Not(b)) == Xor(a, b) && Xor(Not(a), b) == Not(Xor(a, b))
  {
  }

  /** Every entry of the table is the position of a bit of an n-bit word, counted from 1. */
  predicate Selects(table: seq<int>, n: nat)
  {
    forall i :: 0 <= i < |table| ==> 1 <= table[i] <= n
  }

  function Permute(table: seq<int>, s: Word): (r: Word)
    requires Selects(table, |s|)
    ensures |r| == |table|
  {
    seq(|table|, i requires 0 <= i < |table| => s[table[i] - 1])
  }

  lemma PermuteNot(table: seq<int>, s: Word)
    requires Selects(table, |s|)
    ensures Permute(table, Not(s)) == Not(Permute(table, s))
  {
  }

  /** The loops that shift selected bits into a result, one after the other. */
  method Select(table: seq<int>, s: Word) returns (result: Word)
    requires Selects(table, |s|)
    ensures result == Permute(table, s)
  {
    result := [];
    var i := 0;
    while i < |table|
      invariant 0 <= i <= |table|
      invariant result == Permute(table, s)[..i]
    {
      result := result + [s[table[i] - 1]];
      i := i + 1;
    }
  }
}

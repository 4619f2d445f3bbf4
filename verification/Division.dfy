/**
 Division by a polynomial with binary coefficients, one message bit at a time. A register lists
 its bits in the order in which they fall out, so that both bit orders of the checksums become
 the same division.
 */
module Division {

  import opened Bits

  function Next(r: seq<bool>): (n: seq<bool>)
    requires 0 < |r|
    ensures |n| == |r|
  {
    r[1..] + [false]
  }

  /** One step: the message bit is compared with the one that falls out, and the polynomial is
      subtracted when they differ. */
  function Step(poly: seq<bool>, r: seq<bool>, bit: bool): (n: seq<bool>)
    requires 0 < |r| == |poly|
    ensures |n| == |r|
  {
    if r[0] != bit then Xor(Next(r), poly) else Next(r)
  }

  function Divide(poly: seq<bool>, r: seq<bool>, bits: seq<bool>): (n: seq<bool>)
    requires 0 < |r| == |poly|
    ensures |n| == |r|
    decreases |bits|
  {
    if bits == [] then r else Divide(poly, Step(poly, r, bits[0]), bits[1..])
  }

  lemma {:induction false} DivideAppend(poly: seq<bool>, r: seq<bool>, a: seq<bool>, b: seq<bool>)
    requires 0 < |r| == |poly|
    ensures Divide(poly, r, a + b) == Divide(poly, Divide(poly, r, a), b)
    decreases |a|
  {
    if a == [] {
      assert a + b == b;
    } else {
      assert (a + b)[1..] == a[1..] + b;
      DivideAppend(poly, Step(poly, r, a[0]), a[1..], b);
    }
  }

  lemma StepLinear(poly: seq<bool>, x: seq<bool>, y: seq<bool>, a: bool, b: bool)
    requires 0 < |x| == |y| == |poly|
    ensures Step(poly, Xor(x, y), a != b) == Xor(Step(poly, x, a), Step(poly, y, b))
  {
  }

  /** The division is linear in the register and the message together. */
  lemma {:induction false} DivideLinear(poly: seq<bool>, x: seq<bool>, y: seq<bool>, a: seq<bool>, b: seq<bool>)
    requires 0 < |x| == |y| == |poly| && |a| == |b|
    ensures Divide(poly, Xor(x, y), Xor(a, b)) == Xor(Divide(poly, x, a), Divide(poly, y, b))
    decreases |a|
  {
    if a != [] {
      StepLinear(poly, x, y, a[0], b[0]);
      assert Xor(a, b)[1..] == Xor(a[1..], b[1..]);
      DivideLinear(poly, Step(poly, x, a[0]), Step(poly, y, b[0]), a[1..], b[1..]);
    }
  }

  /** `bits` at the end of the register where they fall out first. */
  function Pad(bits: seq<bool>, width: nat): (r: seq<bool>)
    requires |bits| <= width
    ensures |r| == width
  {
    bits + Zeros(width - |bits|)
  }

  /** Message bits may be added to the register all at once, instead of entering one by one. */
  lemma {:induction false} Enter(poly: seq<bool>, r: seq<bool>, bits: seq<bool>)
    requires 0 < |r| == |poly| && |bits| <= |r|
    ensures Divide(poly, r, bits) == Divide(poly, Xor(r, Pad(bits, |r|)), Zeros(|bits|))
    decreases |bits|
  {
    var w := |r|;
    if bits == [] {
      assert Xor(r, Pad([], w)) == r;
    } else {
      var rest := bits[1..];
      StepLinear(poly, r, Pad(bits, w), bits[0], bits[0]);
      assert Step(poly, Pad(bits, w), bits[0]) == Pad(rest, w);
      Enter(poly, Step(poly, r, bits[0]), rest);
      assert Zeros(|bits|)[1..] == Zeros(|rest|);
    }
  }

  /** What the bits that fall out first turn into: the entry of a lookup table. */
  function Entry(poly: seq<bool>, head: seq<bool>): (e: seq<bool>)
    requires 0 < |poly| && |head| <= |poly|
    ensures |e| == |poly|
  {
    Divide(poly, Pad(head, |poly|), Zeros(|head|))
  }

  lemma {:induction false} JustShifts(poly: seq<bool>, tail: seq<bool>, n: nat)
    requires 0 < |poly| == n + |tail|
    ensures Divide(poly, Zeros(n) + tail, Zeros(n)) == tail + Zeros(n)
  {
    JustShiftsTo(poly, tail, n, 0);
    assert tail + Zeros(0) == tail;
    assert Zeros(n) + (tail + Zeros(0)) == Zeros(n) + tail;
  }

  lemma {:induction false} JustShiftsTo(poly: seq<bool>, tail: seq<bool>, n: nat, m: nat)
    requires 0 < |poly| == n + |tail| + m
    ensures Divide(poly, Zeros(n) + (tail + Zeros(m)), Zeros(n)) == tail + Zeros(m + n)
    decreases n
  {
    var r := Zeros(n) + (tail + Zeros(m));
    if n == 0 {
      assert r == tail + Zeros(m);
    } else {
      assert Next(r) == Zeros(n - 1) + (tail + Zeros(m + 1));
      assert Zeros(n)[1..] == Zeros(n - 1);
      JustShiftsTo(poly, tail, n - 1, m + 1);
    }
  }

  lemma SplitRegister(r: seq<bool>, bits: seq<bool>)
    requires |bits| <= |r|
    ensures var n := |bits|;
            Xor(r, Pad(bits, |r|)) == Xor(Zeros(n) + r[n..], Pad(Xor(r[..n], bits), |r|))
  {
    var n, w := |bits|, |r|;
    var x, y := Xor(r, Pad(bits, w)), Xor(Zeros(n) + r[n..], Pad(Xor(r[..n], bits), w));
    forall i | 0 <= i < w
      ensures x[i] == y[i]
    {
    }
  }

  /** The table method: the bits that fall out select an entry, to which the rest of the
      register, moved up, is added. */
  lemma TableStep(poly: seq<bool>, r: seq<bool>, bits: seq<bool>)
    requires 0 < |r| == |poly| && |bits| <= |r|
    ensures var n := |bits|;
            Divide(poly, r, bits) == Xor(r[n..] + Zeros(n), Entry(poly, Xor(r[..n], bits)))
  {
    hide Divide, Xor, Zeros;
    var n, w := |bits|, |r|;
    var head := Xor(r[..n], bits);
    Enter(poly, r, bits);
    SplitRegister(r, bits);
    XorSelf(Zeros(n));
    assert Zeros(|Zeros(n)|) == Zeros(n);
    DivideLinear(poly, Zeros(n) + r[n..], Pad(head, w), Zeros(n), Zeros(n));
    JustShifts(poly, r[n..], n);
  }

  /** A message followed by its own check leaves nothing. */
  lemma OwnCheckLeavesZero(poly: seq<bool>, r: seq<bool>)
    requires 0 < |r| == |poly|
    ensures Divide(poly, r, r) == Zeros(|r|)
  {
    Enter(poly, r, r);
    assert Pad(r, |r|) == r && Xor(r, r) == Zeros(|r|);
    ZeroStays(poly, |r|, |r|);
  }

  lemma {:induction false} ZeroStays(poly: seq<bool>, w: nat, n: nat)
    requires 0 < w == |poly|
    ensures Divide(poly, Zeros(w), Zeros(n)) == Zeros(w)
  {
    if n > 0 {
      assert Next(Zeros(w)) == Zeros(w) && Zeros(n)[1..] == Zeros(n - 1);
      ZeroStays(poly, w, n - 1);
    }
  }

  // ---------- error detection ----------

  /** The polynomial has its constant term, as every generator has. */
  predicate Proper(poly: seq<bool>) {
    0 < |poly| && poly[|poly| - 1]
  }

  /** Some bit is set among the last `k + 1`. */
  ghost predicate Alive(r: seq<bool>, k: nat) {
    exists i :: 0 <= i < |r| && |r| - 1 - k <= i && r[i]
  }

  lemma {:induction false} StaysAlive(poly: seq<bool>, r: seq<bool>, errors: seq<bool>, k: nat)
    requires Proper(poly) && |r| == |poly| && Alive(r, k) && k + |errors| < |r|
    ensures Alive(Divide(poly, r, errors), k + |errors|)
    decreases |errors|
  {
    if errors != [] {
      var i :| 0 <= i < |r| && |r| - 1 - k <= i && r[i];
      var n := Step(poly, r, errors[0]);
      if r[0] != errors[0] {
        assert n[|r| - 1];
      } else {
        assert n[i - 1];
      }
      StaysAlive(poly, n, errors[1..], k + 1);
    }
  }

  /** A burst of errors that is no longer than the check does not divide out. */
  lemma {:induction false} BurstLeaves(poly: seq<bool>, errors: seq<bool>)
    requires Proper(poly) && |errors| <= |poly| && true in errors
    ensures Divide(poly, Zeros(|poly|), errors) != Zeros(|poly|)
    decreases |errors|
  {
    var w := |poly|;
    var zero := Zeros(w);
    if errors[0] {
      var n := Step(poly, zero, true);
      assert n[w - 1];
      StaysAlive(poly, n, errors[1..], 0);
    } else {
      assert Next(zero) == zero;
      BurstLeaves(poly, errors[1..]);
    }
  }

  lemma {:induction false} NonZeroStays(poly: seq<bool>, r: seq<bool>, n: nat)
    requires Proper(poly) && |r| == |poly| && r != Zeros(|r|)
    ensures Divide(poly, r, Zeros(n)) != Zeros(|r|)
    decreases n
  {
    if n > 0 {
      var s := Step(poly, r, false);
      if r[0] {
        assert s[|r| - 1];
      } else {
        var i :| 0 <= i < |r| && r[i] != Zeros(|r|)[i];
        assert s[i - 1];
      }
      assert Zeros(n)[1..] == Zeros(n - 1);
      NonZeroStays(poly, s, n - 1);
    }
  }

  lemma DivideParts(poly: seq<bool>, r: seq<bool>, pre: seq<bool>, a: seq<bool>, post: seq<bool>)
    requires 0 < |r| == |poly|
    ensures Divide(poly, r, pre + a + post) == Divide(poly, Divide(poly, Divide(poly, r, pre), a), post)
  {
    hide Divide;
    DivideAppend(poly, r, pre, a);
    DivideAppend(poly, r, pre + a, post);
  }

  lemma XorSelf(x: seq<bool>)
    ensures Xor(x, x) == Zeros(|x|)
  {
  }

  lemma XorDiffer(a: seq<bool>, b: seq<bool>)
    requires |a| == |b| && a != b
    ensures true in Xor(a, b) && Xor(a, b) != Zeros(|a|)
  {
    var i :| 0 <= i < |a| && a[i] != b[i];
    assert Xor(a, b)[i];
  }

  lemma BurstDiffers(poly: seq<bool>, s: seq<bool>, a: seq<bool>, b: seq<bool>)
    requires Proper(poly) && |s| == |poly| && |a| == |b| <= |poly| && a != b
    ensures Divide(poly, s, a) != Divide(poly, s, b)
  {
    hide Divide, Xor;
    DivideLinear(poly, s, s, a, b);
    XorSelf(s);
    XorDiffer(a, b);
    BurstLeaves(poly, Xor(a, b));
    XorSelf(Divide(poly, s, a));
  }

  lemma DifferenceStays(poly: seq<bool>, x: seq<bool>, y: seq<bool>, post: seq<bool>)
    requires Proper(poly) && |x| == |y| == |poly| && x != y
    ensures Divide(poly, x, post) != Divide(poly, y, post)
  {
    hide Divide, Xor;
    DivideLinear(poly, x, y, post, post);
    XorSelf(post);
    XorDiffer(x, y);
    NonZeroStays(poly, Xor(x, y), |post|);
    XorSelf(Divide(poly, x, post));
  }

  /** Two messages of the same length that differ only within a stretch as long as the check
      never have the same check, for any such polynomial and any initial register. */
  lemma BurstDetected(poly: seq<bool>, r: seq<bool>, pre: seq<bool>, a: seq<bool>, b: seq<bool>, post: seq<bool>)
    requires Proper(poly) && |r| == |poly| && |a| == |b| <= |poly| && a != b
    ensures Divide(poly, r, pre + a + post) != Divide(poly, r, pre + b + post)
  {
    hide Divide;
    var s := Divide(poly, r, pre);
    DivideParts(poly, r, pre, a, post);
    DivideParts(poly, r, pre, b, post);
    BurstDiffers(poly, s, a, b);
    DifferenceStays(poly, Divide(poly, s, a), Divide(poly, s, b), post);
  }
}

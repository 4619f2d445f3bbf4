/**
 Multiplication in the field of AES, and the mixing of columns that is built on it. Bytes are
 polynomials, addition is exclusive or.
 */
module Galois {

  function Add(x: bv8, y: bv8): (r: bv8)
  {
    x ^ y
  }

  /** Multiplication by x: the macro MUL2. */
  function Mul2(x: bv8): (r: bv8)
  {
    (x << 1) ^ (0x1B & ((x >> 7) * 0xFF))
  }

  /** The product that the loop accumulates: the bits of `fixed`, low bit first, select the
      doublings of `variable`. */
  function Mul(fixed: bv8, variable: bv8): (r: bv8)
    decreases fixed
  {
    if fixed == 0 then 0
    else Add(if fixed & 1 == 1 then variable else 0, Mul(fixed >> 1, Mul2(variable)))
  }

  /** What the lowest bit of `fixed` adds. */
  function Once(fixed: bv8, variable: bv8): (r: bv8)
  {
    if fixed & 1 == 1 then variable else 0
  }

  function Twice(f: bv8, v: bv8): (r: bv8)
  {
    Add(Once(f, v), Once(f >> 1, Mul2(v)))
  }

  function FourTimes(f: bv8, v: bv8): (r: bv8)
  {
    Add(Twice(f, v), Twice(f >> 2, Mul2(Mul2(v))))
  }

  /** The product with the loop unrolled. */
  function Product(f: bv8, v: bv8): (r: bv8)
  {
    Add(FourTimes(f, v), FourTimes(f >> 4, Mul2(Mul2(Mul2(Mul2(v))))))
  }

  lemma MulTwice(f: bv8, v: bv8)
    ensures Mul(f, v) == Add(Twice(f, v), Mul(f >> 2, Mul2(Mul2(v))))
  {
    hide Mul2, Add;
    var v1, v2 := Mul2(v), Mul2(Mul2(v));
    DropTwice(f);
    AddLaws(Once(f, v), Once(f >> 1, v1), Mul(f >> 2, v2));
    AddLaws(0, 0, 0);
  }

  lemma DropTwice(f: bv8)
    ensures (f >> 1) >> 1 == f >> 2 && (f >> 2) >> 2 == f >> 4 && (f >> 4) >> 4 == 0
  {
  }

  lemma MulFourTimes(f: bv8, v: bv8)
    ensures Mul(f, v) == Add(FourTimes(f, v), Mul(f >> 4, Mul2(Mul2(Mul2(Mul2(v))))))
  {
    hide Mul, Mul2, Add, Twice;
    var v2 := Mul2(Mul2(v));
    var v4 := Mul2(Mul2(v2));
    DropTwice(f);
    MulTwice(f, v);
    MulTwice(f >> 2, v2);
    AddLaws(Twice(f, v), Twice(f >> 2, v2), Mul(f >> 4, v4));
  }

  lemma ProductIsMul(f: bv8, v: bv8)
    ensures Mul(f, v) == Product(f, v)
  {
    hide Mul, Mul2, Add, FourTimes;
    var v4 := Mul2(Mul2(Mul2(Mul2(v))));
    DropTwice(f);
    MulFourTimes(f, v);
    MulFourTimes(f >> 4, v4);
    MulNothing(Mul2(Mul2(Mul2(Mul2(v4)))));
    AddLaws(FourTimes(f >> 4, v4), 0, 0);
  }

  lemma MulNothing(v: bv8)
    ensures Mul(0, v) == 0
  {
  }

  lemma AddLaws(x: bv8, y: bv8, z: bv8)
    ensures Add(x, y) == Add(y, x) && Add(x, 0) == x && Add(x, x) == 0
    ensures Add(Add(x, y), z) == Add(x, Add(y, z))
  {
  }

  lemma Mul2Linear(x: bv8, y: bv8)
    ensures Mul2(Add(x, y)) == Add(Mul2(x), Mul2(y))
    ensures Mul2(0) == 0
  {
  }

  lemma Swap4(p: bv8, q: bv8, r: bv8, s: bv8)
    ensures Add(Add(p, q), Add(r, s)) == Add(Add(p, r), Add(q, s))
  {
    hide Add;
    AddLaws(p, q, Add(r, s));
    AddLaws(q, r, s);
    AddLaws(r, q, s);
    AddLaws(p, r, Add(q, s));
  }

  /** The product distributes over addition on either side, and 1 and 2 act as they should:
      this makes it the product of the field. */
  lemma {:induction false} MulLinear(fixed: bv8, x: bv8, y: bv8)
    ensures Mul(fixed, Add(x, y)) == Add(Mul(fixed, x), Mul(fixed, y))
    decreases fixed
  {
    hide Add, Mul2;
    if fixed == 0 {
      AddLaws(0, 0, 0);
    } else {
      Mul2Linear(x, y);
      Smaller(fixed);
      MulLinear(fixed >> 1, Mul2(x), Mul2(y));
      if fixed & 1 == 1 {
        Swap4(x, y, Mul(fixed >> 1, Mul2(x)), Mul(fixed >> 1, Mul2(y)));
      } else {
        AddLaws(0, 0, 0);
        Swap4(0, 0, Mul(fixed >> 1, Mul2(x)), Mul(fixed >> 1, Mul2(y)));
      }
    }
  }

  lemma Smaller(f: bv8)
    requires f != 0
    ensures f >> 1 < f
  {
  }

  lemma {:induction false} MulLeftLinear(f: bv8, g: bv8, x: bv8)
    ensures Mul(Add(f, g), x) == Add(Mul(f, x), Mul(g, x))
    decreases f, g
  {
    if f == 0 {
      AddLaws(g, 0, 0);
      AddLaws(Mul(g, x), 0, 0);
    } else if g == 0 {
      AddLaws(f, 0, 0);
      AddLaws(Mul(f, x), 0, 0);
    } else {
      Smaller(f);
      MulLeftLinear(f >> 1, g >> 1, Mul2(x));
      Halves(f, g);
      MulLeftStep(f, g, x);
    }
  }

  lemma Halves(f: bv8, g: bv8)
    ensures Add(f, g) >> 1 == Add(f >> 1, g >> 1)
    ensures Add(f, g) & 1 == 1 <==> (f & 1 == 1) != (g & 1 == 1)
  {
  }

  lemma MulUnfold(f: bv8, x: bv8)
    ensures Mul(f, x) == Add(if f & 1 == 1 then x else 0, Mul(f >> 1, Mul2(x)))
  {
    if f == 0 {
      AddLaws(0, 0, 0);
    }
  }

  lemma MulLeftStep(f: bv8, g: bv8, x: bv8)
    requires Mul(Add(f, g) >> 1, Mul2(x)) == Add(Mul(f >> 1, Mul2(x)), Mul(g >> 1, Mul2(x)))
    requires Add(f, g) & 1 == 1 <==> (f & 1 == 1) != (g & 1 == 1)
    ensures Mul(Add(f, g), x) == Add(Mul(f, x), Mul(g, x))
  {
    hide Add, Mul, Mul2;
    MulUnfold(f, x);
    MulUnfold(g, x);
    MulUnfold(Add(f, g), x);
    var a, b := if f & 1 == 1 then x else 0, if g & 1 == 1 then x else 0;
    AddLaws(x, 0, 0);
    AddLaws(0, x, 0);
    AddLaws(0, 0, 0);
    Swap4(a, Mul(f >> 1, Mul2(x)), b, Mul(g >> 1, Mul2(x)));
  }

  lemma MulSmall(x: bv8)
    ensures Mul(1, x) == x && Mul(2, x) == Mul2(x) && Mul(3, x) == Add(x, Mul2(x))
  {
    assert Mul(1, x) == Add(x, Mul(0, Mul2(x)));
    assert Mul(2, x) == Add(0, Mul(1, Mul2(x)));
    assert Mul(3, x) == Add(x, Mul(1, Mul2(x)));
    assert Mul(1, Mul2(x)) == Add(Mul2(x), Mul(0, Mul2(Mul2(x))));
    hide Add, Mul2;
    AddLaws(x, 0, 0);
    AddLaws(Mul2(x), 0, 0);
  }

  method GaloisFieldMultiply(fixed: bv8, variable: bv8) returns (result: bv8)
    ensures result == Mul(fixed, variable)
  {
    result := 0;
    var f, v := fixed, variable;
    AddLaws(Mul(f, v), 0, 0);
    while f != 0
      invariant Add(result, Mul(f, v)) == Mul(fixed, variable)
      decreases f
    {
      hide Add, Mul, Mul2;
      Smaller(f);
      MulUnfold(f, v);
      Selected(f, v);
      AddLaws(result, if f & 1 == 1 then v else 0, Mul(f >> 1, Mul2(v)));
      result := Add(result, v & ((f & 0x01) * 0xFF));
      v := Mul2(v);
      f := f >> 1;
    }
    AddLaws(result, 0, 0);
  }

  lemma Selected(f: bv8, v: bv8)
    ensures v & ((f & 0x01) * 0xFF) == if f & 1 == 1 then v else 0
  {
  }

  // ---------- columns ----------

  function Mul3(x: bv8): (r: bv8)
  {
    Add(x, Mul2(x))
  }

  function Add4(p: bv8, q: bv8, r: bv8, s: bv8): (t: bv8)
  {
    Add(Add(p, q), Add(r, s))
  }

  /** One byte of a mixed column; the column is turned so that the byte comes first. */
  function Mix(a: bv8, b: bv8, c: bv8, d: bv8): (r: bv8)
  {
    Add4(Mul2(a), Mul3(b), c, d)
  }

  function InverseMix(a: bv8, b: bv8, c: bv8, d: bv8): (r: bv8)
  {
    Add4(Mul(14, a), Mul(11, b), Mul(13, c), Mul(9, d))
  }

  /** Doubling the variable doubles the fixed factor, and so 3 trebles it. */
  lemma MulDouble(f: bv8, g: bv8, x: bv8)
    requires 0 < f < 128 && g == f << 1
    ensures Mul(f, Mul2(x)) == Mul(g, x)
    ensures Mul(f, Mul3(x)) == Mul(Add(f, g), x)
  {
    hide Add, Mul, Mul2;
    Doubled(f, g);
    MulUnfold(g, x);
    AddLaws(Mul(f, Mul2(x)), 0, 0);
    MulLinear(f, x, Mul2(x));
    MulLeftLinear(f, g, x);
  }

  lemma Doubled(f: bv8, g: bv8)
    requires 0 < f < 128 && g == f << 1
    ensures g >> 1 == f && g & 1 == 0
  {
  }

  lemma MulLeftAdd4(f0: bv8, f1: bv8, f2: bv8, f3: bv8, x: bv8)
    ensures Add4(Mul(f0, x), Mul(f1, x), Mul(f2, x), Mul(f3, x)) == Mul(Add4(f0, f1, f2, f3), x)
  {
    hide Add, Mul;
    MulLeftLinear(f0, f1, x);
    MulLeftLinear(f2, f3, x);
    MulLeftLinear(Add(f0, f1), Add(f2, f3), x);
  }

  lemma Contributions(x: bv8)
    ensures Add4(Mul(14, Mul2(x)), Mul(11, x), Mul(13, x), Mul(9, Mul3(x))) == x
    ensures Add4(Mul(14, Mul3(x)), Mul(11, Mul2(x)), Mul(13, x), Mul(9, x)) == 0
    ensures Add4(Mul(14, x), Mul(11, Mul3(x)), Mul(13, Mul2(x)), Mul(9, x)) == 0
    ensures Add4(Mul(14, x), Mul(11, x), Mul(13, Mul3(x)), Mul(9, Mul2(x))) == 0
  {
    hide Add4, Mul, Mul2, Mul3;
    MulDouble(14, 28, x);
    MulDouble(11, 22, x);
    MulDouble(13, 26, x);
    MulDouble(9, 18, x);
    MulLeftAdd4(28, 11, 13, 27, x);
    MulLeftAdd4(18, 22, 13, 9, x);
    MulLeftAdd4(14, 29, 26, 9, x);
    MulLeftAdd4(14, 11, 23, 18, x);
    Coefficients();
    MulSmall(x);
    assert Mul(0, x) == 0 by { MulZero(x); }
  }

  lemma MulZero(x: bv8)
    ensures Mul(0, x) == 0
  {
  }

  /** The matrices of the two mixings are inverse to each other. */
  lemma Coefficients()
    ensures Add4(28, 11, 13, 27) == 1 && Add4(18, 22, 13, 9) == 0
    ensures Add4(14, 29, 26, 9) == 0 && Add4(14, 11, 23, 18) == 0
  {
  }

  lemma MulAdd4(f: bv8, p: bv8, q: bv8, r: bv8, s: bv8)
    ensures Mul(f, Add4(p, q, r, s)) == Add4(Mul(f, p), Mul(f, q), Mul(f, r), Mul(f, s))
  {
    hide Add, Mul;
    MulLinear(f, p, q);
    MulLinear(f, r, s);
    MulLinear(f, Add(p, q), Add(r, s));
  }

  lemma Turn4(p: bv8, q: bv8, r: bv8, s: bv8)
    ensures Add4(p, q, r, s) == Add4(q, r, s, p)
  {
  }

  lemma Merge(p0: bv8, p1: bv8, p2: bv8, p3: bv8, q0: bv8, q1: bv8, q2: bv8, q3: bv8)
    ensures Add(Add4(p0, p1, p2, p3), Add4(q0, q1, q2, q3)) == Add4(Add(p0, q0), Add(p1, q1), Add(p2, q2), Add(p3, q3))
  {
    hide Add;
    Swap4(p0, p1, q0, q1);
    Swap4(p2, p3, q2, q3);
    Swap4(Add(p0, p1), Add(p2, p3), Add(q0, q1), Add(q2, q3));
  }

  lemma Merge4(p0: bv8, p1: bv8, p2: bv8, p3: bv8, q0: bv8, q1: bv8, q2: bv8, q3: bv8,
               r0: bv8, r1: bv8, r2: bv8, r3: bv8, s0: bv8, s1: bv8, s2: bv8, s3: bv8)
    ensures Add4(Add4(p0, p1, p2, p3), Add4(q0, q1, q2, q3), Add4(r0, r1, r2, r3), Add4(s0, s1, s2, s3))
            == Add4(Add4(p0, q0, r0, s0), Add4(p1, q1, r1, s1), Add4(p2, q2, r2, s2), Add4(p3, q3, r3, s3))
  {
    hide Add;
    Merge(p0, p1, p2, p3, q0, q1, q2, q3);
    Merge(r0, r1, r2, r3, s0, s1, s2, s3);
    Merge(Add(p0, q0), Add(p1, q1), Add(p2, q2), Add(p3, q3), Add(r0, s0), Add(r1, s1), Add(r2, s2), Add(r3, s3));
  }

  /** The inverse matrix undoes the mixing of a column. The other three bytes are the same
      statement about the column turned round. */
  lemma MixInverts(a: bv8, b: bv8, c: bv8, d: bv8)
    ensures InverseMix(Mix(a, b, c, d), Mix(b, c, d, a), Mix(c, d, a, b), Mix(d, a, b, c)) == a
  {
    hide Add, Add4, Mul, Mul2, Mul3;
    var a2, b2, c2, d2 := Mul2(a), Mul2(b), Mul2(c), Mul2(d);
    var a3, b3, c3, d3 := Mul3(a), Mul3(b), Mul3(c), Mul3(d);
    MulAdd4(14, a2, b3, c, d);
    MulAdd4(11, b2, c3, d, a);
    Turn4(Mul(11, a), Mul(11, b2), Mul(11, c3), Mul(11, d));
    MulAdd4(13, c2, d3, a, b);
    Turn4(Mul(13, a), Mul(13, b), Mul(13, c2), Mul(13, d3));
    Turn4(Mul(13, b), Mul(13, c2), Mul(13, d3), Mul(13, a));
    MulAdd4(9, d2, a3, b, c);
    Turn4(Mul(9, d2), Mul(9, a3), Mul(9, b), Mul(9, c));
    Merge4(Mul(14, a2), Mul(14, b3), Mul(14, c), Mul(14, d), Mul(11, a), Mul(11, b2), Mul(11, c3), Mul(11, d),
           Mul(13, a), Mul(13, b), Mul(13, c2), Mul(13, d3), Mul(9, a3), Mul(9, b), Mul(9, c), Mul(9, d2));
    Contributions(a);
    Contributions(b);
    Contributions(c);
    Contributions(d);
    Alone(a);
  }

  lemma Alone(a: bv8)
    ensures Add4(a, 0, 0, 0) == a
  {
  }
}

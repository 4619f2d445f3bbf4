/**
 Cipher block chaining, section 6.2 of NIST SP 800-38A, over bytes: for blocks of any size and any
 functions on blocks.
 */
module Cbc {
  import opened Arithmetic
  import opened Bytes

  type Coder = seq<bv8> -> seq<bv8>

  ghost predicate Keeps(f: Coder, n: nat)
  {
    forall b :: |b| == n ==> |f(b)| == n
  }

  ghost predicate Undoes(d: Coder, e: Coder, n: nat)
  {
    forall b :: |b| == n ==> d(e(b)) == b
  }

  ghost function Encrypt(n: nat, e: Coder, iv: seq<bv8>, s: seq<bv8>): (r: seq<bv8>)
    requires 0 < n == |iv| && Keeps(e, n)
    decreases |s|
  {
    if |s| < n then [] else var c := e(XorBytes(s[..n], iv)); c + Encrypt(n, e, c, s[n..])
  }

  ghost function Decrypt(n: nat, d: Coder, iv: seq<bv8>, s: seq<bv8>): (r: seq<bv8>)
    requires 0 < n == |iv| && Keeps(d, n)
    decreases |s|
  {
    if |s| < n then [] else XorBytes(d(s[..n]), iv) + Decrypt(n, d, s[..n], s[n..])
  }

  /** The vector that is handed on: the last block of the cipher text. */
  function Carried(n: nat, iv: seq<bv8>, cipher: seq<bv8>): (r: seq<bv8>)
    requires n == |iv|
    ensures |r| == n
  {
    if |cipher| < n then iv else cipher[|cipher| - n..]
  }

  /** A whole number of blocks. */
  predicate Whole(n: nat, s: seq<bv8>)
    requires 0 < n
    decreases |s|
  {
    s == [] || (n <= |s| && Whole(n, s[n..]))
  }

  lemma {:induction false} WholeIsMultiple(n: nat, s: seq<bv8>)
    requires 0 < n
    ensures Whole(n, s) <==> |s| % n == 0
    decreases |s|
  {
    if n <= |s| {
      WholeIsMultiple(n, s[n..]);
      OneMore(|s| - n, n);
    } else if s != [] {
      Divided(n, 0, |s|);
    }
  }

  lemma OneMore(a: nat, n: nat)
    requires 0 < n
    ensures (a + n) % n == a % n
  {
    assert a + n == n * (a / n + 1) + a % n;
    Divided(n, a / n + 1, a % n);
  }

  lemma {:induction false} EncryptLength(n: nat, e: Coder, iv: seq<bv8>, s: seq<bv8>)
    requires 0 < n == |iv| && Keeps(e, n) && Whole(n, s)
    ensures |Encrypt(n, e, iv, s)| == |s| && Whole(n, Encrypt(n, e, iv, s))
    decreases |s|
  {
    if s != [] {
      var c := e(XorBytes(s[..n], iv));
      EncryptLength(n, e, c, s[n..]);
      Parts(c, Encrypt(n, e, c, s[n..]));
    }
  }

  lemma Parts(a: seq<bv8>, b: seq<bv8>)
    ensures (a + b)[..|a|] == a && (a + b)[|a|..] == b
  {
  }

  /** Decryption under the same vector gives back the message. */
  lemma {:induction false} RoundTrip(n: nat, e: Coder, d: Coder, iv: seq<bv8>, s: seq<bv8>)
    requires 0 < n == |iv| && Keeps(e, n) && Keeps(d, n) && Undoes(d, e, n) && Whole(n, s)
    ensures Decrypt(n, d, iv, Encrypt(n, e, iv, s)) == s
    decreases |s|
  {
    if s != [] {
      hide XorBytes;
      var x := XorBytes(s[..n], iv);
      var c, rest := e(x), Encrypt(n, e, e(x), s[n..]);
      RoundTrip(n, e, d, c, s[n..]);
      Parts(c, rest);
      XorBytesLaws(s[..n], iv);
      assert d(c) == x;
      assert s[..n] + s[n..] == s;
    }
  }

  lemma WholeParts(n: nat, a: seq<bv8>, b: seq<bv8>)
    requires 0 < n && Whole(n, a) && a != []
    ensures (a + b)[..n] == a[..n] && (a + b)[n..] == a[n..] + b
  {
  }

  lemma CarriedOn(n: nat, iv: seq<bv8>, c: seq<bv8>, rest: seq<bv8>)
    requires 0 < n == |iv| == |c| && Whole(n, rest)
    ensures Carried(n, iv, c + rest) == Carried(n, c, rest)
  {
  }

  /** A message in two pieces, the second under the vector that the first hands on. */
  lemma {:induction false} EncryptSplits(n: nat, e: Coder, iv: seq<bv8>, a: seq<bv8>, b: seq<bv8>)
    requires 0 < n == |iv| && Keeps(e, n) && Whole(n, a)
    ensures var first := Encrypt(n, e, iv, a);
            Encrypt(n, e, iv, a + b) == first + Encrypt(n, e, Carried(n, iv, first), b)
    decreases |a|
  {
    if a == [] {
      assert a + b == b;
    } else {
      hide XorBytes;
      WholeParts(n, a, b);
      var c := e(XorBytes(a[..n], iv));
      EncryptSplits(n, e, c, a[n..], b);
      EncryptLength(n, e, c, a[n..]);
      CarriedOn(n, iv, c, Encrypt(n, e, c, a[n..]));
    }
  }

  lemma {:induction false} DecryptSplits(n: nat, d: Coder, iv: seq<bv8>, a: seq<bv8>, b: seq<bv8>)
    requires 0 < n == |iv| && Keeps(d, n) && Whole(n, a)
    ensures Decrypt(n, d, iv, a + b) == Decrypt(n, d, iv, a) + Decrypt(n, d, Carried(n, iv, a), b)
    decreases |a|
  {
    if a == [] {
      assert a + b == b;
    } else {
      hide XorBytes;
      WholeParts(n, a, b);
      DecryptSplits(n, d, a[..n], a[n..], b);
      CarriedOn(n, iv, a[..n], a[n..]);
      assert a[..n] + a[n..] == a;
    }
  }

  lemma {:induction false} DecryptLength(n: nat, d: Coder, iv: seq<bv8>, s: seq<bv8>)
    requires 0 < n == |iv| && Keeps(d, n) && Whole(n, s)
    ensures |Decrypt(n, d, iv, s)| == |s|
    decreases |s|
  {
    if s != [] {
      DecryptLength(n, d, s[..n], s[n..]);
    }
  }

  /** Less than a block is ignored. */
  lemma Short(n: nat, e: Coder, iv: seq<bv8>, s: seq<bv8>)
    requires 0 < n == |iv| && Keeps(e, n) && |s| < n
    ensures Encrypt(n, e, iv, s) == [] && Decrypt(n, e, iv, s) == [] && Carried(n, iv, s) == iv && Whole(n, [])
  {
  }

  lemma Leftover(n: nat, e: Coder, iv: seq<bv8>, s: seq<bv8>, short: seq<bv8>)
    requires 0 < n == |iv| && Keeps(e, n) && Whole(n, s) && |short| < n
    ensures Encrypt(n, e, iv, s + short) == Encrypt(n, e, iv, s)
    ensures Decrypt(n, e, iv, s + short) == Decrypt(n, e, iv, s)
  {
    hide Encrypt, Decrypt, Whole, Keeps, Carried;
    EncryptSplits(n, e, iv, s, short);
    DecryptSplits(n, e, iv, s, short);
    Short(n, e, Carried(n, iv, Encrypt(n, e, iv, s)), short);
    Short(n, e, Carried(n, iv, s), short);
    Appended(Encrypt(n, e, iv, s));
    Appended(Decrypt(n, e, iv, s));
  }

  lemma Appended(s: seq<bv8>)
    ensures s + [] == s
  {
  }

  // ---------- a loop's view: one block more ----------

  lemma OneBlock(n: nat, e: Coder, iv: seq<bv8>, b: seq<bv8>)
    requires 0 < n == |iv| == |b| && Keeps(e, n)
    ensures Encrypt(n, e, iv, b) == e(XorBytes(b, iv)) && Decrypt(n, e, iv, b) == XorBytes(e(b), iv) && Whole(n, b)
  {
    hide XorBytes;
    assert b[..n] == b && b[n..] == [];
    assert Whole(n, []);
  }

  lemma {:induction false} WholeAppend(n: nat, a: seq<bv8>, b: seq<bv8>)
    requires 0 < n && Whole(n, a) && Whole(n, b)
    ensures Whole(n, a + b)
    decreases |a|
  {
    if a == [] {
      assert a + b == b;
    } else {
      WholeAppend(n, a[n..], b);
      WholeParts(n, a, b);
    }
  }

  lemma EncryptMore(n: nat, e: Coder, iv: seq<bv8>, a: seq<bv8>, b: seq<bv8>)
    requires 0 < n == |iv| == |b| && Keeps(e, n) && Whole(n, a)
    ensures var first := Encrypt(n, e, iv, a); var c := e(XorBytes(b, Carried(n, iv, first)));
            && Encrypt(n, e, iv, a + b) == first + c && Carried(n, iv, first + c) == c && Whole(n, a + b)
  {
    hide XorBytes;
    EncryptSplits(n, e, iv, a, b);
    OneBlock(n, e, Carried(n, iv, Encrypt(n, e, iv, a)), b);
    WholeAppend(n, a, b);
  }

  lemma DecryptMore(n: nat, d: Coder, iv: seq<bv8>, a: seq<bv8>, b: seq<bv8>)
    requires 0 < n == |iv| == |b| && Keeps(d, n) && Whole(n, a)
    ensures Decrypt(n, d, iv, a + b) == Decrypt(n, d, iv, a) + XorBytes(d(b), Carried(n, iv, a))
    ensures Carried(n, iv, a + b) == b && Whole(n, a + b)
  {
    hide XorBytes;
    DecryptSplits(n, d, iv, a, b);
    OneBlock(n, d, Carried(n, iv, a), b);
    WholeAppend(n, a, b);
  }

  /** Each block of the message needs two blocks of the cipher text and no more: a wrong vector
      spoils the first block only. */
  lemma VectorSpoilsFirst(n: nat, d: Coder, iv: seq<bv8>, wrong: seq<bv8>, s: seq<bv8>)
    requires 0 < n == |iv| == |wrong| && Keeps(d, n) && n <= |s|
    ensures Decrypt(n, d, iv, s)[n..] == Decrypt(n, d, wrong, s)[n..]
    ensures Decrypt(n, d, iv, s)[..n] == Decrypt(n, d, wrong, s)[..n] <==> iv == wrong
  {
    hide XorBytes;
    var b, rest := d(s[..n]), Decrypt(n, d, s[..n], s[n..]);
    Parts(XorBytes(b, iv), rest);
    Parts(XorBytes(b, wrong), rest);
    XorBytesLaws(iv, b);
    XorBytesLaws(wrong, b);
    XorBytesLaws(b, iv);
    XorBytesLaws(b, wrong);
  }
}

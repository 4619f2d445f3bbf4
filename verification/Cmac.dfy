/** Message authentication by CMAC: RFC 4493, section 6 of NIST SP 800-38B. */
module Cmacs {
  import opened Arithmetic
  import opened Bytes
  import opened ByteBuffers
  import opened Cbc
  import Des = CipherDeses
  import Aes = CipherAeses
  import AesKeys

  // ---------- the definition ----------

  function Zeros(n: nat): (s: seq<bv8>)
    ensures |s| == n
  {
    seq(n, _ => 0)
  }

  /** Doubling in the field: the bit that is shifted out comes back as the mask. */
  function Doubled(s: seq<bv8>, mask: bv8): (r: seq<bv8>)
    requires s != []
    ensures |r| == |s|
  {
    var shifted := ShiftedLeft(s, 0);
    if s[0] & 0x80 != 0 then shifted[|s| - 1 := XorByte(shifted[|s| - 1], mask)] else shifted
  }

  /** A short block is completed with a one and zeros. */
  function Completed(n: nat, m: seq<bv8>): (b: seq<bv8>)
    requires |m| < n
    ensures |b| == n
  {
    m + [0x80] + Zeros(n - 1 - |m|)
  }

  /** The last block, sections 2.4 and 2.3 of RFC 4493. */
  function Last(n: nat, k1: seq<bv8>, k2: seq<bv8>, m: seq<bv8>): (b: seq<bv8>)
    requires |k1| == |k2| == n && |m| <= n
    ensures |b| == n
  {
    if |m| == n then XorBytes(m, k1) else XorBytes(Completed(n, m), k2)
  }

  /** The message is taken block by block; the last is treated with one of the two keys. */
  ghost function Mac(n: nat, e: Coder, k1: seq<bv8>, k2: seq<bv8>, x: seq<bv8>, m: seq<bv8>): (t: seq<bv8>)
    requires 0 < n == |k1| == |k2| == |x| && Keeps(e, n)
    ensures |t| == n
    decreases |m|
  {
    if |m| <= n then e(XorBytes(Last(n, k1, k2, m), x))
    else Mac(n, e, k1, k2, e(XorBytes(m[..n], x)), m[n..])
  }

  ghost function Cmac(n: nat, e: Coder, mask: bv8, iv: seq<bv8>, m: seq<bv8>): (t: seq<bv8>)
    requires 0 < n == |iv| && Keeps(e, n)
    ensures |t| == n
  {
    var k1 := Doubled(e(Zeros(n)), mask);
    Mac(n, e, k1, Doubled(k1, mask), iv, m)
  }

  /** Doubling of the number, less the modulus when it does not fit. */
  lemma DoubledValue(s: seq<bv8>, mask: bv8)
    requires s != []
    ensures 2 * Value(s) < Power(|s|) ==> Value(Doubled(s, mask)) == 2 * Value(s)
    ensures 2 * Value(s) >= Power(|s|) ==>
              && Value(XorBytes(Doubled(s, mask), Zeros(|s| - 1) + [mask])) == 2 * Value(s) - Power(|s|)
  {
    hide LeftByte, Leaving, Value, Power, ShiftedLeft, XorByte;
    LeftDoubles(s, 0);
    LeftIsDoubling(s);
    TopBit(s[0]);
    ValueBound(ShiftedLeft(s, 0));
    var t := ShiftedLeft(s, 0);
    if s[0] & 0x80 != 0 {
      MaskTwice(t[|s| - 1], mask);
      assert XorBytes(Doubled(s, mask), Zeros(|s| - 1) + [mask]) == t by {
        forall i | 0 <= i < |s|
          ensures XorBytes(Doubled(s, mask), Zeros(|s| - 1) + [mask])[i] == t[i]
        {
          MaskNone(t[i]);
        }
      }
    }
  }

  lemma TopBit(x: bv8)
    ensures x & 0x80 != 0 <==> Leaving(x) == 1
    ensures Leaving(x) as nat == if x & 0x80 != 0 then 1 else 0
  {
  }

  lemma MaskTwice(x: bv8, mask: bv8)
    ensures XorByte(XorByte(x, mask), mask) == x
  {
  }

  lemma MaskNone(x: bv8)
    ensures XorByte(x, 0) == x
  {
  }

  // ---------- the message as it is prepared ----------

  function Padding(len: nat, n: nat): (p: nat)
    requires 0 < n
  {
    if len % n == 0 then 0 else n - len % n
  }

  /** Where the last block starts. */
  function Cut(len: nat, n: nat): (c: nat)
    requires 0 < n && 0 < len
    ensures c < len <= c + n && c == len + Padding(len, n) - n
    ensures len - c == n <==> len % n == 0
  {
    var q, r := len / n, len % n;
    assert len == n * q + r;
    if q > 0 then AtLeast(n, q); len + Padding(len, n) - n else len + Padding(len, n) - n
  }

  function Prepared(n: nat, k1: seq<bv8>, k2: seq<bv8>, m: seq<bv8>): (data: seq<bv8>)
    requires 0 < n == |k1| == |k2| && m != []
    ensures |data| >= n
  {
    m[..Cut(|m|, n)] + Last(n, k1, k2, m[Cut(|m|, n)..])
  }

  lemma CutOne(len: nat, n: nat)
    requires 0 < len <= n
    ensures Cut(len, n) == 0
  {
    if len < n {
      Divided(n, 0, len);
    } else {
      Divided(n, 1, 0);
    }
  }

  lemma CutMore(len: nat, n: nat)
    requires 0 < n < len
    ensures Cut(len, n) == n + Cut(len - n, n)
  {
    OneMore(len - n, n);
  }

  /** The chain over the prepared message ends in the code of the message. */
  lemma {:induction false} ChainEndsInMac(n: nat, e: Coder, k1: seq<bv8>, k2: seq<bv8>, x: seq<bv8>, m: seq<bv8>)
    requires 0 < n == |k1| == |k2| == |x| && Keeps(e, n) && m != []
    ensures Whole(n, Prepared(n, k1, k2, m))
    ensures Carried(n, x, Encrypt(n, e, x, Prepared(n, k1, k2, m))) == Mac(n, e, k1, k2, x, m)
    decreases |m|
  {
    hide XorBytes, Last;
    var data := Prepared(n, k1, k2, m);
    if |m| <= n {
      CutOne(|m|, n);
      assert data == Last(n, k1, k2, m);
      OneBlock(n, e, x, data);
    } else {
      CutMore(|m|, n);
      var rest := Prepared(n, k1, k2, m[n..]);
      assert data == m[..n] + rest by {
        assert m[..Cut(|m|, n)] == m[..n] + m[n..][..Cut(|m| - n, n)];
        assert m[Cut(|m|, n)..] == m[n..][Cut(|m| - n, n)..];
      }
      var c := e(XorBytes(m[..n], x));
      ChainEndsInMac(n, e, k1, k2, c, m[n..]);
      OneBlock(n, e, x, m[..n]);
      EncryptSplits(n, e, x, m[..n], rest);
      WholeAppend(n, m[..n], rest);
      EncryptLength(n, e, c, rest);
      CarriedOn(n, x, c, Encrypt(n, e, c, rest));
    }
  }

  // ---------- the padding can be undone ----------

  function Padded(n: nat, m: seq<bv8>): (r: seq<bv8>)
    requires 0 < n && |m| % n != 0
  {
    m + [0x80] + Zeros(n - |m| % n - 1)
  }

  /** Two messages that both need padding are never padded to the same blocks. */
  lemma PaddingInjective(n: nat, a: seq<bv8>, b: seq<bv8>)
    requires 0 < n && |a| % n != 0 && |b| % n != 0 && a != b
    ensures Padded(n, a) != Padded(n, b)
  {
    if |Padded(n, a)| == |Padded(n, b)| {
      if |a| < |b| {
        MarkDiffers(n, a, b);
      } else if |b| < |a| {
        MarkDiffers(n, b, a);
      } else {
        assert Padded(n, a)[..|a|] == a && Padded(n, b)[..|b|] == b;
      }
    }
  }

  lemma MarkDiffers(n: nat, a: seq<bv8>, b: seq<bv8>)
    requires 0 < n && |a| % n != 0 && |b| % n != 0 && |a| < |b| && |Padded(n, a)| == |Padded(n, b)|
    ensures Padded(n, a)[|b|] != Padded(n, b)[|b|]
  {
  }

  // ---------- the code ----------

  /** The next key: the bits of the last one a place to the left, and the mask on the last byte
      when a bit was lost. */
  method NextKey(k: ByteBuffer, mask: bv8) returns (next: ByteBuffer)
    requires k.data.Length > 0
    ensures fresh(next) && fresh(next.data) && next.Valid()
    ensures next.data[..] == Doubled(k.data[..], mask)
  {
    hide ShiftedLeft, XorByte;
    next := ShiftBitsLeft(k);
    var size := k.data.Length;
    if k.data[0] & 0x80 != 0 {
      next.data[size - 1] := XorByte(next.data[size - 1], mask);
    }
  }

  /** A key is added to the last bytes of the data, in place. */
  method AddKey(data: ByteBuffer, k: seq<bv8>)
    requires data.Valid() && |k| <= data.limit == data.data.Length
    modifies data.data
    ensures var at := data.limit - |k|; data.data[..] == old(data.data[..at]) + XorBytes(old(data.data[at..]), k)
  {
    hide XorByte;
    var at := data.limit - |k|;
    var i := 0;
    while i < |k|
      invariant 0 <= i <= |k|
      invariant forall j :: at <= j < at + i ==> data.data[j] == XorByte(old(data.data[j]), k[j - at])
      invariant forall j :: 0 <= j < data.data.Length && !(at <= j < at + i) ==> data.data[j] == old(data.data[j])
    {
      data.data[at + i] := XorByte(data.data[at + i], k[i]);
      i := i + 1;
    }
  }

  /** The message, padded when it is not whole. */
  function Filled(n: nat, m: seq<bv8>): (r: seq<bv8>)
    requires 0 < n && m != []
    ensures |r| == |m| + Padding(|m|, n) == Cut(|m|, n) + n
  {
    if |m| % n == 0 then m else Padded(n, m)
  }

  lemma FilledParts(n: nat, k1: seq<bv8>, k2: seq<bv8>, m: seq<bv8>)
    requires 0 < n == |k1| == |k2| && m != []
    ensures var f, c := Filled(n, m), Cut(|m|, n);
            Prepared(n, k1, k2, m) == f[..c] + XorBytes(f[c..], if |m| % n == 0 then k1 else k2)
  {
    hide XorBytes;
    var f, c := Filled(n, m), Cut(|m|, n);
    assert f[..c] == m[..c];
    assert f[c..] == if |m| % n == 0 then m[c..] else Completed(n, m[c..]);
  }

  method Fill(size: nat, input: ByteBuffer) returns (data: ByteBuffer, whole: bool)
    requires 0 < size && input.Valid() && input.position < input.limit
    ensures whole == (|input.Rest()| % size == 0)
    ensures fresh(data) && fresh(data.data) && data.Valid()
    ensures data.position == data.limit == data.data.Length && data.data[..] == Filled(size, input.Rest())
  {
    hide Cut;
    var len := input.limit - input.position;
    ghost var m := input.Rest();
    var padding := if len % size == 0 then 0 else size - len % size;
    data := Zero(len + padding);
    data.PutBuffer(input);
    assert data.data[..len] == m;
    whole := padding == 0;
    if padding > 0 {
      data.Put(0x80);
      data.Push(padding - 1, true);
      assert data.data[..] == m + [0x80] + Zeros(padding - 1);
    }
  }

  /** The message is copied, padded when it is not whole, and its last block gets its key. */
  method Prepare(size: nat, k1: seq<bv8>, k2: seq<bv8>, input: ByteBuffer) returns (data: ByteBuffer)
    requires 0 < size == |k1| == |k2| && input.Valid() && input.position < input.limit
    ensures fresh(data) && fresh(data.data) && data.Valid() && data.position == 0
    ensures data.Rest() == Prepared(size, k1, k2, input.Rest())
  {
    hide XorBytes, Filled, Prepared, Cut, Padding;
    ghost var m := input.Rest();
    var whole: bool;
    data, whole := Fill(size, input);
    ghost var f, k := Filled(size, m), if |m| % size == 0 then k1 else k2;
    FilledParts(size, k1, k2, m);
    AddKey(data, if whole then k1 else k2);
    data.Flip();
    assert data.data[..] == f[..|f| - size] + XorBytes(f[|f| - size..], k);
  }

  /** Every second byte, starting from the second. */
  function SecondBytes(t: seq<bv8>): (r: seq<bv8>)
    ensures |r| == |t| / 2
  {
    seq(|t| / 2, i requires 0 <= i < |t| / 2 => t[2 * i + 1])
  }

  /** The comment in the source speaks of the left half. The two agree exactly on the codes in which
      every byte of the left half has a twin at twice its place and one. */
  lemma LeftHalfExactly(t: seq<bv8>)
    requires |t| == 16
    ensures SecondBytes(t) == t[..8] <==>
              t[0] == t[1] == t[3] == t[7] == t[15] && t[2] == t[5] == t[11] && t[4] == t[9] && t[6] == t[13]
  {
    var r := SecondBytes(t);
    assert r == t[..8] <==> r[0] == t[0] && r[1] == t[1] && r[2] == t[2] && r[3] == t[3]
                            && r[4] == t[4] && r[5] == t[5] && r[6] == t[6] && r[7] == t[7];
  }

  lemma NotTheLeftHalf()
    ensures var t: seq<bv8> := [0, 1, 2, 3, 4, 5, 6, 7, 8, 9, 10, 11, 12, 13, 14, 15];
            SecondBytes(t) == [1, 3, 5, 7, 9, 11, 13, 15] && SecondBytes(t) != t[..8]
  {
    var t: seq<bv8> := [0, 1, 2, 3, 4, 5, 6, 7, 8, 9, 10, 11, 12, 13, 14, 15];
    LeftHalfExactly(t);
    assert t[0] != t[1];
  }

  method Truncate(crypt: ByteBuffer) returns (result: ByteBuffer)
    requires crypt.data.Length == 16
    ensures fresh(result) && fresh(result.data) && result.Valid() && result.position == 0 && result.limit == 8
    ensures result.Rest() == SecondBytes(crypt.data[..])
  {
    result := new ByteBuffer(8);
    var i := 0;
    while i < 8
      invariant 0 <= i <= 8
      invariant result.position == 0 && result.limit == 8 == result.data.Length
      invariant forall j :: 0 <= j < i ==> result.data[j] == crypt.data[2 * j + 1]
    {
      result.data[i] := crypt.data[i * 2 + 1];
      i := i + 1;
    }
  }

  /** The code under AES with the schedule of the key: whole, or every second byte of it. The
      caller's vector stays as it is. */
  method CmacAes(cipher: Aes.CipherAes, key: ByteBuffer, input: ByteBuffer, iv: ByteBuffer, truncated: bool)
    returns (result: ByteBuffer)
    requires cipher.Valid() && key.Valid() && key.limit in {16, 24, 32} && key.data !in {cipher.aes128, cipher.aes192, cipher.aes256}
    requires input.Valid() && input.position < input.limit
    requires iv.Valid() && iv.data.Length == 16 && iv.position == 0 && iv.limit == 16
    requires {input.data, iv.data} !! {cipher.block.data, cipher.aes128, cipher.aes192, cipher.aes256}
    requires {input, iv} !! {cipher.block}
    modifies cipher, cipher.aes128, cipher.aes192, cipher.aes256, cipher.block, cipher.block.data
    ensures cipher.Valid() && cipher.mode == old(key.limit) && cipher.Context().Length == 16 * (cipher.mode / 4 + 7)
    ensures AesKeys.Scheduled(cipher.Context(), Aes.KeyWords(old(key.data[..key.limit])), 4 * (cipher.mode / 4 + 7))
    ensures Keeps(Aes.Encoder(cipher.Context()[..]), 16)
    ensures result.Valid() && result.position == 0 <= result.limit && fresh(result) && fresh(result.data)
    ensures var t := Cmac(16, Aes.Encoder(cipher.Context()[..]), 0x87, iv.data[..], input.Rest());
            result.Rest() == if truncated then SecondBytes(t) else t
  {
    hide Keeps, Aes.Encoder, Cmac, AesKeys.Scheduled, Aes.KeyWords;
    cipher.Init(key);
    result := MacAes(cipher, input, iv);
    if truncated {
      result := Truncate(result);
    }
  }

  method MacAes(cipher: Aes.CipherAes, input: ByteBuffer, iv: ByteBuffer) returns (result: ByteBuffer)
    requires cipher.Valid() && input.Valid() && input.position < input.limit
    requires iv.Valid() && iv.data.Length == 16 && iv.position == 0 && iv.limit == 16
    requires {input.data, iv.data} !! {cipher.block.data} && {input, iv} !! {cipher.block}
    modifies cipher`block, cipher.block, cipher.block.data
    ensures cipher.Valid() && cipher.Context()[..] == old(cipher.Context()[..])
    ensures Keeps(Aes.Encoder(cipher.Context()[..]), 16)
    ensures result.Valid() && result.position == 0 && result.limit == result.data.Length == 16
    ensures fresh(result) && fresh(result.data)
    ensures result.data[..] == result.Rest() == Cmac(16, Aes.Encoder(cipher.Context()[..]), 0x87, iv.data[..], input.Rest())
  {
    hide Keeps, Aes.Encoder, Doubled, Prepared, Mac, Encrypt, Carried;
    ghost var e := Aes.Encoder(cipher.Context()[..]);
    var k1, k2 := SubKeysAes(cipher);
    var data := Prepare(16, k1.data[..], k2.data[..], input);
    ChainEndsInMac(16, e, k1.data[..], k2.data[..], iv.data[..], input.Rest());
    var crypt, _ := cipher.Encrypt(data, iv);
    EncryptLength(16, e, iv.data[..], data.Rest());
    result := LastBlock(crypt, 16, iv.data[..]);
  }

  method SubKeysAes(cipher: Aes.CipherAes) returns (k1: ByteBuffer, k2: ByteBuffer)
    requires cipher.Valid()
    modifies cipher`block, cipher.block, cipher.block.data
    ensures cipher.Valid() && cipher.Context()[..] == old(cipher.Context()[..])
    ensures (cipher.block == old(cipher.block) || fresh(cipher.block))
    ensures (cipher.block.data == old(cipher.block.data) || fresh(cipher.block.data))
    ensures Keeps(Aes.Encoder(cipher.Context()[..]), 16)
    ensures k1.data[..] == Doubled(Aes.Encoder(cipher.Context()[..])(Zeros(16)), 0x87)
    ensures k2.data[..] == Doubled(k1.data[..], 0x87)
    ensures fresh(k1.data) && fresh(k2.data) && k1.data.Length == k2.data.Length == 16
  {
    hide Keeps, Aes.Encoder, Doubled, Encrypt, Carried;
    ghost var e := Aes.Encoder(cipher.Context()[..]);
    var zero := Zero(16);
    var vector := Zero(16);
    var k0, _ := cipher.Encrypt(zero, vector);
    assert zero.data[..] == zero.Rest() == Zeros(16) == vector.data[..];
    FirstBlock(16, e, zero.Rest());
    Kept(16, e, Zeros(16));
    assert k0.data[..] == k0.Rest();
    k1 := NextKey(k0, 0x87);
    k2 := NextKey(k1, 0x87);
  }

  /** The code under triple DES. The copy of the caller's vector shares its memory, and so the
      caller's vector is left holding the code. */
  method CmacDes(cipher: Des.CipherDes, key: ByteBuffer, input: ByteBuffer, iv: ByteBuffer) returns (result: ByteBuffer)
    requires key.Valid() && key.position <= key.limit && key.limit in {8, 16, 24}
    requires input.Valid() && input.position < input.limit && iv.Valid() && iv.position == 0 && iv.limit == 8
    modifies cipher, iv.data
    ensures cipher.Valid() && cipher.keys == old(Des.KeysOf(key.Rest())) && Keeps(Des.Encoder(cipher.keys), 8)
    ensures result.Valid() && result.position == 0 <= result.limit && fresh(result) && fresh(result.data)
    ensures result.Rest() == Cmac(8, Des.Encoder(cipher.keys), 0x1B, old(iv.data[..8]), old(input.Rest()))
    ensures iv.data[..] == result.Rest() + old(iv.data[8..])
  {
    hide Keeps, Des.Encoder, Doubled, Prepared, Mac, Encrypt, Carried, Des.KeysOf;
    cipher.Init(key, Des.ISO);
    ghost var e := Des.Encoder(cipher.keys);
    var k1, k2 := SubKeysDes(cipher);
    var data := Prepare(8, k1.data[..], k2.data[..], input);
    ChainEndsInMac(8, e, k1.data[..], k2.data[..], iv.data[..8], input.Rest());
    EncryptLength(8, e, iv.data[..8], data.Rest());
    ghost var vector := iv.data[..8];
    var tmpIv := new ByteBuffer.Share(iv);
    var crypt := cipher.Encrypt(data, tmpIv);
    result := LastBlock(crypt, 8, vector);
  }

  method SubKeysDes(cipher: Des.CipherDes) returns (k1: ByteBuffer, k2: ByteBuffer)
    requires cipher.Valid()
    ensures Keeps(Des.Encoder(cipher.keys), 8)
    ensures k1.data[..] == Doubled(Des.Encoder(cipher.keys)(Zeros(8)), 0x1B)
    ensures k2.data[..] == Doubled(k1.data[..], 0x1B)
    ensures fresh(k1.data) && fresh(k2.data) && k1.data.Length == k2.data.Length == 8
  {
    hide Keeps, Des.Encoder, Doubled, Encrypt, Carried;
    ghost var e := Des.Encoder(cipher.keys);
    var zero := Zero(8);
    var vector := Zero(8);
    assert zero.data[..] == zero.Rest() == Zeros(8) == vector.data[..8];
    var k0 := cipher.Encrypt(zero, vector);
    FirstBlock(8, e, Zeros(8));
    Kept(8, e, Zeros(8));
    assert k0.data[..] == k0.Rest();
    k1 := NextKey(k0, 0x1B);
    k2 := NextKey(k1, 0x1B);
  }

  lemma Kept(n: nat, e: Coder, b: seq<bv8>)
    requires Keeps(e, n) && |b| == n
    ensures |e(b)| == n
  {
  }

  /** The last block of what was encrypted is what the chain ends in. */
  method LastBlock(crypt: ByteBuffer, size: nat, ghost iv: seq<bv8>) returns (t: ByteBuffer)
    requires crypt.Valid() && crypt.position <= crypt.limit && 0 < size == |iv| && |crypt.Rest()| >= size
    ensures fresh(t) && fresh(t.data) && t.Valid() && t.position == 0 && t.limit == size == t.data.Length
    ensures t.Rest() == t.data[..] == Carried(size, iv, crypt.Rest())
  {
    t := Slice(crypt, crypt.limit - crypt.position - size, size);
  }

  /** The zero block under a zero vector is the zero block encrypted. */
  lemma FirstBlock(n: nat, e: Coder, zero: seq<bv8>)
    requires 0 < n == |zero| && Keeps(e, n) && zero == Zeros(n)
    ensures Encrypt(n, e, zero, zero) == e(zero)
  {
    OneBlock(n, e, zero, zero);
    ZeroXor(zero);
  }

  lemma ZeroXor(zero: seq<bv8>)
    requires zero == Zeros(|zero|)
    ensures XorBytes(zero, zero) == zero
  {
    hide XorByte;
    MaskNone(0);
  }
}

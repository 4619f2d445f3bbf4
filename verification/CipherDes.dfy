/** Triple DES in CBC mode over buffers of bytes. */
module CipherDeses {
  import opened Bits
  import opened Bytes
  import opened ByteBuffers
  import opened Des
  import opened TripleDes
  import opened Cbc
  import opened Seqs

  // ---------- triple DES on bytes ----------

  function EncryptBytes(k: Keys, b: seq<bv8>): (r: seq<bv8>)
    requires |b| == 8
    ensures |r| == 8
  {
    Join(Encrypt3(k, Split(b)))
  }

  function DecryptBytes(k: Keys, b: seq<bv8>): (r: seq<bv8>)
    requires |b| == 8
    ensures |r| == 8
  {
    Join(Decrypt3(k, Split(b)))
  }

  function Encoder(k: Keys): (f: Coder)
  {
    b => if |b| == 8 then EncryptBytes(k, b) else b
  }

  function Decoder(k: Keys): (f: Coder)
  {
    b => if |b| == 8 then DecryptBytes(k, b) else b
  }

  lemma Coders(k: Keys)
    ensures Keeps(Encoder(k), 8) && Keeps(Decoder(k), 8)
    ensures Undoes(Decoder(k), Encoder(k), 8)
  {
    hide EncryptBytes, DecryptBytes;
    forall b: seq<bv8> | |b| == 8
      ensures Decoder(k)(Encoder(k)(b)) == b
    {
      BytesUndone(k, b);
    }
  }

  lemma BytesUndone(k: Keys, b: seq<bv8>)
    requires |b| == 8
    ensures DecryptBytes(k, EncryptBytes(k, b)) == b
  {
    hide Encrypt3, Decrypt3, Split, Join;
    SplitJoin(Encrypt3(k, Split(b)));
    Inverts3(k, Split(b));
    JoinSplit(b);
  }

  function MaskAt(i: nat): (m: bv8)
    requires i < 8
    ensures m & (m - 1) == 0
  {
    match i
    case 0 => 0x80
    case 1 => 0x40
    case 2 => 0x20
    case 3 => 0x10
    case 4 => 0x08
    case 5 => 0x04
    case 6 => 0x02
    case _ => 0x01
  }

  lemma BitAt(b: bv8, i: nat)
    requires i < 8
    ensures ByteBits(b)[i] <==> b & MaskAt(i) != 0
  {
  }

  lemma BitXor(x: bv8, y: bv8, m: bv8)
    requires m & (m - 1) == 0
    ensures XorByte(x, y) & m != 0 <==> (x & m != 0) != (y & m != 0)
  {
  }

  lemma ByteXor(x: bv8, y: bv8)
    ensures ByteBits(XorByte(x, y)) == Xor(ByteBits(x), ByteBits(y))
  {
    hide XorByte, ByteBits, MaskAt;
    forall i | 0 <= i < 8
      ensures ByteBits(XorByte(x, y))[i] == Xor(ByteBits(x), ByteBits(y))[i]
    {
      BitAt(x, i);
      BitAt(y, i);
      BitAt(XorByte(x, y), i);
      BitXor(x, y, MaskAt(i));
    }
  }

  lemma {:induction false} SplitXor(a: seq<bv8>, b: seq<bv8>)
    requires |a| == |b|
    ensures Split(XorBytes(a, b)) == Xor(Split(a), Split(b))
  {
    hide ByteBits, XorByte;
    if a != [] {
      var n := |a| - 1;
      SplitXor(a[..n], b[..n]);
      assert XorBytes(a, b)[..n] == XorBytes(a[..n], b[..n]);
      ByteXor(a[n], b[n]);
      XorJoin(Split(a[..n]), Split(b[..n]), ByteBits(a[n]), ByteBits(b[n]));
    }
  }

  lemma XorJoin(a: Word, b: Word, c: Word, d: Word)
    requires |a| == |b| && |c| == |d|
    ensures Xor(a + c, b + d) == Xor(a, b) + Xor(c, d)
  {
  }

  // ---------- keys ----------

  /** One key of eight bytes serves three times, and of two the first serves again at the end. */
  function KeysOf(key: seq<bv8>): (k: Keys)
  {
    match |key|
    case 8 => Keys(Long(key), Long(key), Long(key))
    case 16 => Keys(Long(key[..8]), Long(key[8..]), Long(key[..8]))
    case 24 => Keys(Long(key[..8]), Long(key[8..16]), Long(key[16..]))
    case _ => Keys(Zeros(64), Zeros(64), Zeros(64))
  }

  lemma KeyParts(a: array<bv8>, p: nat, q: nat)
    requires p <= q <= a.Length
    ensures q == p + 8 ==> KeysOf(a[p..q]) == Keys(Long(a[p..p + 8]), Long(a[p..p + 8]), Long(a[p..p + 8]))
    ensures q == p + 16 ==> KeysOf(a[p..q]) == Keys(Long(a[p..p + 8]), Long(a[p + 8..p + 16]), Long(a[p..p + 8]))
    ensures q == p + 24 ==>
              KeysOf(a[p..q]) == Keys(Long(a[p..p + 8]), Long(a[p + 8..p + 16]), Long(a[p + 16..p + 24]))
    ensures q - p !in {8, 16, 24} ==> KeysOf(a[p..q]) == Keys(Zeros(64), Zeros(64), Zeros(64))
  {
    hide Long;
    var key := a[p..q];
    if q == p + 16 {
      assert key[..8] == a[p..p + 8] && key[8..] == a[p + 8..p + 16];
    } else if q == p + 24 {
      assert key[..8] == a[p..p + 8] && key[8..16] == a[p + 8..p + 16] && key[16..] == a[p + 16..p + 24];
    }
  }

  const ISO := 0
  const LEGACY := 1

  class CipherDes {
    var mode: int
    var des3: Des3?
    ghost var keys: Keys

    ghost predicate Valid()
      reads this, des3, if des3 == null then {} else {des3.des1, des3.des2, des3.des3}
    {
      des3 != null && des3.Keyed(keys)
    }

    constructor ()
      ensures mode == ISO && des3 == null
    {
      mode, des3 := ISO, null;
    }

    method Init(key: ByteBuffer, mode: int)
      requires key.Valid() && key.position <= key.limit && key.limit in {8, 16, 24}
      modifies this
      ensures Valid() && this.mode == mode && keys == KeysOf(key.Rest())
      ensures fresh(des3) && fresh(des3.des1) && fresh(des3.des2) && fresh(des3.des3)
    {
      hide Long, KeysOf;
      var k1: Block, k2: Block, k3: Block := Zeros(64), Zeros(64), Zeros(64);
      var tmp := new ByteBuffer.Share(key);
      KeyParts(key.data, key.position, key.limit);
      match tmp.limit - tmp.position {
        case 8 =>
          k1 := tmp.GetLong(8);
          k2 := k1;
          k3 := k1;
        case 16 =>
          k1 := tmp.GetLong(8);
          k2 := tmp.GetLong(8);
          k3 := k1;
        case 24 =>
          k1 := tmp.GetLong(8);
          k2 := tmp.GetLong(8);
          k3 := tmp.GetLong(8);
        case _ =>
      }
      this.mode := mode;
      des3 := new Des3(Keys(k1, k2, k3));
      keys := Keys(k1, k2, k3);
    }

    /** The output is the message chained under the vector, and the memory of the vector is
        overwritten with the last block. */
    method Encrypt(input: ByteBuffer, iv: ByteBuffer) returns (output: ByteBuffer)
      requires Valid() && input.Valid() && iv.Valid() && input != iv
      requires input.position <= input.limit && iv.position == 0 && iv.limit == 8
      modifies iv, iv.data
      ensures Keeps(Encoder(keys), 8)
      ensures fresh(output) && fresh(output.data) && output.Valid() && output.position == 0
      ensures output.data.Length == |old(input.Rest())|
      ensures output.Rest() == Cbc.Encrypt(8, Encoder(keys), old(iv.data[..8]), old(input.Rest()))
      ensures iv.position == 0 && iv.limit == 8
      ensures iv.data[..] == Carried(8, old(iv.data[..8]), output.Rest()) + old(iv.data[8..])
    {
      hide Keeps, Undoes, Whole, Long, Encoder, Decoder, Encrypt3, Carried, Split, Join, Cbc.Encrypt, SubKeys;
      Coders(keys);
      var iv64 := iv.GetLong(8);
      LongSplit(iv.data[..8]);
      var tmp := new ByteBuffer.Share(input);
      output := new ByteBuffer(input.limit - input.position);
      iv64 := EncryptBlocks(tmp, output, iv64, iv.data[..8]);
      output.Flip();
      JoinSplit(Carried(8, iv.data[..8], output.Rest()));
      WriteBack(iv, iv64);
    }

    /** The loop: whole blocks go from one buffer to the other. */
    method EncryptBlocks(tmp: ByteBuffer, output: ByteBuffer, iv64: Block, ghost iv: seq<bv8>) returns (last: Block)
      requires Valid() && tmp.Valid() && output.Valid() && tmp != output && tmp.data != output.data
      requires tmp.position <= tmp.limit && output.position == 0 && output.limit == tmp.limit - tmp.position
      requires |iv| == 8 && iv64 == Split(iv) && Keeps(Encoder(keys), 8)
      requires {output, tmp, output.data} !! {this, des3, des3.des1, des3.des2, des3.des3}
      modifies tmp`position, output`position, output.data
      ensures output.position <= output.limit
      ensures output.data[..output.position] == Cbc.Encrypt(8, Encoder(keys), iv, old(tmp.Rest()))
      ensures last == Split(Carried(8, iv, output.data[..output.position]))
    {
      hide Keeps, Whole, Long, Encoder, Encrypt3, Carried, Split, Join, Cbc.Encrypt, SubKeys;
      ghost var all, start, done := tmp.Rest(), tmp.position, [];
      Short(8, Encoder(keys), iv, done);
      last := iv64;
      while tmp.limit - tmp.position >= 8
        invariant tmp.data[start..tmp.limit] == all
        invariant start <= tmp.position <= tmp.limit
        invariant output.position == tmp.position - start
        invariant done == all[..tmp.position - start] && Whole(8, done)
        invariant output.data[..output.position] == Cbc.Encrypt(8, Encoder(keys), iv, done)
        invariant last == Split(Carried(8, iv, output.data[..output.position]))
        decreases tmp.limit - tmp.position
      {
        ghost var b := all[tmp.position - start..tmp.position - start + 8];
        var block := GetBlock(tmp, start, all);
        var crypt := des3.Encrypt(XorBlock(block, last), keys);
        PutBlock(output, crypt);
        last := crypt;
        Chained(keys, iv, done, b);
        done := done + b;
      }
      assert done + all[|done|..] == all;
      Leftover(8, Encoder(keys), iv, done, all[|done|..]);
    }

    /** What undoes the chaining of a block: in the legacy mode, encryption. */
    ghost function Opener(): (f: Coder)
      reads this
    {
      if mode == LEGACY then Encoder(keys) else Decoder(keys)
    }

    /** The output is the message unchained, and the memory of the vector is overwritten with the
        last whole block of the input. */
    method Decrypt(input: ByteBuffer, iv: ByteBuffer) returns (output: ByteBuffer)
      requires Valid() && input.Valid() && iv.Valid() && input != iv
      requires input.position <= input.limit && iv.position == 0 && iv.limit == 8
      modifies iv, iv.data
      ensures Keeps(Opener(), 8)
      ensures fresh(output) && fresh(output.data) && output.Valid() && output.position == 0
      ensures output.data.Length == |old(input.Rest())|
      ensures output.Rest() == Cbc.Decrypt(8, Opener(), old(iv.data[..8]), old(input.Rest()))
      ensures iv.position == 0 && iv.limit == 8
      ensures iv.data[..] == LastWhole(old(iv.data[..8]), old(input.Rest())) + old(iv.data[8..])
    {
      hide Keeps, Undoes, Whole, Long, Encoder, Decoder, Decrypt3, Carried, Split, Join, Cbc.Decrypt, SubKeys;
      Coders(keys);
      var iv64 := iv.GetLong(8);
      LongSplit(iv.data[..8]);
      var tmp := new ByteBuffer.Share(input);
      output := new ByteBuffer(input.limit - input.position);
      ghost var bytes := tmp.Rest();
      iv64 := DecryptBlocks(tmp, output, iv64, iv.data[..8]);
      output.Flip();
      JoinSplit(LastWhole(iv.data[..8], bytes));
      WriteBack(iv, iv64);
    }

    method DecryptBlocks(tmp: ByteBuffer, output: ByteBuffer, iv64: Block, ghost iv: seq<bv8>) returns (last: Block)
      requires Valid() && tmp.Valid() && output.Valid() && tmp != output && tmp.data != output.data
      requires tmp.position <= tmp.limit && output.position == 0 && output.limit == tmp.limit - tmp.position
      requires |iv| == 8 && iv64 == Split(iv) && Keeps(Opener(), 8)
      requires {output, tmp, output.data} !! {this, des3, des3.des1, des3.des2, des3.des3}
      modifies tmp`position, output`position, output.data
      ensures output.position <= output.limit
      ensures output.data[..output.position] == Cbc.Decrypt(8, Opener(), iv, old(tmp.Rest()))
      ensures last == Split(LastWhole(iv, old(tmp.Rest())))
    {
      hide Keeps, Whole, Long, Encoder, Decoder, Encrypt3, Decrypt3, Carried, Split, Join, Cbc.Decrypt, SubKeys, Opener;
      ghost var all, start, done := tmp.Rest(), tmp.position, [];
      ghost var opener := Opener();
      Short(8, opener, iv, done);
      last := iv64;
      while tmp.limit - tmp.position >= 8
        invariant tmp.data[start..tmp.limit] == all
        invariant start <= tmp.position <= tmp.limit
        invariant output.position == tmp.position - start == |done|
        invariant done == all[..tmp.position - start] && Whole(8, done)
        invariant output.data[..output.position] == Cbc.Decrypt(8, opener, iv, done)
        invariant last == Split(Carried(8, iv, done))
        decreases tmp.limit - tmp.position
      {
        ghost var b := all[tmp.position - start..tmp.position - start + 8];
        var block := GetBlock(tmp, start, all);
        var value := DecryptOne(block);
        value := XorBlock(value, last);
        PutBlock(output, value);
        last := block;
        Keeping(opener, b);
        Unchained(opener, iv, done, b, value);
        done := done + b;
      }
      assert done + all[|done|..] == all;
      Leftover(8, opener, iv, done, all[|done|..]);
      AllWhole(done, all);
    }

    method DecryptOne(block: Block) returns (value: Block)
      requires Valid()
      ensures value == Split(Opener()(Join(block)))
    {
      hide Encrypt3, Decrypt3, Split, Join, SubKeys;
      SplitJoin(block);
      if mode == LEGACY {
        value := des3.Encrypt(block, keys);
      } else {
        value := des3.Decrypt(block, keys);
      }
      SplitJoin(value);
    }
  }

  /** The last block of the input that is whole. */
  function LastWhole(iv: seq<bv8>, s: seq<bv8>): (r: seq<bv8>)
    requires |iv| == 8
    ensures |r| == 8
  {
    Carried(8, iv, s[..|s| / 8 * 8])
  }

  lemma Unchained(d: Coder, iv: seq<bv8>, done: seq<bv8>, b: seq<bv8>, value: Block)
    requires |iv| == |b| == 8 && Whole(8, done) && Keeps(d, 8) && |d(b)| == 8
    requires value == XorBlock(Split(d(b)), Split(Carried(8, iv, done)))
    ensures Cbc.Decrypt(8, d, iv, done + b) == Cbc.Decrypt(8, d, iv, done) + Join(value)
    ensures Carried(8, iv, done + b) == b && Whole(8, done + b)
  {
    hide Whole, Split, Join, Carried, XorBytes, Cbc.Decrypt, Keeps;
    DecryptMore(8, d, iv, done, b);
    SplitXor(d(b), Carried(8, iv, done));
    JoinSplit(XorBytes(d(b), Carried(8, iv, done)));
  }

  lemma AllWhole(done: seq<bv8>, all: seq<bv8>)
    requires done <= all && Whole(8, done) && |all| < |done| + 8
    ensures done == all[..|all| / 8 * 8]
  {
    WholeIsMultiple(8, done);
    assert |all| / 8 * 8 == |done|;
  }

  lemma Keeping(f: Coder, b: seq<bv8>)
    requires Keeps(f, 8) && |b| == 8
    ensures |f(b)| == 8
  {
  }

  /** The next block of what is left to read, `all` from `start` on. */
  method GetBlock(tmp: ByteBuffer, ghost start: nat, ghost all: seq<bv8>) returns (block: Block)
    requires tmp.Valid() && start <= tmp.position && tmp.position + 8 <= tmp.limit && tmp.data[start..tmp.limit] == all
    modifies tmp`position
    ensures tmp.position == old(tmp.position) + 8
    ensures block == Split(all[old(tmp.position) - start..tmp.position - start])
    ensures Join(block) == all[old(tmp.position) - start..tmp.position - start]
  {
    hide Long, Split, Join;
    SliceSlice(tmp.data[..], start, tmp.limit, tmp.position - start, tmp.position - start + 8);
    LongSplit(tmp.data[tmp.position..tmp.position + 8]);
    block := tmp.GetLong(8);
  }

  method PutBlock(output: ByteBuffer, value: Block)
    requires output.Valid() && output.position + 8 <= output.limit
    modifies output`position, output.data
    ensures output.position == old(output.position) + 8
    ensures output.data[..output.position] == old(output.data[..output.position]) + Join(value)
  {
    hide Join;
    assert value[0..] == value;
    output.PutLong(value, 8);
  }

  /** The vector is put back at the start of its own memory. */
  method WriteBack(iv: ByteBuffer, iv64: Block)
    requires iv.Valid() && iv.data.Length >= 8
    modifies iv, iv.data
    ensures iv.position == 0 && iv.limit == 8
    ensures iv.data[..] == Join(iv64) + old(iv.data[8..])
  {
    hide Join;
    iv.Clear();
    iv.PutLong(iv64, 8);
    iv.Flip();
    assert iv64[0..] == iv64;
  }

  lemma LongSplit(bytes: seq<bv8>)
    requires |bytes| == 8
    ensures Long(bytes) == Split(bytes) && Join(Long(bytes)) == bytes
  {
    LongRoundTrip(Zeros(64), 8, bytes);
  }

  lemma Chained(k: Keys, iv: seq<bv8>, done: seq<bv8>, b: seq<bv8>)
    requires |iv| == |b| == 8 && Whole(8, done) && Keeps(Encoder(k), 8)
    ensures var first := Cbc.Encrypt(8, Encoder(k), iv, done);
            var word := Encrypt3(k, XorBlock(Split(b), Split(Carried(8, iv, first))));
            && Cbc.Encrypt(8, Encoder(k), iv, done + b) == first + Join(word)
            && Split(Carried(8, iv, first + Join(word))) == word && Whole(8, done + b)
  {
    hide Encrypt3, Whole, Split, Join, Carried, XorBytes, Cbc.Encrypt;
    var first := Cbc.Encrypt(8, Encoder(k), iv, done);
    EncryptMore(8, Encoder(k), iv, done, b);
    var last := Carried(8, iv, first);
    SplitXor(b, last);
    SplitJoin(Encrypt3(k, Split(XorBytes(b, last))));
  }

  // ---------- what the modes are for ----------

  /** Outside the legacy mode decryption undoes encryption under the same vector. In the legacy
      mode it undoes a chaining by decryption. */
  lemma ModesUndone(k: Keys, iv: seq<bv8>, s: seq<bv8>)
    requires |iv| == 8 && |s| % 8 == 0
    ensures Keeps(Encoder(k), 8) && Keeps(Decoder(k), 8)
    ensures Cbc.Decrypt(8, Decoder(k), iv, Cbc.Encrypt(8, Encoder(k), iv, s)) == s
    ensures Cbc.Decrypt(8, Encoder(k), iv, Cbc.Encrypt(8, Decoder(k), iv, s)) == s
  {
    hide EncryptBytes, DecryptBytes;
    Coders(k);
    WholeIsMultiple(8, s);
    Cbc.RoundTrip(8, Encoder(k), Decoder(k), iv, s);
    forall b: seq<bv8> | |b| == 8
      ensures Encoder(k)(Decoder(k)(b)) == b
    {
      BytesUndoneBack(k, b);
    }
    Cbc.RoundTrip(8, Decoder(k), Encoder(k), iv, s);
  }

  lemma BytesUndoneBack(k: Keys, b: seq<bv8>)
    requires |b| == 8
    ensures EncryptBytes(k, DecryptBytes(k, b)) == b
  {
    hide Encrypt3, Decrypt3, Split, Join;
    SplitJoin(Decrypt3(k, Split(b)));
    Inverts3(k, Split(b));
    JoinSplit(b);
  }

  function JoinAll(words: seq<Block>): (s: seq<bv8>)
    ensures |s| == 8 * |words|
  {
    if words == [] then [] else JoinAll(words[..|words| - 1]) + Join(words[|words| - 1])
  }

  /** The calls of the stateful cipher return, word by word, what one call on the bytes returns. */
  lemma {:induction false} StreamAgrees(k: Keys, iv: Block, words: seq<Block>)
    ensures Keeps(Encoder(k), 8) && Whole(8, JoinAll(words))
    ensures JoinAll(Stream(k, iv, words)) == Cbc.Encrypt(8, Encoder(k), Join(iv), JoinAll(words))
  {
    hide Encrypt3, Join, Split, Keeps, Undoes, Whole, Encoder, Decoder, Carried, Cbc.Encrypt;
    Coders(k);
    Short(8, Encoder(k), Join(iv), []);
    if words != [] {
      var n := |words| - 1;
      var done, before := JoinAll(words[..n]), Stream(k, iv, words[..n]);
      StreamAgrees(k, iv, words[..n]);
      Chained(k, Join(iv), done, Join(words[n]));
      SplitJoin(words[n]);
      CarriedWord(iv, before);
      assert Stream(k, iv, words)[..n] == before;
    }
  }

  lemma CarriedWord(iv: Block, before: seq<Block>)
    ensures Split(Carried(8, Join(iv), JoinAll(before))) == if before == [] then iv else before[|before| - 1]
  {
    hide Join, Split;
    if before == [] {
      SplitJoin(iv);
    } else {
      SplitJoin(before[|before| - 1]);
      assert JoinAll(before)[|JoinAll(before)| - 8..] == Join(before[|before| - 1]);
    }
  }

  lemma {:induction false} UnstreamAgrees(k: Keys, iv: Block, words: seq<Block>)
    ensures Keeps(Decoder(k), 8) && Whole(8, JoinAll(words))
    ensures JoinAll(Unstream(k, iv, words)) == Cbc.Decrypt(8, Decoder(k), Join(iv), JoinAll(words))
  {
    hide Decrypt3, Join, Split, Keeps, Undoes, Whole, Encoder, Decoder, Carried, Cbc.Decrypt, XorBlock;
    Coders(k);
    Short(8, Decoder(k), Join(iv), []);
    if words != [] {
      var n := |words| - 1;
      var done, b := JoinAll(words[..n]), Join(words[n]);
      UnstreamAgrees(k, iv, words[..n]);
      CarriedWord(iv, words[..n]);
      Keeping(Decoder(k), b);
      DecodedWord(k, words[n]);
      var value := XorBlock(Decrypt3(k, words[n]), if n == 0 then iv else words[n - 1]);
      Unchained(Decoder(k), Join(iv), done, b, value);
      assert Unstream(k, iv, words)[..n] == Unstream(k, iv, words[..n]);
    }
  }

  lemma DecodedWord(k: Keys, w: Block)
    ensures Split(Decoder(k)(Join(w))) == Decrypt3(k, w)
  {
    hide Decrypt3, Join, Split;
    SplitJoin(w);
    SplitJoin(Decrypt3(k, w));
  }

  /** The stateful cipher undoes itself from the same starting vector. */
  lemma {:induction false} StreamUndone(k: Keys, iv: Block, words: seq<Block>)
    ensures Unstream(k, iv, Stream(k, iv, words)) == words
  {
    hide Encrypt3, Decrypt3, XorBlock;
    if words != [] {
      var n := |words| - 1;
      var before := Stream(k, iv, words[..n]);
      var last := if n == 0 then iv else before[n - 1];
      StreamUndone(k, iv, words[..n]);
      assert Stream(k, iv, words)[..n] == before;
      Inverts3(k, XorBlock(words[n], last));
      XorBlockUndone(words[n], last);
      assert words[..n] + [words[n]] == words;
    }
  }

  lemma XorBlockUndone(a: Block, b: Block)
    ensures XorBlock(XorBlock(a, b), b) == a
  {
    XorLaws(a, b);
  }
}

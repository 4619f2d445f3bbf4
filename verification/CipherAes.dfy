/** AES in CBC mode over buffers of bytes. */
module CipherAeses {
  import opened Bytes
  import opened ByteBuffers
  import opened Aes
  import opened AesKeys
  import opened Cbc
  import opened Seqs

  /** The round keys of one context. */
  type Schedules = k: seq<bv8> | |k| in {176, 208, 240} witness seq(176, i => 0)

  /** Ten, twelve or fourteen rounds. */
  function RoundsOf(k: Schedules): (rounds: nat)
    ensures rounds >= 1 && 16 * rounds + 16 == |k|
  {
    |k| / 16 - 1
  }

  function Encoder(k: Schedules): (f: Coder)
  {
    b => if |b| == 16 then Cipher(k, b, RoundsOf(k)) else b
  }

  function Decoder(k: Schedules): (f: Coder)
  {
    b => if |b| == 16 then InvCipher(k, b, RoundsOf(k)) else b
  }

  lemma Coders(k: Schedules)
    ensures Keeps(Encoder(k), 16) && Keeps(Decoder(k), 16) && Undoes(Decoder(k), Encoder(k), 16)
  {
    hide Cipher, InvCipher, RoundsOf;
    forall b: seq<bv8> | |b| == 16
      ensures Decoder(k)(Encoder(k)(b)) == b
    {
      Aes.RoundTrip(k, b, RoundsOf(k));
    }
  }

  /** Decryption undoes encryption under the same vector. */
  lemma ModeUndone(k: Schedules, iv: seq<bv8>, s: seq<bv8>)
    requires |iv| == 16 && |s| % 16 == 0
    ensures Keeps(Encoder(k), 16) && Keeps(Decoder(k), 16)
    ensures Cbc.Decrypt(16, Decoder(k), iv, Cbc.Encrypt(16, Encoder(k), iv, s)) == s
  {
    hide *;
    Coders(k);
    WholeIsMultiple(16, s);
    Cbc.RoundTrip(16, Encoder(k), Decoder(k), iv, s);
  }

  /** The words of a key, four bytes each. */
  function KeyWords(key: seq<bv8>): (words: seq<AesKeys.Word>)
    ensures |words| == |key| / 4
  {
    seq(|key| / 4, i requires 0 <= i < |key| / 4 =>
      AesKeys.Word(key[4 * i], key[4 * i + 1], key[4 * i + 2], key[4 * i + 3]))
  }

  class CipherAes {
    var mode: nat
    const aes128: array<bv8>
    const aes192: array<bv8>
    const aes256: array<bv8>
    var block: ByteBuffer

    ghost predicate Valid()
      reads this, block
    {
      && aes128.Length == 176 && aes192.Length == 208 && aes256.Length == 240
      && block.position == 0 && block.limit == 16 == block.data.Length
      && block.data !in {aes128, aes192, aes256}
    }

    /** The context in use. */
    function Context(): (a: array<bv8>)
      reads this
    {
      if mode == 16 then aes128 else if mode == 24 then aes192 else aes256
    }

    constructor ()
      ensures Valid() && mode == 0 && fresh(aes128) && fresh(aes192) && fresh(aes256) && fresh(block) && fresh(block.data)
    {
      mode := 0;
      aes128 := new bv8[176](_ => 0);
      aes192 := new bv8[208](_ => 0);
      aes256 := new bv8[240](_ => 0);
      block := new ByteBuffer(16);
    }

    /** The schedule of the context in use is that of the key. */
    method Init(key: ByteBuffer)
      requires Valid() && key.Valid() && key.limit in {16, 24, 32} && key.data !in {aes128, aes192, aes256}
      modifies this`mode, aes128, aes192, aes256
      ensures Valid() && mode == key.limit && Context().Length == 16 * (mode / 4 + 7)
      ensures Scheduled(Context(), KeyWords(key.data[..key.limit]), 4 * (mode / 4 + 7))
    {
      hide Scheduled;
      var words := KeyWords(key.data[..key.limit]);
      mode := key.limit;
      match mode {
        case 16 => AesKeys.Init(aes128, 44, words);
        case 24 => AesKeys.Init(aes192, 52, words);
        case _ => AesKeys.Init(aes256, 60, words);
      }
    }

    method EncryptBlock()
      requires Valid()
      modifies block.data
      ensures block.data[..] == Encoder(Context()[..])(old(block.data[..]))
    {
      hide Cipher;
      if mode == 16 {
        Aes.Encrypt(aes128, block.data, 10);
      } else if mode == 24 {
        Aes.Encrypt(aes192, block.data, 12);
      } else {
        Aes.Encrypt(aes256, block.data, 14);
      }
    }

    /** One turn of the loop. The new vector is a copy, so that it keeps its bytes when the
        block is overwritten. */
    method EncryptNext(tmp: ByteBuffer, output: ByteBuffer, iv: ByteBuffer) returns (newIv: ByteBuffer)
      requires Valid() && tmp.Valid() && output.Valid() && iv.Valid() && iv.data.Length == 16
      requires tmp != output && tmp != block && output != block
      requires tmp.position + 16 <= tmp.limit && output.position + 16 <= output.limit
      requires tmp.data != block.data && iv.data != block.data && output.data !in {block.data, tmp.data, iv.data}
      requires output.data !in {aes128, aes192, aes256}
      modifies this`block, block, block.data, tmp`position, output`position, output.data
      ensures Valid() && fresh(block) && fresh(block.data)
      ensures tmp.position == old(tmp.position) + 16 && output.position == old(output.position) + 16
      ensures var c := Encoder(Context()[..])(XorBytes(tmp.data[old(tmp.position)..tmp.position], iv.data[..]));
              && |c| == 16 && output.data[..] == old(output.data[..output.position]) + c + old(output.data[output.position + 16..])
              && newIv.data[..] == c
      ensures newIv.Valid() && newIv.data.Length == 16 && newIv.position == 0 && newIv.limit == 16
      ensures fresh(newIv) && fresh(newIv.data) && newIv.data != block.data
    {
      hide Encoder, XorBytes;
      ghost var b := tmp.data[tmp.position..tmp.position + 16];
      tmp.GetBuffer(block);
      assert block.data[..] == b;
      block := Xored(block, iv);
      EncryptBlock();
      assert block.data[0..16] == block.data[..];
      output.PutBuffer(block);
      newIv := Copy(block);
    }

    /** The output is the message chained under the vector. The vector is replaced by a new buffer
        with the last block; its own memory is not written. */
    method Encrypt(input: ByteBuffer, iv: ByteBuffer) returns (output: ByteBuffer, newIv: ByteBuffer)
      requires Valid() && input.Valid() && iv.Valid() && iv.data.Length == 16 && iv.position == 0 && iv.limit == 16
      requires input.position <= input.limit && input.data != block.data && iv.data != block.data
      modifies this`block, block, block.data
      ensures Valid() && mode == old(mode) && Context()[..] == old(Context()[..])
      ensures Keeps(Encoder(Context()[..]), 16)
      ensures (block == old(block) || fresh(block)) && (block.data == old(block.data) || fresh(block.data))
      ensures fresh(output) && fresh(output.data) && output.Valid() && output.position == 0
      ensures output.data.Length == |old(input.Rest())| && output != block && output.data != block.data
      ensures output.Rest() == Cbc.Encrypt(16, Encoder(Context()[..]), old(iv.data[..]), old(input.Rest()))
      ensures newIv.Valid() && newIv.data.Length == 16 && newIv.position == 0 && newIv.limit == 16
      ensures newIv.data[..] == Carried(16, old(iv.data[..]), output.Rest())
      ensures newIv == iv || (fresh(newIv) && fresh(newIv.data))
    {
      hide Keeps, Undoes, Whole, Encoder, Decoder, Carried, Cbc.Encrypt, XorBytes;
      Coders(Context()[..]);
      var tmp := new ByteBuffer.Share(input);
      output := new ByteBuffer(input.limit - input.position);
      newIv := EncryptBlocks(tmp, output, iv);
      output.Flip();
    }

    method EncryptBlocks(tmp: ByteBuffer, output: ByteBuffer, iv: ByteBuffer) returns (newIv: ByteBuffer)
      requires Valid() && tmp.Valid() && output.Valid() && iv.Valid()
      requires iv.data.Length == 16 && iv.position == 0 && iv.limit == 16
      requires tmp.position <= tmp.limit && output.position == 0 && output.limit == tmp.limit - tmp.position
      requires tmp != output && {tmp, output, iv} !! {block} && {tmp.data, iv.data} !! {block.data} && iv != tmp && iv != output
      requires {output.data} !! {tmp.data, iv.data, block.data, aes128, aes192, aes256}
      requires Keeps(Encoder(Context()[..]), 16)
      modifies this`block, block, block.data, tmp`position, output`position, output.data
      ensures Valid() && mode == old(mode) && Context()[..] == old(Context()[..])
      ensures output.position <= output.limit && (block == old(block) || fresh(block))
      ensures block.data == old(block.data) || fresh(block.data)
      ensures output.data[..output.position] == Cbc.Encrypt(16, Encoder(Context()[..]), old(iv.data[..]), old(tmp.Rest()))
      ensures newIv.Valid() && newIv.data.Length == 16 && newIv.position == 0 && newIv.limit == 16
      ensures newIv.data[..] == Carried(16, old(iv.data[..]), output.data[..output.position])
      ensures newIv == iv || (fresh(newIv) && fresh(newIv.data))
    {
      hide Keeps, Whole, Encoder, Carried, Cbc.Encrypt, XorBytes;
      ghost var k: Schedules := Context()[..];
      ghost var all, start, iv0, done := tmp.Rest(), tmp.position, iv.data[..], [];
      newIv := iv;
      Short(16, Encoder(k), iv0, done);
      while tmp.limit - tmp.position >= 16
        invariant Valid() && Context()[..] == k
        invariant block == old(block) || fresh(block)
        invariant block.data == old(block.data) || fresh(block.data)
        invariant tmp.data[start..tmp.limit] == all
        invariant start <= tmp.position <= tmp.limit && output.position == tmp.position - start
        invariant newIv.Valid() && newIv.data.Length == 16 && newIv.position == 0 && newIv.limit == 16
        invariant newIv == iv || (fresh(newIv) && fresh(newIv.data))
        invariant newIv.data != block.data
        invariant done == all[..tmp.position - start] && Whole(16, done)
        invariant output.data[..output.position] == Cbc.Encrypt(16, Encoder(k), iv0, done)
        invariant newIv.data[..] == Carried(16, iv0, output.data[..output.position])
        decreases tmp.limit - tmp.position
      {
        ghost var b := all[tmp.position - start..tmp.position - start + 16];
        SliceSlice(tmp.data[..], start, tmp.limit, tmp.position - start, tmp.position - start + 16);
        assert b == tmp.data[tmp.position..tmp.position + 16];
        ghost var before := output.data[..output.position];
        EncryptMore(16, Encoder(k), iv0, done, b);
        newIv := EncryptNext(tmp, output, newIv);
        assert output.data[..output.position] == before + output.data[output.position - 16..output.position];
        done := done + b;
      }
      assert done + all[|done|..] == all;
      Leftover(16, Encoder(k), iv0, done, all[|done|..]);
    }

    method DecryptBlock()
      requires Valid()
      modifies block.data
      ensures block.data[..] == Decoder(Context()[..])(old(block.data[..]))
    {
      hide InvCipher;
      if mode == 16 {
        Aes.Decrypt(aes128, block.data, 10);
      } else if mode == 24 {
        Aes.Decrypt(aes192, block.data, 12);
      } else {
        Aes.Decrypt(aes256, block.data, 14);
      }
    }

    /** One turn of the loop. The cipher text is copied before the block is overwritten. */
    method DecryptNext(tmp: ByteBuffer, output: ByteBuffer, iv: ByteBuffer) returns (newIv: ByteBuffer)
      requires Valid() && tmp.Valid() && output.Valid() && iv.Valid() && iv.data.Length == 16
      requires tmp != output && tmp != block && output != block
      requires tmp.position + 16 <= tmp.limit && output.position + 16 <= output.limit
      requires tmp.data != block.data && iv.data != block.data && output.data !in {block.data, tmp.data, iv.data}
      requires output.data !in {aes128, aes192, aes256}
      modifies this`block, block, block.data, tmp`position, output`position, output.data
      ensures Valid() && fresh(block) && fresh(block.data)
      ensures tmp.position == old(tmp.position) + 16 && output.position == old(output.position) + 16
      ensures var p := Decoder(Context()[..])(tmp.data[old(tmp.position)..tmp.position]);
              && |p| == 16
              && output.data[..] == old(output.data[..output.position]) + XorBytes(p, iv.data[..])
                                    + old(output.data[output.position + 16..])
      ensures newIv.data[..] == tmp.data[old(tmp.position)..tmp.position]
      ensures newIv.Valid() && newIv.data.Length == 16 && newIv.position == 0 && newIv.limit == 16
      ensures fresh(newIv) && fresh(newIv.data) && newIv.data != block.data
    {
      hide Decoder, XorBytes;
      ghost var b := tmp.data[tmp.position..tmp.position + 16];
      tmp.GetBuffer(block);
      assert block.data[..] == b;
      newIv := Copy(block);
      DecryptBlock();
      block := Xored(block, iv);
      assert block.data[0..16] == block.data[..];
      output.PutBuffer(block);
    }

    /** The output is the message unchained. The vector is replaced by the last whole block of the
        input; its own memory is not written. */
    method Decrypt(input: ByteBuffer, iv: ByteBuffer) returns (output: ByteBuffer, newIv: ByteBuffer)
      requires Valid() && input.Valid() && iv.Valid() && iv.data.Length == 16 && iv.position == 0 && iv.limit == 16
      requires input.position <= input.limit && input.data != block.data && iv.data != block.data
      modifies this`block, block, block.data
      ensures Valid() && mode == old(mode) && Context()[..] == old(Context()[..])
      ensures Keeps(Decoder(Context()[..]), 16)
      ensures (block == old(block) || fresh(block)) && (block.data == old(block.data) || fresh(block.data))
      ensures fresh(output) && fresh(output.data) && output.Valid() && output.position == 0
      ensures output.data.Length == |old(input.Rest())| && output != block && output.data != block.data
      ensures output.Rest() == Cbc.Decrypt(16, Decoder(Context()[..]), old(iv.data[..]), old(input.Rest()))
      ensures newIv.Valid() && newIv.data.Length == 16 && newIv.position == 0 && newIv.limit == 16
      ensures newIv.data[..] == LastWhole(old(iv.data[..]), old(input.Rest()))
      ensures newIv == iv || (fresh(newIv) && fresh(newIv.data))
    {
      hide Keeps, Undoes, Whole, Encoder, Decoder, Carried, Cbc.Decrypt, XorBytes;
      Coders(Context()[..]);
      var tmp := new ByteBuffer.Share(input);
      output := new ByteBuffer(input.limit - input.position);
      newIv := DecryptBlocks(tmp, output, iv);
      output.Flip();
    }

    method DecryptBlocks(tmp: ByteBuffer, output: ByteBuffer, iv: ByteBuffer) returns (newIv: ByteBuffer)
      requires Valid() && tmp.Valid() && output.Valid() && iv.Valid()
      requires iv.data.Length == 16 && iv.position == 0 && iv.limit == 16
      requires tmp.position <= tmp.limit && output.position == 0 && output.limit == tmp.limit - tmp.position
      requires tmp != output && {tmp, output, iv} !! {block} && {tmp.data, iv.data} !! {block.data} && iv != tmp && iv != output
      requires {output.data} !! {tmp.data, iv.data, block.data, aes128, aes192, aes256}
      requires Keeps(Decoder(Context()[..]), 16)
      modifies this`block, block, block.data, tmp`position, output`position, output.data
      ensures Valid() && mode == old(mode) && Context()[..] == old(Context()[..])
      ensures output.position <= output.limit && (block == old(block) || fresh(block))
      ensures block.data == old(block.data) || fresh(block.data)
      ensures output.data[..output.position] == Cbc.Decrypt(16, Decoder(Context()[..]), old(iv.data[..]), old(tmp.Rest()))
      ensures newIv.Valid() && newIv.data.Length == 16 && newIv.position == 0 && newIv.limit == 16
      ensures newIv.data[..] == LastWhole(old(iv.data[..]), old(tmp.Rest()))
      ensures newIv == iv || (fresh(newIv) && fresh(newIv.data))
    {
      hide Keeps, Whole, Decoder, Carried, Cbc.Decrypt, XorBytes;
      ghost var k: Schedules := Context()[..];
      ghost var all, start, iv0, done := tmp.Rest(), tmp.position, iv.data[..], [];
      newIv := iv;
      Short(16, Decoder(k), iv0, done);
      while tmp.limit - tmp.position >= 16
        invariant Valid() && Context()[..] == k
        invariant block == old(block) || fresh(block)
        invariant block.data == old(block.data) || fresh(block.data)
        invariant tmp.data[start..tmp.limit] == all
        invariant start <= tmp.position <= tmp.limit && output.position == tmp.position - start
        invariant newIv.Valid() && newIv.data.Length == 16 && newIv.position == 0 && newIv.limit == 16
        invariant newIv == iv || (fresh(newIv) && fresh(newIv.data))
        invariant newIv.data != block.data
        invariant done == all[..tmp.position - start] && Whole(16, done)
        invariant output.data[..output.position] == Cbc.Decrypt(16, Decoder(k), iv0, done)
        invariant newIv.data[..] == Carried(16, iv0, done)
        decreases tmp.limit - tmp.position
      {
        ghost var b := all[tmp.position - start..tmp.position - start + 16];
        SliceSlice(tmp.data[..], start, tmp.limit, tmp.position - start, tmp.position - start + 16);
        assert b == tmp.data[tmp.position..tmp.position + 16];
        ghost var before := output.data[..output.position];
        DecryptMore(16, Decoder(k), iv0, done, b);
        newIv := DecryptNext(tmp, output, newIv);
        assert output.data[..output.position] == before + output.data[output.position - 16..output.position];
        done := done + b;
      }
      assert done + all[|done|..] == all;
      Leftover(16, Decoder(k), iv0, done, all[|done|..]);
      AllWhole(done, all);
    }
  }

  function LastWhole(iv: seq<bv8>, s: seq<bv8>): (r: seq<bv8>)
    requires |iv| == 16
    ensures |r| == 16
  {
    Carried(16, iv, s[..|s| / 16 * 16])
  }

  lemma AllWhole(done: seq<bv8>, all: seq<bv8>)
    requires done <= all && Whole(16, done) && |all| < |done| + 16
    ensures done == all[..|all| / 16 * 16]
  {
    WholeIsMultiple(16, done);
    assert |all| / 16 * 16 == |done|;
  }
}

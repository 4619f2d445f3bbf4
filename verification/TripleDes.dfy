/** Triple DES: encrypt, decrypt, encrypt under three keys; and its chained, stateful form. */
module TripleDes {
  import opened Bits
  import opened Des

  datatype Keys = Keys(k1: Block, k2: Block, k3: Block)

  function Encrypt3(k: Keys, block: Block): (r: Block)
  {
    Crypt(k.k3, Crypt(k.k2, Crypt(k.k1, block, false), true), false)
  }

  function Decrypt3(k: Keys, block: Block): (r: Block)
  {
    Crypt(k.k1, Crypt(k.k2, Crypt(k.k3, block, true), false), true)
  }

  function XorBlock(a: Block, b: Block): (r: Block)
  {
    Xor(a, b)
  }

  lemma Inverts3(k: Keys, block: Block)
    ensures Decrypt3(k, Encrypt3(k, block)) == block && Encrypt3(k, Decrypt3(k, block)) == block
  {
    hide Crypt;
    Inverts(k.k1, block, false);
    Inverts(k.k2, Crypt(k.k1, block, false), true);
    Inverts(k.k3, Crypt(k.k2, Crypt(k.k1, block, false), true), false);
    Inverts(k.k3, block, true);
    Inverts(k.k2, Crypt(k.k3, block, true), false);
    Inverts(k.k1, Crypt(k.k2, Crypt(k.k3, block, true), false), true);
  }

  /** With equal keys, as for a key of eight bytes, triple DES is DES. So it is whenever the first
      two keys are equal, or the last two. */
  lemma EqualKeys(k: Keys, block: Block)
    requires k.k1 == k.k2 || k.k2 == k.k3
    ensures Encrypt3(k, block) == Crypt(if k.k1 == k.k2 then k.k3 else k.k1, block, false)
    ensures Decrypt3(k, block) == Crypt(if k.k1 == k.k2 then k.k3 else k.k1, block, true)
  {
    hide Crypt;
    if k.k1 == k.k2 {
      Inverts(k.k1, block, false);
      Inverts(k.k1, Crypt(k.k3, block, true), false);
    } else {
      Inverts(k.k3, Crypt(k.k1, block, false), true);
      Inverts(k.k3, block, true);
    }
  }

  class Des3 {
    const des1: Cipher
    const des2: Cipher
    const des3: Cipher

    ghost predicate Keyed(k: Keys)
      reads des1, des2, des3
    {
      des1.subKey == SubKeys(k.k1) && des2.subKey == SubKeys(k.k2) && des3.subKey == SubKeys(k.k3)
    }

    constructor (k: Keys)
      ensures Keyed(k) && fresh(des1) && fresh(des2) && fresh(des3)
    {
      hide SubKeys;
      des1 := new Cipher(k.k1);
      des2 := new Cipher(k.k2);
      des3 := new Cipher(k.k3);
    }

    method Encrypt(block: Block, ghost k: Keys) returns (r: Block)
      requires Keyed(k)
      ensures r == Encrypt3(k, block)
    {
      hide SubKeys, CryptWith;
      r := des1.Run(block, false);
      r := des2.Run(r, true);
      r := des3.Run(r, false);
    }

    method Decrypt(block: Block, ghost k: Keys) returns (r: Block)
      requires Keyed(k)
      ensures r == Decrypt3(k, block)
    {
      hide SubKeys, CryptWith;
      r := des3.Run(block, true);
      r := des2.Run(r, false);
      r := des1.Run(r, true);
    }
  }

  // ---------- chaining that keeps its state between calls ----------

  class Des3Cbc {
    const des3: Des3
    const iv: Block
    var lastBlock: Block
    ghost const keys: Keys

    ghost predicate Valid()
      reads des3, des3.des1, des3.des2, des3.des3
    {
      des3.Keyed(keys)
    }

    constructor (k: Keys, iv: Block)
      ensures Valid() && keys == k && this.iv == iv && lastBlock == iv
      ensures fresh(des3) && fresh(des3.des1) && fresh(des3.des2) && fresh(des3.des3)
    {
      des3 := new Des3(k);
      this.iv, lastBlock, keys := iv, iv, k;
    }

    method Encrypt(block: Block) returns (r: Block)
      requires Valid()
      modifies this
      ensures r == Encrypt3(keys, XorBlock(block, old(lastBlock))) && lastBlock == r
    {
      lastBlock := des3.Encrypt(XorBlock(block, lastBlock), keys);
      r := lastBlock;
    }

    method Decrypt(block: Block) returns (r: Block)
      requires Valid()
      modifies this
      ensures r == XorBlock(Decrypt3(keys, block), old(lastBlock)) && lastBlock == block
    {
      var plain := des3.Decrypt(block, keys);
      r := XorBlock(plain, lastBlock);
      lastBlock := block;
    }

    method Reset()
      modifies this
      ensures lastBlock == iv
    {
      lastBlock := iv;
    }

    /** Calls one after the other. */
    method EncryptAll(blocks: seq<Block>) returns (r: seq<Block>)
      requires Valid()
      modifies this
      ensures r == Stream(keys, old(lastBlock), blocks)
      ensures lastBlock == if blocks == [] then old(lastBlock) else r[|r| - 1]
    {
      hide Encrypt3, XorBlock;
      r := [];
      var i := 0;
      while i < |blocks|
        invariant 0 <= i <= |blocks|
        invariant r == Stream(keys, old(lastBlock), blocks[..i])
        invariant lastBlock == if i == 0 then old(lastBlock) else r[i - 1]
      {
        assert blocks[..i + 1][..i] == blocks[..i];
        var c := Encrypt(blocks[i]);
        r := r + [c];
        i := i + 1;
      }
      assert blocks[..|blocks|] == blocks;
    }

    method DecryptAll(blocks: seq<Block>) returns (r: seq<Block>)
      requires Valid()
      modifies this
      ensures r == Unstream(keys, old(lastBlock), blocks)
      ensures lastBlock == if blocks == [] then old(lastBlock) else blocks[|blocks| - 1]
    {
      hide Decrypt3, XorBlock;
      r := [];
      var i := 0;
      while i < |blocks|
        invariant 0 <= i <= |blocks|
        invariant r == Unstream(keys, old(lastBlock), blocks[..i])
        invariant lastBlock == if i == 0 then old(lastBlock) else blocks[i - 1]
      {
        assert blocks[..i + 1][..i] == blocks[..i];
        var p := Decrypt(blocks[i]);
        r := r + [p];
        i := i + 1;
      }
      assert blocks[..|blocks|] == blocks;
    }
  }

  /** What a run of calls returns, block by block. */
  function Stream(k: Keys, iv: Block, blocks: seq<Block>): (r: seq<Block>)
    ensures |r| == |blocks|
  {
    if blocks == [] then []
    else
      var n := |blocks| - 1;
      var before := Stream(k, iv, blocks[..n]);
      before + [Encrypt3(k, XorBlock(blocks[n], if n == 0 then iv else before[n - 1]))]
  }

  function Unstream(k: Keys, iv: Block, blocks: seq<Block>): (r: seq<Block>)
    ensures |r| == |blocks|
  {
    if blocks == [] then []
    else
      var n := |blocks| - 1;
      Unstream(k, iv, blocks[..n]) + [XorBlock(Decrypt3(k, blocks[n]), if n == 0 then iv else blocks[n - 1])]
  }
}

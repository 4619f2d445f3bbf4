/** The block cipher of FIPS 46-3. */
module Des {
  import opened Bits
  import opened DesTables

  type Half = h: Word | |h| == 32 witness seq(32, i => false)

  type Block = b: Word | |b| == 64 witness seq(64, i => false)

  type RoundKey = k: Word | |k| == 48 witness seq(48, i => false)

  // ---------- the ladder of rounds, for any round function ----------

  datatype Halves = Halves(left: Half, right: Half)

  function Swap(p: Halves): (q: Halves)
  {
    Halves(p.right, p.left)
  }

  /** The round key used in round i: the last comes first to decrypt. */
  function KeyOf(keys: seq<RoundKey>, decrypt: bool, i: nat): (k: RoundKey)
    requires i < |keys|
  {
    if decrypt then keys[|keys| - 1 - i] else keys[i]
  }

  function Round(f: (Half, RoundKey) -> Half, p: Halves, k: RoundKey): (q: Halves)
  {
    Halves(p.right, Xor(p.left, f(p.right, k)))
  }

  function After(f: (Half, RoundKey) -> Half, keys: seq<RoundKey>, decrypt: bool, p: Halves, i: nat): (q: Halves)
    requires i <= |keys|
  {
    if i == 0 then p else Round(f, After(f, keys, decrypt, p, i - 1), KeyOf(keys, decrypt, i - 1))
  }

  lemma RoundUndone(f: (Half, RoundKey) -> Half, p: Halves, k: RoundKey)
    ensures Round(f, Swap(Round(f, p, k)), k) == Swap(p)
  {
    XorLaws(p.left, f(p.right, k));
  }

  /** The ladder climbed down: with the keys in the opposite order and the halves swapped, every
      round meets the halves it left, swapped. */
  lemma {:induction false} ClimbDown(f: (Half, RoundKey) -> Half, keys: seq<RoundKey>, decrypt: bool, p: Halves, i: nat)
    requires i <= |keys|
    ensures After(f, keys, !decrypt, Swap(After(f, keys, decrypt, p, |keys|)), i)
            == Swap(After(f, keys, decrypt, p, |keys| - i))
  {
    hide Round, Swap;
    if i > 0 {
      ClimbDown(f, keys, decrypt, p, i - 1);
      var before := After(f, keys, decrypt, p, |keys| - i);
      RoundUndone(f, before, KeyOf(keys, decrypt, |keys| - i));
      assert KeyOf(keys, decrypt, |keys| - i) == KeyOf(keys, !decrypt, i - 1);
    }
  }

  // ---------- a block ----------

  lemma TablesSelect()
    ensures Selects(InitialPermutation(), 64) && Selects(FinalPermutation(), 64)
    ensures Selects(Expansion(), 32) && Selects(PBox(), 32) && Selects(Pc1(), 64) && Selects(Pc2(), 56)
  {
    hide InitialPermutation, FinalPermutation, Expansion, PBox, Pc1, Pc2;
  }

  function Enter(block: Block): (p: Halves)
  {
    TablesSelect();
    var t := Permute(InitialPermutation(), block);
    Halves(t[..32], t[32..])
  }

  /** The two parts are swapped before the final permutation. */
  function Leave(p: Halves): (block: Block)
  {
    TablesSelect();
    Permute(FinalPermutation(), p.right + p.left)
  }

  function CryptWith(f: (Half, RoundKey) -> Half, keys: seq<RoundKey>, block: Block, decrypt: bool): (r: Block)
  {
    Leave(After(f, keys, decrypt, Enter(block), |keys|))
  }

  lemma EnterLeaves(p: Halves)
    ensures Enter(Leave(p)) == Swap(p)
  {
    hide InitialPermutation, FinalPermutation;
    TablesSelect();
    var whole := p.right + p.left;
    var t := Permute(InitialPermutation(), Leave(p));
    assert t == whole by {
      hide Undone;
      forall i | 0 <= i < 64
        ensures t[i] == whole[i]
      {
        PermutationsUndone(i);
        assert Undone(i);
        UndoneAt(i);
      }
    }
  }

  lemma UndoneAt(i: nat)
    requires i < 64 && Undone(i)
    ensures InitialPermutation()[FinalPermutation()[i] - 1] == i + 1
    ensures FinalPermutation()[InitialPermutation()[i] - 1] == i + 1
  {
    hide InitialPermutation, FinalPermutation;
  }

  lemma LeaveEnters(block: Block)
    ensures Leave(Swap(Enter(block))) == block
  {
    hide InitialPermutation, FinalPermutation;
    TablesSelect();
    var t := Permute(InitialPermutation(), block);
    assert t[..32] + t[32..] == t;
    var r := Permute(FinalPermutation(), t);
    assert r == block by {
      hide Undone;
      forall i | 0 <= i < 64
        ensures r[i] == block[i]
      {
        PermutationsUndone(i);
        UndoneAt(i);
      }
    }
  }

  /** Whatever the round function and the round keys, however many: each mode undoes the other. */
  lemma CryptInverts(f: (Half, RoundKey) -> Half, keys: seq<RoundKey>, block: Block, decrypt: bool)
    ensures CryptWith(f, keys, CryptWith(f, keys, block, decrypt), !decrypt) == block
  {
    hide Enter, Leave, Swap;
    var top := After(f, keys, decrypt, Enter(block), |keys|);
    EnterLeaves(top);
    ClimbDown(f, keys, decrypt, Enter(block), |keys|);
    LeaveEnters(block);
  }

  // ---------- the round function ----------

  function Value(b: bool): (v: nat)
  {
    if b then 1 else 0
  }

  /** The outer bits of six choose the row, the middle four the column. */
  function Lookup(i: nat, six: Word): (v: Nibble)
    requires i < 8 && |six| == 6
  {
    SBox(i, 2 * Value(six[0]) + Value(six[5]),
      8 * Value(six[1]) + 4 * Value(six[2]) + 2 * Value(six[3]) + Value(six[4]))
  }

  function NibbleBits(v: Nibble): (r: Word)
    ensures |r| == 4
  {
    [v / 8 % 2 == 1, v / 4 % 2 == 1, v / 2 % 2 == 1, v % 2 == 1]
  }

  function Substitute(s: RoundKey, n: nat): (r: Word)
    requires n <= 8
    ensures |r| == 4 * n
  {
    if n == 0 then [] else Substitute(s, n - 1) + NibbleBits(Lookup(n - 1, s[6 * n - 6..6 * n]))
  }

  function F(r: Half, k: RoundKey): (h: Half)
  {
    TablesSelect();
    Permute(PBox(), Substitute(Xor(Permute(Expansion(), r), k), 8))
  }

  method Substituted(s: RoundKey) returns (output: Word)
    ensures output == Substitute(s, 8)
  {
    hide Lookup, NibbleBits;
    output := [];
    var i := 0;
    while i < 8
      invariant 0 <= i <= 8
      invariant output == Substitute(s, i)
    {
      output := output + NibbleBits(Lookup(i, s[6 * i..6 * i + 6]));
      i := i + 1;
    }
  }

  // ---------- the key schedule ----------

  type KeyHalf = h: Word | |h| == 28 witness seq(28, i => false)

  datatype KeyHalves = KeyHalves(c: KeyHalf, d: KeyHalf)

  function Turn(h: KeyHalf, times: nat): (r: KeyHalf)
  {
    if times == 0 then h else var before := Turn(h, times - 1); before[1..] + before[..1]
  }

  function Choose(key: Block): (r: KeyHalves)
  {
    TablesSelect();
    var chosen := Permute(Pc1(), key);
    KeyHalves(chosen[..28], chosen[28..])
  }

  /** The halves of the key after i iterations. */
  function Turned(key: Block, i: nat): (r: KeyHalves)
    requires i <= 16
  {
    if i == 0 then Choose(key)
    else
      var before := Turned(key, i - 1);
      KeyHalves(Turn(before.c, IterationShift()[i - 1]), Turn(before.d, IterationShift()[i - 1]))
  }

  function SubKey(key: Block, i: nat): (k: RoundKey)
    requires i < 16
  {
    TablesSelect();
    Permute(Pc2(), Turned(key, i + 1).c + Turned(key, i + 1).d)
  }

  function SubKeys(key: Block): (keys: seq<RoundKey>)
    ensures |keys| == 16
  {
    seq(16, i requires 0 <= i < 16 => SubKey(key, i))
  }

  function Crypt(key: Block, block: Block, decrypt: bool): (r: Block)
  {
    CryptWith(F, SubKeys(key), block, decrypt)
  }

  // ---------- the cipher as it runs ----------

  class Cipher {
    var subKey: seq<RoundKey>

    constructor (key: Block)
      ensures subKey == SubKeys(key)
    {
      subKey := [];
      new;
      Keygen(key);
    }

    method Keygen(key: Block)
      modifies this
      ensures subKey == SubKeys(key)
    {
      hide Permute, Pc1, Pc2, IterationShift;
      TablesSelect();
      var chosen := Select(Pc1(), key);
      var c: KeyHalf, d: KeyHalf := chosen[..28], chosen[28..];
      subKey := [];
      var i := 0;
      while i < 16
        invariant 0 <= i <= 16
        invariant KeyHalves(c, d) == Turned(key, i)
        invariant subKey == SubKeys(key)[..i]
      {
        ghost var c0, d0 := c, d;
        var j := 0;
        while j < IterationShift()[i]
          invariant 0 <= j <= IterationShift()[i]
          invariant c == Turn(c0, j) && d == Turn(d0, j)
        {
          c, d := c[1..] + c[..1], d[1..] + d[..1];
          j := j + 1;
        }
        var k := Select(Pc2(), c + d);
        subKey := subKey + [k];
        i := i + 1;
      }
    }

    method Ip(block: Block) returns (p: Halves)
      ensures p == Enter(block)
    {
      hide Permute, InitialPermutation;
      TablesSelect();
      var t := Select(InitialPermutation(), block);
      p := Halves(t[..32], t[32..]);
    }

    method Fp(p: Halves) returns (block: Block)
      ensures block == Leave(p)
    {
      hide Permute, FinalPermutation;
      TablesSelect();
      block := Select(FinalPermutation(), p.right + p.left);
    }

    method RoundFunction(r: Half, k: RoundKey) returns (h: Half)
      ensures h == F(r, k)
    {
      hide Permute, PBox, Expansion, Xor;
      TablesSelect();
      var input := Select(Expansion(), r);
      var output := Substituted(Xor(input, k));
      h := Select(PBox(), output);
    }

    method Run(block: Block, decrypt: bool) returns (r: Block)
      requires |subKey| == 16
      ensures r == CryptWith(F, subKey, block, decrypt)
    {
      hide Enter, Leave, F, Xor;
      var p := Ip(block);
      var left: Half, right: Half := p.left, p.right;
      var i := 0;
      while i < 16
        invariant 0 <= i <= 16
        invariant Halves(left, right) == After(F, subKey, decrypt, p, i)
      {
        var mixed := RoundFunction(right, if decrypt then subKey[15 - i] else subKey[i]);
        left, right := right, Xor(left, mixed);
        i := i + 1;
      }
      r := Fp(Halves(left, right));
    }
  }

  /** Decryption undoes encryption under every key, and encryption undoes decryption. */
  lemma Inverts(key: Block, block: Block, decrypt: bool)
    ensures Crypt(key, Crypt(key, block, decrypt), !decrypt) == block
  {
    hide CryptWith, F;
    CryptInverts(F, SubKeys(key), block, decrypt);
  }

  // ---------- complementation ----------

  lemma FNot(r: Half, k: RoundKey)
    ensures F(Not(r), Not(k)) == F(r, k)
  {
    hide Substitute, Expansion, PBox, Xor, Not;
    TablesSelect();
    PermuteNot(Expansion(), r);
    XorLaws(Permute(Expansion(), r), k);
  }

  function NotHalves(p: Halves): (q: Halves)
  {
    Halves(Not(p.left), Not(p.right))
  }

  function NotKeys(keys: seq<RoundKey>): (r: seq<RoundKey>)
    ensures |r| == |keys|
  {
    seq(|keys|, i requires 0 <= i < |keys| => Not(keys[i]))
  }

  lemma {:induction false} AfterNot(keys: seq<RoundKey>, decrypt: bool, p: Halves, i: nat)
    requires i <= |keys|
    ensures After(F, NotKeys(keys), decrypt, NotHalves(p), i) == NotHalves(After(F, keys, decrypt, p, i))
  {
    hide F, Xor, Not;
    if i > 0 {
      AfterNot(keys, decrypt, p, i - 1);
      var q, k := After(F, keys, decrypt, p, i - 1), KeyOf(keys, decrypt, i - 1);
      assert KeyOf(NotKeys(keys), decrypt, i - 1) == Not(k);
      FNot(q.right, k);
      XorLaws(q.left, F(q.right, k));
    }
  }

  lemma EnterNot(block: Block)
    ensures Enter(Not(block)) == NotHalves(Enter(block))
  {
    hide InitialPermutation, Permute;
    TablesSelect();
    PermuteNot(InitialPermutation(), block);
    NotSplit(Permute(InitialPermutation(), block), 32);
  }

  lemma NotSplit(s: Word, n: nat)
    requires n <= |s|
    ensures Not(s)[..n] == Not(s[..n]) && Not(s)[n..] == Not(s[n..])
  {
  }

  lemma NotJoin(a: Word, b: Word)
    ensures Not(a) + Not(b) == Not(a + b)
  {
  }

  lemma LeaveNot(p: Halves)
    ensures Leave(NotHalves(p)) == Not(Leave(p))
  {
    hide FinalPermutation, Permute, Not;
    TablesSelect();
    NotJoin(p.right, p.left);
    PermuteNot(FinalPermutation(), p.right + p.left);
  }

  lemma {:induction false} TurnNot(h: KeyHalf, times: nat)
    ensures Turn(Not(h), times) == Not(Turn(h, times))
  {
    hide Not;
    if times > 0 {
      TurnNot(h, times - 1);
      NotSplit(Turn(h, times - 1), 1);
      NotJoin(Turn(h, times - 1)[1..], Turn(h, times - 1)[..1]);
    }
  }

  lemma {:induction false} TurnedNot(key: Block, i: nat)
    requires i <= 16
    ensures Turned(Not(key), i) == KeyHalves(Not(Turned(key, i).c), Not(Turned(key, i).d))
  {
    hide Not, IterationShift, Turn, Choose;
    if i == 0 {
      ChooseNot(key);
    } else {
      TurnedNot(key, i - 1);
      TurnNot(Turned(key, i - 1).c, IterationShift()[i - 1]);
      TurnNot(Turned(key, i - 1).d, IterationShift()[i - 1]);
    }
  }

  lemma ChooseNot(key: Block)
    ensures Choose(Not(key)) == KeyHalves(Not(Choose(key).c), Not(Choose(key).d))
  {
    hide Not, Pc1, Permute;
    TablesSelect();
    PermuteNot(Pc1(), key);
    NotSplit(Permute(Pc1(), key), 28);
  }

  lemma SubKeysNot(key: Block)
    ensures SubKeys(Not(key)) == NotKeys(SubKeys(key))
  {
    hide Not, Permute, Pc2, Turned;
    forall i | 0 <= i < 16
      ensures SubKeys(Not(key))[i] == NotKeys(SubKeys(key))[i]
    {
      TablesSelect();
      TurnedNot(key, i + 1);
      var t := Turned(key, i + 1);
      NotJoin(t.c, t.d);
      PermuteNot(Pc2(), t.c + t.d);
    }
  }

  /** The complement of the block under the complement of the key gives the complement. */
  lemma Complementation(key: Block, block: Block, decrypt: bool)
    ensures Crypt(Not(key), Not(block), decrypt) == Not(Crypt(key, block, decrypt))
  {
    hide Not, NotKeys, NotHalves, Enter, Leave, SubKeys, After, F;
    SubKeysNot(key);
    EnterNot(block);
    AfterNot(SubKeys(key), decrypt, Enter(block), 16);
    LeaveNot(After(F, SubKeys(key), decrypt, Enter(block), 16));
  }

  // ---------- keys that are weak, and bits that do not matter ----------

  predicate Constant(h: Word)
  {
    forall i :: 0 <= i < |h| ==> h[i] == h[0]
  }

  lemma {:induction false} TurnConstant(h: KeyHalf, times: nat)
    requires Constant(h)
    ensures Turn(h, times) == h
  {
    if times > 0 {
      TurnConstant(h, times - 1);
    }
  }

  lemma {:induction false} TurnedConstant(key: Block, i: nat)
    requires i <= 16 && Constant(Choose(key).c) && Constant(Choose(key).d)
    ensures Turned(key, i) == Choose(key)
  {
    hide IterationShift, Turn, Choose;
    if i > 0 {
      TurnedConstant(key, i - 1);
      TurnConstant(Choose(key).c, IterationShift()[i - 1]);
      TurnConstant(Choose(key).d, IterationShift()[i - 1]);
    }
  }

  lemma {:induction false} SameKeys(keys: seq<RoundKey>, p: Halves, i: nat)
    requires i <= |keys|
    requires forall j, k :: 0 <= j < |keys| && 0 <= k < |keys| ==> keys[j] == keys[k]
    ensures After(F, keys, true, p, i) == After(F, keys, false, p, i)
  {
    hide F, Round;
    if i > 0 {
      SameKeys(keys, p, i - 1);
    }
  }

  /** When both halves of the key are constant every round key is the same, and to encrypt twice
      is to do nothing. */
  lemma WeakKey(key: Block, block: Block)
    requires Constant(Choose(key).c) && Constant(Choose(key).d)
    ensures Crypt(key, Crypt(key, block, false), false) == block
  {
    var keys := SubKeys(key);
    WeakSubKeys(key);
    hide F, SubKeys, After, Enter, Leave;
    var once := Crypt(key, block, false);
    SameKeys(keys, Enter(once), 16);
    Inverts(key, block, false);
  }

  lemma WeakSubKeys(key: Block)
    requires Constant(Choose(key).c) && Constant(Choose(key).d)
    ensures forall j, k :: 0 <= j < 16 && 0 <= k < 16 ==> SubKeys(key)[j] == SubKeys(key)[k]
  {
    hide Pc2, Permute, Choose, Turned, Constant;
    forall j, k | 0 <= j < 16 && 0 <= k < 16
      ensures SubKeys(key)[j] == SubKeys(key)[k]
    {
      TurnedConstant(key, j + 1);
      TurnedConstant(key, k + 1);
    }
  }

  /** The last bit of each byte of the key is for parity only. */
  lemma ParityIgnored(key: Block, other: Block, block: Block, decrypt: bool)
    requires forall i :: 0 <= i < 64 && i % 8 != 7 ==> key[i] == other[i]
    ensures Crypt(key, block, decrypt) == Crypt(other, block, decrypt)
  {
    hide CryptWith, F;
    SameChoice(key, other);
    SameSchedule(key, other);
  }

  lemma SameChoice(key: Block, other: Block)
    requires forall i :: 0 <= i < 64 && i % 8 != 7 ==> key[i] == other[i]
    ensures Choose(key) == Choose(other)
  {
    hide Pc1;
    TablesSelect();
    var k, o := Permute(Pc1(), key), Permute(Pc1(), other);
    forall i | 0 <= i < 56
      ensures k[i] == o[i]
    {
      var p: KeyPosition := Pc1()[i];
      assert (p - 1) % 8 != 7;
    }
    assert k == o;
  }

  lemma {:induction false} SameTurned(key: Block, other: Block, i: nat)
    requires i <= 16 && Choose(key) == Choose(other)
    ensures Turned(key, i) == Turned(other, i)
  {
    hide Choose, Turn, IterationShift;
    if i > 0 {
      SameTurned(key, other, i - 1);
    }
  }

  lemma SameSchedule(key: Block, other: Block)
    requires Choose(key) == Choose(other)
    ensures SubKeys(key) == SubKeys(other)
  {
    hide Choose, Turned, Permute, Pc2;
    forall i | 0 <= i < 16
      ensures SubKeys(key)[i] == SubKeys(other)[i]
    {
      SameTurned(key, other, i + 1);
    }
  }
}

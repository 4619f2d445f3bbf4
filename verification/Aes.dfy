/**
 The block cipher of FIPS 197, as rounds that overwrite a block of sixteen bytes. Byte (i, j) of
 the square, row i of column j, is byte 4j + i of the block.
 */
module Aes {
  import opened Galois
  import opened AesTables

  type Block = b: seq<bv8> | |b| == 16 witness seq(16, i => 0)

  // ---------- what one operation does to a block ----------

  function Sub(s: Block): (r: Block)
  {
    seq(16, k requires 0 <= k < 16 => SBox(s[k]))
  }

  function InvSub(s: Block): (r: Block)
  {
    seq(16, k requires 0 <= k < 16 => InverseSBox(s[k]))
  }

  /** Row i turns i places to the left. */
  function Shift(s: Block): (r: Block)
  {
    seq(16, k requires 0 <= k < 16 => s[(k + 4 * (k % 4)) % 16])
  }

  function InvShift(s: Block): (r: Block)
  {
    seq(16, k requires 0 <= k < 16 => s[(k + 12 * (k % 4)) % 16])
  }

  /** The byte `turn` places below byte k in its column, from the top again after the bottom. */
  function Below(s: Block, k: nat, turn: nat): (b: bv8)
    requires k < 16
  {
    s[k / 4 * 4 + (k + turn) % 4]
  }

  function MixedByte(s: Block, k: nat): (b: bv8)
    requires k < 16
  {
    Mix(Below(s, k, 0), Below(s, k, 1), Below(s, k, 2), Below(s, k, 3))
  }

  function UnmixedByte(s: Block, k: nat): (b: bv8)
    requires k < 16
  {
    InverseMix(Below(s, k, 0), Below(s, k, 1), Below(s, k, 2), Below(s, k, 3))
  }

  function MixColumns(s: Block): (r: Block)
  {
    seq(16, k requires 0 <= k < 16 => MixedByte(s, k))
  }

  function InvMixColumns(s: Block): (r: Block)
  {
    seq(16, k requires 0 <= k < 16 => UnmixedByte(s, k))
  }

  function AddKey(s: Block, key: seq<bv8>, at: nat): (r: Block)
    requires at + 16 <= |key|
  {
    seq(16, k requires 0 <= k < 16 => Add(s[k], key[at + k]))
  }

  // ---------- the operations in place ----------

  method SubBytes(state: array<bv8>)
    requires state.Length == 16
    modifies state
    ensures state[..] == Sub(old(state[..]))
  {
    hide SBox;
    var i := 16;
    while i > 0
      invariant 0 <= i <= 16
      invariant forall k :: 0 <= k < i ==> state[k] == old(state[k])
      invariant forall k :: i <= k < 16 ==> state[k] == SBox(old(state[k]))
    {
      i := i - 1;
      state[i] := SBox(state[i]);
    }
  }

  method InvSubBytes(state: array<bv8>)
    requires state.Length == 16
    modifies state
    ensures state[..] == InvSub(old(state[..]))
  {
    hide InverseSBox;
    var i := 16;
    while i > 0
      invariant 0 <= i <= 16
      invariant forall k :: 0 <= k < i ==> state[k] == old(state[k])
      invariant forall k :: i <= k < 16 ==> state[k] == InverseSBox(old(state[k]))
    {
      i := i - 1;
      state[i] := InverseSBox(state[i]);
    }
  }

  /** The block with one row turned `places` places to the left. */
  function TurnedRow(s: Block, row: nat, places: nat): (r: Block)
  {
    seq(16, k requires 0 <= k < 16 => if k % 4 == row then s[(k + 4 * places) % 16] else s[k])
  }

  lemma RowsTurned(s: Block)
    ensures Shift(s) == TurnedRow(TurnedRow(TurnedRow(s, 1, 1), 2, 2), 3, 3)
  {
    hide TurnedRow;
    var a := TurnedRow(s, 1, 1);
    var b := TurnedRow(a, 2, 2);
    forall k | 0 <= k < 16
      ensures Shift(s)[k] == TurnedRow(b, 3, 3)[k]
    {
      var from := (k + 4 * (k % 4)) % 16;
      TurnedAt(b, 3, 3, k);
      TurnedAt(a, 2, 2, if k % 4 == 3 then from else k);
      TurnedAt(s, 1, 1, if k % 4 == 1 then k else from);
    }
  }

  lemma RowsTurnedBack(s: Block)
    ensures InvShift(s) == TurnedRow(TurnedRow(TurnedRow(s, 3, 1), 2, 2), 1, 3)
  {
    hide TurnedRow;
    var a := TurnedRow(s, 3, 1);
    var b := TurnedRow(a, 2, 2);
    forall k | 0 <= k < 16
      ensures InvShift(s)[k] == TurnedRow(b, 1, 3)[k]
    {
      var from := (k + 12 * (k % 4)) % 16;
      BackFrom(k);
      TurnedAt(b, 1, 3, k);
      TurnedAt(a, 2, 2, if k % 4 == 1 then from else k);
      TurnedAt(s, 3, 1, if k % 4 == 3 then k else from);
    }
  }

  lemma BackFrom(k: nat)
    requires k < 16
    ensures var back := (k + 12 * (k % 4)) % 16;
            match k % 4
            case 0 => back == k
            case 1 => back == if k < 4 then k + 12 else k - 4
            case 2 => back == if k < 8 then k + 8 else k - 8
            case _ => back == if k < 12 then k + 4 else k - 12
  {
  }

  lemma TurnedAt(s: Block, row: nat, places: nat, k: nat)
    requires k < 16
    ensures TurnedRow(s, row, places)[k] == if k % 4 == row then s[(k + 4 * places) % 16] else s[k]
    ensures (k + 4 * places) % 16 % 4 == k % 4
  {
  }

  method TurnRow1(state: array<bv8>)
    requires state.Length == 16
    modifies state
    ensures state[..] == TurnedRow(old(state[..]), 1, 1)
  {
    var tmp := state[1];
    state[1] := state[5];
    state[5] := state[9];
    state[9] := state[13];
    state[13] := tmp;
  }

  method TurnRow2(state: array<bv8>)
    requires state.Length == 16
    modifies state
    ensures state[..] == TurnedRow(old(state[..]), 2, 2)
  {
    var tmp := state[2];
    state[2] := state[10];
    state[10] := tmp;
    tmp := state[6];
    state[6] := state[14];
    state[14] := tmp;
  }

  method TurnRow3(state: array<bv8>)
    requires state.Length == 16
    modifies state
    ensures state[..] == TurnedRow(old(state[..]), 3, 3)
  {
    var tmp := state[3];
    state[3] := state[15];
    state[15] := state[11];
    state[11] := state[7];
    state[7] := tmp;
  }

  method TurnRow3Back(state: array<bv8>)
    requires state.Length == 16
    modifies state
    ensures state[..] == TurnedRow(old(state[..]), 3, 1)
  {
    var tmp := state[3];
    state[3] := state[7];
    state[7] := state[11];
    state[11] := state[15];
    state[15] := tmp;
  }

  method TurnRow1Back(state: array<bv8>)
    requires state.Length == 16
    modifies state
    ensures state[..] == TurnedRow(old(state[..]), 1, 3)
  {
    var tmp := state[1];
    state[1] := state[13];
    state[13] := state[9];
    state[9] := state[5];
    state[5] := tmp;
  }

  method ShiftRows(state: array<bv8>)
    requires state.Length == 16
    modifies state
    ensures state[..] == Shift(old(state[..]))
  {
    hide Shift, TurnedRow;
    RowsTurned(state[..]);
    TurnRow1(state);
    TurnRow2(state);
    TurnRow3(state);
  }

  method InvShiftRows(state: array<bv8>)
    requires state.Length == 16
    modifies state
    ensures state[..] == InvShift(old(state[..]))
  {
    hide InvShift, TurnedRow;
    RowsTurnedBack(state[..]);
    TurnRow3Back(state);
    TurnRow2(state);
    TurnRow1Back(state);
  }

  function Sum(p: bv8, q: bv8, r: bv8, s: bv8): (t: bv8)
  {
    Add(Add(Add(p, q), r), s)
  }

  lemma SumTurns(p: bv8, q: bv8, r: bv8, s: bv8)
    ensures Sum(p, q, r, s) == Add4(p, q, r, s) == Add4(q, r, s, p) == Add4(r, s, p, q) == Add4(s, p, q, r)
  {
    hide Add;
    AddLaws(Add(p, q), r, s);
    Turn4(p, q, r, s);
    Turn4(q, r, s, p);
    Turn4(r, s, p, q);
  }

  method MixColumnsInPlace(state: array<bv8>)
    requires state.Length == 16
    modifies state
    ensures state[..] == MixColumns(old(state[..]))
  {
    hide Mul2, Mul3, Mix, MixedByte, Sum;
    ghost var was: Block := state[..];
    var i := 4;
    while i > 0
      invariant 0 <= i <= 4
      invariant forall k :: 0 <= k < 4 * i ==> state[k] == was[k]
      invariant forall k :: 4 * i <= k < 16 ==> state[k] == MixedByte(was, k)
    {
      i := i - 1;
      var a, b, c, d := state[4 * i], state[4 * i + 1], state[4 * i + 2], state[4 * i + 3];
      MixedColumn(was, i);
      state[4 * i] := Sum(Mul2(a), Mul3(b), c, d);
      state[4 * i + 1] := Sum(a, Mul2(b), Mul3(c), d);
      state[4 * i + 2] := Sum(a, b, Mul2(c), Mul3(d));
      state[4 * i + 3] := Sum(Mul3(a), b, c, Mul2(d));
    }
  }

  lemma BelowRows(s: Block, i: nat, row: nat)
    requires i < 4 && row < 4
    ensures var k := 4 * i + row;
            && Below(s, k, 0) == s[k]
            && Below(s, k, 1) == s[if row < 3 then k + 1 else k - 3]
            && Below(s, k, 2) == s[if row < 2 then k + 2 else k - 2]
            && Below(s, k, 3) == s[if row < 1 then k + 3 else k - 1]
  {
  }

  lemma MixedColumn(s: Block, i: nat)
    requires i < 4
    ensures var a, b, c, d := s[4 * i], s[4 * i + 1], s[4 * i + 2], s[4 * i + 3];
            && MixedByte(s, 4 * i) == Sum(Mul2(a), Mul3(b), c, d)
            && MixedByte(s, 4 * i + 1) == Sum(a, Mul2(b), Mul3(c), d)
            && MixedByte(s, 4 * i + 2) == Sum(a, b, Mul2(c), Mul3(d))
            && MixedByte(s, 4 * i + 3) == Sum(Mul3(a), b, c, Mul2(d))
  {
    hide Mix, Mul2, Mul3, Sum, Below;
    MixTurned(s[4 * i], s[4 * i + 1], s[4 * i + 2], s[4 * i + 3]);
    BelowRows(s, i, 0);
    BelowRows(s, i, 1);
    BelowRows(s, i, 2);
    BelowRows(s, i, 3);
  }

  lemma MixTurned(a: bv8, b: bv8, c: bv8, d: bv8)
    ensures Mix(a, b, c, d) == Sum(Mul2(a), Mul3(b), c, d)
    ensures Mix(b, c, d, a) == Sum(a, Mul2(b), Mul3(c), d)
    ensures Mix(c, d, a, b) == Sum(a, b, Mul2(c), Mul3(d))
    ensures Mix(d, a, b, c) == Sum(Mul3(a), b, c, Mul2(d))
  {
    hide Mul2, Mul3, Add4, Sum;
    SumTurns(Mul2(a), Mul3(b), c, d);
    SumTurns(a, Mul2(b), Mul3(c), d);
    SumTurns(a, b, Mul2(c), Mul3(d));
    SumTurns(Mul3(a), b, c, Mul2(d));
  }

  method InvMixColumnsInPlace(state: array<bv8>)
    requires state.Length == 16
    modifies state
    ensures state[..] == InvMixColumns(old(state[..]))
  {
    hide Mul, InverseMix, UnmixedByte, Sum;
    ghost var was: Block := state[..];
    var i := 4;
    while i > 0
      invariant 0 <= i <= 4
      invariant forall k :: 0 <= k < 4 * i ==> state[k] == was[k]
      invariant forall k :: 4 * i <= k < 16 ==> state[k] == UnmixedByte(was, k)
    {
      i := i - 1;
      UnmixOne(state, i, was);
    }
  }

  method UnmixOne(state: array<bv8>, i: nat, ghost was: Block)
    requires state.Length == 16 && i < 4 && forall k :: 4 * i <= k < 4 * i + 4 ==> state[k] == was[k]
    modifies state
    ensures forall k :: 4 * i <= k < 4 * i + 4 ==> state[k] == UnmixedByte(was, k)
    ensures forall k :: 0 <= k < 16 && !(4 * i <= k < 4 * i + 4) ==> state[k] == old(state[k])
  {
    hide Mul, UnmixedByte, Sum;
    UnmixedColumn(was, i);
    UnmixColumn(state, 4 * i);
  }

  method UnmixColumn(state: array<bv8>, at: nat)
    requires state.Length == 16 && at + 4 <= 16
    modifies state
    ensures var a, b, c, d := old(state[at]), old(state[at + 1]), old(state[at + 2]), old(state[at + 3]);
            && state[at] == Sum(Mul(14, a), Mul(11, b), Mul(13, c), Mul(9, d))
            && state[at + 1] == Sum(Mul(9, a), Mul(14, b), Mul(11, c), Mul(13, d))
            && state[at + 2] == Sum(Mul(13, a), Mul(9, b), Mul(14, c), Mul(11, d))
            && state[at + 3] == Sum(Mul(11, a), Mul(13, b), Mul(9, c), Mul(14, d))
    ensures forall k :: 0 <= k < 16 && !(at <= k < at + 4) ==> state[k] == old(state[k])
  {
    hide Mul, Sum;
    var a, b, c, d := state[at], state[at + 1], state[at + 2], state[at + 3];
    var s0 := UnmixRow(a, b, c, d, 14, 11, 13, 9);
    var s1 := UnmixRow(a, b, c, d, 9, 14, 11, 13);
    var s2 := UnmixRow(a, b, c, d, 13, 9, 14, 11);
    var s3 := UnmixRow(a, b, c, d, 11, 13, 9, 14);
    state[at] := s0;
    state[at + 1] := s1;
    state[at + 2] := s2;
    state[at + 3] := s3;
  }

  method UnmixRow(a: bv8, b: bv8, c: bv8, d: bv8, f: bv8, g: bv8, h: bv8, j: bv8) returns (r: bv8)
    ensures r == Sum(Mul(f, a), Mul(g, b), Mul(h, c), Mul(j, d))
  {
    hide Mul, Add;
    r := GaloisFieldMultiply(f, a);
    var next := GaloisFieldMultiply(g, b);
    r := Add(r, next);
    next := GaloisFieldMultiply(h, c);
    r := Add(r, next);
    next := GaloisFieldMultiply(j, d);
    r := Add(r, next);
  }

  lemma UnmixedColumn(s: Block, i: nat)
    requires i < 4
    ensures var a, b, c, d := s[4 * i], s[4 * i + 1], s[4 * i + 2], s[4 * i + 3];
            && UnmixedByte(s, 4 * i) == Sum(Mul(14, a), Mul(11, b), Mul(13, c), Mul(9, d))
            && UnmixedByte(s, 4 * i + 1) == Sum(Mul(9, a), Mul(14, b), Mul(11, c), Mul(13, d))
            && UnmixedByte(s, 4 * i + 2) == Sum(Mul(13, a), Mul(9, b), Mul(14, c), Mul(11, d))
            && UnmixedByte(s, 4 * i + 3) == Sum(Mul(11, a), Mul(13, b), Mul(9, c), Mul(14, d))
  {
    hide InverseMix, Mul, Sum, Below;
    UnmixTurned(s[4 * i], s[4 * i + 1], s[4 * i + 2], s[4 * i + 3]);
    BelowRows(s, i, 0);
    BelowRows(s, i, 1);
    BelowRows(s, i, 2);
    BelowRows(s, i, 3);
  }

  lemma UnmixTurned(a: bv8, b: bv8, c: bv8, d: bv8)
    ensures InverseMix(a, b, c, d) == Sum(Mul(14, a), Mul(11, b), Mul(13, c), Mul(9, d))
    ensures InverseMix(b, c, d, a) == Sum(Mul(9, a), Mul(14, b), Mul(11, c), Mul(13, d))
    ensures InverseMix(c, d, a, b) == Sum(Mul(13, a), Mul(9, b), Mul(14, c), Mul(11, d))
    ensures InverseMix(d, a, b, c) == Sum(Mul(11, a), Mul(13, b), Mul(9, c), Mul(14, d))
  {
    hide Mul, Add4, Sum;
    SumTurns(Mul(14, a), Mul(11, b), Mul(13, c), Mul(9, d));
    SumTurns(Mul(9, a), Mul(14, b), Mul(11, c), Mul(13, d));
    SumTurns(Mul(13, a), Mul(9, b), Mul(14, c), Mul(11, d));
    SumTurns(Mul(11, a), Mul(13, b), Mul(9, c), Mul(14, d));
  }

  method AddRoundKey(state: array<bv8>, roundKey: array<bv8>, at: nat)
    requires state.Length == 16 && at + 16 <= roundKey.Length && state != roundKey
    modifies state
    ensures state[..] == AddKey(old(state[..]), roundKey[..], at)
  {
    hide Add;
    var i := 16;
    while i > 0
      invariant 0 <= i <= 16
      invariant forall k :: 0 <= k < i ==> state[k] == old(state[k])
      invariant forall k :: i <= k < 16 ==> state[k] == Add(old(state[k]), roundKey[at + k])
    {
      i := i - 1;
      state[i] := Add(state[i], roundKey[at + i]);
    }
  }

  // ---------- each operation has an inverse ----------

  lemma SubInverts(s: Block)
    ensures InvSub(Sub(s)) == s
  {
    hide SBox, InverseSBox;
    forall k | 0 <= k < 16
      ensures InvSub(Sub(s))[k] == s[k]
    {
      SBoxInverts(s[k]);
    }
  }

  lemma ShiftInverts(s: Block)
    ensures InvShift(Shift(s)) == s
  {
    forall k | 0 <= k < 16
      ensures InvShift(Shift(s))[k] == s[k]
    {
      ThereAndBack(k);
    }
  }

  lemma ThereAndBack(k: nat)
    requires k < 16
    ensures var back := (k + 12 * (k % 4)) % 16;
            (back + 4 * (back % 4)) % 16 == k
  {
    var back := (k + 12 * (k % 4)) % 16;
    BackFrom(k);
  }

  lemma AddKeyInverts(s: Block, key: seq<bv8>, at: nat)
    requires at + 16 <= |key|
    ensures AddKey(AddKey(s, key, at), key, at) == s
  {
    hide Add;
    forall k | 0 <= k < 16
      ensures AddKey(AddKey(s, key, at), key, at)[k] == s[k]
    {
      AddLaws(s[k], key[at + k], key[at + k]);
      AddLaws(key[at + k], key[at + k], 0);
      AddLaws(s[k], 0, 0);
    }
  }

  lemma BelowMixed(s: Block, k: nat, turn: nat)
    requires k < 16 && turn < 4
    ensures Below(MixColumns(s), k, turn)
            == Mix(Below(s, k, turn), Below(s, k, turn + 1), Below(s, k, turn + 2), Below(s, k, turn + 3))
  {
    hide Mix, Below;
    var m := Down(k, turn);
    assert Below(MixColumns(s), k, turn) == MixColumns(s)[m] by { BelowDown(MixColumns(s), k, turn, 0); }
    BelowDown(s, k, turn, 0);
    BelowDown(s, k, turn, 1);
    BelowDown(s, k, turn, 2);
    BelowDown(s, k, turn, 3);
  }

  function Down(k: nat, turn: nat): (m: nat)
    requires k < 16
    ensures m < 16
  {
    k / 4 * 4 + (k + turn) % 4
  }

  lemma BelowDown(s: Block, k: nat, turn: nat, more: nat)
    requires k < 16 && turn < 4 && more < 4
    ensures Below(s, Down(k, turn), more) == Below(s, k, turn + more)
    ensures Below(s, k, turn) == s[Down(k, turn)]
  {
    DownParts(k, turn);
    TurnTwice(k, turn, more);
  }

  lemma DownParts(k: nat, turn: nat)
    requires k < 16
    ensures Down(k, turn) / 4 == k / 4 && Down(k, turn) % 4 == (k + turn) % 4
  {
  }

  lemma TurnTwice(k: nat, turn: nat, more: nat)
    requires k < 16
    ensures (Down(k, turn) + more) % 4 == (k + turn + more) % 4
  {
  }

  lemma MixColumnsInverts(s: Block)
    ensures InvMixColumns(MixColumns(s)) == s
  {
    hide Mix, InverseMix, Below, MixColumns;
    forall k | 0 <= k < 16
      ensures InvMixColumns(MixColumns(s))[k] == s[k]
    {
      BelowMixed(s, k, 0);
      BelowMixed(s, k, 1);
      BelowMixed(s, k, 2);
      BelowMixed(s, k, 3);
      BelowTurns(s, k);
      MixInverts(Below(s, k, 0), Below(s, k, 1), Below(s, k, 2), Below(s, k, 3));
    }
  }

  lemma BelowTurns(s: Block, k: nat)
    requires k < 16
    ensures Below(s, k, 0) == s[k] && Below(s, k, 4) == Below(s, k, 0) && Below(s, k, 5) == Below(s, k, 1)
    ensures Below(s, k, 6) == Below(s, k, 2)
  {
  }

  // ---------- the cipher ----------

  /** The block after the first key and i full rounds. */
  function Rounds(key: seq<bv8>, s: Block, i: nat): (r: Block)
    requires 16 * i + 16 <= |key|
  {
    if i == 0 then AddKey(s, key, 0)
    else AddKey(MixColumns(Shift(Sub(Rounds(key, s, i - 1)))), key, 16 * i)
  }

  /** Section 5.1 of FIPS 197: the last round does not mix the columns. */
  function Cipher(key: seq<bv8>, s: Block, rounds: nat): (r: Block)
    requires rounds >= 1 && 16 * rounds + 16 <= |key|
  {
    AddKey(Shift(Sub(Rounds(key, s, rounds - 1))), key, 16 * rounds)
  }

  function InvRounds(key: seq<bv8>, c: Block, rounds: nat, i: nat): (r: Block)
    requires i < rounds && 16 * rounds + 16 <= |key|
  {
    if i == 0 then AddKey(c, key, 16 * rounds)
    else InvMixColumns(AddKey(InvSub(InvShift(InvRounds(key, c, rounds, i - 1))), key, 16 * (rounds - i)))
  }

  /** Section 5.3 of FIPS 197. */
  function InvCipher(key: seq<bv8>, c: Block, rounds: nat): (r: Block)
    requires rounds >= 1 && 16 * rounds + 16 <= |key|
  {
    AddKey(InvSub(InvShift(InvRounds(key, c, rounds, rounds - 1))), key, 0)
  }

  method Encrypt(roundKey: array<bv8>, block: array<bv8>, rounds: nat)
    requires block.Length == 16 && block != roundKey
    requires rounds >= 1 && 16 * rounds + 16 <= roundKey.Length
    modifies block
    ensures block[..] == Cipher(roundKey[..], old(block[..]), rounds)
  {
    hide Sub, Shift, MixColumns, AddKey;
    ghost var key := roundKey[..];
    AddRoundKey(block, roundKey, 0);
    var i := 1;
    while i < rounds
      invariant 1 <= i <= rounds
      invariant roundKey[..] == key
      invariant block[..] == Rounds(key, old(block[..]), i - 1)
    {
      SubBytes(block);
      ShiftRows(block);
      MixColumnsInPlace(block);
      AddRoundKey(block, roundKey, 16 * i);
      i := i + 1;
    }
    SubBytes(block);
    ShiftRows(block);
    AddRoundKey(block, roundKey, 16 * i);
  }

  method Decrypt(roundKey: array<bv8>, block: array<bv8>, rounds: nat)
    requires block.Length == 16 && block != roundKey
    requires rounds >= 1 && 16 * rounds + 16 <= roundKey.Length
    modifies block
    ensures block[..] == InvCipher(roundKey[..], old(block[..]), rounds)
  {
    hide InvSub, InvShift, InvMixColumns, AddKey;
    ghost var key := roundKey[..];
    AddRoundKey(block, roundKey, 16 * rounds);
    var i := 1;
    while i < rounds
      invariant 1 <= i <= rounds
      invariant roundKey[..] == key
      invariant block[..] == InvRounds(key, old(block[..]), rounds, i - 1)
    {
      InvShiftRows(block);
      InvSubBytes(block);
      AddRoundKey(block, roundKey, 16 * (rounds - i));
      InvMixColumnsInPlace(block);
      i := i + 1;
    }
    InvShiftRows(block);
    InvSubBytes(block);
    AddRoundKey(block, roundKey, 0);
  }

  /** After i rounds of decryption the block is where encryption was i rounds before its end,
      just past the substitution and the shift. */
  lemma {:induction false} Backwards(key: seq<bv8>, s: Block, rounds: nat, i: nat)
    requires i < rounds && 16 * rounds + 16 <= |key|
    ensures InvRounds(key, Cipher(key, s, rounds), rounds, i) == Shift(Sub(Rounds(key, s, rounds - 1 - i)))
  {
    hide Sub, InvSub, Shift, InvShift, MixColumns, InvMixColumns, AddKey;
    var before := Shift(Sub(Rounds(key, s, rounds - 1 - i)));
    if i == 0 {
      AddKeyInverts(before, key, 16 * rounds);
    } else {
      Backwards(key, s, rounds, i - 1);
      var after := Rounds(key, s, rounds - i);
      assert after == AddKey(MixColumns(before), key, 16 * (rounds - i));
      ShiftInverts(Sub(after));
      SubInverts(after);
      AddKeyInverts(MixColumns(before), key, 16 * (rounds - i));
      MixColumnsInverts(before);
    }
  }

  /** Decryption undoes encryption, for any round keys, any number of rounds and any block. */
  lemma RoundTrip(key: seq<bv8>, s: Block, rounds: nat)
    requires rounds >= 1 && 16 * rounds + 16 <= |key|
    ensures InvCipher(key, Cipher(key, s, rounds), rounds) == s
  {
    hide Sub, InvSub, Shift, InvShift, MixColumns, InvMixColumns, AddKey;
    Backwards(key, s, rounds, rounds - 1);
    var first := AddKey(s, key, 0);
    assert Rounds(key, s, 0) == first;
    ShiftInverts(Sub(first));
    SubInverts(first);
    AddKeyInverts(s, key, 0);
  }
}

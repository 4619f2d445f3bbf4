/** Key expansion of AES, on the words of the round key array. */
module AesKeys {
  import opened Arithmetic
  import opened Galois
  import opened AesTables
  import opened Aes

  /** The four bytes of a word, in the order they lie in memory. */
  datatype Word = Word(b0: bv8, b1: bv8, b2: bv8, b3: bv8)

  function AddWord(p: Word, q: Word): (r: Word)
  {
    Word(Add(p.b0, q.b0), Add(p.b1, q.b1), Add(p.b2, q.b2), Add(p.b3, q.b3))
  }

  function Rotate(w: Word): (r: Word)
  {
    Word(w.b1, w.b2, w.b3, w.b0)
  }

  function SubWord(w: Word): (r: Word)
  {
    Word(SBox(w.b0), SBox(w.b1), SBox(w.b2), SBox(w.b3))
  }

  const RCON: seq<bv8> := [0x01, 0x02, 0x04, 0x08, 0x10, 0x20, 0x40, 0x80, 0x1B, 0x36]

  /** x to the power i, the round constant of section 5.2 of FIPS 197 for round i + 1. */
  function Power(i: nat): (r: bv8)
  {
    if i == 0 then 1 else Mul2(Power(i - 1))
  }

  lemma {:induction false} RconIsPower(i: nat)
    requires i < 10
    ensures RCON[i] == Power(i)
  {
    if i > 0 {
      RconIsPower(i - 1);
      RconDoubles(i);
    }
  }

  lemma RconDoubles(i: nat)
    requires 0 < i < 10
    ensures RCON[i] == Mul2(RCON[i - 1])
  {
    if i < 4 {
    } else if i < 7 {
    } else {
    }
  }

  /** What becomes of a word before the one a key length back is added: at the start of a turn it
      is rotated, substituted and given the round constant. */
  function Stirred(w: Word, n: nat, turn: nat, cycle: nat): (r: Word)
    requires 0 < turn
  {
    if cycle == 0 then AddWord(SubWord(Rotate(w)), Word(Power(turn - 1), 0, 0, 0))
    else if n > 6 && cycle == 4 then SubWord(w)
    else w
  }

  /** Word i of the schedule, by the recurrence of section 5.2 of FIPS 197, where only the
      position of the word modulo the key length counts. */
  function Schedule(key: seq<Word>, i: nat): (w: Word)
    requires |key| > 0
  {
    var n := |key|;
    if i < n then key[i]
    else AddWord(Stirred(Schedule(key, i - 1), n, i / n, i % n), Schedule(key, i - n))
  }

  /** The recurrence at cycle `cycle` of turn `turn`. */
  lemma ScheduleAt(key: seq<Word>, turn: nat, cycle: nat, position: nat)
    requires 0 < turn && cycle < |key| && position == |key| * turn + cycle && position >= |key|
    ensures Schedule(key, position)
         == AddWord(Stirred(Schedule(key, position - 1), |key|, turn, cycle), Schedule(key, position - |key|))
  {
    hide AddWord, Stirred;
    Divided(|key|, turn, cycle);
  }

  ghost function WordAt(bytes: array<bv8>, p: nat): (w: Word)
    requires 4 * p + 4 <= bytes.Length
    reads bytes
  {
    Word(bytes[4 * p], bytes[4 * p + 1], bytes[4 * p + 2], bytes[4 * p + 3])
  }

  method GetWord(bytes: array<bv8>, p: nat) returns (w: Word)
    requires 4 * p + 4 <= bytes.Length
    ensures w == WordAt(bytes, p)
  {
    w := Word(bytes[4 * p], bytes[4 * p + 1], bytes[4 * p + 2], bytes[4 * p + 3]);
  }

  method PutWord(bytes: array<bv8>, p: nat, w: Word)
    requires 4 * p + 4 <= bytes.Length
    modifies bytes
    ensures WordAt(bytes, p) == w
    ensures forall k :: 0 <= k < 4 * p ==> bytes[k] == old(bytes[k])
  {
    bytes[4 * p], bytes[4 * p + 1], bytes[4 * p + 2], bytes[4 * p + 3] := w.b0, w.b1, w.b2, w.b3;
  }

  /** The first `count` words of the array are those of the schedule. */
  ghost predicate Scheduled(bytes: array<bv8>, key: seq<Word>, count: nat)
    requires |key| > 0 && 4 * count <= bytes.Length
    reads bytes
  {
    forall p :: 0 <= p < count ==> WordAt(bytes, p) == Schedule(key, p)
  }

  lemma ScheduledAt(bytes: array<bv8>, key: seq<Word>, count: nat, p: nat)
    requires |key| > 0 && 4 * count <= bytes.Length && p < count && Scheduled(bytes, key, count)
    ensures WordAt(bytes, p) == Schedule(key, p)
  {
  }

  method PutNext(bytes: array<bv8>, p: nat, w: Word, ghost key: seq<Word>)
    requires |key| > 0 && 4 * p + 4 <= bytes.Length
    requires Scheduled(bytes, key, p) && w == Schedule(key, p)
    modifies bytes
    ensures Scheduled(bytes, key, p + 1)
  {
    hide Schedule;
    PutWord(bytes, p, w);
  }

  /** The array is filled with the schedule, though the loop counts cycles instead of dividing and
      though it reads the round constants from a table of ten, which it never leaves. */
  method Init(roundKey: array<bv8>, b: nat, key: seq<Word>)
    requires |key| in {4, 6, 8} && |key| < b <= 11 * |key| && roundKey.Length == 4 * b
    modifies roundKey
    ensures Scheduled(roundKey, key, b)
  {
    hide AddWord, SubWord, Schedule, Scheduled, WordAt;
    var n := |key|;
    CopyKey(roundKey, key);
    var t := GetWord(roundKey, n - 1);
    ScheduledAt(roundKey, key, n, n - 1);
    var position, cycle, i := n, n, 0;
    while position < b
      invariant n <= position <= b && 1 <= cycle <= n
      invariant position == n * i + cycle
      invariant t == Schedule(key, position - 1)
      invariant Scheduled(roundKey, key, position)
    {
      if cycle == n {
        cycle := 0;
        InTable(n, i, b);
        t := StirFirst(t, n, i);
        i := i + 1;
      } else if cycle == 4 && n == 8 {
        t := SubWord(t);
      }
      ScheduleAt(key, i, cycle, position);
      var back := GetWord(roundKey, position - n);
      ScheduledAt(roundKey, key, position, position - n);
      t := AddWord(t, back);
      PutNext(roundKey, position, t, key);
      position := position + 1;
      cycle := cycle + 1;
    }
  }

  /** The first word of a turn, with the round constant from the table. */
  method StirFirst(w: Word, n: nat, i: nat) returns (t: Word)
    requires i < 10
    ensures t == Stirred(w, n, i + 1, 0)
  {
    hide SubWord, Rotate, Power, AddWord;
    t := SubWord(Rotate(w));
    RconIsPower(i);
    RconByte(t, RCON[i]);
    t := t.(b0 := Add(t.b0, RCON[i]));
  }

  method CopyKey(roundKey: array<bv8>, key: seq<Word>)
    requires 0 < |key| && 4 * |key| <= roundKey.Length
    modifies roundKey
    ensures Scheduled(roundKey, key, |key|)
  {
    var p := 0;
    while p < |key|
      invariant 0 <= p <= |key|
      invariant Scheduled(roundKey, key, p)
    {
      PutNext(roundKey, p, key[p], key);
      p := p + 1;
    }
  }

  lemma InTable(n: nat, i: nat, b: nat)
    requires 0 < n && n * i + n < b <= 11 * n
    ensures i < 10
  {
    if i >= 10 {
      AtLeastTen(n, i);
    }
  }

  lemma AtLeastTen(n: nat, i: nat)
    requires i >= 10
    ensures n * i >= n * 10
  {
  }

  lemma RconByte(t: Word, r: bv8)
    ensures AddWord(t, Word(r, 0, 0, 0)) == t.(b0 := Add(t.b0, r))
  {
    hide Add;
    AddLaws(t.b1, 0, 0);
    AddLaws(t.b2, 0, 0);
    AddLaws(t.b3, 0, 0);
  }

  /** The arrays of `aes.h` hold eleven, thirteen or fifteen round keys, one more than rounds. */
  method InitKey(key: seq<Word>) returns (roundKey: array<bv8>, rounds: nat)
    requires |key| in {4, 6, 8}
    ensures rounds == |key| + 6 && roundKey.Length == 16 * (rounds + 1) && fresh(roundKey)
    ensures Scheduled(roundKey, key, 4 * (rounds + 1))
  {
    rounds := if |key| == 8 then 14 else if |key| == 6 then 12 else 10;
    roundKey := new bv8[16 * (rounds + 1)];
    Init(roundKey, 4 * (rounds + 1), key);
  }
}

/** Disk blocks as bytes, and the little-endian words that the kernel overlays on them: the entries of an indirect
    block, the header of the log, the fields of inodes and of the superblock. */
module Blocks {
  import opened Seqs

  const BSIZE := 1024
  /** Words per block: BSIZE / sizeof(uint). */
  const WORDS := 256
  /** Block numbers and all stored counts are `uint`. */
  const UINT := 0x1_0000_0000

  type Byte = x: int | 0 <= x < 256

  datatype Block = Block(bytes: seq<Byte>)

  predicate BlockOk(b: Block) {
    |b.bytes| == BSIZE
  }

  const ZERO := Block(Repeat<Byte>(0, BSIZE))

  // ----- Words -----

  /** The low `n` bytes of `v`, least significant first. */
  function Low(v: nat, n: nat): (s: seq<Byte>)
    ensures |s| == n
  {
    if n == 0 then [] else [v % 256] + Low(v / 256, n - 1)
  }

  function Value(s: seq<Byte>): nat {
    if s == [] then 0 else s[0] + 256 * Value(s[1..])
  }

  function Pow256(n: nat): nat {
    if n == 0 then 1 else 256 * Pow256(n - 1)
  }

  lemma {:induction false} LowValue(v: nat, n: nat)
    requires v < Pow256(n)
    ensures Value(Low(v, n)) == v
  {
    if n > 0 {
      LowValue(v / 256, n - 1);
      assert Low(v, n)[1..] == Low(v / 256, n - 1);
    }
  }

  lemma {:induction false} ValueFits(s: seq<Byte>)
    ensures Value(s) < Pow256(|s|)
  {
    if s != [] {
      ValueFits(s[1..]);
    }
  }

  lemma {:induction false} ZeroValue(s: seq<Byte>)
    requires forall i :: 0 <= i < |s| ==> s[i] == 0
    ensures Value(s) == 0
  {
    if s != [] {
      ZeroValue(s[1..]);
    }
  }

  /** `a[i]` with `a = (uint*)bp->data`. */
  function Word(b: Block, i: nat): (w: nat)
    requires BlockOk(b) && i < WORDS
    ensures w < UINT
  {
    assert Pow256(4) == UINT;
    ValueFits(b.bytes[4 * i..4 * i + 4]);
    Value(b.bytes[4 * i..4 * i + 4])
  }

  /** Storing `v` in `a[i]`, which keeps its low 32 bits. */
  function PutWord(b: Block, i: nat, v: nat): (b': Block)
    requires BlockOk(b) && i < WORDS
    ensures BlockOk(b')
  {
    Block(Spliced(b.bytes, 4 * i, Low(v, 4)))
  }

  lemma PutWordReads(b: Block, i: nat, v: nat)
    requires BlockOk(b) && i < WORDS && v < UINT
    ensures forall j :: 0 <= j < WORDS ==> Word(PutWord(b, i, v), j) == if j == i then v else Word(b, j)
  {
    var b' := PutWord(b, i, v);
    assert Pow256(4) == UINT;
    LowValue(v, 4);
    assert b'.bytes[4 * i..4 * i + 4] == Low(v, 4);
    forall j | 0 <= j < WORDS && j != i ensures Word(b', j) == Word(b, j) {
      assert b'.bytes[4 * j..4 * j + 4] == b.bytes[4 * j..4 * j + 4];
    }
  }

  lemma ZeroWords(j: nat)
    requires j < WORDS
    ensures Word(ZERO, j) == 0
  {
    ZeroValue(ZERO.bytes[4 * j..4 * j + 4]);
  }

  /** Words [at, at + n). */
  function GetWords(b: Block, at: nat, n: nat): (ws: seq<nat>)
    requires BlockOk(b) && at + n <= WORDS
    ensures |ws| == n
  {
    if n == 0 then [] else GetWords(b, at, n - 1) + [Word(b, at + n - 1)]
  }

  lemma {:induction false} GetWordsAt(b: Block, at: nat, n: nat, j: nat)
    requires BlockOk(b) && at + n <= WORDS && j < n
    ensures GetWords(b, at, n)[j] == Word(b, at + j)
  {
    if j < n - 1 {
      GetWordsAt(b, at, n - 1, j);
    }
  }

  lemma {:induction false} SameWords(b: Block, b': Block, at: nat, n: nat)
    requires BlockOk(b) && BlockOk(b') && at + n <= WORDS && forall j :: at <= j < at + n ==> Word(b', j) == Word(b, j)
    ensures GetWords(b', at, n) == GetWords(b, at, n)
  {
    if n > 0 {
      SameWords(b, b', at, n - 1);
    }
  }

  lemma GetWordsFit(b: Block, at: nat, n: nat)
    requires BlockOk(b) && at + n <= WORDS
    ensures Uints(GetWords(b, at, n))
  {
    forall j | 0 <= j < n ensures GetWords(b, at, n)[j] < UINT {
      GetWordsAt(b, at, n, j);
    }
  }

  /** Storing `ws` in the words from `at` on. */
  function PutWords(b: Block, at: nat, ws: seq<nat>): (b': Block)
    requires BlockOk(b) && at + |ws| <= WORDS
    ensures BlockOk(b')
    decreases |ws|
  {
    if ws == [] then b else PutWords(PutWord(b, at, ws[0]), at + 1, ws[1..])
  }

  ghost predicate Uints(ws: seq<nat>) {
    forall i :: 0 <= i < |ws| ==> ws[i] < UINT
  }

  /** Exactly those words change, and what was stored is read back. */
  lemma {:induction false} PutWordsReads(b: Block, at: nat, ws: seq<nat>)
    requires BlockOk(b) && at + |ws| <= WORDS && Uints(ws)
    ensures forall j :: 0 <= j < WORDS ==>
              Word(PutWords(b, at, ws), j) == if at <= j < at + |ws| then ws[j - at] else Word(b, j)
    decreases |ws|
  {
    if ws != [] {
      PutWordReads(b, at, ws[0]);
      PutWordsReads(PutWord(b, at, ws[0]), at + 1, ws[1..]);
    }
  }

  lemma PutGetWords(b: Block, at: nat, ws: seq<nat>, from: nat, n: nat)
    requires BlockOk(b) && at + |ws| <= WORDS && Uints(ws) && at <= from && from + n <= at + |ws|
    ensures GetWords(PutWords(b, at, ws), from, n) == ws[from - at..from - at + n]
  {
    PutWordsReads(b, at, ws);
    forall j | 0 <= j < n ensures GetWords(PutWords(b, at, ws), from, n)[j] == ws[from - at..from - at + n][j] {
      GetWordsAt(PutWords(b, at, ws), from, n, j);
    }
  }

  lemma {:induction false} ValueInjective(s: seq<Byte>, t: seq<Byte>)
    requires |s| == |t| && Value(s) == Value(t)
    ensures s == t
  {
    if s != [] {
      var s0: int, t0: int := s[0], t[0];
      assert s0 - t0 == 256 * (Value(t[1..]) - Value(s[1..]));
      ValueInjective(s[1..], t[1..]);
      assert s == [s[0]] + s[1..] && t == [t[0]] + t[1..];
    }
  }

  /** The words of a block determine its bytes. */
  lemma WordsDetermine(b: Block, b': Block)
    requires BlockOk(b) && BlockOk(b') && forall j :: 0 <= j < WORDS ==> Word(b', j) == Word(b, j)
    ensures b == b'
  {
    forall k | 0 <= k < BSIZE ensures b.bytes[k] == b'.bytes[k] {
      var j := k / 4;
      assert Word(b', j) == Word(b, j);
      var s, t := b.bytes[4 * j..4 * j + 4], b'.bytes[4 * j..4 * j + 4];
      ValueInjective(s, t);
      assert b.bytes[k] == s[k - 4 * j] && b'.bytes[k] == t[k - 4 * j];
    }
  }
}

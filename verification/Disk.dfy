/** Disk images, atomic single-block writes and the effect of a write trace. */
module Disk {
  import opened Seqs

  /** A disk block, as the array of machine words the kernel overlays on it. */
  datatype Block = Block(words: seq<nat>)

  /** Words per block: BSIZE / sizeof(uint). */
  const WORDS := 256

  const ZERO := Block(Repeat<nat>(0, WORDS))

  /** A disk: blocks never written are zero. */
  type Image = map<nat, Block>

  function Read(d: Image, b: nat): Block {
    if b in d then d[b] else ZERO
  }

  datatype Write = Write(at: nat, block: Block)

  function Put(d: Image, w: Write): Image {
    d[w.at := w.block]
  }

  /** The disk after the writes of a trace have all reached it, in order. */
  function Apply(d: Image, ws: seq<Write>): Image {
    if ws == [] then d else Put(Apply(d, ws[..|ws| - 1]), ws[|ws| - 1])
  }

  lemma {:induction false} ApplyConcat(d: Image, xs: seq<Write>, ys: seq<Write>)
    ensures Apply(d, xs + ys) == Apply(Apply(d, xs), ys)
  {
    if ys == [] {
      assert xs + ys == xs;
    } else {
      var n := |ys| - 1;
      assert (xs + ys)[..|xs + ys| - 1] == xs + ys[..n];
      ApplyConcat(d, xs, ys[..n]);
    }
  }

  lemma ApplyOne(d: Image, w: Write)
    ensures Apply(d, []) == d && Apply(d, [w]) == Put(d, w)
  {
    assert [w][..0] == [];
  }
}

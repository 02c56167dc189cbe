/** `mkfs`: the image it writes satisfies the kernel's block-ownership invariant. While it works, the free
    map on the image is still zero; what holds then is said of the image with its map painted full. */
module Mkfs {
  import opened Blocks
  import opened FsLayout
  import opened FsBlocks
  import FsBoot
  import FsCode
  import opened Params
  import opened Seqs

  const NINODES := 200

  const NBITMAP := FSSIZE / BPB + 1
  const NINODEBLOCKS := NINODES / IPB + 1
  const NMETA := 2 + LOGSIZE + NINODEBLOCKS + NBITMAP
  const BMAP := 2 + LOGSIZE + NINODEBLOCKS

  const SB := Superblock(FSSIZE, NMETA, NINODES, LOGSIZE, 2, 2 + LOGSIZE, BMAP)

  // ----- The painted map -----

  function Ones(): (b: Block)
    ensures BlockOk(b) && forall i :: 0 <= i < BSIZE ==> b.bytes[i] == 255
  {
    Block(Repeat<Byte>(255, BSIZE))
  }

  function Painted(d: Disk): Disk
    requires |d| == FSSIZE
  {
    d[BMAP := Ones()]
  }

  lemma OnesSet(k: nat)
    requires k < 8
    ensures TestBit(255, k)
  {
    assert TestBit(1, 0) && TestBit(3, 0) && TestBit(7, 0) && TestBit(15, 0) && TestBit(31, 0) && TestBit(63, 0) &&
           TestBit(127, 0);
    assert TestBit(3, 1) && TestBit(7, 2) && TestBit(15, 3) && TestBit(31, 4) && TestBit(63, 5) && TestBit(127, 6);
  }

  lemma PaintedAllInUse(d: Disk, b: nat)
    requires |d| == FSSIZE && b < FSSIZE
    ensures InUse(SB, Painted(d), b)
  {
    OnesSet(b % BPB % 8);
  }

  predicate IsUnused(from: nat, b: nat) {
    from <= b < FSSIZE
  }

  function Unused(from: nat): set<nat> {
    set b: nat | from <= b < FSSIZE && IsUnused(from, b)
  }

  /** An unfinished image: the blocks from `freeblock` on are zero and not in any file, all data blocks below
      it are in exactly one place. */
  ghost predicate Draft(d: Disk, inodes: seq<Inode>, owner: Owners, freeblock: nat) {
    |d| == FSSIZE && NMETA <= freeblock <= FSSIZE && Inv(SB, Painted(d), inodes, owner, Unused(freeblock)) &&
    forall b :: freeblock <= b < FSSIZE ==> d[b] == ZERO
  }

  lemma BlankDraft(d: Disk, inodes: seq<Inode>)
    requires |d| == FSSIZE && (forall b :: 0 <= b < FSSIZE ==> BlockOk(d[b])) &&
             (forall b :: NMETA <= b < FSSIZE ==> d[b] == ZERO)
    requires |inodes| <= NINODEBLOCKS * IPB && forall i :: 0 <= i < |inodes| ==> inodes[i] == Blank()
    ensures Draft(d, inodes, map[], NMETA)
  {
    forall b: nat | b < FSSIZE ensures InUse(SB, Painted(d), b) {
      PaintedAllInUse(d, b);
    }
    forall i, s | 0 <= i < |inodes| && 0 <= s ensures Slot(Painted(d), inodes[i], s) == 0 {
    }
  }

  function Blank(): Inode {
    Inode(0, seq(NDIRECT + 1, _ => 0))
  }

  // ----- Linking the next block -----

  lemma NextUnused(f: nat)
    requires f < FSSIZE
    ensures f in Unused(f) && Unused(f) - {f} == Unused(f + 1)
  {
  }

  /** Slot `s` of inode `i` is empty and can take the next block. */
  ghost predicate CanTake(d: Disk, inodes: seq<Inode>, i: nat, s: nat) {
    |d| == FSSIZE && i < |inodes| && s <= MAXFILE && Slot(Painted(d), inodes[i], s) == 0 &&
    (NDIRECT <= s < MAXFILE ==> Slot(Painted(d), inodes[i], MAXFILE) != 0)
  }

  /** A block in use by a file is neither the map nor unused. */
  lemma OwnedApart(d: Disk, inodes: seq<Inode>, owner: Owners, f: nat, i: nat, s: nat)
    requires Draft(d, inodes, owner, f) && i < |inodes| && Slot(Painted(d), inodes[i], s) != 0
    ensures var a := Slot(Painted(d), inodes[i], s);
            NMETA <= a < f && a != BMAP && BlockOk(d[a]) && Painted(d)[a] == d[a]
  {
    var a := Slot(Painted(d), inodes[i], s);
    assert a in owner && BlockOk(Painted(d)[a]);
    assert IsUnused(f, a) ==> a in Unused(f);
  }

  lemma PaintedLink(d: Disk, inodes: seq<Inode>, owner: Owners, f: nat, i: nat, s: nat)
    requires Draft(d, inodes, owner, f) && f < FSSIZE && CanTake(d, inodes, i, s)
    ensures |LinkDisk(d, inodes[i], s, f)| == FSSIZE &&
            LinkDisk(Painted(d), inodes[i], s, f) == Painted(LinkDisk(d, inodes[i], s, f))
    ensures forall b :: f <= b < FSSIZE ==> LinkDisk(d, inodes[i], s, f)[b] == d[b]
  {
    if NDIRECT <= s < MAXFILE {
      OwnedApart(d, inodes, owner, f, i, MAXFILE);
    }
  }

  lemma TakeKeepsDraft(d: Disk, inodes: seq<Inode>, owner: Owners, f: nat, i: nat, s: nat)
    requires Draft(d, inodes, owner, f) && f < FSSIZE && CanTake(d, inodes, i, s)
    ensures Draft(LinkDisk(d, inodes[i], s, f), inodes[i := LinkInode(inodes[i], s, f)], owner[f := Place(i, s)], f + 1)
  {
    NextUnused(f);
    PaintedLink(d, inodes, owner, f, i, s);
    assert CanLink(Painted(d), inodes, Unused(f), i, s, f);
    LinkKeepsInv(SB, Painted(d), inodes, owner, Unused(f), i, s, f);
  }

  /** The images agree up to the first data block. */
  ghost predicate SameMeta(d: Disk, e: Disk) {
    |d| == |e| == FSSIZE && forall b :: 0 <= b < NMETA ==> e[b] == d[b]
  }

  lemma TakeMeta(d: Disk, inodes: seq<Inode>, owner: Owners, f: nat, i: nat, s: nat)
    requires Draft(d, inodes, owner, f) && f < FSSIZE && CanTake(d, inodes, i, s)
    ensures SameMeta(d, LinkDisk(d, inodes[i], s, f))
  {
    if NDIRECT <= s < MAXFILE {
      OwnedApart(d, inodes, owner, f, i, MAXFILE);
    }
  }

  /** In the unfinished image the same files have the same sizes, and of their bytes only those of file `i` from
      `off` on have become `bytes`. */
  ghost predicate DraftWritten(d: Disk, ins: seq<Inode>, e: Disk, outs: seq<Inode>, i: nat, off: nat,
                               bytes: seq<Byte>) {
    SameMeta(d, e) && Written(Painted(d), ins, Painted(e), outs, i, off, bytes) &&
    forall j: nat :: j < |ins| ==> outs[j].size == ins[j].size
  }

  lemma WroteNothing(d: Disk, inodes: seq<Inode>, i: nat, off: nat)
    requires |d| == FSSIZE
    ensures DraftWritten(d, inodes, d, inodes, i, off, [])
  {
  }

  lemma WroteMore(d: Disk, inodes: seq<Inode>, e: Disk, mids: seq<Inode>, g: Disk, outs: seq<Inode>, i: nat, off: nat,
                  x: seq<Byte>, y: seq<Byte>)
    requires DraftWritten(d, inodes, e, mids, i, off, x) && DraftWritten(e, mids, g, outs, i, off + |x|, y)
    ensures DraftWritten(d, inodes, g, outs, i, off, x + y)
  {
    WrittenMore(Painted(d), inodes, Painted(e), mids, Painted(g), outs, i, off, x, y);
  }

  lemma TakeWrites(d: Disk, inodes: seq<Inode>, owner: Owners, f: nat, i: nat, s: nat, off: nat)
    requires Draft(d, inodes, owner, f) && f < FSSIZE && CanTake(d, inodes, i, s)
    ensures DraftWritten(d, inodes, LinkDisk(d, inodes[i], s, f), inodes[i := LinkInode(inodes[i], s, f)], i, off, [])
  {
    NextUnused(f);
    TakeMeta(d, inodes, owner, f, i, s);
    PaintedLink(d, inodes, owner, f, i, s);
    assert CanLink(Painted(d), inodes, Unused(f), i, s, f);
    forall j: nat | j < |inodes|
      ensures forall p: nat ::
                ByteAt(Painted(LinkDisk(d, inodes[i], s, f)), inodes[i := LinkInode(inodes[i], s, f)][j], p)
                               == ByteAt(Painted(d), inodes[j], p)
    {
      LinkKeepsBytes(SB, Painted(d), inodes, owner, Unused(f), i, s, f, j);
    }
  }

  /** No slot for a data block has changed, except perhaps slot `s` of inode `i`. */
  ghost predicate SameSlotsBut(d: Disk, ins: seq<Inode>, e: Disk, outs: seq<Inode>, i: nat, s: nat) {
    |d| == |e| == FSSIZE && |outs| == |ins| &&
    forall j, t {:trigger Slot(Painted(e), outs[j], t)} :: 0 <= j < |ins| && 0 <= t < MAXFILE && !(j == i && t == s) ==>
      Slot(Painted(e), outs[j], t) == Slot(Painted(d), ins[j], t)
  }

  lemma TakeSlots(d: Disk, inodes: seq<Inode>, owner: Owners, f: nat, i: nat, s: nat)
    requires Draft(d, inodes, owner, f) && f < FSSIZE && CanTake(d, inodes, i, s)
    ensures SameSlotsBut(d, inodes, LinkDisk(d, inodes[i], s, f), inodes[i := LinkInode(inodes[i], s, f)], i, s)
    ensures Slot(Painted(LinkDisk(d, inodes[i], s, f)), LinkInode(inodes[i], s, f), s) == f
  {
    NextUnused(f);
    PaintedLink(d, inodes, owner, f, i, s);
    assert CanLink(Painted(d), inodes, Unused(f), i, s, f);
    LinkSlots(SB, Painted(d), inodes, owner, Unused(f), i, s, f);
    forall j: nat | j < |inodes| && j != i
      ensures forall t: nat ::
                Slot(Painted(LinkDisk(d, inodes[i], s, f)), inodes[j], t) == Slot(Painted(d), inodes[j], t)
    {
      LinkOthers(SB, Painted(d), inodes, owner, Unused(f), i, s, f, j);
    }
  }

  /** Blocks may have been linked, at most slot `s` of file `i` among the data blocks; no byte has changed. */
  ghost predicate Took(d: Disk, ins: seq<Inode>, e: Disk, outs: seq<Inode>, i: nat, s: nat, off: nat) {
    DraftWritten(d, ins, e, outs, i, off, []) && SameSlotsBut(d, ins, e, outs, i, s)
  }

  lemma TookNothing(d: Disk, inodes: seq<Inode>, i: nat, s: nat, off: nat)
    requires |d| == FSSIZE
    ensures Took(d, inodes, d, inodes, i, s, off)
  {
  }

  lemma SlotsTwice(d: Disk, ins: seq<Inode>, e: Disk, mids: seq<Inode>, g: Disk, outs: seq<Inode>, i: nat, s: nat)
    requires SameSlotsBut(d, ins, e, mids, i, s) && SameSlotsBut(e, mids, g, outs, i, s)
    ensures SameSlotsBut(d, ins, g, outs, i, s)
  {
    forall j, t | 0 <= j < |ins| && 0 <= t < MAXFILE && !(j == i && t == s)
      ensures Slot(Painted(g), outs[j], t) == Slot(Painted(d), ins[j], t)
    {
      assert Slot(Painted(e), mids[j], t) == Slot(Painted(d), ins[j], t);
    }
  }

  lemma TookTwice(d: Disk, ins: seq<Inode>, e: Disk, mids: seq<Inode>, g: Disk, outs: seq<Inode>, i: nat, s: nat,
                  s': nat, off: nat)
    requires Took(d, ins, e, mids, i, s, off) && Took(e, mids, g, outs, i, s', off) && (s == s' || s >= MAXFILE)
    ensures Took(d, ins, g, outs, i, s', off)
  {
    WroteMore(d, ins, e, mids, g, outs, i, off, [], []);
    forall j, t | 0 <= j < |ins| && 0 <= t < MAXFILE && !(j == i && t == s')
      ensures Slot(Painted(g), outs[j], t) == Slot(Painted(d), ins[j], t)
    {
      assert Slot(Painted(e), mids[j], t) == Slot(Painted(d), ins[j], t);
    }
  }

  // ----- Writing into a block -----

  lemma PieceKeepsDraft(d: Disk, inodes: seq<Inode>, owner: Owners, f: nat, i: nat, q: nat, piece: seq<Byte>)
    requires Draft(d, inodes, owner, f) && i < |inodes| && q / BSIZE < MAXFILE && q % BSIZE + |piece| <= BSIZE
    requires Slot(Painted(d), inodes[i], q / BSIZE) != 0
    ensures var x := Slot(Painted(d), inodes[i], q / BSIZE);
            x < FSSIZE && BlockOk(d[x]) && Draft(d[x := Block(Spliced(d[x].bytes, q % BSIZE, piece))], inodes, owner, f)
  {
    var bn := q / BSIZE;
    OwnedApart(d, inodes, owner, f, i, bn);
    var x := Slot(Painted(d), inodes[i], bn);
    var data := Block(Spliced(d[x].bytes, q % BSIZE, piece));
    DataKeepsInv(SB, Painted(d), inodes, owner, Unused(f), i, bn, data);
    assert Painted(d)[x := data] == Painted(d[x := data]);
  }

  lemma PieceWrites(d: Disk, inodes: seq<Inode>, owner: Owners, f: nat, i: nat, q: nat, piece: seq<Byte>)
    requires Draft(d, inodes, owner, f) && i < |inodes| && q / BSIZE < MAXFILE && q % BSIZE + |piece| <= BSIZE
    requires Slot(Painted(d), inodes[i], q / BSIZE) != 0
    ensures var x := Slot(Painted(d), inodes[i], q / BSIZE);
            && x < FSSIZE && BlockOk(d[x])
            && DraftWritten(d, inodes, d[x := Block(Spliced(d[x].bytes, q % BSIZE, piece))], inodes, i, q, piece)
            && SameSlotsBut(d, inodes, d[x := Block(Spliced(d[x].bytes, q % BSIZE, piece))], inodes, i, q / BSIZE)
  {
    var bn := q / BSIZE;
    OwnedApart(d, inodes, owner, f, i, bn);
    var x := Slot(Painted(d), inodes[i], bn);
    var data := Block(Spliced(d[x].bytes, q % BSIZE, piece));
    var e := d[x := data];
    assert Painted(d)[x := data] == Painted(e);
    forall j: nat | j < |inodes|
      ensures forall t: nat :: Slot(Painted(e), inodes[j], t) == Slot(Painted(d), inodes[j], t)
    {
      DataFrame(SB, Painted(d), inodes, owner, Unused(f), i, bn, data, j);
    }
    forall j: nat, p: nat | j < |inodes|
      ensures ByteAt(Painted(e), inodes[j], p) ==
              if j == i && q <= p < q + |piece| then piece[p - q] else ByteAt(Painted(d), inodes[j], p)
    {
      DataBytes(SB, Painted(d), inodes, owner, Unused(f), i, bn, data, j);
      InPiece(q, p, |piece|);
      assert j == i && p / BSIZE == bn ==> ByteAt(Painted(d), inodes[i], p) == d[x].bytes[p % BSIZE];
    }
  }

  /** A piece written into the block just found. */
  lemma PieceAppended(d0: Disk, ins: seq<Inode>, d: Disk, outs: seq<Inode>, e: Disk, owner: Owners, f: nat, i: nat,
                      q: nat, piece: seq<Byte>, x: nat)
    requires Draft(d, outs, owner, f) && i < |outs| && q / BSIZE < MAXFILE && q % BSIZE + |piece| <= BSIZE
    requires x == Slot(Painted(d), outs[i], q / BSIZE) && 0 < x < FSSIZE && BlockOk(d[x])
    requires e == d[x := Block(Spliced(d[x].bytes, q % BSIZE, piece))] && Took(d0, ins, d, outs, i, q / BSIZE, q)
    ensures Draft(e, outs, owner, f) && DraftWritten(d0, ins, e, outs, i, q, piece)
    ensures SameSlotsBut(d0, ins, e, outs, i, q / BSIZE)
  {
    assert Draft(e, outs, owner, f) by { PieceKeepsDraft(d, outs, owner, f, i, q, piece); }
    assert DraftWritten(d0, ins, e, outs, i, q, piece) by {
      PieceWrites(d, outs, owner, f, i, q, piece);
      WroteMore(d0, ins, d, outs, e, outs, i, q, [], piece);
      assert [] + piece == piece;
    }
    assert SameSlotsBut(d0, ins, e, outs, i, q / BSIZE) by {
      PieceWrites(d, outs, owner, f, i, q, piece);
      SlotsTwice(d0, ins, d, outs, e, outs, i, q / BSIZE);
    }
  }

  /** Which bytes of the block at `q` a piece of `n` bytes covers. */
  lemma InPiece(q: nat, p: nat, n: nat)
    requires q % BSIZE + n <= BSIZE
    ensures q <= p < q + n ==> p / BSIZE == q / BSIZE && p % BSIZE == q % BSIZE + (p - q)
    ensures p / BSIZE == q / BSIZE ==> p - q == p % BSIZE - q % BSIZE
  {
  }

  // ----- Writing an inode -----

  /** `winode` changes no block of a file and none that is unused. */
  lemma WinodeKeepsDraft(d: Disk, inodes: seq<Inode>, owner: Owners, f: nat, i: nat, ino: Inode)
    requires Draft(d, inodes, owner, f) && i < |inodes| && |ino.addrs| == NDIRECT + 1
    ensures InodeBlock(SB, i) < BMAP && BlockOk(d[InodeBlock(SB, i)])
    ensures Draft(WithInode(SB, d, i, ino), inodes, owner, f)
    ensures SameOwned(Painted(d), Painted(WithInode(SB, d, i, ino)), owner)
  {
    InodeBlockIsMeta(SB, inodes, i);
    InodeKeepsInv(SB, Painted(d), inodes, owner, Unused(f), i, ino);
    assert Painted(d)[InodeBlock(SB, i)] == d[InodeBlock(SB, i)];
    assert Painted(WithInode(SB, d, i, ino)) == WithInode(SB, Painted(d), i, ino);
  }

  /** The files have the same bytes and blocks on both images. */
  ghost predicate Kept(d: Disk, e: Disk, inodes: seq<Inode>) {
    && |d| == |e| == FSSIZE
    && (forall j, p {:trigger ByteAt(Painted(e), inodes[j], p)} :: 0 <= j < |inodes| && 0 <= p ==>
          ByteAt(Painted(e), inodes[j], p) == ByteAt(Painted(d), inodes[j], p))
    && (forall j, s {:trigger Slot(Painted(e), inodes[j], s)} :: 0 <= j < |inodes| && 0 <= s ==>
          Slot(Painted(e), inodes[j], s) == Slot(Painted(d), inodes[j], s))
  }

  lemma KeptFiles(d: Disk, e: Disk, inodes: seq<Inode>)
    requires Kept(d, e, inodes) && ZeroTails(d, inodes) && Trimmed(d, inodes)
    ensures ZeroTails(e, inodes) && Trimmed(e, inodes)
    ensures forall j: nat :: j < |inodes| ==> Contents(Painted(e), inodes[j]) == Contents(Painted(d), inodes[j])
  {
    forall j: nat | j < |inodes| ensures Contents(Painted(e), inodes[j]) == Contents(Painted(d), inodes[j]) {
      assert forall p: nat :: ByteAt(Painted(e), inodes[j], p) == ByteAt(Painted(d), inodes[j], p);
    }
  }

  /** Nor does it change what the files hold. */
  lemma WinodeFrame(d: Disk, e: Disk, inodes: seq<Inode>, owner: Owners, f: nat)
    requires Draft(d, inodes, owner, f) && |e| == FSSIZE && SameOwned(Painted(d), Painted(e), owner)
    ensures Kept(d, e, inodes)
  {
    forall j: nat | j < |inodes|
      ensures forall p: nat :: ByteAt(Painted(e), inodes[j], p) == ByteAt(Painted(d), inodes[j], p)
      ensures forall s: nat :: Slot(Painted(e), inodes[j], s) == Slot(Painted(d), inodes[j], s)
    {
      ByteFrame(Painted(d), Painted(e), inodes, owner, j);
      SlotFrame(Painted(d), Painted(e), inodes, owner, j);
    }
  }

  lemma WinodeStores(d: Disk, inodes: seq<Inode>, i: nat, ino: Inode)
    requires |d| == FSSIZE && i < |inodes| <= NINODEBLOCKS * IPB && Stored(SB, d, inodes)
    requires BlockOk(d[InodeBlock(SB, i)]) && |ino.addrs| == NDIRECT + 1 && Uints([ino.size] + ino.addrs)
    ensures Stored(SB, WithInode(SB, d, i, ino), inodes[i := ino])
  {
    forall j | 0 <= j < |inodes| ensures InodeOn(SB, WithInode(SB, d, i, ino), j) == inodes[i := ino][j] {
      InodeReads(SB, d, i, ino, j);
      assert InodeOn(SB, d, j) == inodes[j];
    }
  }

  /** Inodes on disk depend on blocks before the free map only. */
  lemma MetaStored(d: Disk, e: Disk, inodes: seq<Inode>)
    requires |d| == |e| == FSSIZE && (forall b :: 0 <= b < BMAP ==> e[b] == d[b])
    requires |inodes| <= NINODEBLOCKS * IPB && Stored(SB, d, inodes)
    ensures Stored(SB, e, inodes)
  {
    forall j | 0 <= j < |inodes| ensures InodeOn(SB, e, j) == inodes[j] {
      assert InodeBlock(SB, j) < BMAP;
      assert InodeOn(SB, d, j) == inodes[j];
    }
  }

  lemma BlankStored(d: Disk, inodes: seq<Inode>)
    requires |d| == FSSIZE && (forall b :: SB.inodestart <= b < BMAP ==> d[b] == ZERO)
    requires |inodes| <= NINODEBLOCKS * IPB && forall i :: 0 <= i < |inodes| ==> inodes[i] == Blank()
    ensures Stored(SB, d, inodes)
  {
    forall j | 0 <= j < |inodes| ensures InodeOn(SB, d, j) == inodes[j] {
      assert d[InodeBlock(SB, j)] == ZERO;
      forall k | 0 <= k < WORDS ensures Word(ZERO, k) == 0 {
        ZeroWords(k);
      }
      forall k | 0 <= k <= NDIRECT ensures InodeIn(ZERO, j).addrs[k] == 0 {
        GetWordsAt(ZERO, InodeWord(j) + 1, NDIRECT + 1, k);
      }
      assert InodeIn(ZERO, j).addrs == Blank().addrs;
    }
  }

  /** The superblock is in place and the log is empty. */
  ghost predicate Labelled(d: Disk) {
    |d| == FSSIZE && d[1] == FsBoot.SuperBlock(SB) && d[SB.logstart] == ZERO
  }

  // ----- The finished map -----

  /** The bits below `used` are set in the bytes, as far as `upTo` has got. */
  ghost predicate BitsBelow(bytes: seq<Byte>, upTo: nat) {
    |bytes| == BSIZE && forall b: nat :: b < BPB ==> (TestBit(bytes[b / 8], b % 8) <==> b < upTo)
  }

  lemma NoBits(k: nat)
    ensures !TestBit(0, k)
  {
  }

  lemma SetBit(bytes: seq<Byte>, i: nat)
    requires BitsBelow(bytes, i) && i < BPB
    ensures OrBit(bytes[i / 8], i % 8) < 256 && BitsBelow(bytes[i / 8 := OrBit(bytes[i / 8], i % 8)], i + 1)
  {
    ByteOpsFit(bytes[i / 8], i % 8);
    forall b: nat | b < BPB
      ensures TestBit(bytes[i / 8 := OrBit(bytes[i / 8], i % 8)][b / 8], b % 8) <==> b < i + 1
    {
      OrBitTests(bytes[i / 8], i % 8, b % 8);
      assert b / 8 == i / 8 && b % 8 == i % 8 ==> b == i;
    }
  }

  /** With the map written, what was unused is free and the image is as the kernel wants it. */
  lemma MapFinishes(d: Disk, inodes: seq<Inode>, owner: Owners, f: nat, bits: Block)
    requires Draft(d, inodes, owner, f) && BitsBelow(bits.bytes, f)
    ensures Inv(SB, d[BMAP := bits], inodes, owner, {})
    ensures forall j: nat :: j < |inodes| ==> Contents(d[BMAP := bits], inodes[j]) == Contents(Painted(d), inodes[j])
    ensures forall j: nat, s: nat :: j < |inodes| ==>
            Slot(d[BMAP := bits], inodes[j], s) == Slot(Painted(d), inodes[j], s)
  {
    var p, e := Painted(d), d[BMAP := bits];
    forall b | 0 <= b < FSSIZE ensures BlockOk(e[b]) {
      assert BlockOk(p[b]);
    }
    assert SameOwned(p, e, owner);
    FrameKeepsSlots(SB, p, e, inodes, owner);
    forall b: nat | b < FSSIZE ensures InUse(SB, e, b) <==> b < NMETA || b in owner {
      assert InUse(SB, e, b) <==> b < f;
      assert InUse(SB, p, b) by { PaintedAllInUse(d, b); }
      assert IsUnused(f, b) <==> b in Unused(f);
    }
    forall j: nat | j < |inodes| ensures Contents(e, inodes[j]) == Contents(p, inodes[j]) {
      ByteFrame(p, e, inodes, owner, j);
    }
    forall j: nat, s: nat | j < |inodes| ensures Slot(e, inodes[j], s) == Slot(p, inodes[j], s) {
      SlotFrame(p, e, inodes, owner, j);
    }
  }

  // ----- The program -----

  /** Behind its end every file reads as zero. */
  ghost predicate ZeroTails(d: Disk, inodes: seq<Inode>)
    requires |d| == FSSIZE
  {
    forall j: nat, p: nat :: j < |inodes| && p >= inodes[j].size ==> ByteAt(Painted(d), inodes[j], p) == 0
  }

  /** No file has a block behind its end, which for file `i` is `end`. */
  ghost predicate TrimmedAt(d: Disk, inodes: seq<Inode>, i: nat, end: nat) {
    |d| == FSSIZE &&
    forall j, s {:trigger Slot(Painted(d), inodes[j], s)} :: 0 <= j < |inodes| && 0 <= s < MAXFILE ==>
      (if j == i then end else inodes[j].size) <= s * BSIZE ==> Slot(Painted(d), inodes[j], s) == 0
  }

  ghost predicate Trimmed(d: Disk, inodes: seq<Inode>) {
    |d| == FSSIZE &&
    forall j, s {:trigger Slot(Painted(d), inodes[j], s)} :: 0 <= j < |inodes| && 0 <= s < MAXFILE ==>
      inodes[j].size <= s * BSIZE ==> Slot(Painted(d), inodes[j], s) == 0
  }

  lemma TrimmedNext(d: Disk, ins: seq<Inode>, e: Disk, outs: seq<Inode>, i: nat, off: nat, n: nat, end: nat)
    requires TrimmedAt(d, ins, i, off) && SameSlotsBut(d, ins, e, outs, i, off / BSIZE) && 0 < n && end == off + n
    requires forall j: nat :: j < |ins| ==> outs[j].size == ins[j].size
    ensures TrimmedAt(e, outs, i, end)
  {
    forall j, s | 0 <= j < |outs| && 0 <= s < MAXFILE && (if j == i then end else outs[j].size) <= s * BSIZE
      ensures Slot(Painted(e), outs[j], s) == 0
    {
      assert j == i ==> s != off / BSIZE;
      assert Slot(Painted(e), outs[j], s) == Slot(Painted(d), ins[j], s);
    }
  }

  lemma TrimmedResized(d: Disk, inodes: seq<Inode>, i: nat, end: nat)
    requires TrimmedAt(d, inodes, i, end) && i < |inodes|
    ensures Trimmed(d, inodes[i := Resized(inodes[i], end)])
  {
    ResizedSlots(Painted(d), inodes[i], end);
    var outs := inodes[i := Resized(inodes[i], end)];
    forall j, s | 0 <= j < |outs| && 0 <= s < MAXFILE && outs[j].size <= s * BSIZE
      ensures Slot(Painted(d), outs[j], s) == 0
    {
      assert Slot(Painted(d), outs[j], s) == Slot(Painted(d), inodes[j], s);
    }
  }

  /** How much of `n` bytes at `off` lies in the same block. */
  function PieceSize(off: nat, n: nat): (r: nat)
    requires n > 0 && off / BSIZE < MAXFILE
    ensures 0 < r <= n && off % BSIZE + r <= BSIZE && off + r <= MAXFILE * BSIZE
  {
    var room := (off / BSIZE + 1) * BSIZE - off;
    if n < room then n else room
  }

  lemma ResizedDraft(d: Disk, inodes: seq<Inode>, owner: Owners, f: nat, i: nat, size: nat)
    requires Draft(d, inodes, owner, f) && i < |inodes| && size <= MAXFILE * BSIZE
    ensures Draft(d, inodes[i := Resized(inodes[i], size)], owner, f)
  {
    ResizeKeepsInv(SB, Painted(d), inodes, owner, Unused(f), i, size);
  }

  /** A file with new bytes from its end on, and its size set, is the old file followed by these bytes. */
  lemma Appended(d0: Disk, all: seq<Inode>, d: Disk, mids: seq<Inode>, outs: seq<Inode>, i: nat, bytes: seq<Byte>)
    requires i < |all| && DraftWritten(d0, all, d, mids, i, all[i].size, bytes) && ZeroTails(d0, all)
    requires outs == mids[i := Resized(mids[i], all[i].size + |bytes|)]
    ensures ZeroTails(d, outs) && Contents(Painted(d), outs[i]) == Contents(Painted(d0), all[i]) + bytes
    ensures forall j: nat :: j < |all| && j != i ==> Contents(Painted(d), outs[j]) == Contents(Painted(d0), all[j])
  {
    ResizedSlots(Painted(d), mids[i], all[i].size + |bytes|);
  }

  /** Setting the size after the bytes have been appended. */
  lemma SizeSet(d0: Disk, all: seq<Inode>, d: Disk, mids: seq<Inode>, outs: seq<Inode>, owner: Owners, f: nat, i: nat,
                off: nat, bytes: seq<Byte>)
    requires Draft(d, mids, owner, f) && i < |all| && off == all[i].size + |bytes| <= MAXFILE * BSIZE
    requires DraftWritten(d0, all, d, mids, i, all[i].size, bytes) && ZeroTails(d0, all) && TrimmedAt(d, mids, i, off)
    requires outs == mids[i := Resized(mids[i], off)]
    ensures Draft(d, outs, owner, f) && ZeroTails(d, outs) && Trimmed(d, outs) && Uints([outs[i].size] + outs[i].addrs)
    ensures Contents(Painted(d), outs[i]) == Contents(Painted(d0), all[i]) + bytes
    ensures forall j: nat :: j < |all| && j != i ==> Contents(Painted(d), outs[j]) == Contents(Painted(d0), all[j])
  {
    ResizedDraft(d, mids, owner, f, i, off);
    TrimmedResized(d, mids, i, off);
    Appended(d0, all, d, mids, outs, i, bytes);
    AddrsFit(SB, Painted(d), outs, owner, Unused(f), i);
  }

  lemma OtherSize(ino: Inode, size: nat)
    requires Uints([ino.size] + ino.addrs) && size < UINT
    ensures Uints([size] + ino.addrs)
  {
    forall k | 0 <= k <= |ino.addrs| ensures ([size] + ino.addrs)[k] < UINT {
      assert ([ino.size] + ino.addrs)[k] < UINT;
    }
  }

  /** A larger size shows zeros and no further block. */
  lemma RoundedUp(d: Disk, ins: seq<Inode>, owner: Owners, f: nat, i: nat, size: nat)
    requires Draft(d, ins, owner, f) && i < |ins| && ins[i].size <= size <= MAXFILE * BSIZE
    requires ZeroTails(d, ins) && Trimmed(d, ins)
    ensures var outs := ins[i := Resized(ins[i], size)];
            && Draft(d, outs, owner, f) && ZeroTails(d, outs) && Trimmed(d, outs)
            && Contents(Painted(d), outs[i]) == Contents(Painted(d), ins[i]) + Repeat<Byte>(0, size - ins[i].size)
            && (forall s: nat :: Slot(Painted(d), outs[i], s) == Slot(Painted(d), ins[i], s))
  {
    ResizedDraft(d, ins, owner, f, i, size);
    ResizedSlots(Painted(d), ins[i], size);
  }

  class Builder {
    var d: Disk
    var inodes: seq<Inode>
    var freeblock: nat
    var freeinode: nat
    ghost var owner: Owners

    ghost predicate Valid()
      reads this
    {
      Draft(d, inodes, owner, freeblock) && ZeroTails(d, inodes) && Trimmed(d, inodes) && Labelled(d) &&
      Stored(SB, d, inodes) && freeinode <= |inodes| == NINODEBLOCKS * IPB &&
      forall k :: freeinode <= k < |inodes| ==> inodes[k] == Blank()
    }

    ghost function File(i: nat): seq<Byte>
      requires |d| == FSSIZE && i < |inodes|
      reads this
    {
      Contents(Painted(d), inodes[i])
    }

    /** All blocks zero, then the superblock. */
    constructor ()
      ensures Valid() && freeinode == 1 && forall i :: 0 <= i < |inodes| ==>
              inodes[i].size == 0
    {
      d := seq(FSSIZE, _ => ZERO)[1 := FsBoot.SuperBlock(SB)];
      inodes := seq(NINODEBLOCKS * IPB, _ => Blank());
      freeblock, freeinode, owner := NMETA, 1, map[];
      new;
      BlankDraft(d, inodes);
      BlankStored(d, inodes);
    }

    /** `winode`: the inode goes to its place on disk; the files of `ins` do not change. */
    method Winode(i: nat, ino: Inode, ghost ins: seq<Inode>)
      requires i < |inodes| == |ins| == NINODEBLOCKS * IPB
      requires |ino.addrs| == NDIRECT + 1 && Uints([ino.size] + ino.addrs)
      requires Draft(d, ins, owner, freeblock) && Stored(SB, d, inodes) && Labelled(d)
      modifies this`d
      ensures Draft(d, ins, owner, freeblock) && Stored(SB, d, inodes[i := ino]) && Labelled(d)
      ensures InodeBlock(SB, i) < |old(d)| && BlockOk(old(d)[InodeBlock(SB, i)]) && d == WithInode(SB, old(d), i, ino)
      ensures Kept(old(d), d, ins)
    {
      WinodeKeepsDraft(d, ins, owner, freeblock, i, ino);
      WinodeFrame(d, WithInode(SB, d, i, ino), ins, owner, freeblock);
      WinodeStores(d, inodes, i, ino);
      d := WithInode(SB, d, i, ino);
    }

    /** The next inode; it is empty. */
    method Ialloc() returns (inum: nat)
      requires Valid() && freeinode < |inodes|
      modifies this`freeinode, this`d
      ensures Valid() && inum == old(freeinode) && freeinode == inum + 1 && File(inum) == []
      ensures forall j: nat :: j < |inodes| ==> File(j) == old(File(j))
      ensures forall b :: 0 <= b < |d| && b != InodeBlock(SB, inum) ==> d[b] == old(d)[b]
    {
      inum := freeinode;
      freeinode := freeinode + 1;
      Winode(inum, Blank(), inodes);
      KeptFiles(old(d), d, inodes);
      assert inodes[inum := Blank()] == inodes;
    }

    /** The next free block goes into slot `s` of the inode that is being extended. */
    method Link(i: nat, din: Inode, s: nat, ghost off: nat) returns (out: Inode)
      requires i < |inodes| && Draft(d, inodes[i := din], owner, freeblock) && freeblock < FSSIZE &&
               CanTake(d, inodes[i := din], i, s)
      modifies this`d, this`owner, this`freeblock
      ensures Draft(d, inodes[i := out], owner, freeblock) && Slot(Painted(d), out, s) == old(freeblock)
      ensures Took(old(d), inodes[i := din], d, inodes[i := out], i, s, off)
    {
      ghost var all := inodes[i := din];
      TakeKeepsDraft(d, all, owner, freeblock, i, s);
      TakeWrites(d, all, owner, freeblock, i, s, off);
      TakeSlots(d, all, owner, freeblock, i, s);
      assert all[i := LinkInode(din, s, freeblock)] == inodes[i := LinkInode(din, s, freeblock)];
      out := LinkInode(din, s, freeblock);
      d := LinkDisk(d, din, s, freeblock);
      owner, freeblock := owner[freeblock := Place(i, s)], freeblock + 1;
    }

    /** The same for a block named in the indirect block. */
    method IndirectBlock(i: nat, din: Inode, fbn: nat, ghost off: nat) returns (out: Inode, x: int)
      requires i < |inodes| && Draft(d, inodes[i := din], owner, freeblock) && NDIRECT <= fbn < MAXFILE
      requires |din.addrs| == NDIRECT + 1 && din.addrs[NDIRECT] != 0
      modifies this`d, this`owner, this`freeblock
      ensures x == -1 ==> freeblock == FSSIZE
      ensures x != -1 ==> Draft(d, inodes[i := out], owner, freeblock) && x == Slot(Painted(d), out, fbn) && x != 0
      ensures x != -1 ==> Took(old(d), inodes[i := din], d, inodes[i := out], i, fbn, off)
    {
      out := din;
      ghost var all := inodes[i := din];
      TookNothing(d, all, i, fbn, off);
      assert InodeOk(all[i]) && Slot(Painted(d), din, MAXFILE) == din.addrs[NDIRECT];
      OwnedApart(d, all, owner, freeblock, i, MAXFILE);
      x := Word(d[din.addrs[NDIRECT]], fbn - NDIRECT);
      if x == 0 {
        if freeblock == FSSIZE {
          return out, -1;
        }
        x := freeblock;
        out := Link(i, din, fbn, off);
      }
    }

    /** Slot `s` of `addrs` gets a block if it has none; `false` stands for an image that is too small. */
    method FillAddr(i: nat, din: Inode, s: nat, ghost off: nat) returns (out: Inode, ok: bool)
      requires i < |inodes| && Draft(d, inodes[i := din], owner, freeblock) && (s < NDIRECT || s == MAXFILE)
      modifies this`d, this`owner, this`freeblock
      ensures !ok ==> freeblock == FSSIZE
      ensures ok ==>
                Draft(d, inodes[i := out], owner, freeblock) && |out.addrs| == NDIRECT + 1 &&
                Slot(Painted(d), out, s) != 0
      ensures ok ==> Took(old(d), inodes[i := din], d, inodes[i := out], i, s, off)
    {
      out := din;
      ghost var all := inodes[i := din];
      assert InodeOk(all[i]);
      TookNothing(d, all, i, s, off);
      ok := true;
      if out.addrs[if s < NDIRECT then s else NDIRECT] == 0 {
        if freeblock == FSSIZE {
          return out, false;
        }
        out := Link(i, din, s, off);
        assert InodeOk(inodes[i := out][i]);
      }
    }

    /** The block for block `fbn` of the file, which is linked first if there is none; -1 stands for an image
        that is too small. */
    method FileBlock(i: nat, din: Inode, fbn: nat, ghost off: nat) returns (out: Inode, x: int)
      requires i < |inodes| && Draft(d, inodes[i := din], owner, freeblock) && fbn < MAXFILE
      modifies this`d, this`owner, this`freeblock
      ensures x == -1 ==> freeblock == FSSIZE
      ensures x != -1 ==> Draft(d, inodes[i := out], owner, freeblock) && x == Slot(Painted(d), out, fbn) && x != 0
      ensures x != -1 ==> Took(old(d), inodes[i := din], d, inodes[i := out], i, fbn, off)
    {
      ghost var d0, all := d, inodes[i := din];
      var ok;
      if fbn < NDIRECT {
        out, ok := FillAddr(i, din, fbn, off);
        x := if ok then out.addrs[fbn] else -1;
      } else {
        out, ok := FillAddr(i, din, MAXFILE, off);
        if !ok {
          return out, -1;
        }
        ghost var d1, mid := d, inodes[i := out];
        out, x := IndirectBlock(i, out, fbn, off);
        if x != -1 {
          TookTwice(d0, all, d1, mid, d, inodes[i := out], i, MAXFILE, fbn, off);
        }
      }
    }

    /** One turn of the loop in `iappend`: a piece that lies within one block. */
    method AppendPiece(i: nat, din: Inode, off: nat, piece: seq<Byte>) returns (out: Inode, ok: bool)
      requires i < |inodes| && Draft(d, inodes[i := din], owner, freeblock)
      requires off / BSIZE < MAXFILE && off % BSIZE + |piece| <= BSIZE
      modifies this`d, this`owner, this`freeblock
      ensures !ok ==> freeblock == FSSIZE
      ensures ok ==> Draft(d, inodes[i := out], owner, freeblock)
      ensures ok ==> DraftWritten(old(d), inodes[i := din], d, inodes[i := out], i, off, piece)
      ensures ok ==> SameSlotsBut(old(d), inodes[i := din], d, inodes[i := out], i, off / BSIZE)
    {
      var x;
      ghost var d0 := d;
      out, x := FileBlock(i, din, off / BSIZE, off);
      ok := x != -1;
      if ok {
        ghost var d1, outs := d, inodes[i := out];
        assert BlockOk(d[x]) && x < FSSIZE by { OwnedApart(d, outs, owner, freeblock, i, off / BSIZE); }
        d := d[x := Block(Spliced(d[x].bytes, off % BSIZE, piece))];
        PieceAppended(d0, inodes[i := din], d1, outs, d, owner, freeblock, i, off, piece, x);
      }
    }

    /** A piece is appended to what this call has already appended. */
    method AppendNext(i: nat, din: Inode, off: nat, piece: seq<Byte>, ghost d0: Disk, ghost all: seq<Inode>,
                      ghost start: nat, ghost done: seq<Byte>, ghost end: nat)
      returns (ok: bool, out: Inode)
      requires i < |inodes| && Draft(d, inodes[i := din], owner, freeblock) && off == start + |done|
      requires off / BSIZE < MAXFILE && off % BSIZE + |piece| <= BSIZE &&
               DraftWritten(d0, all, d, inodes[i := din], i, start, done)
      requires TrimmedAt(d, inodes[i := din], i, off) && piece != [] && end == off + |piece|
      modifies this`d, this`owner, this`freeblock
      ensures !ok ==> freeblock == FSSIZE
      ensures ok ==>
                Draft(d, inodes[i := out], owner, freeblock) &&
                DraftWritten(d0, all, d, inodes[i := out], i, start, done + piece)
      ensures ok ==> TrimmedAt(d, inodes[i := out], i, end)
    {
      ghost var d1 := d;
      out, ok := AppendPiece(i, din, off, piece);
      if ok {
        WroteMore(d0, all, d1, inodes[i := din], d, inodes[i := out], i, start, done, piece);
        TrimmedNext(d1, inodes[i := din], d, inodes[i := out], i, off, |piece|, end);
      }
    }

    /** `iappend`: the file grows by `bytes`. It fails if the file would be too long or the image is too small;
        then `mkfs` gives up. */
    method Iappend(i: nat, bytes: seq<Byte>) returns (ok: bool)
      requires Valid() && i < freeinode
      modifies this`d, this`inodes, this`owner, this`freeblock
      ensures !ok ==> old(inodes[i].size) + |bytes| > MAXFILE * BSIZE || freeblock == FSSIZE
      ensures ok ==> Valid() && |inodes| == |old(inodes)| && File(i) == old(File(i)) + bytes
      ensures ok ==> forall j: nat :: j < |inodes| && j != i ==> inodes[j] == old(inodes[j]) && File(j) == old(File(j))
      ensures ok ==> forall b :: 0 <= b < NMETA && b != InodeBlock(SB, i) ==> d[b] == old(d)[b]
    {
      var din := inodes[i];
      assert inodes[i := din] == inodes;
      ghost var d0, all, done, start := d, inodes, [], din.size;
      var n, off := 0, din.size;
      WroteNothing(d, all, i, start);
      while n < |bytes|
        invariant 0 <= n <= |bytes| && inodes == all && off == start + n <= MAXFILE * BSIZE && done == bytes[..n]
        invariant Draft(d, inodes[i := din], owner, freeblock)
        invariant DraftWritten(d0, all, d, inodes[i := din], i, start, done)
        invariant TrimmedAt(d, inodes[i := din], i, off)
      {
        if off / BSIZE >= MAXFILE {
          return false;
        }
        var n1 := PieceSize(off, |bytes| - n);
        var piece := bytes[n..n + n1];
        ghost var end := off + n1;
        ok, din := AppendNext(i, din, off, piece, d0, all, start, done, end);
        if !ok {
          return false;
        }
        n, off, done := n + n1, off + n1, done + piece;
      }
      assert done == bytes;
      MetaStored(d0, d, inodes);
      SetSize(i, din, off, d0, all, bytes);
      ok := true;
    }

    /** The end of `iappend`: the inode is written with its new size. */
    method SetSize(i: nat, din: Inode, off: nat, ghost d0: Disk, ghost all: seq<Inode>, ghost bytes: seq<Byte>)
      requires inodes == all && i < freeinode <= |inodes| == NINODEBLOCKS * IPB &&
               (forall k :: freeinode <= k < |inodes| ==> inodes[k] == Blank())
      requires |d0| == FSSIZE && ZeroTails(d0, all) && off == all[i].size + |bytes| <= MAXFILE * BSIZE
      requires Draft(d, inodes[i := din], owner, freeblock) && Labelled(d) && Stored(SB, d, all) &&
               DraftWritten(d0, all, d, inodes[i := din], i, all[i].size, bytes)
      requires TrimmedAt(d, inodes[i := din], i, off)
      modifies this`inodes, this`d
      ensures Valid() && |inodes| == |all| && File(i) == Contents(Painted(d0), all[i]) + bytes
      ensures forall j: nat :: j < |inodes| && j != i ==>
                inodes[j] == all[j] && File(j) == Contents(Painted(d0), all[j])
      ensures forall b :: 0 <= b < |d| && b != InodeBlock(SB, i) ==> d[b] == old(d)[b]
    {
      var ino := Resized(din, off);
      ghost var d1, mids, outs := d, inodes[i := din], inodes[i := ino];
      assert outs == mids[i := Resized(mids[i], off)];
      SizeSet(d0, all, d1, mids, outs, owner, freeblock, i, off, bytes);
      Winode(i, ino, outs);
      KeptFiles(d1, d, outs);
      inodes := inodes[i := ino];
    }

    /** The root directory's size is rounded up, by a whole block if it was aligned; what it gains are empty
        entries. A directory that was aligned ends in a hole. Nothing checks the new size: the image stays in
        order exactly if the directory did not have the largest size already. */
    method RoundUp(i: nat)
      requires Valid() && i < freeinode
      modifies this`inodes, this`d
      ensures |inodes| == |old(inodes)| && forall j: nat :: j < |inodes| && j != i ==> inodes[j] == old(inodes[j])
      ensures inodes[i].size % BSIZE == 0 && old(inodes[i].size) < inodes[i].size <= old(inodes[i].size) + BSIZE
      ensures Valid() <==> old(inodes[i].size) < MAXFILE * BSIZE
      ensures Valid() ==> File(i) == old(File(i)) + Repeat<Byte>(0, inodes[i].size - old(inodes[i].size))
      ensures Valid() ==> forall j: nat :: j < |inodes| && j != i ==> File(j) == old(File(j))
      ensures Valid() && old(inodes[i].size) % BSIZE == 0 ==>
              Slot(Painted(d), inodes[i], old(inodes[i].size) / BSIZE) == 0
    {
      var off := inodes[i].size;
      var size := (off / BSIZE + 1) * BSIZE;
      WriteSize(i, off, size);
    }

    /** The inode is written with size `size`. */
    method WriteSize(i: nat, ghost off: nat, size: nat)
      requires Valid() && i < freeinode && off == inodes[i].size <= size < UINT
      modifies this`inodes, this`d
      ensures inodes == old(inodes)[i := Resized(old(inodes)[i], size)]
      ensures Valid() <==> size <= MAXFILE * BSIZE
      ensures Valid() ==> File(i) == old(File(i)) + Repeat<Byte>(0, size - off)
      ensures Valid() ==> forall j: nat :: j < |inodes| && j != i ==> File(j) == old(File(j))
      ensures Valid() ==> forall s: nat :: Slot(Painted(d), inodes[i], s) == old(Slot(Painted(d), inodes[i], s))
    {
      ghost var d0, ins := d, inodes;
      AddrsFit(SB, Painted(d), inodes, owner, Unused(freeblock), i);
      OtherSize(inodes[i], size);
      Winode(i, Resized(inodes[i], size), inodes);
      KeptFiles(d0, d, ins);
      inodes := inodes[i := Resized(inodes[i], size)];
      if size <= MAXFILE * BSIZE {
        RoundedUp(d, ins, owner, freeblock, i, size);
        assert Valid();
      } else {
        assert !InodeOk(inodes[i]);
      }
    }

    /** `balloc`: the map marks the blocks that were handed out, and the image is finished. */
    method Balloc()
      requires Valid()
      modifies this`d
      ensures Inv(SB, d, inodes, owner, {})
      ensures forall j: nat :: j < |inodes| ==> Contents(d, inodes[j]) == old(File(j))
      ensures forall j: nat, s: nat :: j < |inodes| ==> Slot(d, inodes[j], s) == old(Slot(Painted(d), inodes[j], s))
      ensures Stored(SB, d, inodes) && Labelled(d) && forall b :: 0 <= b < |d| && b != BMAP ==> d[b] == old(d)[b]
    {
      var buf := MapBlock(freeblock);
      MapFinishes(d, inodes, owner, freeblock, Block(buf));
      MetaStored(d, d[BMAP := Block(buf)], inodes);
      d := d[BMAP := Block(buf)];
    }
  }

  /** A finished image with its superblock and an empty log can be booted from. */
  lemma ImageBoots(d: Disk, inodes: seq<Inode>, owner: Owners)
    requires Inv(SB, d, inodes, owner, {}) && Stored(SB, d, inodes) && |inodes| == NINODEBLOCKS * IPB && Labelled(d)
    ensures FsBoot.Bytes(FsBoot.BlockAt(d, 1)) == FsBoot.SuperBlock(SB)
    ensures Word(FsBoot.SuperBlock(SB), 0) == FsBoot.FSMAGIC && FsBoot.ReadSuper(FsBoot.SuperBlock(SB)) == SB
    ensures FsBoot.Bootable(SB, FsBoot.Img(d), FsCode.State(d, inodes, owner, {}))
  {
    FsBoot.SuperRoundTrip(SB);
    FsBoot.BytesOfWords(d[1]);
    FsBoot.ZeroHeader(d, SB);
  }

  /** The kernel boots from what `mkfs` has made: the superblock is the one written, block ownership is exact, and
      the files are as they were built. */
  method Mount(b: Builder) returns (fs: FsCode.FileSystem)
    requires b.Valid()
    modifies b
    ensures fresh(fs) && fs.sb == SB && fs.Valid() && Stored(SB, fs.disk, fs.inodes) && fs.inodes == old(b.inodes)
    ensures forall j: nat :: j < |fs.inodes| ==> Contents(fs.disk, fs.inodes[j]) == old(b.File(j))
  {
    b.Balloc();
    ImageBoots(b.d, b.inodes, b.owner);
    var found := FsBoot.Fsinit(FsBoot.Img(b.d), FsCode.State(b.d, b.inodes, b.owner, {}));
    fs := found;
  }

  /** The loop of `balloc`. */
  method MapBlock(used: nat) returns (buf: seq<Byte>)
    requires used < BPB
    ensures BitsBelow(buf, used)
  {
    buf := Repeat<Byte>(0, BSIZE);
    var i := 0;
    forall b: nat | b < BPB ensures !TestBit(buf[b / 8], b % 8) {
      NoBits(b % 8);
    }
    while i < used
      invariant 0 <= i <= used && BitsBelow(buf, i)
    {
      SetBit(buf, i);
      buf := buf[i / 8 := OrBit(buf[i / 8], i % 8)];
      i := i + 1;
    }
  }
}

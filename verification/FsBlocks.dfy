/** Who owns which disk block: the free map, the block lists of the inodes, and the invariant that
    ties them together, with its preservation by each elementary change. */
module FsBlocks {
  import opened Blocks
  import opened FsLayout

  /** `nmeta` blocks of metadata come first: boot block, superblock, log, inodes, free map. */
  datatype Superblock = Superblock(
    size: nat,
    nmeta: nat,
    ninodes: nat,
    nlog: nat,
    logstart: nat,
    inodestart: nat,
    bmapstart: nat
  )

  ghost predicate SbOk(sb: Superblock) {
    && 1 <= sb.logstart && sb.logstart + sb.nlog <= sb.inodestart <= sb.bmapstart
    && sb.bmapstart + (sb.size - 1) / BPB < sb.nmeta <= sb.size < UINT
  }

  type Disk = seq<Block>

  ghost predicate DiskOk(sb: Superblock, d: Disk) {
    |d| == sb.size && forall b :: 0 <= b < |d| ==> BlockOk(d[b])
  }

  // ----- The free map -----

  /** `BBLOCK`. */
  function BitBlock(sb: Superblock, b: nat): nat {
    sb.bmapstart + b / BPB
  }

  predicate InUse(sb: Superblock, d: Disk, b: nat) {
    var x, bi := BitBlock(sb, b), b % BPB;
    x < |d| && BlockOk(d[x]) && TestBit(d[x].bytes[bi / 8], bi % 8)
  }

  function WithByte(d: Disk, x: nat, k: nat, v: Byte): Disk
    requires x < |d| && k < |d[x].bytes|
  {
    d[x := Block(d[x].bytes[k := v])]
  }

  function MarkUsed(sb: Superblock, d: Disk, b: nat): Disk
    requires BitBlock(sb, b) < |d| && BlockOk(d[BitBlock(sb, b)])
  {
    var x, bi := BitBlock(sb, b), b % BPB;
    ByteOpsFit(d[x].bytes[bi / 8], bi % 8);
    WithByte(d, x, bi / 8, OrBit(d[x].bytes[bi / 8], bi % 8))
  }

  function MarkFree(sb: Superblock, d: Disk, b: nat): Disk
    requires BitBlock(sb, b) < |d| && BlockOk(d[BitBlock(sb, b)])
  {
    var x, bi := BitBlock(sb, b), b % BPB;
    ByteOpsFit(d[x].bytes[bi / 8], bi % 8);
    WithByte(d, x, bi / 8, AndNotBit(d[x].bytes[bi / 8], bi % 8))
  }

  /** Two blocks never share a bit. */
  lemma BitPlaces(b: nat, c: nat)
    requires b / BPB == c / BPB && b % BPB / 8 == c % BPB / 8 && b % BPB % 8 == c % BPB % 8
    ensures b == c
  {
  }

  lemma MarkUsedBits(sb: Superblock, d: Disk, b: nat)
    requires SbOk(sb) && DiskOk(sb, d) && b < sb.size
    ensures BitBlock(sb, b) < sb.nmeta && DiskOk(sb, MarkUsed(sb, d, b))
    ensures forall c {:trigger InUse(sb, MarkUsed(sb, d, b), c)} ::
              0 <= c < sb.size ==> (InUse(sb, MarkUsed(sb, d, b), c) <==> c == b || InUse(sb, d, c))
  {
    forall c: nat | c < sb.size
      ensures InUse(sb, MarkUsed(sb, d, b), c) <==> c == b || InUse(sb, d, c)
    {
      var x, bi := BitBlock(sb, b), b % BPB;
      OrBitTests(d[x].bytes[bi / 8], bi % 8, c % BPB % 8);
      if BitBlock(sb, c) == x && c % BPB / 8 == bi / 8 && c != b {
        assert c % BPB % 8 != bi % 8 by {
          if c % BPB % 8 == bi % 8 {
            BitPlaces(b, c);
          }
        }
      }
    }
  }

  lemma MarkFreeBits(sb: Superblock, d: Disk, b: nat)
    requires SbOk(sb) && DiskOk(sb, d) && b < sb.size
    ensures BitBlock(sb, b) < sb.nmeta && DiskOk(sb, MarkFree(sb, d, b))
    ensures forall c {:trigger InUse(sb, MarkFree(sb, d, b), c)} ::
              0 <= c < sb.size ==> (InUse(sb, MarkFree(sb, d, b), c) <==> c != b && InUse(sb, d, c))
  {
    forall c: nat | c < sb.size
      ensures InUse(sb, MarkFree(sb, d, b), c) <==> c != b && InUse(sb, d, c)
    {
      var x, bi := BitBlock(sb, b), b % BPB;
      AndNotBitTests(d[x].bytes[bi / 8], bi % 8, c % BPB % 8);
      if BitBlock(sb, c) == x && c % BPB / 8 == bi / 8 && c != b {
        assert c % BPB % 8 != bi % 8 by {
          if c % BPB % 8 == bi % 8 {
            BitPlaces(b, c);
          }
        }
      }
    }
  }

  // ----- Inodes and their slots -----

  /** `addrs` holds NDIRECT data blocks and the indirect block. */
  datatype Inode = Inode(size: nat, addrs: seq<nat>)

  ghost predicate InodeOk(ino: Inode) {
    |ino.addrs| == NDIRECT + 1 && ino.size <= MAXFILE * BSIZE
  }

  /** Slot MAXFILE of an inode is its indirect block; slot `bn < MAXFILE` is the address of its
      `bn`-th data block. 0 means no block. */
  function Slot(d: Disk, ino: Inode, s: nat): nat {
    if |ino.addrs| != NDIRECT + 1 then 0
    else if s < NDIRECT then ino.addrs[s]
    else if s < MAXFILE then Entry(d, ino.addrs[NDIRECT], s - NDIRECT)
    else if s == MAXFILE then ino.addrs[NDIRECT]
    else 0
  }

  function Entry(d: Disk, ind: nat, j: nat): nat {
    if 0 < ind < |d| && BlockOk(d[ind]) && j < NINDIRECT then Word(d[ind], j) else 0
  }

  /** Byte `p` of a file; holes read as zero. */
  function ByteAt(d: Disk, ino: Inode, p: nat): Byte {
    var a := Slot(d, ino, p / BSIZE);
    if p / BSIZE < MAXFILE && 0 < a < |d| && BlockOk(d[a]) then d[a].bytes[p % BSIZE] else 0
  }

  /** The contents of a file. */
  function Contents(d: Disk, ino: Inode): seq<Byte> {
    seq(ino.size, p requires 0 <= p < ino.size => ByteAt(d, ino, p))
  }

  /** No byte of any file differs, except that file `i` has `data` from `off` on. */
  ghost predicate Written(d: Disk, ins: seq<Inode>, e: Disk, outs: seq<Inode>, i: nat, off: nat, data: seq<Byte>) {
    |outs| == |ins| &&
    forall j, p {:trigger ByteAt(e, outs[j], p)} :: 0 <= j < |ins| && 0 <= p ==>
      ByteAt(e, outs[j], p) == if j == i && off <= p < off + |data| then data[p - off] else ByteAt(d, ins[j], p)
  }

  lemma WrittenMore(d: Disk, ins: seq<Inode>, e: Disk, mids: seq<Inode>, g: Disk, outs: seq<Inode>, i: nat, off: nat,
                    x: seq<Byte>, y: seq<Byte>)
    requires Written(d, ins, e, mids, i, off, x) && Written(e, mids, g, outs, i, off + |x|, y)
    ensures Written(d, ins, g, outs, i, off, x + y)
  {
    forall j, p | 0 <= j < |ins| && 0 <= p
      ensures ByteAt(g, outs[j], p) ==
              if j == i && off <= p < off + |x + y| then (x + y)[p - off] else ByteAt(d, ins[j], p)
    {
      assert ByteAt(e, mids[j], p) == if j == i && off <= p < off + |x| then x[p - off] else ByteAt(d, ins[j], p);
    }
  }

  function Resized(ino: Inode, size: nat): Inode {
    ino.(size := size)
  }

  lemma ResizedSlots(d: Disk, ino: Inode, size: nat)
    ensures forall s: nat :: Slot(d, Resized(ino, size), s) == Slot(d, ino, s)
    ensures forall p: nat :: ByteAt(d, Resized(ino, size), p) == ByteAt(d, ino, p)
  {
  }

  // ----- Ownership -----

  /** A place where a block number is stored: an inode and one of its slots. */
  datatype Place = Place(inum: nat, slot: nat)

  type Owners = map<nat, Place>

  /** Every block number stored in an inode or its indirect block is owned by that very place. */
  ghost predicate SlotsOwned(d: Disk, inodes: seq<Inode>, owner: Owners) {
    forall i, s {:trigger Slot(d, inodes[i], s)} ::
      0 <= i < |inodes| && 0 <= s && Slot(d, inodes[i], s) != 0 ==>
        Slot(d, inodes[i], s) in owner && owner[Slot(d, inodes[i], s)] == Place(i, s)
  }

  /** Every owned block is a data block that its owner refers to. */
  ghost predicate OwnersReal(sb: Superblock, d: Disk, inodes: seq<Inode>, owner: Owners) {
    forall b {:trigger b in owner} :: b in owner ==>
      && sb.nmeta <= b < sb.size
      && owner[b].inum < |inodes|
      && Slot(d, inodes[owner[b].inum], owner[b].slot) == b
  }

  /** The free map marks exactly the metadata, the owned blocks, and the `pending` ones that are
      allocated but not linked anywhere. */
  ghost predicate MapExact(sb: Superblock, d: Disk, owner: Owners, pending: set<nat>) {
    forall b {:trigger InUse(sb, d, b)} :: 0 <= b < sb.size ==>
      (InUse(sb, d, b) <==> b < sb.nmeta || b in owner || b in pending)
  }

  ghost predicate PendingOk(sb: Superblock, owner: Owners, pending: set<nat>) {
    forall b {:trigger b in pending} :: b in pending ==> sb.nmeta <= b < sb.size && b !in owner
  }

  ghost predicate InodesOk(inodes: seq<Inode>) {
    forall i :: 0 <= i < |inodes| ==> InodeOk(inodes[i])
  }

  /** The inodes have their place between the log and the free map. */
  ghost predicate InodesFit(sb: Superblock, inodes: seq<Inode>) {
    |inodes| <= IPB * (sb.bmapstart - sb.inodestart)
  }

  ghost predicate Inv(sb: Superblock, d: Disk, inodes: seq<Inode>, owner: Owners, pending: set<nat>) {
    && SbOk(sb) && DiskOk(sb, d) && InodesOk(inodes) && InodesFit(sb, inodes)
    && SlotsOwned(d, inodes, owner)
    && OwnersReal(sb, d, inodes, owner)
    && PendingOk(sb, owner, pending)
    && MapExact(sb, d, owner, pending)
  }

  ghost predicate Reachable(d: Disk, inodes: seq<Inode>, b: nat) {
    exists i, s {:trigger Slot(d, inodes[i], s)} :: 0 <= i < |inodes| && 0 <= s && Slot(d, inodes[i], s) == b
  }

  /** No block number is stored in two places. */
  ghost predicate NoneShared(d: Disk, inodes: seq<Inode>) {
    forall i, s, j, t {:trigger Slot(d, inodes[i], s), Slot(d, inodes[j], t)} ::
      (0 <= i < |inodes| && 0 <= j < |inodes| && 0 <= s && 0 <= t
       && Slot(d, inodes[i], s) == Slot(d, inodes[j], t) != 0) ==> i == j && s == t
  }

  /** What the invariant means without its bookkeeping: no block is reachable twice, and the blocks
      marked in use are the metadata and the reachable ones. */
  lemma OwnershipExact(sb: Superblock, d: Disk, inodes: seq<Inode>, owner: Owners)
    requires Inv(sb, d, inodes, owner, {})
    ensures NoneShared(d, inodes)
    ensures forall b :: 0 <= b < sb.size ==>
              (InUse(sb, d, b) <==> b < sb.nmeta || Reachable(d, inodes, b))
    ensures forall i, s :: 0 <= i < |inodes| && 0 <= s && Slot(d, inodes[i], s) != 0 ==>
              sb.nmeta <= Slot(d, inodes[i], s) < sb.size
  {
    forall b | 0 <= b < sb.size && InUse(sb, d, b) && sb.nmeta <= b
      ensures Reachable(d, inodes, b)
    {
      assert b in owner;
      assert Slot(d, inodes[owner[b].inum], owner[b].slot) == b;
    }
  }

  /** The size of a file does not matter to ownership. */
  lemma ResizeKeepsInv(sb: Superblock, d: Disk, inodes: seq<Inode>, owner: Owners, pending: set<nat>, i: nat, size: nat)
    requires Inv(sb, d, inodes, owner, pending) && i < |inodes| && size <= MAXFILE * BSIZE
    ensures Inv(sb, d, inodes[i := Resized(inodes[i], size)], owner, pending)
  {
    var inodes' := inodes[i := Resized(inodes[i], size)];
    forall j, t | 0 <= j < |inodes| && 0 <= t ensures Slot(d, inodes'[j], t) == Slot(d, inodes[j], t) {
    }
  }

  // ----- Frames -----

  /** Both disks hold the same in every owned block. */
  ghost predicate SameOwned(d: Disk, d': Disk, owner: Owners) {
    |d'| == |d| && forall b {:trigger b in owner} :: b in owner && b < |d| ==> d'[b] == d[b]
  }

  lemma SlotFrame(d: Disk, d': Disk, inodes: seq<Inode>, owner: Owners, i: nat)
    requires SlotsOwned(d, inodes, owner) && SameOwned(d, d', owner) && i < |inodes|
    ensures forall s: nat :: Slot(d', inodes[i], s) == Slot(d, inodes[i], s)
  {
    var a := Slot(d, inodes[i], MAXFILE);
    assert a != 0 ==> a in owner;
  }

  lemma ByteFrame(d: Disk, d': Disk, inodes: seq<Inode>, owner: Owners, i: nat)
    requires SlotsOwned(d, inodes, owner) && SameOwned(d, d', owner) && i < |inodes|
    ensures forall p: nat :: ByteAt(d', inodes[i], p) == ByteAt(d, inodes[i], p)
  {
    SlotFrame(d, d', inodes, owner, i);
    forall p: nat ensures ByteAt(d', inodes[i], p) == ByteAt(d, inodes[i], p) {
      var a := Slot(d, inodes[i], p / BSIZE);
      assert a != 0 ==> a in owner;
    }
  }

  lemma FrameKeepsSlots(sb: Superblock, d: Disk, d': Disk, inodes: seq<Inode>, owner: Owners)
    requires SlotsOwned(d, inodes, owner) && OwnersReal(sb, d, inodes, owner) && SameOwned(d, d', owner)
    ensures SlotsOwned(d', inodes, owner) && OwnersReal(sb, d', inodes, owner)
  {
    forall i, s | 0 <= i < |inodes| && 0 <= s ensures Slot(d', inodes[i], s) == Slot(d, inodes[i], s) {
      SlotFrame(d, d', inodes, owner, i);
    }
  }

  // ----- Inodes on disk -----

  /** `IBLOCK`. */
  function InodeBlock(sb: Superblock, i: nat): nat {
    sb.inodestart + i / IPB
  }

  /** The word of its block where the size of inode `i` is stored; the addresses follow it. Type, device numbers
      and link count lie before it. */
  function InodeWord(i: nat): (w: nat)
    ensures w + NDIRECT + 2 <= WORDS
  {
    WORDS / IPB * (i % IPB) + 2
  }

  function InodeIn(b: Block, i: nat): Inode
    requires BlockOk(b)
  {
    Inode(Word(b, InodeWord(i)), GetWords(b, InodeWord(i) + 1, NDIRECT + 1))
  }

  function PutInode(b: Block, i: nat, ino: Inode): (b': Block)
    requires BlockOk(b) && |ino.addrs| == NDIRECT + 1
    ensures BlockOk(b')
  {
    PutWords(b, InodeWord(i), [ino.size] + ino.addrs)
  }

  /** What `ilock` reads. */
  function InodeOn(sb: Superblock, d: Disk, i: nat): Inode {
    var x := InodeBlock(sb, i);
    if x < |d| && BlockOk(d[x]) then InodeIn(d[x], i) else Inode(0, [])
  }

  /** The disk after `iupdate`. */
  function WithInode(sb: Superblock, d: Disk, i: nat, ino: Inode): Disk
    requires InodeBlock(sb, i) < |d| && BlockOk(d[InodeBlock(sb, i)]) && |ino.addrs| == NDIRECT + 1
  {
    d[InodeBlock(sb, i) := PutInode(d[InodeBlock(sb, i)], i, ino)]
  }

  /** The disk has the same inodes as memory. */
  ghost predicate Stored(sb: Superblock, d: Disk, inodes: seq<Inode>) {
    forall i {:trigger InodeOn(sb, d, i)} :: 0 <= i < |inodes| ==> InodeOn(sb, d, i) == inodes[i]
  }

  lemma InodeBlockIsMeta(sb: Superblock, inodes: seq<Inode>, i: nat)
    requires SbOk(sb) && InodesFit(sb, inodes) && i < |inodes|
    ensures sb.logstart + sb.nlog <= InodeBlock(sb, i) < sb.bmapstart <= sb.nmeta
  {
  }

  lemma AddrsFit(sb: Superblock, d: Disk, inodes: seq<Inode>, owner: Owners, pending: set<nat>, i: nat)
    requires Inv(sb, d, inodes, owner, pending) && i < |inodes|
    ensures Uints([inodes[i].size] + inodes[i].addrs)
  {
    forall s | 0 <= s <= NDIRECT ensures inodes[i].addrs[s] < UINT {
      var a := Slot(d, inodes[i], if s < NDIRECT then s else MAXFILE);
      assert a == inodes[i].addrs[s] && (a != 0 ==> a in owner);
    }
  }

  lemma PutInodeReads(b: Block, i: nat, ino: Inode)
    requires BlockOk(b) && |ino.addrs| == NDIRECT + 1 && Uints([ino.size] + ino.addrs)
    ensures InodeIn(PutInode(b, i, ino), i) == ino
  {
    var ws, w, b' := [ino.size] + ino.addrs, InodeWord(i), PutInode(b, i, ino);
    assert Word(b', w) == ino.size by { PutWordsReads(b, w, ws); }
    assert GetWords(b', w + 1, NDIRECT + 1) == ino.addrs by {
      PutGetWords(b, w, ws, w + 1, NDIRECT + 1);
      assert ws[1..1 + (NDIRECT + 1)] == ino.addrs;
    }
  }

  lemma PutInodeOthers(b: Block, i: nat, ino: Inode, j: nat)
    requires BlockOk(b) && |ino.addrs| == NDIRECT + 1 && Uints([ino.size] + ino.addrs)
    requires i != j && i / IPB == j / IPB
    ensures InodeIn(PutInode(b, i, ino), j) == InodeIn(b, j)
  {
    PutWordsReads(b, InodeWord(i), [ino.size] + ino.addrs);
    WordsApart(i, j);
    SameWords(b, PutInode(b, i, ino), InodeWord(j) + 1, NDIRECT + 1);
  }

  /** Round trip: the inode is read back as stored, and no other inode changes. */
  lemma InodeReads(sb: Superblock, d: Disk, i: nat, ino: Inode, j: nat)
    requires InodeBlock(sb, i) < |d| && BlockOk(d[InodeBlock(sb, i)]) && |ino.addrs| == NDIRECT + 1
    requires Uints([ino.size] + ino.addrs)
    ensures InodeOn(sb, WithInode(sb, d, i, ino), j) == if j == i then ino else InodeOn(sb, d, j)
  {
    var b := d[InodeBlock(sb, i)];
    if j == i {
      PutInodeReads(b, i, ino);
    } else if j / IPB == i / IPB {
      PutInodeOthers(b, i, ino, j);
    }
  }

  /** Two inodes of one block share no word. */
  lemma WordsApart(i: nat, j: nat)
    requires i != j && i / IPB == j / IPB
    ensures InodeWord(i) + NDIRECT + 2 <= InodeWord(j) || InodeWord(j) + NDIRECT + 2 <= InodeWord(i)
  {
  }

  /** Storing an inode leaves the free map and all blocks of files alone. */
  lemma InodeKeepsInv(sb: Superblock, d: Disk, inodes: seq<Inode>, owner: Owners, pending: set<nat>, i: nat, ino: Inode)
    requires Inv(sb, d, inodes, owner, pending) && i < |inodes| && |ino.addrs| == NDIRECT + 1
    ensures InodeBlock(sb, i) < |d| && BlockOk(d[InodeBlock(sb, i)])
    ensures var d' := WithInode(sb, d, i, ino);
            Inv(sb, d', inodes, owner, pending) && SameOwned(d, d', owner)
  {
    InodeBlockIsMeta(sb, inodes, i);
    var d' := WithInode(sb, d, i, ino);
    FrameKeepsSlots(sb, d, d', inodes, owner);
    forall c: nat | c < sb.size ensures InUse(sb, d', c) == InUse(sb, d, c) {
    }
  }

  // ----- Allocating and freeing -----

  lemma BitBlockIsMeta(sb: Superblock, b: nat)
    requires SbOk(sb) && b < sb.size
    ensures BitBlock(sb, b) < sb.nmeta
  {
  }

  /** The effect of `balloc`: the bit is set and the block is zeroed. */
  function Allocated(sb: Superblock, d: Disk, b: nat): Disk
    requires BitBlock(sb, b) < |d| && BlockOk(d[BitBlock(sb, b)]) && b < |d|
  {
    MarkUsed(sb, d, b)[b := ZERO]
  }

  lemma AllocKeepsInv(sb: Superblock, d: Disk, inodes: seq<Inode>, owner: Owners, pending: set<nat>, b: nat)
    requires Inv(sb, d, inodes, owner, pending) && b < sb.size && !InUse(sb, d, b)
    ensures BitBlock(sb, b) < sb.nmeta <= b && b !in owner && b !in pending
    ensures SameOwned(d, Allocated(sb, d, b), owner)
    ensures Inv(sb, Allocated(sb, d, b), inodes, owner, pending + {b})
  {
    MarkUsedBits(sb, d, b);
    var d1, d' := MarkUsed(sb, d, b), Allocated(sb, d, b);
    forall c: nat | c < sb.size ensures InUse(sb, d', c) == InUse(sb, d1, c) {
      BitBlockIsMeta(sb, c);
    }
    FrameKeepsSlots(sb, d, d', inodes, owner);
  }

  lemma FreeKeepsInv(sb: Superblock, d: Disk, inodes: seq<Inode>, owner: Owners, pending: set<nat>, b: nat)
    requires Inv(sb, d, inodes, owner, pending) && b in pending
    ensures BitBlock(sb, b) < sb.nmeta && InUse(sb, d, b)
    ensures SameOwned(d, MarkFree(sb, d, b), owner)
    ensures Inv(sb, MarkFree(sb, d, b), inodes, owner, pending - {b})
  {
    MarkFreeBits(sb, d, b);
    FrameKeepsSlots(sb, d, MarkFree(sb, d, b), inodes, owner);
  }

  // ----- Linking a block into an inode -----

  /** The disk and the inode after block number `b` is stored in slot `s`. */
  function LinkDisk(d: Disk, ino: Inode, s: nat, b: nat): Disk {
    if NDIRECT <= s < MAXFILE && |ino.addrs| == NDIRECT + 1 && ino.addrs[NDIRECT] < |d|
       && BlockOk(d[ino.addrs[NDIRECT]]) && b < 0x1_0000_0000 then
      d[ino.addrs[NDIRECT] := PutWord(d[ino.addrs[NDIRECT]], s - NDIRECT, b)]
    else d
  }

  function LinkInode(ino: Inode, s: nat, b: nat): Inode
    requires |ino.addrs| == NDIRECT + 1
  {
    if s < NDIRECT then ino.(addrs := ino.addrs[s := b])
    else if s == MAXFILE then ino.(addrs := ino.addrs[NDIRECT := b])
    else ino
  }

  /** Slot `s` of inode `i` is empty and can take the pending block `b`. */
  ghost predicate CanLink(d: Disk, inodes: seq<Inode>, pending: set<nat>, i: nat, s: nat, b: nat) {
    && i < |inodes| && s <= MAXFILE && b in pending && b < |d|
    && Slot(d, inodes[i], s) == 0 && d[b] == ZERO
    && (NDIRECT <= s < MAXFILE ==> Slot(d, inodes[i], MAXFILE) != 0)
  }

  lemma LinkSlots(sb: Superblock, d: Disk, inodes: seq<Inode>, owner: Owners, pending: set<nat>, i: nat, s: nat, b: nat)
    requires Inv(sb, d, inodes, owner, pending) && CanLink(d, inodes, pending, i, s, b)
    ensures forall t: nat :: Slot(LinkDisk(d, inodes[i], s, b), LinkInode(inodes[i], s, b), t) ==
                             if t == s then b else Slot(d, inodes[i], t)
  {
    var ino := inodes[i];
    if s == MAXFILE {
      forall t: nat | NDIRECT <= t < MAXFILE ensures Slot(d, LinkInode(ino, s, b), t) == 0 {
        ZeroWords(t - NDIRECT);
      }
    } else if NDIRECT <= s {
      var a := Slot(d, ino, MAXFILE);
      assert a in owner;
      PutWordReads(d[a], s - NDIRECT, b);
    }
  }

  lemma LinkOthers(sb: Superblock, d: Disk, inodes: seq<Inode>, owner: Owners, pending: set<nat>,
                   i: nat, s: nat, b: nat, j: nat)
    requires Inv(sb, d, inodes, owner, pending) && CanLink(d, inodes, pending, i, s, b)
    requires j < |inodes| && j != i
    ensures forall t: nat :: Slot(LinkDisk(d, inodes[i], s, b), inodes[j], t) == Slot(d, inodes[j], t)
  {
    var a, c := Slot(d, inodes[i], MAXFILE), Slot(d, inodes[j], MAXFILE);
    assert a != 0 ==> owner[a] == Place(i, MAXFILE);
    assert c != 0 ==> owner[c] == Place(j, MAXFILE);
  }

  lemma LinkDiskOk(sb: Superblock, d: Disk, inodes: seq<Inode>, owner: Owners, pending: set<nat>, i: nat, s: nat,
                   b: nat)
    requires Inv(sb, d, inodes, owner, pending) && CanLink(d, inodes, pending, i, s, b)
    ensures DiskOk(sb, LinkDisk(d, inodes[i], s, b))
    ensures forall c :: 0 <= c < sb.size ==>
              LinkDisk(d, inodes[i], s, b)[c] == d[c] ||
              !(c < sb.nmeta || c in pending || (c in owner && owner[c].slot != MAXFILE))
  {
    var a := Slot(d, inodes[i], MAXFILE);
    if NDIRECT <= s < MAXFILE {
      assert a in owner && owner[a] == Place(i, MAXFILE);
      PutWordReads(d[a], s - NDIRECT, b);
    }
  }

  lemma LinkKeepsInv(sb: Superblock, d: Disk, inodes: seq<Inode>, owner: Owners, pending: set<nat>, i: nat, s: nat,
                     b: nat)
    requires Inv(sb, d, inodes, owner, pending) && CanLink(d, inodes, pending, i, s, b)
    ensures Inv(sb, LinkDisk(d, inodes[i], s, b), inodes[i := LinkInode(inodes[i], s, b)],
                owner[b := Place(i, s)], pending - {b})
  {
    var d', inodes' := LinkDisk(d, inodes[i], s, b), inodes[i := LinkInode(inodes[i], s, b)];
    var owner' := owner[b := Place(i, s)];
    LinkDiskOk(sb, d, inodes, owner, pending, i, s, b);
    LinkAllSlots(sb, d, inodes, owner, pending, i, s, b);
    LinkOwners(sb, d, inodes, owner, d', inodes', i, s, b);
    assert MapExact(sb, d', owner', pending - {b}) by {
      forall c: nat | c < sb.size ensures InUse(sb, d', c) == InUse(sb, d, c) {
        BitBlockIsMeta(sb, c);
      }
    }
  }

  /** Of all slots exactly slot `s` of inode `i` has changed, and names `b` now. */
  ghost predicate OneSlot(d: Disk, inodes: seq<Inode>, d': Disk, inodes': seq<Inode>, i: nat, s: nat, b: nat) {
    |inodes'| == |inodes| && forall j, t {:trigger Slot(d', inodes'[j], t)} :: 0 <= j < |inodes| && 0 <= t ==>
      Slot(d', inodes'[j], t) == if j == i && t == s then b else Slot(d, inodes[j], t)
  }

  lemma LinkAllSlots(sb: Superblock, d: Disk, inodes: seq<Inode>, owner: Owners, pending: set<nat>, i: nat, s: nat,
                     b: nat)
    requires Inv(sb, d, inodes, owner, pending) && CanLink(d, inodes, pending, i, s, b)
    ensures OneSlot(d, inodes, LinkDisk(d, inodes[i], s, b), inodes[i := LinkInode(inodes[i], s, b)], i, s, b)
  {
    var d', inodes' := LinkDisk(d, inodes[i], s, b), inodes[i := LinkInode(inodes[i], s, b)];
    forall j, t | 0 <= j < |inodes| && 0 <= t
      ensures Slot(d', inodes'[j], t) == if j == i && t == s then b else Slot(d, inodes[j], t)
    {
      if j == i {
        LinkSlots(sb, d, inodes, owner, pending, i, s, b);
      } else {
        LinkOthers(sb, d, inodes, owner, pending, i, s, b, j);
      }
    }
  }

  lemma LinkOwners(sb: Superblock, d: Disk, inodes: seq<Inode>, owner: Owners, d': Disk, inodes': seq<Inode>, i: nat,
                   s: nat, b: nat)
    requires SlotsOwned(d, inodes, owner) && OwnersReal(sb, d, inodes, owner) && i < |inodes|
    requires OneSlot(d, inodes, d', inodes', i, s, b) && Slot(d, inodes[i], s) == 0 && b !in owner
    requires 0 < sb.nmeta <= b < sb.size
    ensures SlotsOwned(d', inodes', owner[b := Place(i, s)])
    ensures OwnersReal(sb, d', inodes', owner[b := Place(i, s)])
  {
    var owner' := owner[b := Place(i, s)];
    forall c | c in owner'
      ensures sb.nmeta <= c < sb.size && owner'[c].inum < |inodes'|
      ensures Slot(d', inodes'[owner'[c].inum], owner'[c].slot) == c
    {
      if c != b {
        assert c in owner && Slot(d, inodes[owner[c].inum], owner[c].slot) == c;
      }
    }
  }

  /** Linking a zeroed block changes no byte of any file: holes read as zero. */
  lemma LinkKeepsBytes(sb: Superblock, d: Disk, inodes: seq<Inode>, owner: Owners, pending: set<nat>, i: nat, s: nat,
                       b: nat, j: nat)
    requires Inv(sb, d, inodes, owner, pending) && CanLink(d, inodes, pending, i, s, b) && j < |inodes|
    ensures forall p: nat :: ByteAt(LinkDisk(d, inodes[i], s, b), inodes[i := LinkInode(inodes[i], s, b)][j], p)
                             == ByteAt(d, inodes[j], p)
  {
    var d', inodes' := LinkDisk(d, inodes[i], s, b), inodes[i := LinkInode(inodes[i], s, b)];
    LinkDiskOk(sb, d, inodes, owner, pending, i, s, b);
    if j == i {
      LinkSlots(sb, d, inodes, owner, pending, i, s, b);
    } else {
      LinkOthers(sb, d, inodes, owner, pending, i, s, b, j);
    }
    forall p: nat ensures ByteAt(d', inodes'[j], p) == ByteAt(d, inodes[j], p) {
      var a := Slot(d, inodes[j], p / BSIZE);
      if p / BSIZE < MAXFILE && a != 0 {
        assert owner[a] == Place(j, p / BSIZE);
      }
    }
  }

  // ----- Unlinking -----

  /** Clearing a direct slot leaves its block allocated but pending. */
  lemma UnlinkDirect(sb: Superblock, d: Disk, inodes: seq<Inode>, owner: Owners, pending: set<nat>, i: nat, s: nat)
    requires Inv(sb, d, inodes, owner, pending) && i < |inodes| && s < NDIRECT
    requires inodes[i].addrs[s] != 0
    ensures var a := inodes[i].addrs[s];
            Inv(sb, d, inodes[i := inodes[i].(addrs := inodes[i].addrs[s := 0])], owner - {a}, pending + {a})
  {
    var ino := inodes[i];
    var a, ino' := ino.addrs[s], ino.(addrs := ino.addrs[s := 0]);
    var inodes' := inodes[i := ino'];
    assert a == Slot(d, ino, s);
    forall j, t | 0 <= j < |inodes| && 0 <= t
      ensures Slot(d, inodes'[j], t) == if j == i && t == s then 0 else Slot(d, inodes[j], t)
    {
    }
  }

  /** The blocks that inode `i` holds in slots `k` and above. */
  ghost function Rest(owner: Owners, i: nat, k: nat): set<nat> {
    set b | b in owner && owner[b].inum == i && owner[b].slot >= k
  }

  /** Clearing the indirect slot leaves the indirect block and all it names pending. */
  lemma UnlinkIndirect(sb: Superblock, d: Disk, inodes: seq<Inode>, owner: Owners, i: nat)
    requires Inv(sb, d, inodes, owner, {}) && i < |inodes|
    ensures Inv(sb, d, inodes[i := inodes[i].(addrs := inodes[i].addrs[NDIRECT := 0])],
                owner - Rest(owner, i, NDIRECT), Rest(owner, i, NDIRECT))
  {
    var ino := inodes[i];
    var inodes' := inodes[i := ino.(addrs := ino.addrs[NDIRECT := 0])];
    forall j, t | 0 <= j < |inodes| && 0 <= t
      ensures Slot(d, inodes'[j], t) == if j == i && t >= NDIRECT then 0 else Slot(d, inodes[j], t)
    {
    }
  }

  /** Slot `k` accounts for exactly one block of the rest, or for none if it is empty. */
  lemma RestStep(sb: Superblock, d: Disk, inodes: seq<Inode>, owner: Owners, i: nat, k: nat)
    requires Inv(sb, d, inodes, owner, {}) && i < |inodes|
    ensures var e := Slot(d, inodes[i], k);
            && Rest(owner, i, k + 1) == Rest(owner, i, k) - {e}
            && (e != 0 ==> e in Rest(owner, i, k))
  {
    var e := Slot(d, inodes[i], k);
    forall b ensures b in Rest(owner, i, k + 1) <==> b in Rest(owner, i, k) - {e} {
      if b in owner {
        assert Slot(d, inodes[owner[b].inum], owner[b].slot) == b;
      }
    }
  }

  lemma NothingPastIndirect(sb: Superblock, d: Disk, inodes: seq<Inode>, owner: Owners, i: nat)
    requires Inv(sb, d, inodes, owner, {}) && i < |inodes|
    ensures Rest(owner, i, MAXFILE + 1) == {}
  {
    assert forall b :: b in owner ==> Slot(d, inodes[owner[b].inum], owner[b].slot) != 0;
  }

  // ----- Writing data -----

  lemma DataFrame(sb: Superblock, d: Disk, inodes: seq<Inode>, owner: Owners, pending: set<nat>, i: nat, bn: nat,
                  data: Block, j: nat)
    requires Inv(sb, d, inodes, owner, pending) && i < |inodes| && bn < MAXFILE && j < |inodes|
    requires Slot(d, inodes[i], bn) != 0
    ensures Slot(d, inodes[i], bn) < |d|
    ensures forall t: nat :: Slot(d[Slot(d, inodes[i], bn) := data], inodes[j], t) == Slot(d, inodes[j], t)
  {
    var a, c := Slot(d, inodes[i], bn), Slot(d, inodes[j], MAXFILE);
    assert owner[a] == Place(i, bn);
    assert c != 0 ==> owner[c] == Place(j, MAXFILE);
  }

  lemma DataKeepsInv(sb: Superblock, d: Disk, inodes: seq<Inode>, owner: Owners, pending: set<nat>, i: nat, bn: nat,
                     data: Block)
    requires Inv(sb, d, inodes, owner, pending) && i < |inodes| && bn < MAXFILE && BlockOk(data)
    requires Slot(d, inodes[i], bn) != 0
    ensures Slot(d, inodes[i], bn) < |d| && Inv(sb, d[Slot(d, inodes[i], bn) := data], inodes, owner, pending)
  {
    var a := Slot(d, inodes[i], bn);
    assert owner[a] == Place(i, bn);
    var d' := d[a := data];
    forall j, t | 0 <= j < |inodes| && 0 <= t ensures Slot(d', inodes[j], t) == Slot(d, inodes[j], t) {
      DataFrame(sb, d, inodes, owner, pending, i, bn, data, j);
    }
    forall c: nat | c < sb.size ensures InUse(sb, d', c) == InUse(sb, d, c) {
      BitBlockIsMeta(sb, c);
    }
  }

  /** Only the bytes of that one block of that one file change. */
  lemma DataBytes(sb: Superblock, d: Disk, inodes: seq<Inode>, owner: Owners, pending: set<nat>, i: nat, bn: nat,
                  data: Block, j: nat)
    requires Inv(sb, d, inodes, owner, pending) && i < |inodes| && bn < MAXFILE && BlockOk(data)
    requires Slot(d, inodes[i], bn) != 0 && j < |inodes|
    ensures Slot(d, inodes[i], bn) < |d|
    ensures forall p: nat :: ByteAt(d[Slot(d, inodes[i], bn) := data], inodes[j], p) ==
              if j == i && p / BSIZE == bn then data.bytes[p % BSIZE] else ByteAt(d, inodes[j], p)
  {
    var a := Slot(d, inodes[i], bn);
    assert owner[a] == Place(i, bn);
    var d' := d[a := data];
    DataFrame(sb, d, inodes, owner, pending, i, bn, data, j);
    forall p: nat ensures ByteAt(d', inodes[j], p) ==
                  if j == i && p / BSIZE == bn then data.bytes[p % BSIZE] else ByteAt(d, inodes[j], p)
    {
      var c := Slot(d, inodes[j], p / BSIZE);
      assert c != 0 ==> owner[c] == Place(j, p / BSIZE);
    }
  }
}

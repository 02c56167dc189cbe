/** The block and inode layer of the file system: `balloc`, `bfree`, `bmap`, `itrunc`, `readi`,
    `writei`, and the chunked `filewrite` above them. */
module FsCode {
  import opened Blocks
  import opened FsLayout
  import opened FsBlocks
  import opened Params
  import opened Seqs

  /** The blocks of the free map. */
  ghost function MapBlocks(sb: Superblock): set<nat> {
    set b | 0 <= b < sb.size :: BitBlock(sb, b)
  }

  ghost predicate Full(sb: Superblock, d: Disk) {
    forall b {:trigger InUse(sb, d, b)} :: 0 <= b < sb.size ==> InUse(sb, d, b)
  }

  /** The file system at one moment, with its bookkeeping. */
  datatype State = State(disk: Disk, inodes: seq<Inode>, owner: Owners, logged: set<nat>)

  /** No file changed a byte. */
  ghost predicate SameBytes(a: State, b: State) {
    && |b.inodes| == |a.inodes|
    && forall j, p {:trigger ByteAt(b.disk, b.inodes[j], p)} :: 0 <= j < |a.inodes| && 0 <= p ==>
         ByteAt(b.disk, b.inodes[j], p) == ByteAt(a.disk, a.inodes[j], p)
  }

  /** Inode `i` may have gained blocks; nothing else about the inodes changed. */
  ghost predicate OnlyGrew(a: State, b: State, i: nat) {
    && |b.inodes| == |a.inodes|
    && (forall j :: 0 <= j < |a.inodes| && j != i ==> b.inodes[j] == a.inodes[j])
    && i < |a.inodes| && b.inodes[i].size == a.inodes[i].size
    && (forall t {:trigger Slot(b.disk, b.inodes[i], t)} :: 0 <= t && Slot(a.disk, a.inodes[i], t) != 0 ==>
          Slot(b.disk, b.inodes[i], t) == Slot(a.disk, a.inodes[i], t))
    && (forall x {:trigger x in b.owner} :: x in a.owner ==> x in b.owner && b.owner[x] == a.owner[x])
  }

  /** Block `x` belongs to inode `i`, as its indirect block or in a slot of [lo, hi). */
  ghost predicate OwnedIn(owner: Owners, x: nat, i: nat, lo: nat, hi: nat) {
    x in owner && owner[x].inum == i && (owner[x].slot == MAXFILE || lo <= owner[x].slot < hi)
  }

  /** The free map and such blocks of inode `i`. */
  ghost function Region(sb: Superblock, owner: Owners, i: nat, lo: nat, hi: nat): set<nat> {
    MapBlocks(sb) + set x | x in owner && OwnedIn(owner, x, i, lo, hi)
  }

  /** The write-ahead rule for an operation on the blocks `may`: it logs every block that it changes, and changes
      and logs no others. */
  ghost predicate Ahead(a: State, b: State, may: set<nat>) {
    && a.logged <= b.logged <= a.logged + may && |b.disk| == |a.disk|
    && forall x {:trigger b.disk[x]} :: 0 <= x < |a.disk| && b.disk[x] != a.disk[x] ==> x in b.logged && x in may
  }

  lemma AheadTrans(a: State, b: State, c: State, may: set<nat>, may': set<nat>, all: set<nat>)
    requires Ahead(a, b, may) && Ahead(b, c, may') && may <= all && may' <= all
    ensures Ahead(a, c, all)
  {
    forall x | 0 <= x < |a.disk| && c.disk[x] != a.disk[x] ensures x in c.logged && x in all {
      assert b.disk[x] != a.disk[x] || c.disk[x] != b.disk[x];
    }
  }

  ghost predicate Grew(sb: Superblock, a: State, b: State, i: nat, lo: nat, hi: nat) {
    SameBytes(a, b) && OnlyGrew(a, b, i) && Ahead(a, b, Region(sb, b.owner, i, lo, hi))
  }

  /** The blocks of inode `i` stay its blocks. */
  lemma RegionGrows(sb: Superblock, b: State, c: State, i: nat, lo: nat, hi: nat, lo': nat, hi': nat)
    requires OnlyGrew(b, c, i) && lo' <= lo && (lo >= hi || hi <= hi')
    ensures Region(sb, b.owner, i, lo, hi) <= Region(sb, c.owner, i, lo', hi')
  {
    forall x | x in b.owner && OwnedIn(b.owner, x, i, lo, hi) ensures OwnedIn(c.owner, x, i, lo', hi') {
      assert x in c.owner;
    }
  }

  lemma GrewTrans(sb: Superblock, a: State, b: State, c: State, i: nat, lo: nat, hi: nat, lo': nat, hi': nat)
    requires Grew(sb, a, b, i, lo, hi) && Grew(sb, b, c, i, lo', hi')
    requires lo' <= lo && (lo >= hi || hi <= hi')
    ensures Grew(sb, a, c, i, lo', hi')
  {
    RegionGrows(sb, b, c, i, lo, hi, lo', hi');
    var all := Region(sb, c.owner, i, lo', hi');
    AheadTrans(a, b, c, Region(sb, b.owner, i, lo, hi), all, all);
    forall t | 0 <= t && Slot(a.disk, a.inodes[i], t) != 0
      ensures Slot(c.disk, c.inodes[i], t) == Slot(a.disk, a.inodes[i], t)
    {
      assert Slot(b.disk, b.inodes[i], t) == Slot(a.disk, a.inodes[i], t);
    }
  }

  /** No such block belongs to the inodes, so what the disk holds of them stays. */
  lemma InodesKept(sb: Superblock, a: State, b: State, i: nat, lo: nat, hi: nat, j: nat)
    requires Inv(sb, b.disk, b.inodes, b.owner, {}) && Ahead(a, b, Region(sb, b.owner, i, lo, hi)) && j < |b.inodes|
    ensures InodeBlock(sb, j) < |a.disk| == |b.disk| && b.disk[InodeBlock(sb, j)] == a.disk[InodeBlock(sb, j)]
    ensures InodeOn(sb, b.disk, j) == InodeOn(sb, a.disk, j)
  {
    InodeBlockIsMeta(sb, b.inodes, j);
    assert InodeBlock(sb, j) !in Region(sb, b.owner, i, lo, hi);
  }

  const EMPTY: seq<nat> := [0, 0, 0, 0, 0, 0, 0, 0, 0, 0, 0, 0, 0]

  /** The two disks differ at most in the metadata. */
  ghost predicate SameData(sb: Superblock, d: Disk, d': Disk) {
    |d'| == |d| && forall b :: sb.nmeta <= b < |d| ==> d'[b] == d[b]
  }

  /** Inode `i` may have lost blocks, and only free map blocks were logged. */
  ghost predicate Shrunk(sb: Superblock, a: State, b: State, i: nat) {
    && |b.inodes| == |a.inodes|
    && (forall j :: 0 <= j < |a.inodes| && j != i ==> b.inodes[j] == a.inodes[j])
    && SameData(sb, a.disk, b.disk)
    && (forall x {:trigger x in b.owner} :: x in b.owner ==> x in a.owner && b.owner[x] == a.owner[x])
    && (forall x {:trigger x in a.owner} :: x in a.owner && a.owner[x].inum != i ==> x in b.owner)
    && Ahead(a, b, MapBlocks(sb))
  }

  lemma ShrunkTrans(sb: Superblock, a: State, b: State, c: State, i: nat)
    requires Shrunk(sb, a, b, i) && Shrunk(sb, b, c, i)
    ensures Shrunk(sb, a, c, i)
  {
    AheadTrans(a, b, c, MapBlocks(sb), MapBlocks(sb), MapBlocks(sb));
  }

  /** `bfree` of block `x`. */
  ghost function Freed(sb: Superblock, b: State, x: nat): State
    requires BitBlock(sb, x) < |b.disk| && BlockOk(b.disk[BitBlock(sb, x)])
  {
    b.(disk := MarkFree(sb, b.disk, x), logged := b.logged + {BitBlock(sb, x)})
  }

  lemma FreedAhead(sb: Superblock, b: State, x: nat)
    requires x < sb.size && BitBlock(sb, x) < |b.disk| && BlockOk(b.disk[BitBlock(sb, x)])
    ensures Ahead(b, Freed(sb, b, x), MapBlocks(sb))
  {
    assert BitBlock(sb, x) in MapBlocks(sb);
  }

  /** Freeing the block of one direct slot. */
  lemma FreeDirect(sb: Superblock, a: State, i: nat, s: nat)
    requires Inv(sb, a.disk, a.inodes, a.owner, {}) && i < |a.inodes| && s < NDIRECT
    requires a.inodes[i].addrs[s] != 0
    ensures var x := a.inodes[i].addrs[s];
            && x < sb.size && InUse(sb, a.disk, x)
            && BitBlock(sb, x) < |a.disk| && BlockOk(a.disk[BitBlock(sb, x)])
            && var z := Freed(sb, a, x).(inodes := a.inodes[i := a.inodes[i].(addrs := a.inodes[i].addrs[s := 0])],
                                         owner := a.owner - {x});
               Inv(sb, z.disk, z.inodes, z.owner, {}) && Shrunk(sb, a, z, i)
  {
    var x := a.inodes[i].addrs[s];
    assert x == Slot(a.disk, a.inodes[i], s);
    UnlinkDirect(sb, a.disk, a.inodes, a.owner, {}, i, s);
    var inodes' := a.inodes[i := a.inodes[i].(addrs := a.inodes[i].addrs[s := 0])];
    FreeKeepsInv(sb, a.disk, inodes', a.owner - {x}, {} + {x}, x);
    assert {} + {x} - {x} == {};
    FreedAhead(sb, a, x);
  }

  /** The table with the indirect block of inode `i` cut off. */
  function Cut(inodes: seq<Inode>, i: nat): seq<Inode>
    requires i < |inodes| && |inodes[i].addrs| == NDIRECT + 1
  {
    inodes[i := inodes[i].(addrs := inodes[i].addrs[NDIRECT := 0])]
  }

  /** While the indirect block is being emptied: with it cut off, the blocks it held in slots `k`
      and above are the ones still marked in use. */
  ghost predicate Draining(sb: Superblock, a: State, b: State, i: nat, k: nat) {
    && Inv(sb, a.disk, a.inodes, a.owner, {}) && i < |a.inodes| && NDIRECT <= k
    && b.inodes == a.inodes && b.owner == a.owner
    && SameData(sb, a.disk, b.disk) && Ahead(a, b, MapBlocks(sb))
    && Inv(sb, b.disk, Cut(a.inodes, i), a.owner - Rest(a.owner, i, NDIRECT), Rest(a.owner, i, k))
  }

  lemma DrainStart(sb: Superblock, a: State, i: nat)
    requires Inv(sb, a.disk, a.inodes, a.owner, {}) && i < |a.inodes|
    ensures Draining(sb, a, a, i, NDIRECT)
  {
    UnlinkIndirect(sb, a.disk, a.inodes, a.owner, i);
  }

  lemma DrainBlock(sb: Superblock, a: State, b: State, i: nat, k: nat, e: nat)
    requires Draining(sb, a, b, i, k) && e in Rest(a.owner, i, k)
    requires Rest(a.owner, i, k + 1) == Rest(a.owner, i, k) - {e}
    ensures e < sb.size && InUse(sb, b.disk, e)
    ensures BitBlock(sb, e) < |b.disk| && BlockOk(b.disk[BitBlock(sb, e)])
    ensures Draining(sb, a, Freed(sb, b, e), i, k + 1)
  {
    FreeKeepsInv(sb, b.disk, Cut(a.inodes, i), a.owner - Rest(a.owner, i, NDIRECT), Rest(a.owner, i, k), e);
    FreedAhead(sb, b, e);
    AheadTrans(a, b, Freed(sb, b, e), MapBlocks(sb), MapBlocks(sb), MapBlocks(sb));
  }

  lemma DrainStep(sb: Superblock, a: State, b: State, i: nat, k: nat)
    requires Draining(sb, a, b, i, k) && k <= MAXFILE && Slot(a.disk, a.inodes[i], MAXFILE) != 0
    ensures var ind, e := a.inodes[i].addrs[NDIRECT], Slot(a.disk, a.inodes[i], k);
            && ind < |b.disk| && BlockOk(b.disk[ind])
            && (k < MAXFILE ==> e == Word(b.disk[ind], k - NDIRECT))
            && (e == 0 ==> Draining(sb, a, b, i, k + 1))
            && (e != 0 ==>
                  && e < sb.size && InUse(sb, b.disk, e)
                  && BitBlock(sb, e) < |b.disk| && BlockOk(b.disk[BitBlock(sb, e)])
                  && Draining(sb, a, Freed(sb, b, e), i, k + 1))
  {
    var ind, e := Slot(a.disk, a.inodes[i], MAXFILE), Slot(a.disk, a.inodes[i], k);
    assert ind in a.owner;
    RestStep(sb, a.disk, a.inodes, a.owner, i, k);
    if e != 0 {
      DrainBlock(sb, a, b, i, k, e);
    } else {
      assert 0 !in Rest(a.owner, i, k);
      assert Rest(a.owner, i, k + 1) == Rest(a.owner, i, k);
    }
  }

  lemma DrainEnd(sb: Superblock, a: State, b: State, i: nat)
    requires Draining(sb, a, b, i, MAXFILE + 1)
    ensures Inv(sb, b.disk, Cut(a.inodes, i), a.owner - Rest(a.owner, i, NDIRECT), {})
  {
    NothingPastIndirect(sb, a.disk, a.inodes, a.owner, i);
  }

  function Min(a: int, b: int): int {
    if a < b then a else b
  }

  /** One past the last block that `n` bytes at `off` touch. */
  function LastBlock(off: nat, n: nat): nat {
    (off + n + BSIZE - 1) / BSIZE
  }

  lemma BlockInRange(off: nat, tot: nat, n: nat)
    requires tot < n && off + n <= MAXFILE * BSIZE
    ensures off / BSIZE <= (off + tot) / BSIZE < LastBlock(off, n) <= MAXFILE
  {
  }

  /** `c` with `data` written over it from `off` on, growing it if need be. */
  function Overwrite(c: seq<Byte>, off: nat, data: seq<Byte>): seq<Byte>
    requires off <= |c|
  {
    c[..off] + data + if off + |data| <= |c| then c[off + |data|..] else []
  }

  /** Bytes [q, q + m) of a file. */
  function Window(d: Disk, ino: Inode, q: nat, m: nat): seq<Byte> {
    seq<Byte>(m, k requires 0 <= k < m => ByteAt(d, ino, q + k))
  }

  /** The bytes of one block of a file, seen through the file. */
  lemma ChunkBytes(d: Disk, ino: Inode, q: nat, m: nat)
    requires q / BSIZE < MAXFILE && q % BSIZE + m <= BSIZE
    requires 0 < Slot(d, ino, q / BSIZE) < |d| && BlockOk(d[Slot(d, ino, q / BSIZE)])
    ensures d[Slot(d, ino, q / BSIZE)].bytes[q % BSIZE..q % BSIZE + m] == Window(d, ino, q, m)
  {
    var x, y := d[Slot(d, ino, q / BSIZE)].bytes[q % BSIZE..q % BSIZE + m], Window(d, ino, q, m);
    forall k | 0 <= k < m ensures x[k] == y[k] {
      assert (q + k) / BSIZE == q / BSIZE && (q + k) % BSIZE == q % BSIZE + k;
      assert y[k] == ByteAt(d, ino, q + k);
    }
  }

  lemma SliceGrows(a: State, b: State, i: nat, off: nat, data: seq<Byte>, q: nat, piece: seq<Byte>)
    requires SameBytes(a, b) && i < |a.inodes| && q == off + |data| && q + |piece| <= a.inodes[i].size
    requires data == Contents(a.disk, a.inodes[i])[off..q] && piece == Window(b.disk, b.inodes[i], q, |piece|)
    ensures data + piece == Contents(a.disk, a.inodes[i])[off..q + |piece|]
  {
    var x := Contents(a.disk, a.inodes[i])[off..q + |piece|];
    forall k | 0 <= k < |x| ensures x[k] == (data + piece)[k] {
      assert ByteAt(b.disk, b.inodes[i], off + k) == ByteAt(a.disk, a.inodes[i], off + k);
    }
  }

  /** No hole in blocks [lo, hi) of the file. */
  ghost predicate AllMapped(d: Disk, ino: Inode, lo: nat, hi: nat) {
    forall bn {:trigger Slot(d, ino, bn)} :: lo <= bn < hi ==> Slot(d, ino, bn) != 0
  }

  /** One past the last block that a read of `n` bytes at `off` looks at. */
  function ReadEnd(off: nat, n: nat): nat {
    if n == 0 then off / BSIZE else LastBlock(off, n)
  }

  lemma ReadEndNext(off: nat, tot: nat, m: nat)
    requires 0 < m && (off + tot) % BSIZE + m <= BSIZE
    ensures off / BSIZE <= (off + tot) / BSIZE <= ReadEnd(off, tot) <= ReadEnd(off, tot + m) == (off + tot) / BSIZE + 1
  {
  }

  lemma ReadEndMonotone(off: nat, tot: nat, want: nat)
    requires tot <= want
    ensures ReadEnd(off, tot) <= ReadEnd(off, want)
  {
  }

  /** The file has no hole where the read of `want` bytes looks. */
  ghost predicate NoHoles(a: State, i: nat, off: nat, want: nat) {
    i < |a.inodes| && AllMapped(a.disk, a.inodes[i], off / BSIZE, ReadEnd(off, want))
  }

  /** `data` is what a read of `want` bytes at `off` has returned so far. */
  ghost predicate ReadBytes(sb: Superblock, a: State, b: State, i: nat, off: nat, want: nat, data: seq<Byte>) {
    && i < |a.inodes| && off + want <= a.inodes[i].size && |data| <= want
    && Grew(sb, a, b, i, 0, MAXFILE) && data == Contents(a.disk, a.inodes[i])[off..off + |data|]
  }

  /** A read of `want` bytes at `off` that has come to `n` has filled the holes it met, and nothing has changed if
      there are none in the whole range. */
  ghost predicate HolesMet(a: State, b: State, i: nat, off: nat, want: nat, n: nat) {
    NoHoles(b, i, off, n) && (NoHoles(a, i, off, want) ==> b == a)
  }

  ghost predicate ReadSoFar(sb: Superblock, a: State, b: State, i: nat, off: nat, want: nat, data: seq<Byte>) {
    ReadBytes(sb, a, b, i, off, want, data) && HolesMet(a, b, i, off, want, |data|)
  }

  /** The outcome of reading `want` bytes at `off`: they are the file's, all of them unless the copy fails or the
      disk is full and there is a hole. Without a hole nothing changes, and no other complete read changes nothing. */
  ghost predicate DidRead(sb: Superblock, a: State, b: State, i: nat, off: nat, want: nat, avail: nat, tot: int,
                          data: seq<Byte>) {
    && i < |a.inodes| && off + want <= a.inodes[i].size && |data| <= want
    && Grew(sb, a, b, i, 0, MAXFILE) && data == Contents(a.disk, a.inodes[i])[off..off + |data|]
    && (tot == -1 || tot == |data|)
    && (tot == -1 ==> avail < want)
    && (0 <= tot < want ==> Full(sb, b.disk) && !NoHoles(a, i, off, want))
    && (NoHoles(a, i, off, want) ==> b == a)
    && (tot == want && b == a ==> NoHoles(a, i, off, want))
  }

  /** One more block without a hole. */
  lemma NoHolesMore(b: State, c: State, i: nat, off: nat, n: nat, m: nat, q: nat)
    requires NoHoles(b, i, off, n) && OnlyGrew(b, c, i) && 0 < m && q == off + n && q % BSIZE + m <= BSIZE
    requires Slot(c.disk, c.inodes[i], q / BSIZE) != 0
    ensures NoHoles(c, i, off, n + m)
  {
    ReadEndNext(off, n, m);
    forall bn | off / BSIZE <= bn < ReadEnd(off, n + m) ensures Slot(c.disk, c.inodes[i], bn) != 0 {
      assert bn < ReadEnd(off, n) ==> Slot(b.disk, b.inodes[i], bn) != 0;
    }
  }

  lemma NoHolesAt(a: State, i: nat, off: nat, want: nat, n: nat, m: nat, q: nat)
    requires 0 < m && n + m <= want && q == off + n && q % BSIZE + m <= BSIZE
    ensures NoHoles(a, i, off, want) ==> Slot(a.disk, a.inodes[i], q / BSIZE) != 0
  {
    ReadEndNext(off, n, m);
    ReadEndMonotone(off, n + m, want);
  }

  /** The next piece comes from a block that is there now, and was there before if it changed nothing. */
  lemma HolesMore(a: State, b: State, c: State, i: nat, off: nat, want: nat, n: nat, m: nat, q: nat)
    requires HolesMet(a, b, i, off, want, n) && OnlyGrew(b, c, i)
    requires 0 < m && n + m <= want && q == off + n && q % BSIZE + m <= BSIZE
    requires Slot(c.disk, c.inodes[i], q / BSIZE) != 0 && (Slot(b.disk, b.inodes[i], q / BSIZE) != 0 ==> c == b)
    ensures HolesMet(a, c, i, off, want, n + m)
  {
    NoHolesMore(b, c, i, off, n, m, q);
    NoHolesAt(a, i, off, want, n, m, q);
  }

  lemma BytesMore(sb: Superblock, a: State, b: State, c: State, i: nat, off: nat, want: nat, data: seq<Byte>, q: nat,
                  piece: seq<Byte>)
    requires ReadBytes(sb, a, b, i, off, want, data) && Grew(sb, b, c, i, 0, MAXFILE) && q == off + |data|
    requires |data| + |piece| <= want && piece == Window(c.disk, c.inodes[i], q, |piece|)
    ensures ReadBytes(sb, a, c, i, off, want, data + piece)
  {
    assert Grew(sb, a, c, i, 0, MAXFILE) by { GrewTrans(sb, a, b, c, i, 0, MAXFILE, 0, MAXFILE); }
    SliceGrows(a, c, i, off, data, q, piece);
  }

  /** `data` was written at `off` of file `i`, and nothing else; what was logged lies in its blocks
      [lo, hi), its indirect block and the free map. */
  ghost predicate Wrote(sb: Superblock, a: State, b: State, i: nat, off: nat, data: seq<Byte>, lo: nat, hi: nat) {
    && OnlyGrew(a, b, i) && Ahead(a, b, Region(sb, b.owner, i, lo, hi))
    && Written(a.disk, a.inodes, b.disk, b.inodes, i, off, data)
  }

  lemma WroteTrans(sb: Superblock, a: State, b: State, c: State, i: nat, off: nat, x: seq<Byte>, y: seq<Byte>,
                   lo: nat, hi: nat, bn: nat)
    requires Wrote(sb, a, b, i, off, x, lo, hi) && Wrote(sb, b, c, i, off + |x|, y, bn, bn + 1) && lo <= bn < hi
    ensures Wrote(sb, a, c, i, off, x + y, lo, hi)
  {
    forall t | 0 <= t && Slot(a.disk, a.inodes[i], t) != 0
      ensures Slot(c.disk, c.inodes[i], t) == Slot(a.disk, a.inodes[i], t)
    {
      assert Slot(b.disk, b.inodes[i], t) == Slot(a.disk, a.inodes[i], t);
    }
    RegionGrows(sb, b, c, i, lo, hi, lo, hi);
    var last, all := Region(sb, c.owner, i, bn, bn + 1), Region(sb, c.owner, i, lo, hi);
    assert last <= all;
    AheadTrans(a, b, c, Region(sb, b.owner, i, lo, hi), last, all);
    WrittenMore(a.disk, a.inodes, b.disk, b.inodes, c.disk, c.inodes, i, off, x, y);
  }

  /** The first `k` bytes of `src` have been written at `off`. */
  ghost predicate WroteTo(sb: Superblock, a: State, b: State, i: nat, off: nat, src: seq<Byte>, k: nat) {
    k <= |src| && Wrote(sb, a, b, i, off, src[..k], off / BSIZE, LastBlock(off, |src|))
  }

  lemma WroteToMore(sb: Superblock, a: State, b: State, c: State, i: nat, off: nat, src: seq<Byte>, k: nat, m: nat,
                    ok: bool, q: nat)
    requires WroteTo(sb, a, b, i, off, src, k) && 0 < m && k + m <= |src| && q == off + k
    requires Wrote(sb, b, c, i, q, if ok then src[k..k + m] else [], q / BSIZE, q / BSIZE + 1)
    requires off / BSIZE <= q / BSIZE < LastBlock(off, |src|)
    ensures WroteTo(sb, a, c, i, off, src, if ok then k + m else k)
  {
    var piece := if ok then src[k..k + m] else [];
    WroteTrans(sb, a, b, c, i, off, src[..k], piece, off / BSIZE, LastBlock(off, |src|), q / BSIZE);
    assert src[..k] + src[k..k + m] == src[..k + m] && src[..k] + [] == src[..k];
  }

  lemma PieceWritten(sb: Superblock, a: State, i: nat, q: nat, piece: seq<Byte>)
    requires Inv(sb, a.disk, a.inodes, a.owner, {}) && i < |a.inodes|
    requires q / BSIZE < MAXFILE && q % BSIZE + |piece| <= BSIZE && Slot(a.disk, a.inodes[i], q / BSIZE) != 0
    ensures var x := Slot(a.disk, a.inodes[i], q / BSIZE);
            && x < |a.disk| && BlockOk(a.disk[x])
            && var z := a.(disk := a.disk[x := Block(Spliced(a.disk[x].bytes, q % BSIZE, piece))],
                 logged := a.logged + {x});
               && Inv(sb, z.disk, z.inodes, z.owner, {})
               && Wrote(sb, a, z, i, q, piece, q / BSIZE, q / BSIZE + 1)
  {
    var bn, x := q / BSIZE, Slot(a.disk, a.inodes[i], q / BSIZE);
    assert x in a.owner && a.owner[x] == Place(i, bn);
    var data := Block(Spliced(a.disk[x].bytes, q % BSIZE, piece));
    DataKeepsInv(sb, a.disk, a.inodes, a.owner, {}, i, bn, data);
    var d' := a.disk[x := data];
    DataFrame(sb, a.disk, a.inodes, a.owner, {}, i, bn, data, i);
    forall j, p | 0 <= j < |a.inodes| && 0 <= p
      ensures ByteAt(d', a.inodes[j], p) ==
              if j == i && q <= p < q + |piece| then piece[p - q] else ByteAt(a.disk, a.inodes[j], p)
    {
      DataBytes(sb, a.disk, a.inodes, a.owner, {}, i, bn, data, j);
      assert q <= p < q + |piece| ==> p / BSIZE == bn && p % BSIZE == q % BSIZE + (p - q);
    }
  }

  lemma WroteAfterGrew(sb: Superblock, a: State, b: State, c: State, i: nat, q: nat, piece: seq<Byte>)
    requires Grew(sb, a, b, i, q / BSIZE, q / BSIZE + 1) && Wrote(sb, b, c, i, q, piece, q / BSIZE, q / BSIZE + 1)
    ensures Wrote(sb, a, c, i, q, piece, q / BSIZE, q / BSIZE + 1)
  {
    assert Wrote(sb, a, b, i, q, [], q / BSIZE, q / BSIZE + 1);
    WroteTrans(sb, a, b, c, i, q, [], piece, q / BSIZE, q / BSIZE + 1, q / BSIZE);
    assert [] + piece == piece;
  }

  /** On disk, inode `i` is as in memory, and everything else in its block and every other inode as it was. */
  ghost predicate InodeWritten(sb: Superblock, a: State, b: State, i: nat) {
    var x := InodeBlock(sb, i);
    && x in b.logged && i < |b.inodes| && |b.inodes[i].addrs| == NDIRECT + 1
    && x < |a.disk| == |b.disk| && BlockOk(a.disk[x]) && b.disk[x] == PutInode(a.disk[x], i, b.inodes[i])
    && forall j {:trigger InodeOn(sb, b.disk, j)} :: 0 <= j < |b.inodes| ==>
         InodeOn(sb, b.disk, j) == if j == i then b.inodes[i] else InodeOn(sb, a.disk, j)
  }

  /** What a write of `n` bytes at `off` of file `i` may change and must log. */
  ghost predicate LoggedForWrite(sb: Superblock, a: State, b: State, i: nat, off: nat, n: nat) {
    && Ahead(a, b, Region(sb, b.owner, i, off / BSIZE, LastBlock(off, n)) + {InodeBlock(sb, i)})
    && InodeWritten(sb, a, b, i)
  }

  /** As contents: `data` replaces or extends file `i` from `off` on, and no other file changes. */
  ghost predicate FileWritten(a: State, b: State, i: nat, off: nat, data: seq<Byte>) {
    && |b.inodes| == |a.inodes| && i < |a.inodes| && off <= a.inodes[i].size
    && Contents(b.disk, b.inodes[i]) == Overwrite(Contents(a.disk, a.inodes[i]), off, data)
    && (forall j :: 0 <= j < |a.inodes| && j != i ==> b.inodes[j] == a.inodes[j])
    && (forall j :: 0 <= j < |a.inodes| && j != i ==>
          Contents(b.disk, b.inodes[j]) == Contents(a.disk, a.inodes[j]))
  }

  lemma WroteContents(sb: Superblock, a: State, b: State, i: nat, off: nat, data: seq<Byte>, lo: nat, hi: nat)
    requires Inv(sb, b.disk, b.inodes, b.owner, {}) && Wrote(sb, a, b, i, off, data, lo, hi)
    requires off <= a.inodes[i].size && off + |data| <= MAXFILE * BSIZE
    ensures var size := if off + |data| > b.inodes[i].size then off + |data| else b.inodes[i].size;
            var inodes := b.inodes[i := Resized(b.inodes[i], size)];
            && Inv(sb, b.disk, inodes, b.owner, {})
            && FileWritten(a, b.(inodes := inodes), i, off, data)
  {
    var size := if off + |data| > b.inodes[i].size then off + |data| else b.inodes[i].size;
    ResizeKeepsInv(sb, b.disk, b.inodes, b.owner, {}, i, size);
    var ino := b.inodes[i].(size := size);
    forall p: nat ensures ByteAt(b.disk, ino, p) == ByteAt(b.disk, b.inodes[i], p) {
    }
    var c := Contents(a.disk, a.inodes[i]);
    forall p | 0 <= p < size ensures Contents(b.disk, ino)[p] == Overwrite(c, off, data)[p] {
      assert ByteAt(b.disk, ino, p) == ByteAt(b.disk, b.inodes[i], p);
    }
    assert Contents(b.disk, ino) == Overwrite(c, off, data);
  }

  /** `iupdate` of inode `i`. */
  ghost function Updated(sb: Superblock, b: State, i: nat): State
    requires i < |b.inodes| && InodeBlock(sb, i) < |b.disk| && BlockOk(b.disk[InodeBlock(sb, i)])
    requires |b.inodes[i].addrs| == NDIRECT + 1
  {
    b.(disk := WithInode(sb, b.disk, i, b.inodes[i]), logged := b.logged + {InodeBlock(sb, i)})
  }

  /** It stores the inode and leaves all files alone. */
  lemma UpdateKeeps(sb: Superblock, b: State, i: nat)
    requires Inv(sb, b.disk, b.inodes, b.owner, {}) && i < |b.inodes|
    ensures InodeBlock(sb, i) < |b.disk| && BlockOk(b.disk[InodeBlock(sb, i)])
    ensures var z := Updated(sb, b, i);
            && Inv(sb, z.disk, z.inodes, z.owner, {})
            && SameBytes(b, z) && Ahead(b, z, {InodeBlock(sb, i)}) && InodeWritten(sb, b, z, i)
  {
    InodeKeepsInv(sb, b.disk, b.inodes, b.owner, {}, i, b.inodes[i]);
    AddrsFit(sb, b.disk, b.inodes, b.owner, {}, i);
    var z := Updated(sb, b, i);
    forall j, p | 0 <= j < |b.inodes| && 0 <= p
      ensures ByteAt(z.disk, z.inodes[j], p) == ByteAt(b.disk, b.inodes[j], p)
    {
      ByteFrame(b.disk, z.disk, b.inodes, b.owner, j);
    }
    forall j | 0 <= j < |b.inodes|
      ensures InodeOn(sb, z.disk, j) == if j == i then z.inodes[i] else InodeOn(sb, b.disk, j)
    {
      InodeReads(sb, b.disk, i, b.inodes[i], j);
    }
  }

  lemma SameContents(a: State, b: State, j: nat)
    requires SameBytes(a, b) && j < |a.inodes| && b.inodes[j].size == a.inodes[j].size
    ensures Contents(b.disk, b.inodes[j]) == Contents(a.disk, a.inodes[j])
  {
    forall p | 0 <= p < a.inodes[j].size ensures Contents(b.disk, b.inodes[j])[p] == Contents(a.disk, a.inodes[j])[p] {
      assert ByteAt(b.disk, b.inodes[j], p) == ByteAt(a.disk, a.inodes[j], p);
    }
  }

  /** The size of the file grows to `end` if need be. */
  ghost function Sized(b: State, i: nat, end: nat): State
    requires i < |b.inodes|
  {
    b.(inodes := if end > b.inodes[i].size then b.inodes[i := Resized(b.inodes[i], end)] else b.inodes)
  }

  /** The end of `writei`. */
  lemma WriteEnds(sb: Superblock, a: State, b: State, i: nat, off: nat, src: seq<Byte>, tot: nat)
    requires Inv(sb, b.disk, b.inodes, b.owner, {}) && WroteTo(sb, a, b, i, off, src, tot)
    requires off <= a.inodes[i].size && off + |src| <= MAXFILE * BSIZE
    ensures i < |b.inodes|
    ensures var s := Sized(b, i, off + tot);
            && Inv(sb, s.disk, s.inodes, s.owner, {})
            && InodeBlock(sb, i) < |s.disk| && BlockOk(s.disk[InodeBlock(sb, i)])
            && var z := Updated(sb, s, i);
               && Inv(sb, z.disk, z.inodes, z.owner, {})
               && FileWritten(a, z, i, off, src[..tot])
               && LoggedForWrite(sb, a, z, i, off, |src|)
  {
    var lo, hi := off / BSIZE, LastBlock(off, |src|);
    WroteContents(sb, a, b, i, off, src[..tot], lo, hi);
    assert b.inodes[i := Resized(b.inodes[i], b.inodes[i].size)] == b.inodes;
    var s := Sized(b, i, off + tot);
    UpdateKeeps(sb, s, i);
    var z := Updated(sb, s, i);
    forall j | 0 <= j < |a.inodes| ensures Contents(z.disk, z.inodes[j]) == Contents(s.disk, s.inodes[j]) {
      SameContents(s, z, j);
    }
    var may := Region(sb, b.owner, i, lo, hi);
    AheadTrans(a, s, z, may, {InodeBlock(sb, i)}, may + {InodeBlock(sb, i)});
    InodesKept(sb, a, b, i, lo, hi, i);
    forall j | 0 <= j < |z.inodes|
      ensures InodeOn(sb, z.disk, j) == if j == i then z.inodes[i] else InodeOn(sb, a.disk, j)
    {
      InodesKept(sb, a, b, i, lo, hi, j);
    }
  }

  /** `filewrite`'s largest chunk: half of MAXOPBLOCKS less inode, indirect block and two for the free map, in bytes. */
  const CHUNK := 3072

  /** `data` has been written at `off`; if it is empty, `off` may also lie beyond the file. */
  ghost predicate WrittenSoFar(a: State, b: State, i: nat, off: nat, data: seq<Byte>) {
    if data == [] then
      && |b.inodes| == |a.inodes|
      && (forall j :: 0 <= j < |a.inodes| && j != i ==> b.inodes[j] == a.inodes[j])
      && (forall j :: 0 <= j < |a.inodes| ==> Contents(b.disk, b.inodes[j]) == Contents(a.disk, a.inodes[j]))
    else FileWritten(a, b, i, off, data)
  }

  lemma OverwriteTwice(c: seq<Byte>, off: nat, x: seq<Byte>, y: seq<Byte>)
    requires off <= |c|
    ensures Overwrite(Overwrite(c, off, x), off + |x|, y) == Overwrite(c, off, x + y)
  {
  }

  lemma WrittenFirst(a: State, b: State, c: State, i: nat, off: nat, y: seq<Byte>)
    requires WrittenSoFar(a, b, i, off, []) && FileWritten(b, c, i, off, y)
    ensures WrittenSoFar(a, c, i, off, y)
  {
    var before := Contents(a.disk, a.inodes[i]);
    assert Contents(b.disk, b.inodes[i]) == before && |before| == a.inodes[i].size == b.inodes[i].size;
    if y == [] {
      assert Overwrite(before, off, y) == before;
    }
  }

  lemma WrittenTrans(a: State, b: State, c: State, i: nat, off: nat, x: seq<Byte>, y: seq<Byte>)
    requires WrittenSoFar(a, b, i, off, x) && FileWritten(b, c, i, off + |x|, y)
    ensures WrittenSoFar(a, c, i, off, x + y)
  {
    if x == [] {
      WrittenFirst(a, b, c, i, off, y);
      assert x + y == y;
    } else {
      assert |Contents(a.disk, a.inodes[i])| == a.inodes[i].size;
      OverwriteTwice(Contents(a.disk, a.inodes[i]), off, x, y);
    }
  }

  /** The first `k` bytes of `src` have been written. */
  ghost predicate Progress(a: State, b: State, i: nat, off: nat, src: seq<Byte>, k: nat) {
    k <= |src| && WrittenSoFar(a, b, i, off, src[..k])
  }

  lemma ProgressMore(a: State, b: State, c: State, i: nat, off: nat, src: seq<Byte>, k: nat, n: nat, r: nat, k': nat)
    requires Progress(a, b, i, off, src, k) && k + n <= |src| && r <= n && k' == k + r
    requires FileWritten(b, c, i, off + k, src[k..k + n][..r])
    ensures Progress(a, c, i, off, src, k')
  {
    var x, y := src[..k], src[k..k + n][..r];
    assert x + y == src[..k'] by { SliceMore(src, k, n, r); }
    WrittenTrans(a, b, c, i, off, x, y);
  }

  lemma SliceMore(src: seq<Byte>, k: nat, n: nat, r: nat)
    requires k + n <= |src| && r <= n
    ensures src[..k] + src[k..k + n][..r] == src[..k + r]
  {
  }

  lemma SizeAfter(a: State, b: State, i: nat, off: nat, data: seq<Byte>)
    requires WrittenSoFar(a, b, i, off, data) && i < |a.inodes|
    ensures i < |b.inodes|
    ensures data == [] ==> b.inodes[i].size == a.inodes[i].size
    ensures data != [] ==> off + |data| <= b.inodes[i].size
  {
    assert |Contents(b.disk, b.inodes[i])| == b.inodes[i].size;
    assert |Contents(a.disk, a.inodes[i])| == a.inodes[i].size;
  }

  /** The blocks of four consecutive slots and the indirect slot of one inode. */
  ghost function FiveSlots(d: Disk, ino: Inode, lo: nat): set<nat> {
    {Slot(d, ino, MAXFILE), Slot(d, ino, lo), Slot(d, ino, lo + 1), Slot(d, ino, lo + 2), Slot(d, ino, lo + 3)}
  }

  /** One chunk touches at most four data blocks. */
  lemma ChunkSpan(off: nat, n: nat)
    requires n <= CHUNK
    ensures LastBlock(off, n) <= off / BSIZE + 4
  {
  }

  lemma LoggedAmong(sb: Superblock, a: State, b: State, i: nat, off: nat, n: nat)
    requires Inv(sb, b.disk, b.inodes, b.owner, {}) && i < |b.inodes| && n <= CHUNK && sb.size <= BPB
    requires LoggedForWrite(sb, a, b, i, off, n) && a.logged == {}
    ensures b.logged <= FiveSlots(b.disk, b.inodes[i], off / BSIZE) + {sb.bmapstart, InodeBlock(sb, i)}
  {
    var lo := off / BSIZE;
    ChunkSpan(off, n);
    forall x | x in b.logged ensures x in FiveSlots(b.disk, b.inodes[i], lo) + {sb.bmapstart, InodeBlock(sb, i)} {
      if x in MapBlocks(sb) {
        assert x == sb.bmapstart;
      } else if x != InodeBlock(sb, i) {
        AmongSlots(sb, b, i, lo, LastBlock(off, n), x);
      }
    }
  }

  lemma AmongSlots(sb: Superblock, b: State, i: nat, lo: nat, hi: nat, x: nat)
    requires OwnersReal(sb, b.disk, b.inodes, b.owner) && i < |b.inodes|
    requires OwnedIn(b.owner, x, i, lo, hi) && hi <= lo + 4
    ensures x in FiveSlots(b.disk, b.inodes[i], lo)
  {
    assert Slot(b.disk, b.inodes[i], b.owner[x].slot) == x;
  }

  /** A chunk logs at most four data blocks, the indirect block, the free map and the inode. */
  lemma WriteFits(sb: Superblock, a: State, b: State, i: nat, off: nat, n: nat)
    requires Inv(sb, b.disk, b.inodes, b.owner, {}) && i < |b.inodes| && n <= CHUNK
    requires LoggedForWrite(sb, a, b, i, off, n) && a.logged == {}
    ensures sb.size <= BPB ==> |b.logged| <= 7
  {
    if sb.size <= BPB {
      LoggedAmong(sb, a, b, i, off, n);
      SevenSize(b.disk, b.inodes[i], off / BSIZE, sb.bmapstart, InodeBlock(sb, i));
      SubsetSize(b.logged, FiveSlots(b.disk, b.inodes[i], off / BSIZE) + {sb.bmapstart, InodeBlock(sb, i)});
    }
  }

  lemma SevenSize(d: Disk, ino: Inode, lo: nat, x: nat, y: nat)
    ensures |FiveSlots(d, ino, lo) + {x, y}| <= 7
  {
    FiveSize(Slot(d, ino, MAXFILE), Slot(d, ino, lo), Slot(d, ino, lo + 1), Slot(d, ino, lo + 2), Slot(d, ino, lo + 3));
  }

  lemma FiveSize(a: nat, b: nat, c: nat, d: nat, e: nat)
    ensures |{a, b, c, d, e}| <= 5
  {
  }

  lemma {:induction false} SubsetSize(xs: set<nat>, ys: set<nat>)
    requires xs <= ys
    ensures |xs| <= |ys|
  {
    if xs != {} {
      var x :| x in xs;
      SubsetSize(xs - {x}, ys - {x});
    }
  }

  /** The blocks that transactions may log: all behind the log. */
  ghost function Homes(sb: Superblock): set<nat> {
    set x: nat | x < sb.size && IsHome(sb, x)
  }

  predicate IsHome(sb: Superblock, x: nat) {
    sb.inodestart <= x < sb.size
  }

  /** From `a` a transaction leads to `b`: all that it has changed is logged, and no block of the log itself or before
      it is touched; the inodes on disk are those in memory if they were so before. */
  ghost predicate Transaction(sb: Superblock, a: State, b: State) {
    && Inv(sb, a.disk, a.inodes, a.owner, {}) && Inv(sb, b.disk, b.inodes, b.owner, {})
    && |b.inodes| == |a.inodes| && Ahead(a.(logged := {}), b, Homes(sb))
    && (Stored(sb, a.disk, a.inodes) ==> Stored(sb, b.disk, b.inodes))
    && (sb.size <= BPB ==> |b.logged| <= 7 <= MAXOPBLOCKS)
  }

  lemma WriteStaysHome(sb: Superblock, b: State, i: nat, lo: nat, hi: nat)
    requires Inv(sb, b.disk, b.inodes, b.owner, {}) && i < |b.inodes|
    ensures Region(sb, b.owner, i, lo, hi) + {InodeBlock(sb, i)} <= Homes(sb)
  {
    InodeBlockIsMeta(sb, b.inodes, i);
    forall x | x in MapBlocks(sb) ensures x in Homes(sb) {
      var c :| 0 <= c < sb.size && x == BitBlock(sb, c);
      BitBlockIsMeta(sb, c);
    }
  }

  /** A chunk written by `writei` is a transaction. */
  lemma WriteIsTransaction(sb: Superblock, a: State, b: State, i: nat, off: nat, n: nat)
    requires Inv(sb, a.disk, a.inodes, a.owner, {}) && Inv(sb, b.disk, b.inodes, b.owner, {})
    requires i < |b.inodes| && |b.inodes| == |a.inodes| && n <= CHUNK
    requires forall j :: 0 <= j < |a.inodes| && j != i ==> b.inodes[j] == a.inodes[j]
    requires LoggedForWrite(sb, a.(logged := {}), b, i, off, n)
    ensures Transaction(sb, a, b)
  {
    var here := a.(logged := {});
    WriteFits(sb, here, b, i, off, n);
    var may := Region(sb, b.owner, i, off / BSIZE, LastBlock(off, n)) + {InodeBlock(sb, i)};
    WriteStaysHome(sb, b, i, off / BSIZE, LastBlock(off, n));
    AheadTrans(here, here, b, {}, may, Homes(sb));
    if Stored(sb, a.disk, a.inodes) {
      forall j | 0 <= j < |b.inodes| ensures InodeOn(sb, b.disk, j) == b.inodes[j] {
        assert j != i ==> InodeOn(sb, a.disk, j) == a.inodes[j];
      }
    }
  }

  /** `hist` holds the states between transactions. */
  ghost predicate History(sb: Superblock, hist: seq<State>) {
    |hist| > 0 && forall t {:trigger hist[t]} :: 0 <= t < |hist| - 1 ==> Transaction(sb, hist[t], hist[t + 1])
  }

  lemma HistoryMore(sb: Superblock, hist: seq<State>, b: State)
    requires History(sb, hist) && Transaction(sb, hist[|hist| - 1], b)
    ensures History(sb, hist + [b])
  {
    var more := hist + [b];
    forall t {:trigger more[t]} | 0 <= t < |more| - 1 ensures Transaction(sb, more[t], more[t + 1]) {
      assert more[t] == hist[t];
      assert t < |hist| - 1 ==> more[t + 1] == hist[t + 1];
    }
  }

  /** After `t` transactions of a write, `t` whole chunks of `src` are written, or all that is written in the end. */
  ghost predicate Chunks(hist: seq<State>, i: nat, off: nat, src: seq<Byte>, done: nat) {
    |hist| > 0 && forall t {:trigger hist[t]} :: 0 <= t < |hist| ==>
      Progress(hist[0], hist[t], i, off, src, Min(t * CHUNK, done))
  }

  lemma NoChunks(sb: Superblock, a: State, i: nat, off: nat, src: seq<Byte>)
    ensures History(sb, [a]) && Chunks([a], i, off, src, 0) && Progress(a, a, i, off, src, 0)
  {
  }

  lemma ChunksMore(hist: seq<State>, b: State, i: nat, off: nat, src: seq<Byte>, k: nat, k': nat)
    requires Chunks(hist, i, off, src, k) && k == (|hist| - 1) * CHUNK && k <= k' <= k + CHUNK
    requires Progress(hist[0], b, i, off, src, k')
    ensures Chunks(hist + [b], i, off, src, k')
  {
    var more := hist + [b];
    forall t {:trigger more[t]} | 0 <= t < |more|
      ensures Progress(more[0], more[t], i, off, src, Min(t * CHUNK, k'))
    {
      assert t < |hist| ==> more[t] == hist[t] && Min(t * CHUNK, k') == Min(t * CHUNK, k);
    }
  }

  /** The indirect block counts as a block of every slot. */
  lemma IndirectThenEntry(sb: Superblock, a: State, b: State, c: State, i: nat, bn: nat)
    requires Grew(sb, a, b, i, MAXFILE, MAXFILE + 1) && bn < MAXFILE && Inv(sb, b.disk, b.inodes, b.owner, {})
    requires Grew(sb, b, c, i, bn, bn + 1) || c == b
    ensures Grew(sb, a, c, i, bn, bn + 1)
  {
    assert Region(sb, b.owner, i, MAXFILE, MAXFILE + 1) <= Region(sb, b.owner, i, MAXFILE, MAXFILE);
    assert Grew(sb, a, b, i, MAXFILE, MAXFILE);
    if c == b {
      RegionGrows(sb, b, b, i, MAXFILE, MAXFILE, bn, bn + 1);
    } else {
      GrewTrans(sb, a, b, c, i, MAXFILE, MAXFILE, bn, bn + 1);
    }
  }

  /** A chunk that `writei` has written is one more transaction, and so much more of the data. */
  lemma ChunkWritten(sb: Superblock, was: State, a: State, b: State, i: nat, off: nat, src: seq<Byte>, k: nat, n: nat,
                     r: nat, k': nat)
    requires Inv(sb, a.disk, a.inodes, a.owner, {}) && Inv(sb, b.disk, b.inodes, b.owner, {})
    requires Progress(was, a, i, off, src, k) && i < |was.inodes| && k + n <= |src| && n <= CHUNK
    requires r <= n && k' == k + r && FileWritten(a.(logged := {}), b, i, off + k, src[k..k + n][..r])
    requires LoggedForWrite(sb, a.(logged := {}), b, i, off + k, n)
    ensures Transaction(sb, a, b) && Progress(was, b, i, off, src, k')
    ensures r > 0 ==> off + k' <= b.inodes[i].size
  {
    assert FileWritten(a, b, i, off + k, src[k..k + n][..r]);
    WriteIsTransaction(sb, a, b, i, off + k, n);
    ProgressMore(was, a, b, i, off, src, k, n, r, k');
    SizeAfter(was, b, i, off, src[..k']);
  }

  /** The overflow test on unsigned offsets. */
  lemma WrapTest(off: nat, n: nat)
    requires off < UINT && n < UINT
    ensures (off + n) % UINT < off <==> off + n >= UINT
    ensures off + n < UINT ==> (off + n) % UINT == off + n
  {
  }

  class FileSystem {
    const sb: Superblock
    /** The disk as the buffer cache shows it. */
    var disk: Disk
    var inodes: seq<Inode>
    ghost var owner: Owners
    /** Block numbers passed to `log_write` since the transaction began. */
    ghost var logged: set<nat>

    ghost function Now(): State
      reads this
    {
      State(disk, inodes, owner, logged)
    }

    ghost predicate Valid()
      reads this
    {
      Inv(sb, disk, inodes, owner, {})
    }

    /** A file system mounted from an image in order, such as `mkfs` makes. */
    constructor (sb: Superblock, disk: Disk, inodes: seq<Inode>, ghost owner: Owners)
      requires Inv(sb, disk, inodes, owner, {})
      ensures Valid() && this.sb == sb && Now() == State(disk, inodes, owner, {})
    {
      this.sb := sb;
      this.disk, this.inodes, this.owner, this.logged := disk, inodes, owner, {};
    }

    method LogWrite(b: nat)
      modifies this`logged
      ensures logged == old(logged) + {b}
    {
      logged := logged + {b};
    }

    /** `balloc`: the lowest free block, marked and zeroed, or 0 when there is none. */
    method Balloc(ghost pending: set<nat>) returns (b: nat)
      requires Inv(sb, disk, inodes, owner, pending)
      modifies this`disk, this`logged
      ensures b == 0 ==> Full(sb, disk) && disk == old(disk) && logged == old(logged)
      ensures b != 0 ==>
        && b < sb.size && !InUse(sb, old(disk), b)
        && (forall c :: 0 <= c < b ==> InUse(sb, old(disk), c))
        && sb.nmeta <= b && b !in owner && b !in pending
        && BitBlock(sb, b) < |old(disk)| && BlockOk(old(disk)[BitBlock(sb, b)]) && b < |old(disk)|
        && disk == Allocated(sb, old(disk), b) && SameOwned(old(disk), disk, owner)
        && Inv(sb, disk, inodes, owner, pending + {b})
        && logged == old(logged) + {BitBlock(sb, b), b}
    {
      var base := 0;
      while base < sb.size
        invariant base % BPB == 0
        invariant forall c :: 0 <= c < base && c < sb.size ==> InUse(sb, disk, c)
        invariant disk == old(disk) && logged == old(logged)
      {
        var bi := 0;
        while bi < BPB && base + bi < sb.size
          invariant 0 <= bi <= BPB
          invariant forall c :: 0 <= c < base + bi && c < sb.size ==> InUse(sb, disk, c)
          invariant disk == old(disk) && logged == old(logged)
        {
          BitBlockIsMeta(sb, base + bi);
          if !InUse(sb, disk, base + bi) {
            b := base + bi;
            AllocKeepsInv(sb, disk, inodes, owner, pending, b);
            disk := MarkUsed(sb, disk, b);
            LogWrite(BitBlock(sb, b));
            Bzero(b);
            return;
          }
          bi := bi + 1;
        }
        base := base + BPB;
      }
      b := 0;
    }

    /** `bzero`. */
    method Bzero(b: nat)
      requires b < |disk|
      modifies this`disk, this`logged
      ensures disk == old(disk)[b := ZERO] && logged == old(logged) + {b}
    {
      disk := disk[b := ZERO];
      LogWrite(b);
    }

    /** `bfree` of an allocated block; freeing a free one is its panic. */
    method Bfree(b: nat)
      requires SbOk(sb) && DiskOk(sb, disk) && b < sb.size && InUse(sb, disk, b)
      modifies this`disk, this`logged
      ensures BitBlock(sb, b) < |disk| && BlockOk(old(disk)[BitBlock(sb, b)])
      ensures disk == MarkFree(sb, old(disk), b) && logged == old(logged) + {BitBlock(sb, b)}
    {
      BitBlockIsMeta(sb, b);
      disk := MarkFree(sb, disk, b);
      LogWrite(BitBlock(sb, b));
    }

    /** Allocates a block for an empty slot: the three places in `bmap` that call `balloc` and store
        its result, in `addrs`, as the indirect block, or in the indirect block. */
    method AllocSlot(i: nat, s: nat) returns (b: nat)
      requires Valid() && i < |inodes| && s <= MAXFILE && Slot(disk, inodes[i], s) == 0
      requires NDIRECT <= s < MAXFILE ==> Slot(disk, inodes[i], MAXFILE) != 0
      modifies this
      ensures Valid()
      ensures Grew(sb, old(Now()), Now(), i, s, s + 1)
      ensures b == 0 ==> Full(sb, disk) && Now() == old(Now())
      ensures b != 0 ==> Slot(disk, inodes[i], s) == b && b !in old(owner)
    {
      b := Balloc({});
      if b != 0 {
        ghost var d := disk;
        LinkAll(sb, old(Now()), d, i, s, b);
        StoreSlot(i, s, b);
        owner := owner[b := Place(i, s)];
        assert Now() == Linked(sb, old(Now()), d, i, s, b);
      }
    }

    /** The store into the inode or its indirect block. */
    method StoreSlot(i: nat, s: nat, b: nat)
      requires i < |inodes| && |inodes[i].addrs| == NDIRECT + 1 && s <= MAXFILE && b < UINT
      requires NDIRECT <= s < MAXFILE ==> inodes[i].addrs[NDIRECT] < |disk| && BlockOk(disk[inodes[i].addrs[NDIRECT]])
      modifies this`disk, this`inodes, this`logged
      ensures disk == LinkDisk(old(disk), old(inodes)[i], s, b)
      ensures inodes == old(inodes)[i := LinkInode(old(inodes)[i], s, b)]
      ensures logged == old(logged) + if NDIRECT <= s < MAXFILE then {old(inodes)[i].addrs[NDIRECT]} else {}
    {
      if s < NDIRECT {
        inodes := inodes[i := inodes[i].(addrs := inodes[i].addrs[s := b])];
      } else if s == MAXFILE {
        inodes := inodes[i := inodes[i].(addrs := inodes[i].addrs[NDIRECT := b])];
      } else {
        var ind := inodes[i].addrs[NDIRECT];
        disk := disk[ind := PutWord(disk[ind], s - NDIRECT, b)];
        LogWrite(ind);
        assert inodes[i := inodes[i]] == inodes;
      }
    }

    /** `bmap`: the address of data block `bn` of inode `i`, allocating what is missing. 0 means that
        the disk is full. No file changes a byte. */
    method Bmap(i: nat, bn: nat) returns (addr: nat)
      requires Valid() && i < |inodes| && bn < MAXFILE
      modifies this
      ensures Valid()
      ensures Grew(sb, old(Now()), Now(), i, bn, bn + 1)
      ensures addr != 0 ==> Slot(disk, inodes[i], bn) == addr
      ensures addr == 0 ==> Full(sb, disk)
      ensures old(Slot(disk, inodes[i], bn)) != 0 ==> addr != 0 && Now() == old(Now())
    {
      if bn < NDIRECT {
        addr := inodes[i].addrs[bn];
        if addr == 0 {
          addr := AllocSlot(i, bn);
        }
        return;
      }
      addr := inodes[i].addrs[NDIRECT];
      if addr == 0 {
        addr := AllocSlot(i, MAXFILE);
        if addr == 0 {
          return;
        }
      }
      assert Slot(disk, inodes[i], MAXFILE) == addr;
      addr := BmapEntry(old(Now()), i, bn);
    }

    /** The last step of `bmap`: the entry in the indirect block. */
    method BmapEntry(ghost was: State, i: nat, bn: nat) returns (addr: nat)
      requires Valid() && i < |inodes| && NDIRECT <= bn < MAXFILE && Slot(disk, inodes[i], MAXFILE) != 0
      requires Grew(sb, was, Now(), i, MAXFILE, MAXFILE + 1)
      modifies this
      ensures Valid() && Grew(sb, was, Now(), i, bn, bn + 1)
      ensures addr != 0 ==> Slot(disk, inodes[i], bn) == addr
      ensures addr == 0 ==> Full(sb, disk)
      ensures old(Slot(disk, inodes[i], bn)) != 0 ==> addr != 0 && Now() == old(Now())
    {
      ghost var mid := Now();
      var ind := inodes[i].addrs[NDIRECT];
      assert ind == Slot(disk, inodes[i], MAXFILE) && ind in owner;
      addr := Word(disk[ind], bn - NDIRECT);
      if addr == 0 {
        addr := AllocSlot(i, bn);
        IndirectThenEntry(sb, was, mid, Now(), i, bn);
      } else {
        IndirectThenEntry(sb, was, mid, mid, i, bn);
      }
    }

    /** `iupdate`: the inode goes to its place in its inode block. */
    method Iupdate(i: nat)
      requires Valid() && i < |inodes|
      modifies this`disk, this`logged
      ensures Valid() && InodeBlock(sb, i) < |old(disk)| && BlockOk(old(disk)[InodeBlock(sb, i)])
      ensures Now() == Updated(sb, old(Now()), i)
      ensures InodeWritten(sb, old(Now()), Now(), i)
    {
      UpdateKeeps(sb, Now(), i);
      disk := WithInode(sb, disk, i, inodes[i]);
      LogWrite(InodeBlock(sb, i));
    }

    /** The first loop of `itrunc`: the direct blocks are freed. */
    method TruncDirect(i: nat)
      requires Valid() && i < |inodes|
      modifies this
      ensures Valid() && Shrunk(sb, old(Now()), Now(), i)
      ensures inodes[i].size == old(inodes[i].size)
      ensures forall s :: 0 <= s < NDIRECT ==> inodes[i].addrs[s] == 0
    {
      var s := 0;
      while s < NDIRECT
        invariant 0 <= s <= NDIRECT
        invariant Valid() && Shrunk(sb, old(Now()), Now(), i)
        invariant inodes[i].size == old(inodes[i].size)
        invariant forall t :: 0 <= t < s ==> inodes[i].addrs[t] == 0
      {
        var a := inodes[i].addrs[s];
        if a != 0 {
          ghost var here := Now();
          FreeDirect(sb, here, i, s);
          Bfree(a);
          inodes := inodes[i := inodes[i].(addrs := inodes[i].addrs[s := 0])];
          owner := owner - {a};
          ShrunkTrans(sb, old(Now()), here, Now(), i);
        }
        s := s + 1;
      }
    }

    /** The second loop of `itrunc`: the blocks named by the indirect block are freed. */
    method FreeEntries(i: nat)
      requires Valid() && i < |inodes| && inodes[i].addrs[NDIRECT] != 0
      modifies this`disk, this`logged
      ensures Draining(sb, old(Now()), Now(), i, MAXFILE)
    {
      ghost var was := Now();
      DrainStart(sb, was, i);
      var ind := inodes[i].addrs[NDIRECT];
      var j := 0;
      while j < NINDIRECT
        invariant 0 <= j <= NINDIRECT
        invariant Draining(sb, was, Now(), i, NDIRECT + j)
      {
        FreeEntry(was, i, ind, j, NDIRECT + j);
        j := j + 1;
      }
    }

    /** One round of that loop. */
    method FreeEntry(ghost was: State, i: nat, ind: nat, j: nat, ghost k: nat)
      requires Draining(sb, was, Now(), i, k) && k == NDIRECT + j && j < NINDIRECT
      requires ind == was.inodes[i].addrs[NDIRECT] && ind != 0
      modifies this`disk, this`logged
      ensures Draining(sb, was, Now(), i, k + 1)
    {
      DrainStep(sb, was, Now(), i, k);
      var e := Word(disk[ind], j);
      if e != 0 {
        Bfree(e);
      }
    }

    /** The second half of `itrunc`: the blocks named by the indirect block, then that block. */
    method TruncIndirect(i: nat)
      requires Valid() && i < |inodes|
      modifies this
      ensures Valid() && Shrunk(sb, old(Now()), Now(), i)
      ensures inodes == Cut(old(inodes), i)
    {
      var ind := inodes[i].addrs[NDIRECT];
      if ind != 0 {
        FreeEntries(i);
        DrainStep(sb, old(Now()), Now(), i, MAXFILE);
        Bfree(ind);
        DrainEnd(sb, old(Now()), Now(), i);
        inodes := inodes[i := inodes[i].(addrs := inodes[i].addrs[NDIRECT := 0])];
        owner := owner - Rest(owner, i, NDIRECT);
      } else {
        assert inodes[i].addrs[NDIRECT := 0] == inodes[i].addrs;
      }
    }

    /** `itrunc`: the inode gives up every block, and only its blocks become free. */
    method Itrunc(i: nat)
      requires Valid() && i < |inodes|
      modifies this
      ensures Valid() && Truncated(sb, old(Now()), Now(), i)
    {
      TruncDirect(i);
      ghost var mid := Now();
      TruncIndirect(i);
      ShrunkTrans(sb, old(Now()), mid, Now(), i);
      ghost var done := Now();
      TruncEnds(sb, old(Now()), done, i);
      inodes := inodes[i := inodes[i].(size := 0)];
      assert Now() == done.(inodes := done.inodes[i := Inode(0, EMPTY)]);
      Iupdate(i);
    }

    /** One round of `readi`'s loop: `m` bytes from offset `q` on, inside one block. */
    method ReadChunk(i: nat, q: nat, m: nat) returns (ok: bool, piece: seq<Byte>)
      requires Valid() && i < |inodes| && q / BSIZE < MAXFILE && q % BSIZE + m <= BSIZE
      modifies this
      ensures Valid() && Grew(sb, old(Now()), Now(), i, 0, MAXFILE)
      ensures ok ==> piece == Window(disk, inodes[i], q, m) && Slot(disk, inodes[i], q / BSIZE) != 0
      ensures !ok ==> Full(sb, disk)
      ensures old(Slot(disk, inodes[i], q / BSIZE)) != 0 ==> ok && Now() == old(Now())
    {
      var addr := Bmap(i, q / BSIZE);
      GrewTrans(sb, old(Now()), Now(), Now(), i, q / BSIZE, q / BSIZE + 1, 0, MAXFILE);
      ok, piece := addr != 0, [];
      if ok {
        assert addr in owner;
        ChunkBytes(disk, inodes[i], q, m);
        piece := disk[addr].bytes[q % BSIZE..q % BSIZE + m];
      }
    }

    /** The same after the bytes `data` of the range. */
    method ReadRound(ghost was: State, i: nat, q: nat, m: nat, ghost off: nat, ghost want: nat, ghost data: seq<Byte>)
      returns (ok: bool, piece: seq<Byte>)
      requires Valid() && i < |inodes| && ReadSoFar(sb, was, Now(), i, off, want, data) && InodeOk(was.inodes[i])
      requires q == off + |data| && 0 < m && |data| + m <= want && q % BSIZE + m <= BSIZE
      modifies this
      ensures Valid() && i < |inodes|
      ensures ok ==> |piece| == m && ReadSoFar(sb, was, Now(), i, off, want, data + piece)
      ensures !ok ==> Full(sb, disk) && Grew(sb, was, Now(), i, 0, MAXFILE) && !NoHoles(was, i, off, want)
    {
      ghost var here := Now();
      ok, piece := ReadChunk(i, q, m);
      if ok {
        BytesMore(sb, was, here, Now(), i, off, want, data, q, piece);
        HolesMore(was, here, Now(), i, off, want, |data|, m, q);
      } else {
        GrewTrans(sb, was, here, Now(), i, 0, MAXFILE, 0, MAXFILE);
        NoHolesAt(was, i, off, want, |data|, m, q);
      }
    }

    /** The loop of `readi`, for a range inside the file. */
    method ReadLoop(i: nat, off: nat, want: nat, avail: nat) returns (tot: int, data: seq<Byte>)
      requires Valid() && i < |inodes| && off + want <= inodes[i].size
      modifies this
      ensures Valid() && DidRead(sb, old(Now()), Now(), i, off, want, avail, tot, data)
    {
      data, tot := [], 0;
      ghost var was := Now();
      while tot < want
        invariant 0 <= tot <= want && tot == |data| && i < |inodes|
        invariant Valid() && ReadSoFar(sb, was, Now(), i, off, want, data)
      {
        var q := off + tot;
        var m := Min(want - tot, BSIZE - q % BSIZE);
        var ok, piece := ReadRound(was, i, q, m, off, want, data);
        if !ok {
          return;
        }
        if tot + m > avail {
          tot := -1;
          return;
        }
        data := data + piece;
        tot := tot + m;
      }
    }

    /** `readi`: the bytes of [off, off + n) clipped to the file. `avail` bytes of the destination can
        be written; a copy beyond them fails as a whole. A read of a range without holes changes and logs
        nothing, and no other complete read does so. */
    method Readi(i: nat, off: nat, n: nat, avail: nat) returns (tot: int, data: seq<Byte>)
      requires Valid() && i < |inodes| && off < UINT && n < UINT
      modifies this
      ensures Valid() && Grew(sb, old(Now()), Now(), i, 0, MAXFILE)
      ensures off > old(inodes[i].size) || off + n >= UINT ==> tot == 0 && data == [] && Now() == old(Now())
      ensures off <= old(inodes[i].size) && off + n < UINT ==>
        var want := Min(n, old(inodes[i].size) - off);
        DidRead(sb, old(Now()), Now(), i, off, want, avail, tot, data)
    {
      WrapTest(off, n);
      if off > inodes[i].size || (off + n) % UINT < off {
        return 0, [];
      }
      var want := n;
      if (off + n) % UINT > inodes[i].size {
        want := inodes[i].size - off;
      }
      tot, data := ReadLoop(i, off, want, avail);
    }

    /** One round of `writei`'s loop: `piece` goes to offset `q` of the file, inside one block. The
        user copy fails as a whole when `copyOk` is false. */
    method WriteChunk(i: nat, q: nat, piece: seq<Byte>, copyOk: bool) returns (ok: bool)
      requires Valid() && i < |inodes| && q / BSIZE < MAXFILE && q % BSIZE + |piece| <= BSIZE
      modifies this
      ensures Valid()
      ensures Wrote(sb, old(Now()), Now(), i, q, if ok then piece else [], q / BSIZE, q / BSIZE + 1)
      ensures !ok ==> !copyOk || Full(sb, disk)
    {
      var addr := Bmap(i, q / BSIZE);
      ok := addr != 0 && copyOk;
      if ok {
        ghost var here := Now();
        assert addr in owner;
        PieceWritten(sb, here, i, q, piece);
        disk := disk[addr := Block(Spliced(disk[addr].bytes, q % BSIZE, piece))];
        LogWrite(addr);
        WroteAfterGrew(sb, old(Now()), here, Now(), i, q, piece);
      }
    }

    /** The loop of `writei`, for a range that fits in a file. */
    method WriteLoop(i: nat, off: nat, src: seq<Byte>, avail: nat) returns (tot: nat)
      requires Valid() && i < |inodes| && off + |src| <= MAXFILE * BSIZE
      modifies this
      ensures Valid() && WroteTo(sb, old(Now()), Now(), i, off, src, tot)
      ensures tot < |src| ==> Full(sb, disk) || avail < |src|
    {
      tot := 0;
      ghost var was := Now();
      while tot < |src|
        invariant Valid() && WroteTo(sb, was, Now(), i, off, src, tot)
      {
        var q := off + tot;
        var m := Min(|src| - tot, BSIZE - q % BSIZE);
        var ok := WriteRound(was, i, off, src, tot, q, m, tot + m <= avail);
        if !ok {
          break;
        }
        tot := tot + m;
      }
    }

    method WriteRound(ghost was: State, i: nat, off: nat, src: seq<Byte>, tot: nat, q: nat, m: nat, copyOk: bool)
      returns (ok: bool)
      requires off + |src| <= MAXFILE * BSIZE && 0 < m && tot + m <= |src| && q == off + tot && q % BSIZE + m <= BSIZE
      requires Valid() && WroteTo(sb, was, Now(), i, off, src, tot)
      modifies this
      ensures Valid() && WroteTo(sb, was, Now(), i, off, src, if ok then tot + m else tot)
      ensures !ok ==> !copyOk || Full(sb, disk)
    {
      ghost var here := Now();
      BlockInRange(off, tot, |src|);
      ok := WriteChunk(i, q, src[tot..tot + m], copyOk);
      WroteToMore(sb, was, here, Now(), i, off, src, tot, m, ok, q);
    }

    /** `writei`: returns -1 for a bad range; otherwise the first `tot` bytes of `src` replace or
        extend the file from `off` on, and no other file changes. Stopping short means that the disk
        is full or that the source could not be read. */
    method Writei(i: nat, off: nat, src: seq<Byte>, avail: nat) returns (tot: int)
      requires Valid() && i < |inodes| && off < UINT && |src| < UINT
      modifies this
      ensures Valid()
      ensures tot == -1 <==> off > old(inodes[i].size) || off + |src| >= UINT || off + |src| > MAXFILE * BSIZE
      ensures tot == -1 ==> Now() == old(Now())
      ensures tot != -1 ==>
        && 0 <= tot <= |src|
        && FileWritten(old(Now()), Now(), i, off, src[..tot])
        && (tot < |src| ==> Full(sb, disk) || avail < |src|)
        && LoggedForWrite(sb, old(Now()), Now(), i, off, |src|)
    {
      WrapTest(off, |src|);
      if off > inodes[i].size || (off + |src|) % UINT < off {
        return -1;
      }
      if (off + |src|) % UINT > MAXFILE * BSIZE {
        return -1;
      }
      tot := WriteLoop(i, off, src, avail);
      WriteLast(old(Now()), i, off, src, tot);
    }

    /** The end of `writei`: the size grows if need be, and the inode is stored. */
    method WriteLast(ghost was: State, i: nat, off: nat, src: seq<Byte>, tot: nat)
      requires Valid() && WroteTo(sb, was, Now(), i, off, src, tot)
      requires off <= was.inodes[i].size && off + |src| <= MAXFILE * BSIZE
      modifies this`disk, this`inodes, this`logged
      ensures Valid() && FileWritten(was, Now(), i, off, src[..tot]) && LoggedForWrite(sb, was, Now(), i, off, |src|)
      ensures Full(sb, old(disk)) ==> Full(sb, disk)
    {
      ghost var mid := Now();
      WriteEnds(sb, was, mid, i, off, src, tot);
      if off + tot > inodes[i].size {
        inodes := inodes[i := Resized(inodes[i], off + tot)];
      }
      assert Now() == Sized(mid, i, off + tot);
      Iupdate(i);
      assert forall c :: 0 <= c < sb.size ==> InUse(sb, disk, c) == InUse(sb, mid.disk, c);
    }

    /** `filewrite` on an inode: the bytes go out in chunks of at most CHUNK, each its own transaction.
        Success is one whole write; on failure the first `done` bytes have been written. `hist` holds the state
        before the first transaction and after each. */
    method Filewrite(i: nat, off: nat, src: seq<Byte>, avail: nat)
      returns (ret: int, off': nat, ghost done: nat, ghost hist: seq<State>)
      requires Valid() && i < |inodes| && off < UINT && |src| < 0x8000_0000
      modifies this
      ensures Valid()
      ensures ret == |src| || ret == -1
      ensures off' == off + done && done <= |src| && (ret == |src| ==> done == |src|)
      ensures Progress(old(Now()), Now(), i, off, src, done)
      ensures ret == -1 && off <= old(inodes[i].size) && off + |src| <= MAXFILE * BSIZE ==>
        Full(sb, disk) || avail < |src|
      ensures History(sb, hist) && hist[0] == old(Now()) && hist[|hist| - 1] == Now()
      ensures Chunks(hist, i, off, src, done)
    {
      off', done, hist := off, 0, [Now()];
      var k := 0;
      ghost var size := inodes[i].size;
      NoChunks(sb, Now(), i, off, src);
      while k < |src|
        invariant 0 <= k <= |src| && off' == off + k && done == k && i < |inodes|
        invariant WritingAt(hist, old(Now()), i, off, src, k) && (k == (|hist| - 1) * CHUNK || k == |src|)
        invariant if k == 0 then inodes[i].size == size else off + k <= inodes[i].size
      {
        var n1 := Min(|src| - k, CHUNK);
        var left := if avail < k then 0 else avail - k;
        var r;
        r, done, hist := FilewriteRound(hist, old(Now()), i, off, src, k, n1, left);
        if r > 0 {
          off' := off' + r;
        }
        if r != n1 {
          break;
        }
        k := k + r;
      }
      ret := if k == |src| then |src| else -1;
    }

    /** The transactions of `hist` have led here from `was`, and have written `k` bytes. */
    ghost predicate WritingAt(hist: seq<State>, was: State, i: nat, off: nat, src: seq<Byte>, k: nat)
      reads this
    {
      && Valid() && History(sb, hist) && hist[0] == was && hist[|hist| - 1] == Now()
      && Chunks(hist, i, off, src, k) && Progress(was, Now(), i, off, src, k)
    }

    /** One transaction of `filewrite`, after those of `hist`. */
    method FilewriteRound(ghost hist: seq<State>, ghost was: State, i: nat, off: nat, src: seq<Byte>, k: nat, n1: nat,
                          avail: nat)
      returns (r: int, ghost k': nat, ghost hist': seq<State>)
      requires 0 < n1 <= CHUNK && k + n1 <= |src| < 0x8000_0000 && off + k < UINT && k == (|hist| - 1) * CHUNK
      requires WritingAt(hist, was, i, off, src, k) && i < |inodes| && i < |was.inodes|
      modifies this
      ensures -1 <= r <= n1 && i < |inodes| && k' == (if r > 0 then k + r else k)
      ensures |hist'| == |hist| + 1 && WritingAt(hist', was, i, off, src, k')
      ensures r > 0 ==> off + k + r <= inodes[i].size
      ensures r == -1 <==> off + k > old(inodes[i].size) || off + k + n1 > MAXFILE * BSIZE
      ensures 0 <= r < n1 ==> Full(sb, disk) || avail < n1
    {
      r, k' := FilewriteChunk(was, i, off, src, k, n1, avail);
      HistoryMore(sb, hist, Now());
      ChunksMore(hist, Now(), i, off, src, k, k');
      hist' := hist + [Now()];
    }

    method FilewriteChunk(ghost was: State, i: nat, off: nat, src: seq<Byte>, k: nat, n1: nat, avail: nat)
      returns (r: int, ghost k': nat)
      requires 0 < n1 <= CHUNK && k + n1 <= |src| < 0x8000_0000 && off + k < UINT
      requires Valid() && Progress(was, Now(), i, off, src, k) && i < |inodes| && i < |was.inodes|
      modifies this
      ensures Valid() && -1 <= r <= n1 && i < |inodes| && Transaction(sb, old(Now()), Now())
      ensures k' == (if r > 0 then k + r else k) && Progress(was, Now(), i, off, src, k')
      ensures r > 0 ==> off + k + r <= inodes[i].size
      ensures r == -1 <==> off + k > old(inodes[i].size) || off + k + n1 > MAXFILE * BSIZE
      ensures 0 <= r < n1 ==> Full(sb, disk) || avail < n1
    {
      ghost var before := Now();
      logged := {};
      r := Writei(i, off + k, src[k..k + n1], avail);
      k' := if r > 0 then k + r else k;
      if r != -1 {
        ChunkWritten(sb, was, before, Now(), i, off, src, k, n1, r, k');
      }
    }
  }

  /** The state after block `b`, allocated on `d`, has been stored in slot `s`. */
  ghost function Linked(sb: Superblock, a: State, d: Disk, i: nat, s: nat, b: nat): State
    requires i < |a.inodes| && |a.inodes[i].addrs| == NDIRECT + 1
  {
    var ind := if NDIRECT <= s < MAXFILE then {a.inodes[i].addrs[NDIRECT]} else {};
    State(LinkDisk(d, a.inodes[i], s, b), a.inodes[i := LinkInode(a.inodes[i], s, b)],
          a.owner[b := Place(i, s)], a.logged + {BitBlock(sb, b), b} + ind)
  }

  /** Everything that allocation and linking change is logged. */
  lemma LinkedAhead(sb: Superblock, a: State, d: Disk, i: nat, s: nat, b: nat)
    requires i < |a.inodes| && |a.inodes[i].addrs| == NDIRECT + 1 && b < sb.size && s <= MAXFILE
    requires BitBlock(sb, b) < |a.disk| && BlockOk(a.disk[BitBlock(sb, b)]) && b < |a.disk|
    requires d == Allocated(sb, a.disk, b) && b !in a.owner
    requires var ind := a.inodes[i].addrs[NDIRECT];
             NDIRECT <= s < MAXFILE ==> ind in a.owner && a.owner[ind] == Place(i, MAXFILE)
    ensures Ahead(a, Linked(sb, a, d, i, s, b), Region(sb, a.owner[b := Place(i, s)], i, s, s + 1))
  {
    var z, may := Linked(sb, a, d, i, s, b), Region(sb, a.owner[b := Place(i, s)], i, s, s + 1);
    assert BitBlock(sb, b) in may && b in may;
    forall x | 0 <= x < |a.disk| && z.disk[x] != a.disk[x] ensures x in z.logged && x in may {
      assert x == BitBlock(sb, b) || x == b || (NDIRECT <= s < MAXFILE && x == a.inodes[i].addrs[NDIRECT]);
    }
  }

  /** Allocating a block and linking it, seen from the state `a` before the allocation. */
  lemma LinkAll(sb: Superblock, a: State, d: Disk, i: nat, s: nat, b: nat)
    requires Inv(sb, a.disk, a.inodes, a.owner, {}) && Inv(sb, d, a.inodes, a.owner, {b})
    requires SameOwned(a.disk, d, a.owner)
    requires BitBlock(sb, b) < |a.disk| && BlockOk(a.disk[BitBlock(sb, b)]) && b < |a.disk|
    requires d == Allocated(sb, a.disk, b)
    requires i < |a.inodes| && s <= MAXFILE && Slot(a.disk, a.inodes[i], s) == 0
    requires NDIRECT <= s < MAXFILE ==> Slot(a.disk, a.inodes[i], MAXFILE) != 0
    ensures |a.inodes[i].addrs| == NDIRECT + 1 && b < UINT
    ensures var z := Linked(sb, a, d, i, s, b);
            Inv(sb, z.disk, z.inodes, z.owner, {}) && Grew(sb, a, z, i, s, s + 1) && Slot(z.disk, z.inodes[i], s) == b
    ensures NDIRECT <= s < MAXFILE ==> a.inodes[i].addrs[NDIRECT] < |d| && BlockOk(d[a.inodes[i].addrs[NDIRECT]])
  {
    var inodes, owner := a.inodes, a.owner;
    SlotFrame(a.disk, d, inodes, owner, i);
    var ind := Slot(d, inodes[i], MAXFILE);
    assert ind != 0 ==> ind in owner && owner[ind] == Place(i, MAXFILE);
    var z := Linked(sb, a, d, i, s, b);
    assert Inv(sb, z.disk, z.inodes, z.owner, {}) by {
      LinkKeepsInv(sb, d, inodes, owner, {b}, i, s, b);
      assert {b} - {b} == {};
    }
    assert OnlyGrew(a, z, i) && Slot(z.disk, z.inodes[i], s) == b by { LinkSlots(sb, d, inodes, owner, {b}, i, s, b); }
    assert SameBytes(a, z) by { LinkedBytes(sb, a, d, i, s, b); }
    LinkedAhead(sb, a, d, i, s, b);
  }

  lemma LinkedBytes(sb: Superblock, a: State, d: Disk, i: nat, s: nat, b: nat)
    requires Inv(sb, a.disk, a.inodes, a.owner, {}) && Inv(sb, d, a.inodes, a.owner, {b})
    requires SameOwned(a.disk, d, a.owner) && CanLink(d, a.inodes, {b}, i, s, b)
    ensures |a.inodes[i].addrs| == NDIRECT + 1 && SameBytes(a, Linked(sb, a, d, i, s, b))
  {
    var z := Linked(sb, a, d, i, s, b);
    forall j, p | 0 <= j < |a.inodes| && 0 <= p
      ensures ByteAt(z.disk, z.inodes[j], p) == ByteAt(a.disk, a.inodes[j], p)
    {
      LinkKeepsBytes(sb, d, a.inodes, a.owner, {b}, i, s, b, j);
      ByteFrame(a.disk, d, a.inodes, a.owner, j);
    }
  }

  /** Inode `i` is empty, exactly its blocks have become free, and no other file has changed; only the free map and
      the block of the inode were touched, and are logged as far as they were. */
  ghost predicate Truncated(sb: Superblock, a: State, b: State, i: nat) {
    && i < |a.inodes| && b.inodes == a.inodes[i := Inode(0, EMPTY)]
    && (forall x {:trigger InUse(sb, b.disk, x)} :: 0 <= x < sb.size ==>
          (InUse(sb, b.disk, x) <==> InUse(sb, a.disk, x) && !(x in a.owner && a.owner[x].inum == i)))
    && (forall j :: 0 <= j < |a.inodes| && j != i ==>
          Contents(b.disk, b.inodes[j]) == Contents(a.disk, a.inodes[j]))
    && Ahead(a, b, MapBlocks(sb) + {InodeBlock(sb, i)}) && InodeWritten(sb, a, b, i)
  }

  /** Once inode `i` has no slot left, exactly its blocks have become free, and no other file has
      changed. */
  lemma TruncatedFrees(sb: Superblock, a: State, b: State, i: nat)
    requires Inv(sb, a.disk, a.inodes, a.owner, {}) && Inv(sb, b.disk, b.inodes, b.owner, {})
    requires Shrunk(sb, a, b, i) && i < |a.inodes| && b.inodes[i].addrs == EMPTY
    ensures forall x :: 0 <= x < sb.size ==>
              (InUse(sb, b.disk, x) <==> InUse(sb, a.disk, x) && !(x in a.owner && a.owner[x].inum == i))
    ensures forall j :: 0 <= j < |a.inodes| && j != i ==>
              Contents(b.disk, b.inodes[j]) == Contents(a.disk, a.inodes[j])
    ensures Inv(sb, b.disk, b.inodes[i := b.inodes[i].(size := 0)], b.owner, {})
  {
    assert SameOwned(a.disk, b.disk, a.owner);
    forall x | 0 <= x < sb.size
      ensures InUse(sb, b.disk, x) <==> InUse(sb, a.disk, x) && !(x in a.owner && a.owner[x].inum == i)
    {
      NothingOwned(sb, b, i, x);
    }
    forall j | 0 <= j < |a.inodes| && j != i
      ensures Contents(b.disk, b.inodes[j]) == Contents(a.disk, a.inodes[j])
    {
      ByteFrame(a.disk, b.disk, a.inodes, a.owner, j);
    }
    assert Inv(sb, b.disk, b.inodes[i := b.inodes[i].(size := 0)], b.owner, {}) by {
      ResizeKeepsInv(sb, b.disk, b.inodes, b.owner, {}, i, 0);
    }
  }

  /** An inode without addresses owns no block. */
  lemma NothingOwned(sb: Superblock, b: State, i: nat, x: nat)
    requires OwnersReal(sb, b.disk, b.inodes, b.owner) && 0 < sb.nmeta && i < |b.inodes| && b.inodes[i].addrs == EMPTY
    ensures !(x in b.owner && b.owner[x].inum == i)
  {
    assert forall t: nat :: Slot(b.disk, b.inodes[i], t) == 0;
  }

  lemma UpdatedLogs(sb: Superblock, a: State, b: State, i: nat)
    requires Inv(sb, b.disk, b.inodes, b.owner, {}) && i < |b.inodes| && Ahead(a, b, MapBlocks(sb))
    ensures InodeBlock(sb, i) < |b.disk| && BlockOk(b.disk[InodeBlock(sb, i)])
    ensures var z := Updated(sb, b, i);
            Ahead(a, z, MapBlocks(sb) + {InodeBlock(sb, i)}) && InodeWritten(sb, a, z, i)
  {
    UpdateKeeps(sb, b, i);
    var z := Updated(sb, b, i);
    AheadTrans(a, b, z, MapBlocks(sb), {InodeBlock(sb, i)}, MapBlocks(sb) + {InodeBlock(sb, i)});
    AheadTrans(a, a, b, {}, MapBlocks(sb), Region(sb, b.owner, i, 0, 0));
    InodesKept(sb, a, b, i, 0, 0, i);
    forall j | 0 <= j < |z.inodes|
      ensures InodeOn(sb, z.disk, j) == if j == i then z.inodes[i] else InodeOn(sb, a.disk, j)
    {
      InodesKept(sb, a, b, i, 0, 0, j);
    }
  }

  /** The end of `itrunc`: the size becomes 0 and the inode is stored. */
  lemma TruncEnds(sb: Superblock, a: State, b: State, i: nat)
    requires Inv(sb, a.disk, a.inodes, a.owner, {}) && Inv(sb, b.disk, b.inodes, b.owner, {})
    requires Shrunk(sb, a, b, i) && i < |a.inodes| && b.inodes[i].addrs == EMPTY
    ensures var s := b.(inodes := b.inodes[i := Inode(0, EMPTY)]);
            && Inv(sb, s.disk, s.inodes, s.owner, {})
            && InodeBlock(sb, i) < |s.disk| && BlockOk(s.disk[InodeBlock(sb, i)])
            && Truncated(sb, a, Updated(sb, s, i), i)
  {
    var s := b.(inodes := b.inodes[i := Inode(0, EMPTY)]);
    assert s.inodes == b.inodes[i := b.inodes[i].(size := 0)];
    TruncatedFrees(sb, a, b, i);
    assert Inv(sb, s.disk, s.inodes, s.owner, {});
    UpdateKeeps(sb, s, i);
    UpdatedLogs(sb, a, s, i);
    var z := Updated(sb, s, i);
    forall j | 0 <= j < |a.inodes| && j != i ensures Contents(z.disk, z.inodes[j]) == Contents(a.disk, a.inodes[j]) {
      SameContents(s, z, j);
    }
    forall x | 0 <= x < sb.size ensures InUse(sb, z.disk, x) <==> InUse(sb, b.disk, x) {
    }
  }
}

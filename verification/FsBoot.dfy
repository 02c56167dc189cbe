/** The file system on the log: what a crash in the middle of a `filewrite` leaves once the machine has booted again.
    Both sides see the same blocks, the log as words and the file system as bytes. */
module FsBoot {
  import D = Disk
  import opened Blocks
  import opened FsLayout
  import opened FsBlocks
  import opened FsCode
  import opened LogProtocol
  import opened LogTrace
  import opened LogCode
  import opened Params

  type Disk = FsBlocks.Disk

  type State = FsCode.State

  // ----- Blocks as words and as bytes -----

  function Words(b: Block): D.Block
    requires BlockOk(b)
  {
    D.Block(GetWords(b, 0, WORDS))
  }

  function Bytes(w: D.Block): (b: Block)
    ensures BlockOk(b)
  {
    if |w.words| == WORDS then PutWords(ZERO, 0, w.words) else ZERO
  }

  /** Nothing is lost between the two. */
  lemma BytesOfWords(b: Block)
    requires BlockOk(b)
    ensures Bytes(Words(b)) == b
  {
    var ws := GetWords(b, 0, WORDS);
    GetWordsFit(b, 0, WORDS);
    PutWordsReads(ZERO, 0, ws);
    forall j | 0 <= j < WORDS ensures Word(PutWords(ZERO, 0, ws), j) == Word(b, j) {
      GetWordsAt(b, 0, WORDS, j);
    }
    WordsDetermine(PutWords(ZERO, 0, ws), b);
  }

  /** The disk as the log sees it. */
  function Img(d: Disk): D.Image {
    map b: nat | b < |d| && BlockOk(d[b]) :: Words(d[b])
  }

  /** The first `n` blocks of an image, as the file system sees them. */
  function DiskOf(g: D.Image, n: nat): Disk {
    seq(n, b requires 0 <= b < n => Bytes(D.Read(g, b)))
  }

  lemma ReadsBack(g: D.Image, d: Disk, b: nat)
    requires b < |d| && BlockOk(d[b]) && D.Read(g, b) == D.Read(Img(d), b)
    ensures DiskOf(g, |d|)[b] == d[b]
  {
    BytesOfWords(d[b]);
  }

  function LogOf(sb: Superblock): Config {
    Config(sb.logstart, sb.nlog)
  }

  // ----- A crash among transactions -----

  /** When the transaction that ends in `b` commits, the cache shows `view` and the log lists `lh`: the blocks of the
      file system, and every block it logged, in some order. */
  ghost predicate Commits(sb: Superblock, b: State, view: D.Image, lh: seq<nat>) {
    && SameHome(LogOf(sb), view, Img(b.disk)) && Distinct(lh) && (forall x :: x in lh <==> x in b.logged)
    && |lh| <= LOGSIZE && |lh| < sb.nlog
  }

  lemma {:induction false} Listing(xs: set<nat>) returns (lh: seq<nat>)
    ensures Distinct(lh) && |lh| == |xs| && forall x :: x in lh <==> x in xs
  {
    if xs == {} {
      lh := [];
    } else {
      var x :| x in xs;
      var rest := Listing(xs - {x});
      lh := rest + [x];
    }
  }

  /** Every transaction of a `filewrite` can commit: where the free map is one block, it fits into any log of eight
      blocks. */
  lemma ChunkCommits(sb: Superblock, a: State, b: State) returns (lh: seq<nat>)
    requires Transaction(sb, a, b) && sb.size <= BPB && 8 <= sb.nlog
    ensures Commits(sb, b, Img(b.disk), lh)
  {
    lh := Listing(b.logged);
  }

  /** The commits of the transactions of `hist`. */
  ghost predicate AllCommit(sb: Superblock, hist: seq<State>, views: seq<D.Image>, lhs: seq<seq<nat>>) {
    && |views| == |lhs| == |hist| - 1
    && forall t {:trigger lhs[t]} :: 0 <= t < |lhs| ==> Commits(sb, hist[t + 1], views[t], lhs[t])
  }

  /** The block writes of one commit after the other. */
  function Traces(c: Config, views: seq<D.Image>, lhs: seq<seq<nat>>): seq<D.Write>
    requires |views| == |lhs| && forall t :: 0 <= t < |lhs| ==> |lhs[t]| <= LOGSIZE
    decreases |lhs|
  {
    if lhs == [] then [] else CommitTrace(c, views[0], lhs[0]) + Traces(c, views[1..], lhs[1..])
  }

  function TraceLength(lh: seq<nat>): nat {
    if lh == [] then 0 else 2 * |lh| + 2
  }

  /** How many transactions have committed after `k` writes: those whose header has been written. */
  function Committed(lhs: seq<seq<nat>>, k: nat): (m: nat)
    ensures m <= |lhs|
    decreases |lhs|
  {
    if lhs == [] then 0
    else if k < TraceLength(lhs[0]) then if k <= |lhs[0]| then 0 else 1
    else 1 + Committed(lhs[1..], k - TraceLength(lhs[0]))
  }

  /** The log is empty and the home blocks are those of `a`. */
  ghost predicate OnDisk(sb: Superblock, a: State, d: D.Image) {
    var c := LogOf(sb);
    SameHome(c, d, Img(a.disk)) && HeadOk(D.Read(d, c.start)) && HeadList(D.Read(d, c.start)) == []
  }

  /** A transaction commits as the log asks. */
  lemma TransactionCommits(sb: Superblock, a: State, b: State, view: D.Image, lh: seq<nat>, d: D.Image)
    requires Transaction(sb, a, b) && Commits(sb, b, view, lh) && OnDisk(sb, a, d)
    ensures CommitStarts(LogOf(sb), d, view, lh)
  {
    var c := LogOf(sb);
    forall i | 0 <= i < |lh| ensures !InLog(c, lh[i]) {
      assert lh[i] in b.logged && lh[i] in Homes(sb);
    }
    forall x: nat | Untouched(c, lh, x) ensures D.Read(d, x) == D.Read(view, x) {
      assert x !in b.logged;
      assert x < |a.disk| ==> b.disk[x] == a.disk[x];
      assert D.Read(Img(a.disk), x) == D.Read(Img(b.disk), x);
    }
  }

  /** Cut after `k` writes, recovered with interruptions `ks` and then to the end, the disk holds the blocks of `s`. */
  ghost predicate RecoversTo(sb: Superblock, d: D.Image, ws: seq<D.Write>, k: nat, ks: seq<nat>, s: State) {
    k <= |ws| &&
    var c := LogOf(sb);
    var crashed := D.Apply(d, ws[..k]);
    && Interrupted(c, crashed, ks).Some?
    && Recovered(c, Interrupted(c, crashed, ks).value).Some?
    && SameHome(c, Recovered(c, Interrupted(c, crashed, ks).value).value, Img(s.disk))
  }

  lemma CrashInCommit(sb: Superblock, a: State, b: State, view: D.Image, lh: seq<nat>, d: D.Image, k: nat, ks: seq<nat>)
    requires Transaction(sb, a, b) && Commits(sb, b, view, lh) && OnDisk(sb, a, d)
    requires k <= |CommitTrace(LogOf(sb), view, lh)|
    ensures RecoversTo(sb, d, CommitTrace(LogOf(sb), view, lh), k, ks, if k <= |lh| then a else b)
  {
    TransactionCommits(sb, a, b, view, lh, d);
    CrashAtomicity(LogOf(sb), d, view, lh, k, ks);
  }

  lemma CommitLands(sb: Superblock, a: State, b: State, view: D.Image, lh: seq<nat>, d: D.Image)
    requires Transaction(sb, a, b) && Commits(sb, b, view, lh) && OnDisk(sb, a, d)
    ensures OnDisk(sb, b, D.Apply(d, CommitTrace(LogOf(sb), view, lh)))
  {
    TransactionCommits(sb, a, b, view, lh, d);
    CommitWhole(LogOf(sb), d, view, lh);
  }

  lemma CrashLater(sb: Superblock, d: D.Image, xs: seq<D.Write>, ys: seq<D.Write>, k: nat, ks: seq<nat>, s: State)
    requires |xs| <= k && RecoversTo(sb, D.Apply(d, xs), ys, k - |xs|, ks, s)
    ensures RecoversTo(sb, d, xs + ys, k, ks, s)
  {
    D.ApplyConcat(d, xs, ys[..k - |xs|]);
    assert (xs + ys)[..k] == xs + ys[..k - |xs|];
  }

  lemma CrashEarlier(sb: Superblock, d: D.Image, xs: seq<D.Write>, ys: seq<D.Write>, k: nat, ks: seq<nat>, s: State)
    requires k <= |xs| && RecoversTo(sb, d, xs, k, ks, s)
    ensures RecoversTo(sb, d, xs + ys, k, ks, s)
  {
    assert (xs + ys)[..k] == xs[..k];
  }

  lemma NoCrash(sb: Superblock, a: State, d: D.Image, ks: seq<nat>)
    requires 1 <= sb.nlog && OnDisk(sb, a, d)
    ensures RecoversTo(sb, d, [], 0, ks, a)
  {
    var c := LogOf(sb);
    assert Recoverable(c, d, d);
    InterruptedKeepsRecoverable(c, d, d, ks);
    RecoverWhole(c, Interrupted(c, d, ks).value, d);
  }

  /** After the first transaction the others remain. */
  lemma FirstDone(sb: Superblock, hist: seq<State>, views: seq<D.Image>, lhs: seq<seq<nat>>)
    requires History(sb, hist) && AllCommit(sb, hist, views, lhs) && lhs != []
    ensures Transaction(sb, hist[0], hist[1]) && Commits(sb, hist[1], views[0], lhs[0])
    ensures History(sb, hist[1..]) && AllCommit(sb, hist[1..], views[1..], lhs[1..])
  {
    var hist', views', lhs' := hist[1..], views[1..], lhs[1..];
    assert Commits(sb, hist[1], views[0], lhs[0]);
    forall t {:trigger hist'[t]} | 0 <= t < |hist'| - 1 ensures Transaction(sb, hist'[t], hist'[t + 1]) {
      assert hist'[t] == hist[t + 1];
    }
    forall t {:trigger lhs'[t]} | 0 <= t < |lhs'| ensures Commits(sb, hist'[t + 1], views'[t], lhs'[t]) {
      assert lhs'[t] == lhs[t + 1];
    }
  }

  lemma TraceLengthIs(c: Config, view: D.Image, lh: seq<nat>)
    requires |lh| <= LOGSIZE
    ensures |CommitTrace(c, view, lh)| == TraceLength(lh)
  {
  }

  /** From disk `d`, the transactions of `hist` commit in turn, and `k` of their writes are made. */
  ghost predicate CutShort(sb: Superblock, hist: seq<State>, views: seq<D.Image>, lhs: seq<seq<nat>>, d: D.Image,
                           k: nat) {
    && 1 <= sb.nlog && History(sb, hist) && AllCommit(sb, hist, views, lhs) && OnDisk(sb, hist[0], d)
    && k <= |Traces(LogOf(sb), views, lhs)|
  }

  lemma CrashInFirst(sb: Superblock, hist: seq<State>, views: seq<D.Image>, lhs: seq<seq<nat>>, d: D.Image, k: nat,
                     ks: seq<nat>)
    requires CutShort(sb, hist, views, lhs, d, k) && lhs != [] && k < TraceLength(lhs[0])
    ensures RecoversTo(sb, d, Traces(LogOf(sb), views, lhs), k, ks, hist[if k <= |lhs[0]| then 0 else 1])
  {
    var c := LogOf(sb);
    FirstDone(sb, hist, views, lhs);
    TraceLengthIs(c, views[0], lhs[0]);
    CrashInCommit(sb, hist[0], hist[1], views[0], lhs[0], d, k, ks);
    CrashEarlier(sb, d, CommitTrace(c, views[0], lhs[0]), Traces(c, views[1..], lhs[1..]), k, ks,
                 if k <= |lhs[0]| then hist[0] else hist[1]);
  }

  lemma PastFirst(sb: Superblock, hist: seq<State>, views: seq<D.Image>, lhs: seq<seq<nat>>, d: D.Image, k: nat,
                  k': nat)
    requires CutShort(sb, hist, views, lhs, d, k) && lhs != [] && k == TraceLength(lhs[0]) + k'
    ensures CutShort(sb, hist[1..], views[1..], lhs[1..], D.Apply(d, CommitTrace(LogOf(sb), views[0], lhs[0])), k')
  {
    FirstDone(sb, hist, views, lhs);
    CommitLands(sb, hist[0], hist[1], views[0], lhs[0], d);
    TraceLengthIs(LogOf(sb), views[0], lhs[0]);
  }

  lemma CrashPastFirst(sb: Superblock, views: seq<D.Image>, lhs: seq<seq<nat>>, d: D.Image, k: nat, k': nat,
                       ks: seq<nat>, s: State)
    requires |views| == |lhs| && lhs != [] && (forall t :: 0 <= t < |lhs| ==> |lhs[t]| <= LOGSIZE)
    requires k == TraceLength(lhs[0]) + k'
    requires RecoversTo(sb, D.Apply(d, CommitTrace(LogOf(sb), views[0], lhs[0])),
                        Traces(LogOf(sb), views[1..], lhs[1..]), k', ks, s)
    ensures RecoversTo(sb, d, Traces(LogOf(sb), views, lhs), k, ks, s)
  {
    var c := LogOf(sb);
    TraceLengthIs(c, views[0], lhs[0]);
    CrashLater(sb, d, CommitTrace(c, views[0], lhs[0]), Traces(c, views[1..], lhs[1..]), k, ks, s);
  }

  lemma CommittedLater(hist: seq<State>, lhs: seq<seq<nat>>, k: nat, k': nat)
    requires |hist| == |lhs| + 1 && lhs != [] && k == TraceLength(lhs[0]) + k'
    ensures hist[Committed(lhs, k)] == hist[1..][Committed(lhs[1..], k')]
  {
  }

  /** A crash at any write of any sequence of transactions, followed by any number of interrupted recoveries and a
      complete one, leaves the blocks as they were after a whole number of transactions: those whose header was
      written. */
  lemma {:induction false} CrashAmongTransactions(sb: Superblock, hist: seq<State>, views: seq<D.Image>,
                                                  lhs: seq<seq<nat>>, d: D.Image, k: nat, ks: seq<nat>)
    requires CutShort(sb, hist, views, lhs, d, k)
    ensures RecoversTo(sb, d, Traces(LogOf(sb), views, lhs), k, ks, hist[Committed(lhs, k)])
    decreases |lhs|
  {
    if lhs == [] {
      NoCrash(sb, hist[0], d, ks);
    } else if k < TraceLength(lhs[0]) {
      CrashInFirst(sb, hist, views, lhs, d, k, ks);
    } else {
      var k' := k - TraceLength(lhs[0]);
      var d' := D.Apply(d, CommitTrace(LogOf(sb), views[0], lhs[0]));
      PastFirst(sb, hist, views, lhs, d, k, k');
      CrashAmongTransactions(sb, hist[1..], views[1..], lhs[1..], d', k', ks);
      CommittedLater(hist, lhs, k, k');
      CrashPastFirst(sb, views, lhs, d, k, k', ks, hist[1..][Committed(lhs[1..], k')]);
    }
  }

  // ----- Booting -----

  /** The file system that a kernel finds on the recovered image `g`, with `n` inodes. */
  ghost function Booted(sb: Superblock, g: D.Image, n: nat, owner: Owners): State {
    var d := DiskOf(g, sb.size);
    FsCode.State.State(d, seq(n, i requires 0 <= i < n => InodeOn(sb, d, i)), owner, {})
  }

  /** Block ownership is exact and the disk has the same inodes as memory. */
  ghost predicate InOrder(sb: Superblock, s: State) {
    FsBlocks.Inv(sb, s.disk, s.inodes, s.owner, {}) && Stored(sb, s.disk, s.inodes)
  }

  /** `b` is in order and has the inodes and files of `s`. */
  ghost predicate SameFiles(sb: Superblock, s: State, b: State) {
    && InOrder(sb, b) && b.inodes == s.inodes
    && forall j :: 0 <= j < |s.inodes| ==> Contents(b.disk, b.inodes[j]) == Contents(s.disk, s.inodes[j])
  }

  lemma HomeBlocksBack(sb: Superblock, g: D.Image, s: State, x: nat)
    requires DiskOk(sb, s.disk) && SameHome(LogOf(sb), g, Img(s.disk)) && x < sb.size && !InLog(LogOf(sb), x)
    ensures DiskOf(g, sb.size)[x] == s.disk[x]
  {
    ReadsBack(g, s.disk, x);
  }

  /** Ownership only depends on blocks outside the log. */
  lemma BootKeepsInv(sb: Superblock, g: D.Image, s: State, d: Disk)
    requires FsBlocks.Inv(sb, s.disk, s.inodes, s.owner, {})
    requires SameHome(LogOf(sb), g, Img(s.disk)) && d == DiskOf(g, sb.size)
    ensures FsBlocks.Inv(sb, d, s.inodes, s.owner, {}) && SameOwned(s.disk, d, s.owner)
  {
    forall x: nat | x in s.owner ensures d[x] == s.disk[x] {
      HomeBlocksBack(sb, g, s, x);
    }
    FrameKeepsSlots(sb, s.disk, d, s.inodes, s.owner);
    forall x: nat | x < sb.size ensures InUse(sb, d, x) == InUse(sb, s.disk, x) {
      BitBlockIsMeta(sb, x);
      HomeBlocksBack(sb, g, s, BitBlock(sb, x));
    }
  }

  /** An image that holds the blocks of `s` outside the log boots to the files of `s`. */
  lemma BootFinds(sb: Superblock, g: D.Image, s: State)
    requires InOrder(sb, s) && SameHome(LogOf(sb), g, Img(s.disk))
    ensures SameFiles(sb, s, Booted(sb, g, |s.inodes|, s.owner))
  {
    var d := DiskOf(g, sb.size);
    BootKeepsInv(sb, g, s, d);
    forall j | 0 <= j < |s.inodes| ensures InodeOn(sb, d, j) == s.inodes[j] {
      InodeBlockIsMeta(sb, s.inodes, j);
      HomeBlocksBack(sb, g, s, InodeBlock(sb, j));
      assert InodeOn(sb, s.disk, j) == s.inodes[j];
    }
    assert Booted(sb, g, |s.inodes|, s.owner).inodes == s.inodes;
    forall j | 0 <= j < |s.inodes| ensures Contents(d, s.inodes[j]) == Contents(s.disk, s.inodes[j]) {
      ByteFrame(s.disk, d, s.inodes, s.owner, j);
    }
  }

  lemma TransactionKeeps(sb: Superblock, a: State, b: State)
    requires Transaction(sb, a, b) && InOrder(sb, a)
    ensures InOrder(sb, b) && |b.inodes| == |a.inodes|
  {
  }

  lemma {:induction false} HistoryKeeps(sb: Superblock, hist: seq<State>, m: nat)
    requires History(sb, hist) && m < |hist| && InOrder(sb, hist[0])
    ensures InOrder(sb, hist[m]) && |hist[m].inodes| == |hist[0].inodes|
  {
    if m > 0 {
      var b := hist[m];
      HistoryKeeps(sb, hist, m - 1);
      TransactionKeeps(sb, hist[m - 1], b);
    }
  }

  lemma ProgressFound(sb: Superblock, a: State, s: State, b: State, i: nat, off: nat, src: seq<Byte>, k: nat)
    requires Progress(a, s, i, off, src, k) && SameFiles(sb, s, b)
    ensures Progress(a, b, i, off, src, k)
  {
  }

  /** What a machine finds that boots after a crash in the middle of a `filewrite`, whatever write it was cut at and
      however often recovery was interrupted: every file as before the call, except that the first `t` chunks of the
      data are in the file, `t` being the number of transactions whose header was written. */
  lemma FilewriteCrash(sb: Superblock, hist: seq<State>, i: nat, off: nat, src: seq<Byte>, done: nat,
                       views: seq<D.Image>, lhs: seq<seq<nat>>, d: D.Image, k: nat, ks: seq<nat>)
      returns (g: D.Image, b: State)
    requires CutShort(sb, hist, views, lhs, d, k) && Chunks(hist, i, off, src, done) && InOrder(sb, hist[0])
    ensures var c := LogOf(sb);
            var mid := Interrupted(c, D.Apply(d, Traces(c, views, lhs)[..k]), ks);
            mid.Some? && Recovered(c, mid.value) == Some(g)
    ensures var t := Committed(lhs, k);
            && t < |hist| && b == Booted(sb, g, |hist[0].inodes|, hist[t].owner) && InOrder(sb, b)
            && Progress(hist[0], b, i, off, src, Min(t * CHUNK, done))
  {
    var c, t := LogOf(sb), Committed(lhs, k);
    CrashAmongTransactions(sb, hist, views, lhs, d, k, ks);
    g := Recovered(c, Interrupted(c, D.Apply(d, Traces(c, views, lhs)[..k]), ks).value).value;
    HistoryKeeps(sb, hist, t);
    BootFinds(sb, g, hist[t]);
    b := Booted(sb, g, |hist[0].inodes|, hist[t].owner);
    assert Progress(hist[0], hist[t], i, off, src, Min(t * CHUNK, done));
    ProgressFound(sb, hist[0], hist[t], b, i, off, src, Min(t * CHUNK, done));
  }

  // ----- fsinit -----

  const FSMAGIC := 0x10203040

  /** The fields of the superblock, in their order on disk. */
  function SuperWords(sb: Superblock): seq<nat>
    requires sb.nmeta <= sb.size
  {
    [FSMAGIC, sb.size, sb.size - sb.nmeta, sb.ninodes, sb.nlog, sb.logstart, sb.inodestart, sb.bmapstart]
  }

  function SuperBlock(sb: Superblock): (b: Block)
    requires sb.nmeta <= sb.size
    ensures BlockOk(b)
  {
    PutWords(ZERO, 0, SuperWords(sb))
  }

  /** `readsb`. */
  function ReadSuper(b: Block): Superblock
    requires BlockOk(b)
  {
    var nmeta := if Word(b, 2) <= Word(b, 1) then Word(b, 1) - Word(b, 2) else 0;
    Superblock(Word(b, 1), nmeta, Word(b, 3), Word(b, 4), Word(b, 5), Word(b, 6), Word(b, 7))
  }

  lemma SuperRoundTrip(sb: Superblock)
    requires SbOk(sb) && sb.ninodes < UINT
    ensures Word(SuperBlock(sb), 0) == FSMAGIC && ReadSuper(SuperBlock(sb)) == sb
  {
    PutWordsReads(ZERO, 0, SuperWords(sb));
  }

  /** The inodes that there is room for. */
  function InodeCount(sb: Superblock): nat
    requires sb.inodestart <= sb.bmapstart
  {
    IPB * (sb.bmapstart - sb.inodestart)
  }

  /** Replaying the log of `img` gives the blocks of `s`. */
  ghost predicate Bootable(sb: Superblock, img: D.Image, s: State) {
    && InOrder(sb, s) && |s.inodes| == InodeCount(sb)
    && 1 <= sb.nlog && Recoverable(LogOf(sb), img, Img(s.disk))
  }

  /** Block `b` of the image of `d`. */
  function BlockAt(d: Disk, b: nat): D.Block {
    D.Read(Img(d), b)
  }

  /** A log that begins with a zero block is empty. */
  lemma ZeroHeader(d: Disk, sb: Superblock)
    requires sb.logstart < |d| && d[sb.logstart] == ZERO && 1 <= sb.nlog
    ensures Recoverable(LogOf(sb), Img(d), Img(d))
  {
    ZeroWords(0);
    GetWordsAt(ZERO, 0, WORDS, 0);
    assert HeadList(D.Read(Img(d), sb.logstart)) == [];
  }

  /** `fsinit`, with the recovery that it starts, and the inodes as `ilock` will read them. A wrong magic number is
      its panic, `null` here. */
  method Fsinit(img: D.Image, ghost s: State) returns (fs: FileSystem?)
    requires Word(Bytes(D.Read(img, 1)), 0) == FSMAGIC ==> Bootable(ReadSuper(Bytes(D.Read(img, 1))), img, s)
    ensures fs == null <==> Word(Bytes(D.Read(img, 1)), 0) != FSMAGIC
    ensures fs != null ==> fresh(fs) && fs.sb == ReadSuper(Bytes(D.Read(img, 1)))
    ensures fs != null ==> fs.Valid() && fs.logged == {} && SameFiles(fs.sb, s, fs.Now())
  {
    var b := Bytes(D.Read(img, 1));
    if Word(b, 0) != FSMAGIC {
      return null;
    }
    var sb := ReadSuper(b);
    var log := new Log(LogOf(sb), img);
    log.RecoverFromLog(Img(s.disk));
    var d := DiskOf(log.disk, sb.size);
    var inodes := seq(InodeCount(sb), i requires 0 <= i < InodeCount(sb) => InodeOn(sb, d, i));
    BootFinds(sb, log.disk, s);
    assert Booted(sb, log.disk, |s.inodes|, s.owner) == FsCode.State.State(d, inodes, s.owner, {});
    fs := new FileSystem(sb, d, inodes, s.owner);
  }
}

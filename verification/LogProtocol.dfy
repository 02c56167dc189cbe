/** Group commit and crash recovery of the redo log, as a state machine over single steps.
    Any number of operations run between `begin_op` and `end_op`; every disk write of commit and
    of recovery is a step of its own, and the machine may crash between any two steps. */
module LogProtocol {
  import opened Disk
  import opened Params

  /** Where the log lies on disk: its header block, then the log blocks. */
  datatype Config = Config(start: nat, size: nat)

  ghost predicate ConfigOk(c: Config) {
    1 <= c.size
  }

  predicate InLog(c: Config, b: nat) {
    c.start <= b < c.start + c.size
  }

  // ----- The header block -----

  /** `write_head`: the in-memory header over the first words of the old header block. */
  function HeadBlock(prev: Block, lh: seq<nat>): Block
    requires |lh| <= LOGSIZE
  {
    var n := 1 + |lh|;
    Block([|lh|] + lh + if n <= |prev.words| then prev.words[n..] else [])
  }

  predicate HeadOk(hb: Block) {
    0 < |hb.words| && hb.words[0] <= LOGSIZE && hb.words[0] < |hb.words|
  }

  /** `read_head`. */
  function HeadList(hb: Block): seq<nat>
    requires HeadOk(hb)
  {
    hb.words[1..1 + hb.words[0]]
  }

  lemma HeadRoundTrip(prev: Block, lh: seq<nat>)
    requires |lh| <= LOGSIZE
    ensures HeadOk(HeadBlock(prev, lh)) && HeadList(HeadBlock(prev, lh)) == lh
  {
  }

  // ----- States and steps -----

  /** What the log code is doing. `WriteLog`..`Done` are the steps of `commit`,
      `Boot` and `Replay` those of `recover_from_log`. */
  datatype Phase =
    | Boot
    | Replay(tail: nat)
    | Idle
    | WriteLog(tail: nat)
    | WriteHead
    | Install(tail: nat)
    | Clear
    | Done

  /** `view` is the disk as `bread` shows it, cached blocks hiding those on disk; `lh` holds the logged
      block numbers, `ops` the blocks each outstanding operation has logged so far. `durable` remembers
      the cached view at the last completed commit point. */
  datatype State = State(
    disk: Image,
    view: Image,
    lh: seq<nat>,
    ops: map<nat, set<nat>>,
    outstanding: int,
    committing: bool,
    phase: Phase,
    durable: Image
  )

  /** `bwrite`: the buffer's new contents go to the cache and to the disk. */
  function Bwrite(s: State, w: Write): State {
    s.(disk := Put(s.disk, w), view := Put(s.view, w))
  }

  datatype Event =
    | Begin(p: nat)
    | LogWrite(p: nat, b: nat, data: Block)
    | End(p: nat)
    | Commit
    | Recover
    | Evict(b: nat)
    | Crash

  predicate Mounted(s: State) {
    !s.phase.Boot? && !s.phase.Replay?
  }

  predicate InCommit(s: State) {
    s.phase.WriteLog? || s.phase.WriteHead? || s.phase.Install? || s.phase.Clear? || s.phase.Done?
  }

  /** The guard of the panic in `log_write`; it is tested before absorption. */
  predicate LogWritePanics(c: Config, s: State) {
    |s.lh| >= LOGSIZE || |s.lh| >= c.size - 1 || s.outstanding < 1
  }

  /** Logged blocks are pinned in the cache until `install_trans` unpins them. */
  function PinnedList(s: State): seq<nat> {
    match s.phase
    case Boot => []
    case Replay(_) => []
    case Install(t) => if t <= |s.lh| then s.lh[t..] else []
    case Clear => []
    case _ => s.lh
  }

  predicate Clean(s: State, b: nat) {
    b !in PinnedList(s)
  }

  predicate Enabled(c: Config, s: State, e: Event) {
    match e
    case Begin(p) =>
      && Mounted(s) && p !in s.ops
      && !s.committing && |s.lh| + (s.outstanding + 1) * MAXOPBLOCKS <= LOGSIZE
    case LogWrite(p, b, _) => Mounted(s) && p in s.ops && !InLog(c, b) && !LogWritePanics(c, s)
    case End(p) => Mounted(s) && p in s.ops
    case Commit => InCommit(s) && |s.lh| <= LOGSIZE
    case Recover => s.phase.Replay? || (s.phase.Boot? && HeadOk(Read(s.view, c.start)))
    case Evict(b) => Clean(s, b)
    case Crash => true
  }

  function CommitStep(c: Config, s: State): State
    requires InCommit(s) && |s.lh| <= LOGSIZE
  {
    match s.phase
    case WriteLog(t) =>
      if t < |s.lh| then
        Bwrite(s, Write(c.start + t + 1, Read(s.view, s.lh[t]))).(phase := WriteLog(t + 1))
      else s.(phase := WriteHead)
    case WriteHead =>
      Bwrite(s, Write(c.start, HeadBlock(Read(s.view, c.start), s.lh)))
      .(phase := Install(0), durable := s.view)
    case Install(t) =>
      if t < |s.lh| then
        Bwrite(s, Write(s.lh[t], Read(s.view, c.start + t + 1))).(phase := Install(t + 1))
      else s.(phase := Clear)
    case Clear =>
      Bwrite(s, Write(c.start, HeadBlock(Read(s.view, c.start), []))).(lh := [], phase := Done)
    case Done => s.(committing := false, phase := Idle)
  }

  function RecoverStep(c: Config, s: State): State
    requires s.phase.Replay? || (s.phase.Boot? && HeadOk(Read(s.view, c.start)))
  {
    match s.phase
    case Boot => s.(lh := HeadList(Read(s.view, c.start)), phase := Replay(0))
    case Replay(t) =>
      if t < |s.lh| then
        Bwrite(s, Write(s.lh[t], Read(s.view, c.start + t + 1))).(phase := Replay(t + 1))
      else
        Bwrite(s, Write(c.start, HeadBlock(Read(s.view, c.start), []))).(lh := [], phase := Idle)
  }

  function LogWriteStep(s: State, p: nat, b: nat, data: Block): State
    requires p in s.ops
  {
    s.(view := s.view[b := data],
       lh := if b in s.lh then s.lh else s.lh + [b],
       ops := s.ops[p := s.ops[p] + {b}])
  }

  /** `end_op`: the last operation out starts the commit, which does nothing on an empty log. */
  function EndStep(s: State, p: nat): State {
    var s' := s.(outstanding := s.outstanding - 1, ops := s.ops - {p});
    if s'.outstanding == 0 then
      s'.(committing := true, phase := if |s.lh| > 0 then WriteLog(0) else Done)
    else s'
  }

  function Next(c: Config, s: State, e: Event): State
    requires Enabled(c, s, e)
  {
    match e
    case Begin(p) => s.(outstanding := s.outstanding + 1, ops := s.ops[p := {}])
    case LogWrite(p, b, data) => LogWriteStep(s, p, b, data)
    case End(p) => EndStep(s, p)
    case Commit => CommitStep(c, s)
    case Recover => RecoverStep(c, s)
    case Evict(b) => s.(view := s.view[b := Read(s.disk, b)])
    case Crash => State(s.disk, s.disk, [], map[], 0, false, Boot, s.durable)
  }

  /** A run: every event is enabled where it happens. */
  predicate IsRun(c: Config, s: State, es: seq<Event>)
    decreases |es|
  {
    es == [] || (Enabled(c, s, es[0]) && IsRun(c, Next(c, s, es[0]), es[1..]))
  }

  function After(c: Config, s: State, es: seq<Event>): State
    requires IsRun(c, s, es)
    decreases |es|
  {
    if es == [] then s else After(c, Next(c, s, es[0]), es[1..])
  }

  /** A machine about to boot from a disk whose log is empty. */
  ghost predicate Init(c: Config, s: State) {
    && HeadOk(Read(s.disk, c.start)) && HeadList(Read(s.disk, c.start)) == []
    && s == State(s.disk, s.disk, [], map[], 0, false, Boot, s.disk)
  }

  // ----- The invariant -----

  predicate Distinct(xs: seq<nat>) {
    forall i, j :: 0 <= i < j < |xs| ==> xs[i] != xs[j]
  }

  /** A home block that the log does not name. */
  predicate Untouched(c: Config, h: seq<nat>, b: nat) {
    !InLog(c, b) && b !in h
  }

  ghost predicate Replays(c: Config, d: Image, h: seq<nat>, durable: Image) {
    && |h| < c.size
    && Distinct(h)
    && (forall i :: 0 <= i < |h| ==> !InLog(c, h[i]))
    && (forall i :: 0 <= i < |h| ==> Read(d, c.start + 1 + i) == Read(durable, h[i]))
    && (forall b {:trigger Untouched(c, h, b)} :: Untouched(c, h, b) ==> Read(d, b) == Read(durable, b))
  }

  /** Replaying the log found on `d` makes every home block what `durable` holds there. */
  ghost predicate Recoverable(c: Config, d: Image, durable: Image) {
    HeadOk(Read(d, c.start)) && Replays(c, d, HeadList(Read(d, c.start)), durable)
  }

  ghost predicate SameHome(c: Config, d: Image, d': Image) {
    forall b {:trigger InLog(c, b)} :: !InLog(c, b) ==> Read(d, b) == Read(d', b)
  }

  ghost predicate HeaderIs(c: Config, s: State, h: seq<nat>) {
    HeadOk(Read(s.disk, c.start)) && HeadList(Read(s.disk, c.start)) == h
  }

  /** The first `t` log blocks on disk hold the cached contents of the logged blocks. */
  ghost predicate Logged(c: Config, s: State, t: nat) {
    t <= |s.lh| && forall i :: 0 <= i < t ==> Read(s.disk, c.start + 1 + i) == Read(s.view, s.lh[i])
  }

  /** The first `t` blocks that `h` names are at home on `d`. */
  ghost predicate Installed(d: Image, durable: Image, h: seq<nat>, t: nat) {
    t <= |h| && forall i :: 0 <= i < t ==> Read(d, h[i]) == Read(durable, h[i])
  }

  ghost predicate PhaseInv(c: Config, s: State) {
    match s.phase
    case Boot => s.lh == []
    case Replay(t) => HeaderIs(c, s, s.lh) && Installed(s.disk, s.durable, s.lh, t)
    case Idle => HeaderIs(c, s, [])
    case WriteLog(t) => HeaderIs(c, s, []) && Logged(c, s, t)
    case WriteHead => HeaderIs(c, s, []) && Logged(c, s, |s.lh|)
    case Install(t) => HeaderIs(c, s, s.lh) && SameHome(c, s.view, s.durable) && Installed(s.disk, s.durable, s.lh, t)
    case Clear => HeaderIs(c, s, s.lh) && Installed(s.disk, s.durable, s.lh, |s.lh|)
    case Done => s.lh == [] && HeaderIs(c, s, [])
  }

  ghost predicate LogListOk(c: Config, s: State) {
    && |s.lh| <= LOGSIZE && |s.lh| < c.size
    && Distinct(s.lh)
    && (forall i :: 0 <= i < |s.lh| ==> !InLog(c, s.lh[i]))
  }

  /** Only pinned blocks differ from the disk. */
  ghost predicate Coherent(s: State) {
    forall b {:trigger Clean(s, b)} :: Clean(s, b) ==> Read(s.view, b) == Read(s.disk, b)
  }

  ghost predicate OpsInv(s: State) {
    && s.outstanding == |s.ops|
    && s.committing == InCommit(s)
    && (!s.phase.Idle? ==> s.ops == map[])
    && (s.phase.Idle? && s.ops == map[] ==> s.lh == [])
  }

  ghost predicate Inv(c: Config, s: State) {
    && LogListOk(c, s)
    && Coherent(s)
    && Recoverable(c, s.disk, s.durable)
    && OpsInv(s)
    && PhaseInv(c, s)
  }

  // ----- Every step keeps the invariant -----

  lemma InitInv(c: Config, s: State)
    requires ConfigOk(c) && Init(c, s)
    ensures Inv(c, s)
  {
  }

  /** A write into the log area does not matter while the header is empty. */
  lemma LogBlockKeepsRecoverable(c: Config, d: Image, durable: Image, w: Write)
    requires Recoverable(c, d, durable) && HeadList(Read(d, c.start)) == []
    requires InLog(c, w.at) && w.at != c.start
    ensures Recoverable(c, Put(d, w), durable)
  {
  }

  /** A home block named in the header may hold anything: replay overwrites it. */
  lemma HomeKeepsRecoverable(c: Config, d: Image, durable: Image, w: Write)
    requires Recoverable(c, d, durable) && w.at in HeadList(Read(d, c.start))
    ensures Recoverable(c, Put(d, w), durable)
  {
    var h, d' := HeadList(Read(d, c.start)), Put(d, w);
    assert !InLog(c, w.at);
    assert Read(d', c.start) == Read(d, c.start);
    forall i | 0 <= i < |h| ensures Read(d', c.start + 1 + i) == Read(durable, h[i]) {
      assert InLog(c, c.start + 1 + i);
    }
  }

  /** `install_trans` copies one log block home. */
  lemma InstallOne(c: Config, d: Image, durable: Image, h: seq<nat>, t: nat)
    requires Recoverable(c, d, durable) && HeadList(Read(d, c.start)) == h
    requires t < |h| && Installed(d, durable, h, t)
    ensures Read(d, c.start + t + 1) == Read(durable, h[t])
    ensures var d' := Put(d, Write(h[t], Read(d, c.start + t + 1)));
            && Recoverable(c, d', durable)
            && Read(d', c.start) == Read(d, c.start)
            && Installed(d', durable, h, t + 1)
  {
    assert Read(d, c.start + 1 + t) == Read(durable, h[t]);
    HomeKeepsRecoverable(c, d, durable, Write(h[t], Read(d, c.start + t + 1)));
  }

  /** Writing a header that names the logged blocks switches recovery from `before` to `after`. */
  lemma HeaderCommits(c: Config, d: Image, before: Image, after: Image, hb: Block)
    requires Recoverable(c, d, before) && HeadList(Read(d, c.start)) == []
    requires HeadOk(hb) && |HeadList(hb)| < c.size && Distinct(HeadList(hb))
    requires forall i :: 0 <= i < |HeadList(hb)| ==> !InLog(c, HeadList(hb)[i])
    requires forall i :: 0 <= i < |HeadList(hb)| ==>
               Read(d, c.start + 1 + i) == Read(after, HeadList(hb)[i])
    requires forall b :: Untouched(c, HeadList(hb), b) ==> Read(before, b) == Read(after, b)
    ensures Recoverable(c, Put(d, Write(c.start, hb)), after)
  {
    var h, d' := HeadList(hb), Put(d, Write(c.start, hb));
    assert Read(d', c.start) == hb;
    forall i | 0 <= i < |h| ensures Read(d', c.start + 1 + i) == Read(after, h[i]) {
      assert Read(d', c.start + 1 + i) == Read(d, c.start + 1 + i);
    }
    forall b | Untouched(c, h, b) ensures Read(d', b) == Read(after, b) {
      assert Untouched(c, [], b);
    }
  }

  /** Once every home block is in place the header may be erased. */
  lemma ClearingKeepsRecoverable(c: Config, d: Image, durable: Image, hb: Block)
    requires ConfigOk(c) && SameHome(c, d, durable) && HeadOk(hb) && HeadList(hb) == []
    ensures Recoverable(c, Put(d, Write(c.start, hb)), durable)
  {
    forall b | Untouched(c, [], b)
      ensures Read(Put(d, Write(c.start, hb)), b) == Read(durable, b)
    {
      assert !InLog(c, b);
    }
  }

  lemma BwriteKeepsCoherent(s: State, w: Write, s': State)
    requires Coherent(s) && s'.disk == Put(s.disk, w) && s'.view == Put(s.view, w)
    requires forall b :: b in PinnedList(s) ==> b in PinnedList(s') || b == w.at
    ensures Coherent(s')
  {
    forall b | Clean(s', b) ensures Read(s'.view, b) == Read(s'.disk, b) {
      assert b != w.at ==> Clean(s, b);
    }
  }

  lemma SameKeepsCoherent(s: State, s': State)
    requires Coherent(s) && s'.disk == s.disk && s'.view == s.view
    requires forall b :: b in PinnedList(s) ==> b in PinnedList(s')
    ensures Coherent(s')
  {
    forall b | Clean(s', b) ensures Read(s'.view, b) == Read(s'.disk, b) {
      assert Clean(s, b);
    }
  }

  /** One more log block is a copy of the cached block. */
  lemma LoggedNext(c: Config, s: State, w: Write, s': State)
    requires LogListOk(c, s) && s.phase.WriteLog? && Logged(c, s, s.phase.tail) && s.phase.tail < |s.lh|
    requires w == Write(c.start + s.phase.tail + 1, Read(s.view, s.lh[s.phase.tail]))
    requires s'.disk == Put(s.disk, w) && s'.view == Put(s.view, w) && s'.lh == s.lh
    ensures Logged(c, s', s.phase.tail + 1)
  {
    var t := s.phase.tail;
    forall i | 0 <= i <= t ensures Read(s'.disk, c.start + 1 + i) == Read(s'.view, s.lh[i]) {
      assert !InLog(c, s.lh[i]) && InLog(c, w.at);
    }
  }

  lemma WriteLogKeepsInv(c: Config, s: State)
    requires ConfigOk(c) && Inv(c, s) && s.phase.WriteLog?
    ensures Inv(c, CommitStep(c, s))
  {
    var t, s' := s.phase.tail, CommitStep(c, s);
    if t < |s.lh| {
      var w := Write(c.start + t + 1, Read(s.view, s.lh[t]));
      assert Recoverable(c, s'.disk, s'.durable) by { LogBlockKeepsRecoverable(c, s.disk, s.durable, w); }
      assert Coherent(s') by { BwriteKeepsCoherent(s, w, s'); }
      assert Logged(c, s', t + 1) by { LoggedNext(c, s, w, s'); }
    } else {
      SameKeepsCoherent(s, s');
    }
  }

  /** The header write is the commit point: from here on recovery yields the cached view. */
  lemma HeadCommitsView(c: Config, s: State)
    requires Inv(c, s) && s.phase.WriteHead?
    ensures Recoverable(c, Put(s.disk, Write(c.start, HeadBlock(Read(s.view, c.start), s.lh))), s.view)
  {
    HeadRoundTrip(Read(s.view, c.start), s.lh);
    forall b | Untouched(c, s.lh, b) ensures Read(s.durable, b) == Read(s.view, b) {
      assert Clean(s, b) && Untouched(c, [], b);
    }
    HeaderCommits(c, s.disk, s.durable, s.view, HeadBlock(Read(s.view, c.start), s.lh));
  }

  lemma WriteHeadKeepsInv(c: Config, s: State)
    requires ConfigOk(c) && Inv(c, s) && s.phase.WriteHead?
    ensures Inv(c, CommitStep(c, s))
  {
    var w := Write(c.start, HeadBlock(Read(s.view, c.start), s.lh));
    HeadRoundTrip(Read(s.view, c.start), s.lh);
    HeadCommitsView(c, s);
    BwriteKeepsCoherent(s, w, CommitStep(c, s));
    LogAreaKeepsHome(c, s.view, s.view, w);
  }

  lemma InstallBlockKeepsInv(c: Config, s: State)
    requires ConfigOk(c) && Inv(c, s) && s.phase.Install? && s.phase.tail < |s.lh|
    ensures Inv(c, CommitStep(c, s))
  {
    var t := s.phase.tail;
    assert Read(s.view, c.start + t + 1) == Read(s.disk, c.start + t + 1) by {
      assert InLog(c, c.start + t + 1) && Clean(s, c.start + t + 1);
    }
    InstalledNext(c, s, t, Write(s.lh[t], Read(s.disk, c.start + t + 1)), CommitStep(c, s));
  }

  lemma InstalledNext(c: Config, s: State, t: nat, w: Write, s': State)
    requires Inv(c, s) && s.phase == Install(t) && t < |s.lh| && w == Write(s.lh[t], Read(s.disk, c.start + t + 1))
    requires s' == Bwrite(s, w).(phase := Install(t + 1))
    ensures Inv(c, s')
  {
    InstallOne(c, s.disk, s.durable, s.lh, t);
    assert Coherent(s') by {
      assert PinnedList(s) == [s.lh[t]] + PinnedList(s');
      BwriteKeepsCoherent(s, w, s');
    }
    assert SameHome(c, s'.view, s'.durable) by { InstallKeepsHome(c, s.view, s.durable, w); }
  }

  lemma InstallKeepsHome(c: Config, v: Image, durable: Image, w: Write)
    requires SameHome(c, v, durable) && w.block == Read(durable, w.at)
    ensures SameHome(c, Put(v, w), durable)
  {
  }

  lemma InstallKeepsInv(c: Config, s: State)
    requires ConfigOk(c) && Inv(c, s) && s.phase.Install?
    ensures Inv(c, CommitStep(c, s))
  {
    if s.phase.tail < |s.lh| {
      InstallBlockKeepsInv(c, s);
    } else {
      SameKeepsCoherent(s, CommitStep(c, s));
    }
  }

  /** With every logged block installed the disk itself holds the durable contents. */
  lemma InstalledEverywhere(c: Config, s: State)
    requires Recoverable(c, s.disk, s.durable) && HeaderIs(c, s, s.lh) && Installed(s.disk, s.durable, s.lh, |s.lh|)
    ensures SameHome(c, s.disk, s.durable)
  {
    forall b | !InLog(c, b) ensures Read(s.disk, b) == Read(s.durable, b) {
      if b in s.lh {
        var i :| 0 <= i < |s.lh| && s.lh[i] == b;
      } else {
        assert Untouched(c, s.lh, b);
      }
    }
  }

  lemma ClearKeepsInv(c: Config, s: State)
    requires ConfigOk(c) && Inv(c, s) && s.phase.Clear?
    ensures Inv(c, CommitStep(c, s))
  {
    var hb := HeadBlock(Read(s.view, c.start), []);
    HeadRoundTrip(Read(s.view, c.start), []);
    InstalledEverywhere(c, s);
    ClearingKeepsRecoverable(c, s.disk, s.durable, hb);
    BwriteKeepsCoherent(s, Write(c.start, hb), CommitStep(c, s));
  }

  lemma CommitKeepsInv(c: Config, s: State)
    requires ConfigOk(c) && Inv(c, s) && InCommit(s)
    ensures Inv(c, CommitStep(c, s))
  {
    match s.phase
    case WriteLog(_) => WriteLogKeepsInv(c, s);
    case WriteHead => WriteHeadKeepsInv(c, s);
    case Install(_) => InstallKeepsInv(c, s);
    case Clear => ClearKeepsInv(c, s);
    case Done => SameKeepsCoherent(s, CommitStep(c, s));
  }

  lemma ReplayKeepsInv(c: Config, s: State)
    requires ConfigOk(c) && Inv(c, s) && s.phase.Replay?
    ensures Inv(c, RecoverStep(c, s))
  {
    var t, s' := s.phase.tail, RecoverStep(c, s);
    if t < |s.lh| {
      assert Clean(s, c.start + t + 1);
      var w := Write(s.lh[t], Read(s.disk, c.start + t + 1));
      InstallOne(c, s.disk, s.durable, s.lh, t);
      BwriteKeepsCoherent(s, w, s');
    } else {
      var hb := HeadBlock(Read(s.view, c.start), []);
      HeadRoundTrip(Read(s.view, c.start), []);
      InstalledEverywhere(c, s);
      ClearingKeepsRecoverable(c, s.disk, s.durable, hb);
      BwriteKeepsCoherent(s, Write(c.start, hb), s');
    }
  }

  lemma RecoverKeepsInv(c: Config, s: State)
    requires ConfigOk(c) && Inv(c, s) && (s.phase.Boot? || s.phase.Replay?)
    ensures s.phase.Boot? ==> HeadOk(Read(s.view, c.start))
    ensures Inv(c, RecoverStep(c, s))
  {
    assert Clean(s, c.start);
    if s.phase.Replay? {
      ReplayKeepsInv(c, s);
    } else {
      SameKeepsCoherent(s, RecoverStep(c, s));
    }
  }

  lemma EndKeepsInv(c: Config, s: State, p: nat)
    requires ConfigOk(c) && Inv(c, s) && Mounted(s) && p in s.ops
    ensures Inv(c, EndStep(s, p))
  {
    assert s.ops.Keys - {p} == (s.ops - {p}).Keys;
    assert |s.ops - {p}| == |s.ops| - 1;
    SameKeepsCoherent(s, EndStep(s, p));
  }

  lemma LogWriteKeepsInv(c: Config, s: State, p: nat, b: nat, data: Block)
    requires ConfigOk(c) && Inv(c, s) && Enabled(c, s, LogWrite(p, b, data))
    ensures Inv(c, LogWriteStep(s, p, b, data))
  {
    var s' := LogWriteStep(s, p, b, data);
    assert s'.ops.Keys == s.ops.Keys;
    assert |s'.ops| == |s.ops|;
    forall b' | Clean(s', b') ensures Read(s'.view, b') == Read(s'.disk, b') {
      assert Clean(s, b');
    }
  }

  lemma EvictKeepsInv(c: Config, s: State, b: nat)
    requires Inv(c, s) && Clean(s, b)
    ensures Inv(c, Next(c, s, Evict(b)))
  {
    var s' := Next(c, s, Evict(b));
    forall x ensures Read(s'.view, x) == Read(s.view, x) {
    }
    forall x | Clean(s', x) ensures Read(s'.view, x) == Read(s'.disk, x) {
      assert Clean(s, x);
    }
  }

  lemma BeginKeepsInv(c: Config, s: State, p: nat)
    requires Inv(c, s) && Enabled(c, s, Begin(p))
    ensures Inv(c, Next(c, s, Begin(p)))
  {
    assert s.ops[p := {}].Keys == s.ops.Keys + {p};
    SameKeepsCoherent(s, Next(c, s, Begin(p)));
  }

  lemma CrashKeepsInv(c: Config, s: State)
    requires ConfigOk(c) && Inv(c, s)
    ensures Inv(c, Next(c, s, Crash))
  {
  }

  lemma NextKeepsInv(c: Config, s: State, e: Event)
    requires ConfigOk(c) && Inv(c, s) && Enabled(c, s, e)
    ensures Inv(c, Next(c, s, e))
  {
    match e
    case Begin(p) => BeginKeepsInv(c, s, p);
    case LogWrite(p, b, data) => LogWriteKeepsInv(c, s, p, b, data);
    case End(p) => EndKeepsInv(c, s, p);
    case Commit => CommitKeepsInv(c, s);
    case Recover => RecoverKeepsInv(c, s);
    case Evict(b) => EvictKeepsInv(c, s, b);
    case Crash => CrashKeepsInv(c, s);
  }

  // ----- Whole runs -----

  lemma {:induction false} RunKeepsInv(c: Config, s: State, es: seq<Event>)
    requires ConfigOk(c) && Inv(c, s) && IsRun(c, s, es)
    ensures Inv(c, After(c, s, es))
    decreases |es|
  {
    if es != [] {
      NextKeepsInv(c, s, es[0]);
      RunKeepsInv(c, Next(c, s, es[0]), es[1..]);
    }
  }

  lemma {:induction false} RunConcat(c: Config, s: State, xs: seq<Event>, ys: seq<Event>)
    requires IsRun(c, s, xs)
    ensures IsRun(c, s, xs + ys) <==> IsRun(c, After(c, s, xs), ys)
    ensures IsRun(c, s, xs + ys) ==> After(c, s, xs + ys) == After(c, After(c, s, xs), ys)
    decreases |xs|
  {
    if xs == [] {
      assert xs + ys == ys;
    } else {
      assert (xs + ys)[0] == xs[0] && (xs + ys)[1..] == xs[1..] + ys;
      RunConcat(c, Next(c, s, xs[0]), xs[1..], ys);
    }
  }

  /** The cached view at the last header write of the run, or `none` if there was none. */
  function LastCommitted(c: Config, s: State, es: seq<Event>, none: Image): Image
    requires IsRun(c, s, es)
    decreases |es|
  {
    if es == [] then none
    else
      LastCommitted(c, Next(c, s, es[0]), es[1..], if es[0].Commit? && s.phase.WriteHead? then s.view else none)
  }

  lemma {:induction false} DurableIsLastCommitted(c: Config, s: State, es: seq<Event>)
    requires IsRun(c, s, es)
    ensures After(c, s, es).durable == LastCommitted(c, s, es, s.durable)
    decreases |es|
  {
    if es != [] {
      DurableIsLastCommitted(c, Next(c, s, es[0]), es[1..]);
    }
  }

  /** Group commit: in every run, a commit has the log to itself, `end_op` never finds one under
      way, and recovery of the disk as it stands yields the view at the last completed header
      write. */
  lemma GroupCommit(c: Config, s0: State, es: seq<Event>)
    requires ConfigOk(c) && Init(c, s0) && IsRun(c, s0, es)
    ensures var s := After(c, s0, es);
            && (InCommit(s) ==> s.outstanding == 0 && s.ops == map[])
            && (s.ops != map[] ==> !s.committing)
            && s.outstanding == |s.ops|
            && Recoverable(c, s.disk, LastCommitted(c, s0, es, s0.disk))
  {
    InitInv(c, s0);
    RunKeepsInv(c, s0, es);
    DurableIsLastCommitted(c, s0, es);
  }

  /** A boot attempt: recovery steps and further crashes, in any order. */
  ghost predicate OnlyRecovery(es: seq<Event>) {
    forall i :: 0 <= i < |es| ==> es[i].Recover? || es[i].Crash?
  }

  lemma {:induction false} RecoveryKeepsDurable(c: Config, s: State, rs: seq<Event>)
    requires IsRun(c, s, rs) && OnlyRecovery(rs)
    ensures After(c, s, rs).durable == s.durable
    decreases |rs|
  {
    if rs != [] {
      assert rs[0].Recover? || rs[0].Crash?;
      RecoveryKeepsDurable(c, Next(c, s, rs[0]), rs[1..]);
    }
  }

  lemma {:induction false} RecoveryKeepsOps(c: Config, s: State, rs: seq<Event>)
    requires IsRun(c, s, rs) && OnlyRecovery(rs) && s.ops == map[]
    ensures After(c, s, rs).ops == map[]
    decreases |rs|
  {
    if rs != [] {
      assert rs[0].Recover? || rs[0].Crash?;
      RecoveryKeepsOps(c, Next(c, s, rs[0]), rs[1..]);
    }
  }

  /** Crash safety: crash a run anywhere, let recovery be interrupted any number of times; when it
      completes, disk and cached view hold exactly the view at the last completed header write. */
  lemma CrashSafety(c: Config, s0: State, es: seq<Event>, rs: seq<Event>)
    requires ConfigOk(c) && Init(c, s0) && IsRun(c, s0, es + ([Crash] + rs)) && OnlyRecovery(rs)
    requires IsRun(c, s0, es)
    requires After(c, s0, es + ([Crash] + rs)).phase.Idle?
    ensures var s := After(c, s0, es + ([Crash] + rs));
            && SameHome(c, s.disk, LastCommitted(c, s0, es, s0.disk))
            && SameHome(c, s.view, LastCommitted(c, s0, es, s0.disk))
            && s.lh == [] && s.outstanding == 0
  {
    var crashed := After(c, s0, es);
    RunConcat(c, s0, es, [Crash] + rs);
    assert ([Crash] + rs)[0] == Crash && ([Crash] + rs)[1..] == rs;
    var booted := Next(c, crashed, Crash);
    var s := After(c, booted, rs);
    InitInv(c, s0);
    RunKeepsInv(c, s0, es + ([Crash] + rs));
    RecoveryKeepsDurable(c, booted, rs);
    RecoveryKeepsOps(c, booted, rs);
    DurableIsLastCommitted(c, s0, es);
    IdleAgrees(c, s);
  }

  /** Recovery does complete: one step to read the header, one per logged block, one to clear. */
  lemma {:induction false} RecoveryCompletes(c: Config, s: State) returns (rs: seq<Event>)
    requires ConfigOk(c) && Inv(c, s) && (s.phase.Boot? || s.phase.Replay?)
    ensures OnlyRecovery(rs) && IsRun(c, s, rs) && After(c, s, rs).phase.Idle?
    decreases s.phase.Boot?, if s.phase.Replay? && s.phase.tail <= |s.lh| then |s.lh| - s.phase.tail else 0
  {
    RecoverKeepsInv(c, s);
    var s' := RecoverStep(c, s);
    assert Next(c, s, Recover) == s';
    if s'.phase.Idle? {
      rs := [Recover];
      assert rs[1..] == [];
    } else {
      var more := RecoveryCompletes(c, s');
      rs := [Recover] + more;
      assert rs[1..] == more;
    }
  }

  /** Between transactions, disk, cached view and durable contents agree. */
  lemma IdleAgrees(c: Config, s: State)
    requires Inv(c, s) && s.phase.Idle? && s.ops == map[]
    ensures SameHome(c, s.disk, s.durable) && SameHome(c, s.disk, s.view)
  {
    forall b | !InLog(c, b) ensures Read(s.disk, b) == Read(s.durable, b) == Read(s.view, b) {
      assert Untouched(c, [], b) && Clean(s, b);
    }
  }

  lemma LogAreaKeepsHome(c: Config, d: Image, v: Image, w: Write)
    requires SameHome(c, d, v) && InLog(c, w.at)
    ensures SameHome(c, Put(d, w), v)
  {
  }

  lemma RewriteKeepsHome(c: Config, d: Image, v: Image, w: Write)
    requires SameHome(c, d, v) && Read(d, w.at) == w.block
    ensures SameHome(c, Put(d, w), v)
  {
  }

  /** What `install_trans` copies home is what the view shows there already. */
  lemma InstallsWhatIsSeen(c: Config, s: State)
    requires Inv(c, s) && s.phase.Install? && s.phase.tail < |s.lh|
    ensures Read(s.view, c.start + s.phase.tail + 1) == Read(s.view, s.lh[s.phase.tail])
  {
    var t := s.phase.tail;
    assert Read(s.view, s.lh[t]) == Read(s.durable, s.lh[t]) by { assert !InLog(c, s.lh[t]); }
    assert Clean(s, c.start + t + 1) by { assert InLog(c, c.start + t + 1); }
    assert Read(s.disk, c.start + 1 + t) == Read(s.durable, s.lh[t]);
  }

  lemma CommitKeepsView(c: Config, s: State, v: Image)
    requires ConfigOk(c) && Inv(c, s) && InCommit(s) && SameHome(c, s.view, v)
    ensures SameHome(c, CommitStep(c, s).view, v)
  {
    match s.phase
    case WriteLog(t) =>
      if t < |s.lh| {
        LogAreaKeepsHome(c, s.view, v, Write(c.start + t + 1, Read(s.view, s.lh[t])));
      }
    case WriteHead => LogAreaKeepsHome(c, s.view, v, Write(c.start, HeadBlock(Read(s.view, c.start), s.lh)));
    case Install(t) =>
      if t < |s.lh| {
        InstallsWhatIsSeen(c, s);
        RewriteKeepsHome(c, s.view, v, Write(s.lh[t], Read(s.view, c.start + t + 1)));
      }
    case Clear => LogAreaKeepsHome(c, s.view, v, Write(c.start, HeadBlock(Read(s.view, c.start), [])));
    case Done =>
  }

  /** The number of steps that a commit still takes. */
  function StepsLeft(s: State): nat {
    var n := |s.lh|;
    match s.phase
    case WriteLog(t) => 2 * n + 5 - if t <= n then t else n
    case WriteHead => n + 4
    case Install(t) => n + 3 - if t <= n then t else n
    case Clear => 2
    case Done => 1
    case _ => 0
  }

  /** The same step `n` times. */
  function Times(e: Event, n: nat): seq<Event> {
    seq(n, _ => e)
  }

  lemma TimesCons(e: Event, n: nat)
    requires n > 0
    ensures |Times(e, n)| == n && Times(e, n)[0] == e && Times(e, n)[1..] == Times(e, n - 1)
  {
  }

  /** Nothing is under way, and `v` is on disk, in the cache and durable. */
  ghost predicate AllHold(c: Config, s: State, v: Image) {
    s.phase.Idle? && !s.committing && SameHome(c, s.view, v) && SameHome(c, s.disk, v) && SameHome(c, s.durable, v)
  }

  ghost predicate Committing(c: Config, s: State, v: Image) {
    ConfigOk(c) && Inv(c, s) && InCommit(s) && SameHome(c, s.view, v)
  }

  lemma StepsLeftDrops(c: Config, s: State)
    requires InCommit(s) && |s.lh| <= LOGSIZE && (s.phase.WriteLog? || s.phase.Install? ==> s.phase.tail <= |s.lh|)
    ensures StepsLeft(CommitStep(c, s)) == StepsLeft(s) - 1
    ensures if s.phase.Done? then StepsLeft(s) == 1 else InCommit(CommitStep(c, s))
  {
  }

  lemma CommitAdvances(c: Config, s: State, v: Image)
    requires Committing(c, s, v)
    ensures Enabled(c, s, Commit) && StepsLeft(Next(c, s, Commit)) == StepsLeft(s) - 1
    ensures if s.phase.Done? then StepsLeft(s) == 1 && AllHold(c, Next(c, s, Commit), v)
            else Committing(c, Next(c, s, Commit), v)
  {
    CommitKeepsInv(c, s);
    CommitKeepsView(c, s, v);
    StepsLeftDrops(c, s);
    if s.phase.Done? {
      DoneHolds(c, CommitStep(c, s), v);
    }
  }

  lemma DoneHolds(c: Config, s: State, v: Image)
    requires Inv(c, s) && s.phase.Idle? && s.ops == map[] && SameHome(c, s.view, v)
    ensures AllHold(c, s, v)
  {
    IdleAgrees(c, s);
    forall b | !InLog(c, b) ensures Read(s.disk, b) == Read(s.durable, b) == Read(v, b) {
    }
  }

  /** `n` steps of a commit from `s` end it with `v` in place. */
  ghost predicate Completes(c: Config, s: State, n: nat, v: Image) {
    IsRun(c, s, Times(Commit, n)) && AllHold(c, After(c, s, Times(Commit, n)), v)
  }

  lemma CompletesLater(c: Config, s: State, n: nat, v: Image)
    requires n > 0 && Enabled(c, s, Commit) && Completes(c, Next(c, s, Commit), n - 1, v)
    ensures Completes(c, s, n, v)
  {
    TimesCons(Commit, n);
  }

  /** Commit does complete, and it makes the whole view it started from durable. */
  lemma {:induction false} CommitCompletes(c: Config, s: State, v: Image, n: nat)
    requires Committing(c, s, v) && n == StepsLeft(s)
    ensures Completes(c, s, n, v)
    decreases n
  {
    CommitAdvances(c, s, v);
    var s' := Next(c, s, Commit);
    if s.phase.Done? {
      assert Completes(c, s', 0, v);
    } else {
      CommitCompletes(c, s', v, n - 1);
    }
    CompletesLater(c, s, n, v);
  }

  /** Every log block is written strictly inside the log area, past the header. */
  lemma LogWritesStayInside(c: Config, s0: State, es: seq<Event>)
    requires ConfigOk(c) && Init(c, s0) && IsRun(c, s0, es)
    ensures var s := After(c, s0, es);
            s.phase.WriteLog? && s.phase.tail < |s.lh| ==>
              c.start + 1 <= c.start + s.phase.tail + 1 < c.start + c.size
  {
    InitInv(c, s0);
    RunKeepsInv(c, s0, es);
  }
}

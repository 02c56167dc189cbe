/** Crash atomicity of `commit` and `recover_from_log`, stated on the traces of block writes they
    issue: a crash keeps some prefix of a trace. */
module LogTrace {
  import opened Disk
  import opened LogProtocol
  import opened Params

  /** The k-th block write of a commit that logs `lh` with the cached contents `view`: the log
      blocks, the header, the home blocks, the cleared header. */
  function CommitWrite(c: Config, view: Image, lh: seq<nat>, k: nat): Write
    requires |lh| <= LOGSIZE && k < 2 * |lh| + 2
  {
    var n := |lh|;
    var head := HeadBlock(Read(view, c.start), lh);
    if k < n then Write(c.start + k + 1, Read(view, lh[k]))
    else if k == n then Write(c.start, head)
    else if k <= 2 * n then Write(lh[k - n - 1], Read(view, lh[k - n - 1]))
    else Write(c.start, HeadBlock(head, []))
  }

  function CommitTrace(c: Config, view: Image, lh: seq<nat>): seq<Write>
    requires |lh| <= LOGSIZE
  {
    if lh == [] then []
    else seq(2 * |lh| + 2, k requires 0 <= k < 2 * |lh| + 2 => CommitWrite(c, view, lh, k))
  }

  /** The writes of `recover_from_log` on disk `d`: the logged blocks go home, then the header is
      cleared. */
  function RecoverTrace(c: Config, d: Image): seq<Write>
    requires HeadOk(Read(d, c.start))
  {
    var h := HeadList(Read(d, c.start));
    seq(|h| + 1, j requires 0 <= j <= |h| => RecoverWrite(c, d, j))
  }

  function RecoverWrite(c: Config, d: Image, j: nat): Write
    requires HeadOk(Read(d, c.start)) && j <= |HeadList(Read(d, c.start))|
  {
    var h := HeadList(Read(d, c.start));
    if j < |h| then Write(h[j], Read(d, c.start + j + 1))
    else Write(c.start, HeadBlock(Read(d, c.start), []))
  }

  function Prefix(ws: seq<Write>, k: nat): seq<Write> {
    if k <= |ws| then ws[..k] else ws
  }

  /** Recoveries cut short after `ks[0]`, `ks[1]`, ... writes; `None` if one of them meets a header
      that it cannot read. */
  datatype Option<T> = None | Some(value: T)

  function Interrupted(c: Config, d: Image, ks: seq<nat>): Option<Image>
    decreases |ks|
  {
    if ks == [] then Some(d)
    else if !HeadOk(Read(d, c.start)) then None
    else Interrupted(c, Apply(d, Prefix(RecoverTrace(c, d), ks[0])), ks[1..])
  }

  function Recovered(c: Config, d: Image): Option<Image> {
    if HeadOk(Read(d, c.start)) then Some(Apply(d, RecoverTrace(c, d))) else None
  }

  /** What holds of the log code when `end_op` calls `commit`. */
  ghost predicate CommitStarts(c: Config, d: Image, view: Image, lh: seq<nat>) {
    && ConfigOk(c) && |lh| <= LOGSIZE && |lh| < c.size && Distinct(lh)
    && (forall i :: 0 <= i < |lh| ==> !InLog(c, lh[i]))
    && HeadOk(Read(d, c.start)) && HeadList(Read(d, c.start)) == []
    && (forall b {:trigger Untouched(c, lh, b)} :: Untouched(c, lh, b) ==> Read(d, b) == Read(view, b))
  }

  lemma ApplyStep(d: Image, ws: seq<Write>, k: nat)
    requires k < |ws|
    ensures Apply(d, ws[..k + 1]) == Put(Apply(d, ws[..k]), ws[k])
  {
    assert ws[..k + 1][..k] == ws[..k];
  }

  /** Where the disk stands after the first `k` writes of a commit. */
  ghost predicate CommitPoint(c: Config, d: Image, view: Image, lh: seq<nat>, k: nat, dk: Image)
  {
    var n := |lh|;
    if k <= n then
      && Recoverable(c, dk, d) && HeadList(Read(dk, c.start)) == []
      && (forall i :: 0 <= i < k ==> Read(dk, c.start + 1 + i) == Read(view, lh[i]))
    else if k <= 2 * n + 1 then
      && Recoverable(c, dk, view) && HeadList(Read(dk, c.start)) == lh
      && Installed(dk, view, lh, k - n - 1)
    else
      Recoverable(c, dk, view) && HeadList(Read(dk, c.start)) == []
  }

  lemma LogPointStep(c: Config, d: Image, view: Image, lh: seq<nat>, k: nat, dk: Image)
    requires CommitStarts(c, d, view, lh) && k < |lh| && CommitPoint(c, d, view, lh, k, dk)
    ensures CommitPoint(c, d, view, lh, k + 1, Put(dk, CommitWrite(c, view, lh, k)))
  {
    LogBlockKeepsRecoverable(c, dk, d, CommitWrite(c, view, lh, k));
  }

  lemma HeadPointStep(c: Config, d: Image, view: Image, lh: seq<nat>, dk: Image)
    requires CommitStarts(c, d, view, lh) && CommitPoint(c, d, view, lh, |lh|, dk)
    ensures CommitPoint(c, d, view, lh, |lh| + 1, Put(dk, CommitWrite(c, view, lh, |lh|)))
  {
    var hb := HeadBlock(Read(view, c.start), lh);
    HeadRoundTrip(Read(view, c.start), lh);
    HeaderCommits(c, dk, d, view, hb);
  }

  lemma HomePointStep(c: Config, d: Image, view: Image, lh: seq<nat>, k: nat, dk: Image)
    requires CommitStarts(c, d, view, lh) && |lh| < k <= 2 * |lh|
    requires CommitPoint(c, d, view, lh, k, dk)
    ensures CommitPoint(c, d, view, lh, k + 1, Put(dk, CommitWrite(c, view, lh, k)))
  {
    InstallOne(c, dk, view, lh, k - |lh| - 1);
  }

  /** When every named block is at home, so is every home block. */
  lemma AllInstalled(c: Config, d: Image, durable: Image, h: seq<nat>)
    requires Recoverable(c, d, durable) && HeadList(Read(d, c.start)) == h
    requires Installed(d, durable, h, |h|)
    ensures SameHome(c, d, durable)
  {
    forall b | !InLog(c, b) ensures Read(d, b) == Read(durable, b) {
      if b in h {
        var i :| 0 <= i < |h| && h[i] == b;
      } else {
        assert Untouched(c, h, b);
      }
    }
  }

  lemma ClearPointStep(c: Config, d: Image, view: Image, lh: seq<nat>, dk: Image)
    requires CommitStarts(c, d, view, lh) && lh != []
    requires CommitPoint(c, d, view, lh, 2 * |lh| + 1, dk)
    ensures CommitPoint(c, d, view, lh, 2 * |lh| + 2, Put(dk, CommitWrite(c, view, lh, 2 * |lh| + 1)))
  {
    var head := HeadBlock(Read(view, c.start), lh);
    HeadRoundTrip(head, []);
    AllInstalled(c, dk, view, lh);
    ClearingKeepsRecoverable(c, dk, view, HeadBlock(head, []));
  }

  lemma {:induction false} CommitPrefix(c: Config, d: Image, view: Image, lh: seq<nat>, k: nat)
    requires CommitStarts(c, d, view, lh) && k <= |CommitTrace(c, view, lh)|
    ensures CommitPoint(c, d, view, lh, k, Apply(d, CommitTrace(c, view, lh)[..k]))
    decreases k
  {
    var ws, n := CommitTrace(c, view, lh), |lh|;
    if k == 0 {
    } else {
      var j := k - 1;
      CommitPrefix(c, d, view, lh, j);
      ApplyStep(d, ws, j);
      var dj := Apply(d, ws[..j]);
      assert ws[j] == CommitWrite(c, view, lh, j);
      if j < n {
        LogPointStep(c, d, view, lh, j, dj);
      } else if j == n {
        HeadPointStep(c, d, view, lh, dj);
      } else if j <= 2 * n {
        HomePointStep(c, d, view, lh, j, dj);
      } else {
        ClearPointStep(c, d, view, lh, dj);
      }
    }
  }

  /** A recovery cut short after `j` writes can be started again from scratch. */
  lemma {:induction false} RecoverPrefix(c: Config, d: Image, durable: Image, j: nat)
    requires Recoverable(c, d, durable) && j <= |HeadList(Read(d, c.start))|
    ensures var dj := Apply(d, RecoverTrace(c, d)[..j]);
            && Recoverable(c, dj, durable)
            && Read(dj, c.start) == Read(d, c.start)
            && Installed(dj, durable, HeadList(Read(d, c.start)), j)
            && (forall b :: InLog(c, b) ==> Read(dj, b) == Read(d, b))
    decreases j
  {
    if j > 0 {
      var i, ws, h := j - 1, RecoverTrace(c, d), HeadList(Read(d, c.start));
      RecoverPrefix(c, d, durable, i);
      ApplyStep(d, ws, i);
      var di := Apply(d, ws[..i]);
      assert InLog(c, c.start + i + 1) && !InLog(c, h[i]);
      InstallOne(c, di, durable, h, i);
      assert ws[i] == Write(h[i], Read(di, c.start + i + 1));
    }
  }

  /** A completed recovery puts every home block in place and empties the log. */
  lemma RecoverWhole(c: Config, d: Image, durable: Image)
    requires ConfigOk(c) && Recoverable(c, d, durable)
    ensures var d' := Apply(d, RecoverTrace(c, d));
            && Recoverable(c, d', durable)
            && SameHome(c, d', durable)
            && HeadList(Read(d', c.start)) == []
  {
    var ws, h := RecoverTrace(c, d), HeadList(Read(d, c.start));
    var n := |h|;
    RecoverPrefix(c, d, durable, n);
    ApplyStep(d, ws, n);
    assert ws[..n + 1] == ws;
    var dn := Apply(d, ws[..n]);
    AllInstalled(c, dn, durable, h);
    HeadRoundTrip(Read(d, c.start), []);
    ClearingKeepsRecoverable(c, dn, durable, HeadBlock(Read(d, c.start), []));
  }

  lemma {:induction false} InterruptedKeepsRecoverable(c: Config, d: Image, durable: Image, ks: seq<nat>)
    requires ConfigOk(c) && Recoverable(c, d, durable)
    ensures Interrupted(c, d, ks).Some? && Recoverable(c, Interrupted(c, d, ks).value, durable)
    decreases |ks|
  {
    if ks != [] {
      var ws := RecoverTrace(c, d);
      if ks[0] < |ws| {
        RecoverPrefix(c, d, durable, ks[0]);
      } else {
        assert Prefix(ws, ks[0]) == ws;
        RecoverWhole(c, d, durable);
      }
      InterruptedKeepsRecoverable(c, Apply(d, Prefix(ws, ks[0])), durable, ks[1..]);
    }
  }

  /** Crash atomicity: keep any `k` writes of a commit, interrupt recovery any number of times at
      any points, then let it finish: the home blocks are all old if the header write was not among
      the `k`, and all new otherwise. */
  lemma CrashAtomicity(c: Config, d: Image, view: Image, lh: seq<nat>, k: nat, ks: seq<nat>)
    requires CommitStarts(c, d, view, lh) && k <= |CommitTrace(c, view, lh)|
    ensures var crashed := Apply(d, CommitTrace(c, view, lh)[..k]);
            && Interrupted(c, crashed, ks).Some?
            && Recovered(c, Interrupted(c, crashed, ks).value).Some?
            && SameHome(c, Recovered(c, Interrupted(c, crashed, ks).value).value,
                        if k <= |lh| then d else view)
  {
    CommitPrefix(c, d, view, lh, k);
    var crashed := Apply(d, CommitTrace(c, view, lh)[..k]);
    var durable := if k <= |lh| then d else view;
    InterruptedKeepsRecoverable(c, crashed, durable, ks);
    RecoverWhole(c, Interrupted(c, crashed, ks).value, durable);
  }

  /** A commit that runs to its end leaves the new contents at home and an empty log. */
  lemma CommitWhole(c: Config, d: Image, view: Image, lh: seq<nat>)
    requires CommitStarts(c, d, view, lh)
    ensures var d' := Apply(d, CommitTrace(c, view, lh));
            SameHome(c, d', view) && HeadOk(Read(d', c.start)) && HeadList(Read(d', c.start)) == []
  {
    var ws := CommitTrace(c, view, lh);
    CommitPrefix(c, d, view, lh, |ws|);
    assert ws[..|ws|] == ws;
    var d' := Apply(d, ws);
    forall b | !InLog(c, b) ensures Read(d', b) == Read(view, b) {
      assert Untouched(c, [], b);
      assert lh == [] ==> Untouched(c, lh, b);
    }
  }

  // ----- The steps of the protocol issue these traces -----

  /** The block write that a step makes, if it makes one. */
  function StepWrites(c: Config, s: State, e: Event): seq<Write>
    requires Enabled(c, s, e)
  {
    if e.Commit? then
      match s.phase
      case WriteLog(t) => if t < |s.lh| then [Write(c.start + t + 1, Read(s.view, s.lh[t]))] else []
      case WriteHead => [Write(c.start, HeadBlock(Read(s.view, c.start), s.lh))]
      case Install(t) => if t < |s.lh| then [Write(s.lh[t], Read(s.view, c.start + t + 1))] else []
      case Clear => [Write(c.start, HeadBlock(Read(s.view, c.start), []))]
      case _ => []
    else if e.Recover? && s.phase.Replay? then
      if s.phase.tail < |s.lh| then [Write(s.lh[s.phase.tail], Read(s.view, c.start + s.phase.tail + 1))]
      else [Write(c.start, HeadBlock(Read(s.view, c.start), []))]
    else []
  }

  /** The disk changes by these writes and by nothing else. */
  lemma StepWritesExact(c: Config, s: State, e: Event)
    requires Enabled(c, s, e)
    ensures Next(c, s, e).disk == Apply(s.disk, StepWrites(c, s, e))
  {
    if e.Commit? {
      CommitWritesExact(c, s);
    } else if e.Recover? {
      RecoverWritesExact(c, s);
    }
  }

  lemma CommitWritesExact(c: Config, s: State)
    requires InCommit(s) && |s.lh| <= LOGSIZE
    ensures CommitStep(c, s).disk == Apply(s.disk, StepWrites(c, s, Commit))
  {
    var ws := StepWrites(c, s, Commit);
    if ws != [] {
      ApplyOne(s.disk, ws[0]);
    }
  }

  lemma RecoverWritesExact(c: Config, s: State)
    requires Enabled(c, s, Recover)
    ensures RecoverStep(c, s).disk == Apply(s.disk, StepWrites(c, s, Recover))
  {
    var ws := StepWrites(c, s, Recover);
    if ws != [] {
      ApplyOne(s.disk, ws[0]);
    }
  }

  function RunWrites(c: Config, s: State, es: seq<Event>): seq<Write>
    requires IsRun(c, s, es)
    decreases |es|
  {
    if es == [] then [] else StepWrites(c, s, es[0]) + RunWrites(c, Next(c, s, es[0]), es[1..])
  }

  /** In every run the disk is the first one with the writes of the run applied. */
  lemma {:induction false} RunWritesExact(c: Config, s: State, es: seq<Event>)
    requires IsRun(c, s, es)
    ensures After(c, s, es).disk == Apply(s.disk, RunWrites(c, s, es))
    decreases |es|
  {
    if es != [] {
      var s1 := Next(c, s, es[0]);
      StepWritesExact(c, s, es[0]);
      RunWritesExact(c, s1, es[1..]);
      ApplyConcat(s.disk, StepWrites(c, s, es[0]), RunWrites(c, s1, es[1..]));
    }
  }

  /** A commit in the protocol starts as the trace results ask. */
  lemma ProtocolCommitStarts(c: Config, s: State)
    requires ConfigOk(c) && Inv(c, s) && s.phase == WriteLog(0)
    ensures CommitStarts(c, s.disk, s.view, s.lh)
  {
    forall b | Untouched(c, s.lh, b) ensures Read(s.disk, b) == Read(s.view, b) {
      assert Clean(s, b);
    }
  }

  /** The first `t` log blocks of `v` are copies of the logged blocks; these and the header are as in `view`. */
  ghost predicate LogCopied(c: Config, view: Image, lh: seq<nat>, v: Image, t: nat) {
    t <= |lh| && Read(v, c.start) == Read(view, c.start) &&
    (forall i :: 0 <= i < |lh| ==> Read(v, lh[i]) == Read(view, lh[i])) &&
    (forall i :: 0 <= i < t ==> Read(v, c.start + i + 1) == Read(view, lh[i]))
  }

  lemma LogCopiedStep(c: Config, view: Image, lh: seq<nat>, v: Image, t: nat)
    requires LogCopied(c, view, lh, v, t) && t < |lh| < c.size && forall i :: 0 <= i < |lh| ==> !InLog(c, lh[i])
    ensures LogCopied(c, view, lh, Put(v, Write(c.start + t + 1, Read(view, lh[t]))), t + 1)
  {
    assert InLog(c, c.start + t + 1);
  }

  /** The header names `lh` and the log blocks of `v` are copies of the logged blocks of `view`. */
  ghost predicate HeadCopied(c: Config, view: Image, lh: seq<nat>, v: Image) {
    |lh| <= LOGSIZE && Read(v, c.start) == HeadBlock(Read(view, c.start), lh) &&
    forall i {:trigger lh[i]} :: 0 <= i < |lh| ==> Read(v, c.start + i + 1) == Read(view, lh[i])
  }

  lemma HeadCopiedStep(c: Config, view: Image, lh: seq<nat>, v: Image, w: Write)
    requires HeadCopied(c, view, lh, v) && !InLog(c, w.at) && |lh| < c.size
    ensures HeadCopied(c, view, lh, Put(v, w))
  {
    assert InLog(c, c.start);
    forall i {:trigger lh[i]} | 0 <= i < |lh| ensures Read(Put(v, w), c.start + i + 1) == Read(view, lh[i]) {
      assert InLog(c, c.start + i + 1);
    }
  }

  ghost predicate Fits(c: Config, lh: seq<nat>) {
    0 < |lh| <= LOGSIZE && |lh| < c.size && forall i :: 0 <= i < |lh| ==> !InLog(c, lh[i])
  }

  /** `s` is inside the commit of `lh` with first view `view`, and `k` of its writes have been made. */
  ghost predicate CommitAt(c: Config, view: Image, lh: seq<nat>, s: State, k: nat) {
    && (if s.phase.Done? then s.lh == [] else s.lh == lh)
    && match s.phase
       case WriteLog(t) => k == t && LogCopied(c, view, lh, s.view, t)
       case WriteHead => k == |lh| && LogCopied(c, view, lh, s.view, k)
       case Install(t) => t <= |lh| && k == |lh| + 1 + t && HeadCopied(c, view, lh, s.view)
       case Clear => k == 2 * |lh| + 1 && HeadCopied(c, view, lh, s.view)
       case Done => k == 2 * |lh| + 2
       case _ => false
  }

  /** What `e` writes in `s` is what `all` has at place `k`, or nothing. */
  ghost predicate WritesAt(c: Config, s: State, e: Event, all: seq<Write>, k: nat) {
    Enabled(c, s, e) && (StepWrites(c, s, e) == [] || (k < |all| && StepWrites(c, s, e) == [all[k]]))
  }

  /** From `s` on, `n` steps `e` lead to the idle state and make exactly the writes of `all` from the `k`-th on. */
  ghost predicate Issues(c: Config, s: State, e: Event, n: nat, all: seq<Write>, k: nat)
    decreases n
  {
    if n == 0 then s.phase.Idle? && k == |all|
    else WritesAt(c, s, e, all, k) && Issues(c, Next(c, s, e), e, n - 1, all, k + |StepWrites(c, s, e)|)
  }

  /** `n` steps `e` from `s` are a run to the idle state that writes `all` from the `k`-th write on. */
  ghost predicate RunsOut(c: Config, s: State, e: Event, n: nat, all: seq<Write>, k: nat) {
    k <= |all| && IsRun(c, s, Times(e, n)) && After(c, s, Times(e, n)).phase.Idle? &&
    RunWrites(c, s, Times(e, n)) == all[k..]
  }

  lemma RunsOutMore(c: Config, s: State, e: Event, n: nat, all: seq<Write>, k: nat)
    requires n > 0 && k <= |all| && WritesAt(c, s, e, all, k)
    requires RunsOut(c, Next(c, s, e), e, n - 1, all, k + |StepWrites(c, s, e)|)
    ensures RunsOut(c, s, e, n, all, k)
  {
    var ws := StepWrites(c, s, e);
    TimesCons(e, n);
    RunWritesCons(c, s, Times(e, n));
    assert all[k..] == ws + all[k + |ws|..];
  }

  lemma IssuesFirst(c: Config, s: State, e: Event, n: nat, all: seq<Write>, k: nat) returns (s': State, k': nat)
    requires Issues(c, s, e, n, all, k) && k <= |all| && n > 0
    ensures Issues(c, s', e, n - 1, all, k') && k' <= |all|
    ensures RunsOut(c, s', e, n - 1, all, k') ==> RunsOut(c, s, e, n, all, k)
  {
    s', k' := Next(c, s, e), k + |StepWrites(c, s, e)|;
    if RunsOut(c, s', e, n - 1, all, k') {
      RunsOutMore(c, s, e, n, all, k);
    }
  }

  lemma {:induction false} IssuesIsRun(c: Config, s: State, e: Event, n: nat, all: seq<Write>, k: nat)
    requires Issues(c, s, e, n, all, k) && k <= |all|
    ensures RunsOut(c, s, e, n, all, k)
    decreases n
  {
    if n > 0 {
      var s', k' := IssuesFirst(c, s, e, n, all, k);
      IssuesIsRun(c, s', e, n - 1, all, k');
    }
  }

  lemma RunWritesCons(c: Config, s: State, es: seq<Event>)
    requires es != [] && Enabled(c, s, es[0]) && IsRun(c, Next(c, s, es[0]), es[1..])
    ensures IsRun(c, s, es) && After(c, s, es) == After(c, Next(c, s, es[0]), es[1..])
    ensures RunWrites(c, s, es) == StepWrites(c, s, es[0]) + RunWrites(c, Next(c, s, es[0]), es[1..])
  {
  }

  lemma LogBlockStep(c: Config, view: Image, lh: seq<nat>, s: State, k: nat)
    requires Fits(c, lh) && CommitAt(c, view, lh, s, k) && s.phase.WriteLog?
    ensures WritesAt(c, s, Commit, CommitTrace(c, view, lh), k)
    ensures CommitAt(c, view, lh, Next(c, s, Commit), k + |StepWrites(c, s, Commit)|)
  {
    if k < |lh| {
      LogCopiedStep(c, view, lh, s.view, k);
    }
  }

  lemma HomeBlockStep(c: Config, view: Image, lh: seq<nat>, s: State, k: nat)
    requires Fits(c, lh) && CommitAt(c, view, lh, s, k) && s.phase.Install?
    ensures WritesAt(c, s, Commit, CommitTrace(c, view, lh), k)
    ensures CommitAt(c, view, lh, Next(c, s, Commit), k + |StepWrites(c, s, Commit)|)
  {
    var t := s.phase.tail;
    if t < |lh| {
      HeadCopiedStep(c, view, lh, s.view, Write(lh[t], Read(s.view, c.start + t + 1)));
    }
  }

  lemma HeadBlockStep(c: Config, view: Image, lh: seq<nat>, s: State, k: nat)
    requires Fits(c, lh) && CommitAt(c, view, lh, s, k) && (s.phase.WriteHead? || s.phase.Clear?)
    ensures WritesAt(c, s, Commit, CommitTrace(c, view, lh), k)
    ensures CommitAt(c, view, lh, Next(c, s, Commit), k + |StepWrites(c, s, Commit)|)
  {
  }

  /** `s` is at write `k` of the commit of `lh` and has `n` steps to go. */
  ghost predicate CommitLeft(c: Config, view: Image, lh: seq<nat>, s: State, k: nat, all: seq<Write>, n: nat) {
    Fits(c, lh) && CommitAt(c, view, lh, s, k) && all == CommitTrace(c, view, lh) && n == StepsLeft(s)
  }

  /** One step of a commit makes the next write of the commit trace, or none. */
  lemma CommitAtStep(c: Config, view: Image, lh: seq<nat>, s: State, k: nat, all: seq<Write>, n: nat)
    requires CommitLeft(c, view, lh, s, k, all, n) && !s.phase.Done?
    ensures n > 0 && WritesAt(c, s, Commit, all, k)
    ensures CommitLeft(c, view, lh, Next(c, s, Commit), k + |StepWrites(c, s, Commit)|, all, n - 1)
  {
    if s.phase.WriteLog? {
      LogBlockStep(c, view, lh, s, k);
    } else if s.phase.Install? {
      HomeBlockStep(c, view, lh, s, k);
    } else {
      HeadBlockStep(c, view, lh, s, k);
    }
    StepsLeftDrops(c, s);
  }

  lemma CommitMore(c: Config, view: Image, lh: seq<nat>, s: State, k: nat, all: seq<Write>, n: nat)
      returns (s': State, k': nat)
    requires CommitLeft(c, view, lh, s, k, all, n) && !s.phase.Done?
    ensures n > 0 && CommitLeft(c, view, lh, s', k', all, n - 1)
    ensures Issues(c, s', Commit, n - 1, all, k') ==> Issues(c, s, Commit, n, all, k)
  {
    CommitAtStep(c, view, lh, s, k, all, n);
    s', k' := Next(c, s, Commit), k + |StepWrites(c, s, Commit)|;
  }

  lemma IssuesLast(c: Config, view: Image, lh: seq<nat>, s: State, k: nat, all: seq<Write>)
    requires |lh| <= LOGSIZE && CommitAt(c, view, lh, s, k) && s.phase.Done? && |all| == 2 * |lh| + 2
    ensures StepsLeft(s) == 1 && Issues(c, s, Commit, 1, all, k)
  {
    assert Issues(c, Next(c, s, Commit), Commit, 0, all, k);
  }

  lemma {:induction false} CommitRest(c: Config, view: Image, lh: seq<nat>, s: State, k: nat, all: seq<Write>, n: nat)
    requires CommitLeft(c, view, lh, s, k, all, n)
    ensures Issues(c, s, Commit, n, all, k)
    decreases n
  {
    if s.phase.Done? {
      IssuesLast(c, view, lh, s, k, all);
    } else {
      var s', k' := CommitMore(c, view, lh, s, k, all, n);
      CommitRest(c, view, lh, s', k', all, n - 1);
    }
  }

  /** The commit of the protocol, from the moment `end_op` starts it, writes exactly the commit trace. */
  lemma CommitIssuesTrace(c: Config, s: State)
    requires ConfigOk(c) && Inv(c, s) && s.phase == WriteLog(0) && s.lh != []
    ensures IsRun(c, s, Times(Commit, StepsLeft(s)))
    ensures RunWrites(c, s, Times(Commit, StepsLeft(s))) == CommitTrace(c, s.view, s.lh)
    ensures After(c, s, Times(Commit, StepsLeft(s))).disk == Apply(s.disk, CommitTrace(c, s.view, s.lh))
    ensures AllHold(c, After(c, s, Times(Commit, StepsLeft(s))), s.view)
  {
    CommitCompletes(c, s, s.view, StepsLeft(s));
    var all := CommitTrace(c, s.view, s.lh);
    CommitRest(c, s.view, s.lh, s, 0, all, StepsLeft(s));
    IssuesIsRun(c, s, Commit, StepsLeft(s), all, 0);
    RunWritesExact(c, s, Times(Commit, StepsLeft(s)));
  }

  /** `s` has copied home the first `t` of the logged blocks `h` found on `d`. */
  ghost predicate ReplayAt(c: Config, d: Image, h: seq<nat>, s: State, t: nat) {
    && s.phase == Replay(t) && s.lh == h && t <= |h| < c.size && (forall i :: 0 <= i < |h| ==> !InLog(c, h[i]))
    && (forall b {:trigger InLog(c, b)} :: InLog(c, b) ==> Read(s.view, b) == Read(d, b))
  }

  lemma ReplayAtStep(c: Config, d: Image, h: seq<nat>, s: State, t: nat)
    requires HeadOk(Read(d, c.start)) && h == HeadList(Read(d, c.start)) && ReplayAt(c, d, h, s, t)
    ensures Enabled(c, s, Recover) && StepWrites(c, s, Recover) == [RecoverWrite(c, d, t)]
    ensures if t < |h| then ReplayAt(c, d, h, Next(c, s, Recover), t + 1) else Next(c, s, Recover).phase.Idle?
  {
    assert InLog(c, c.start);
    if t < |h| {
      assert InLog(c, c.start + t + 1) && !InLog(c, h[t]);
    }
  }

  lemma {:induction false} ReplayRest(c: Config, d: Image, h: seq<nat>, s: State, t: nat, all: seq<Write>)
    requires HeadOk(Read(d, c.start)) && h == HeadList(Read(d, c.start)) && ReplayAt(c, d, h, s, t)
    requires all == RecoverTrace(c, d)
    ensures Issues(c, s, Recover, |h| + 1 - t, all, t)
    decreases |h| - t
  {
    ReplayAtStep(c, d, h, s, t);
    var s' := Next(c, s, Recover);
    if t < |h| {
      ReplayRest(c, d, h, s', t + 1, all);
    } else {
      assert Issues(c, s', Recover, 0, all, t + 1);
    }
  }

  /** An undisturbed recovery of the protocol writes exactly the recovery trace. */
  lemma RecoveryIssuesTrace(c: Config, s: State)
    requires ConfigOk(c) && Inv(c, s) && s.phase.Boot?
    ensures HeadOk(Read(s.disk, c.start))
    ensures var es := Times(Recover, |HeadList(Read(s.disk, c.start))| + 2);
            && IsRun(c, s, es) && After(c, s, es).phase.Idle?
            && RunWrites(c, s, es) == RecoverTrace(c, s.disk)
            && After(c, s, es).disk == Apply(s.disk, RecoverTrace(c, s.disk))
  {
    forall b {:trigger InLog(c, b)} | InLog(c, b) ensures Read(s.view, b) == Read(s.disk, b) {
      assert Clean(s, b);
    }
    assert InLog(c, c.start);
    var h, all := HeadList(Read(s.disk, c.start)), RecoverTrace(c, s.disk);
    ReplayRest(c, s.disk, h, Next(c, s, Recover), 0, all);
    IssuesIsRun(c, s, Recover, |h| + 2, all, 0);
    RunWritesExact(c, s, Times(Recover, |h| + 2));
  }
}

/** The log code itself: the in-memory log header, the disk it writes and the loops that copy blocks.
    Every method that writes is tied to a trace of LogTrace, and LogTrace ties these to the steps of LogProtocol. */
module LogCode {
  import opened Disk
  import opened LogProtocol
  import opened Params
  import opened LogTrace

  class Log {
    const c: Config
    /** `log.lh.block[0..log.lh.n]`. */
    var lh: seq<nat>
    var outstanding: int
    var committing: bool
    var disk: Image
    /** The disk as `bread` shows it. */
    var view: Image
    /** Every block write issued so far. */
    ghost var trace: seq<Write>

    constructor (c: Config, disk: Image)
      ensures this.c == c && this.disk == disk && view == disk && lh == [] && trace == []
      ensures outstanding == 0 && !committing
    {
      this.c := c;
      this.disk, this.view, lh, trace := disk, disk, [], [];
      outstanding, committing := 0, false;
    }

    /** Since the old state exactly the writes `ws` were issued, and all of them arrived. */
    twostate predicate Issued(ws: seq<Write>)
      reads this
    {
      && trace == old(trace) + ws
      && disk == Apply(old(disk), ws)
      && view == Apply(old(view), ws)
    }

    ghost predicate ListOk()
      reads this
    {
      && |lh| <= LOGSIZE && |lh| < c.size
      && Distinct(lh)
      && (forall i :: 0 <= i < |lh| ==> !InLog(c, lh[i]))
    }

    method Bwrite(b: nat, data: Block)
      modifies this`disk, this`view, this`trace
      ensures disk == Put(old(disk), Write(b, data)) && view == Put(old(view), Write(b, data))
      ensures trace == old(trace) + [Write(b, data)]
    {
      disk := disk[b := data];
      view := view[b := data];
      trace := trace + [Write(b, data)];
    }

    /** `write_log`: the cached contents of the logged blocks go to the log area, in order. */
    method WriteLog()
      requires ListOk()
      modifies this`disk, this`view, this`trace
      ensures Issued(LogWrites(c, old(view), lh))
    {
      ghost var ws := LogWrites(c, view, lh);
      var tail := 0;
      while tail < |lh|
        invariant 0 <= tail <= |lh|
        invariant Issued(ws[..tail])
      {
        var from := Read(view, lh[tail]);
        assert ws[tail] == Write(c.start + tail + 1, from) by {
          LogPrefixReads(c, old(view), lh, tail);
        }
        Push(old(disk), old(view), old(trace), disk, view, trace, ws, tail);
        Bwrite(c.start + tail + 1, from);
        tail := tail + 1;
      }
      assert ws[..tail] == ws;
    }

    /** `write_head`. */
    method WriteHead()
      requires |lh| <= LOGSIZE
      modifies this`disk, this`view, this`trace
      ensures var w := Write(c.start, HeadBlock(Read(old(view), c.start), lh));
              disk == Put(old(disk), w) && view == Put(old(view), w) && trace == old(trace) + [w]
    {
      Bwrite(c.start, HeadBlock(Read(view, c.start), lh));
    }

    /** `install_trans`: each log block goes to its home location, in order. */
    method InstallTrans()
      requires ListOk()
      modifies this`disk, this`view, this`trace
      ensures Issued(HomeWrites(c, old(view), lh))
    {
      ghost var ws := HomeWrites(c, view, lh);
      var tail := 0;
      while tail < |lh|
        invariant 0 <= tail <= |lh|
        invariant Issued(ws[..tail])
      {
        var lbuf := Read(view, c.start + tail + 1);
        assert ws[tail] == Write(lh[tail], lbuf) by {
          HomePrefixReads(c, old(view), lh, tail);
          assert InLog(c, c.start + tail + 1);
        }
        Push(old(disk), old(view), old(trace), disk, view, trace, ws, tail);
        Bwrite(lh[tail], lbuf);
        tail := tail + 1;
      }
      assert ws[..tail] == ws;
    }

    /** `commit`: issues exactly the commit trace and empties the in-memory header. */
    method Commit()
      requires ListOk()
      modifies this`disk, this`view, this`trace, this`lh
      ensures Issued(CommitTrace(c, old(view), old(lh)))
      ensures lh == []
    {
      if |lh| > 0 {
        CommitParts(c, view, disk, view, trace, lh);
        WriteLog();
        WriteHead();
        InstallTrans();
        lh := [];
        WriteHead();
      }
    }

    /** `read_head`. */
    method ReadHead()
      requires HeadOk(Read(view, c.start))
      modifies this`lh
      ensures lh == HeadList(Read(view, c.start))
    {
      var hb := Read(view, c.start).words;
      var n := hb[0];
      lh := [];
      var i := 0;
      while i < n
        invariant 0 <= i <= n && lh == hb[1..1 + i]
      {
        lh := lh + [hb[1 + i]];
        i := i + 1;
      }
    }

    /** `recover_from_log`, on a freshly booted machine whose cache shows the disk. */
    method RecoverFromLog(ghost durable: Image)
      requires ConfigOk(c) && view == disk && Recoverable(c, disk, durable)
      modifies this`disk, this`view, this`trace, this`lh
      ensures Issued(RecoverTrace(c, old(disk)))
      ensures view == disk && lh == []
      ensures SameHome(c, disk, durable)
      ensures HeadOk(Read(disk, c.start)) && HeadList(Read(disk, c.start)) == []
    {
      RecoverParts(c, disk, trace, durable);
      RecoverWhole(c, disk, durable);
      ReadHead();
      InstallTrans();
      lh := [];
      WriteHead();
    }

    /** One pass of `begin_op`'s loop under the log lock; `false` means it goes to sleep. */
    method TryBeginOp() returns (ok: bool)
      modifies this`outstanding
      ensures ok <==> !committing && |lh| + (old(outstanding) + 1) * MAXOPBLOCKS <= LOGSIZE
      ensures outstanding == if ok then old(outstanding) + 1 else old(outstanding)
    {
      if committing {
        ok := false;
      } else if |lh| + (outstanding + 1) * MAXOPBLOCKS > LOGSIZE {
        ok := false;
      } else {
        outstanding := outstanding + 1;
        ok := true;
      }
    }

    /** `log_write` of a buffer holding `data` for block `b`, where its panic guards pass: the block
        is recorded once, however often it is logged. */
    method LogWrite(b: nat, data: Block)
      requires |lh| < LOGSIZE && |lh| < c.size - 1 && outstanding >= 1
      requires ListOk() && !InLog(c, b)
      modifies this`lh, this`view
      ensures ListOk()
      ensures lh == if b in old(lh) then old(lh) else old(lh) + [b]
      ensures view == old(view)[b := data]
    {
      view := view[b := data];
      var i := 0;
      while i < |lh| && lh[i] != b
        invariant 0 <= i <= |lh|
        invariant forall j :: 0 <= j < i ==> lh[j] != b
      {
        i := i + 1;
      }
      if i == |lh| {
        lh := lh + [b];
      } else {
        lh := lh[i := b];
      }
    }

    /** `end_op`, with the commit it runs when the last operation ends. Finding a commit under way
        is its panic. */
    method EndOp()
      requires !committing && ListOk()
      modifies this
      ensures outstanding == old(outstanding) - 1 && !committing
      ensures outstanding == 0 ==> lh == [] && Issued(CommitTrace(c, old(view), old(lh)))
      ensures outstanding != 0 ==> lh == old(lh) && Issued([])
    {
      var doCommit := false;
      outstanding := outstanding - 1;
      if outstanding == 0 {
        doCommit := true;
        committing := true;
      }
      if doCommit {
        Commit();
        committing := false;
      }
    }
  }

  /** The writes of `write_log` when the cached view is `view`. */
  function LogWrites(c: Config, view: Image, lh: seq<nat>): seq<Write> {
    seq(|lh|, i requires 0 <= i < |lh| => Write(c.start + i + 1, Read(view, lh[i])))
  }

  /** The writes of `install_trans` when the cached view is `view`. */
  function HomeWrites(c: Config, view: Image, lh: seq<nat>): seq<Write> {
    seq(|lh|, i requires 0 <= i < |lh| => Write(lh[i], Read(view, c.start + i + 1)))
  }

  /** `write_log` touches only log blocks: the first `t` become copies, the rest stay. */
  lemma {:induction false} LogPrefixReads(c: Config, view: Image, lh: seq<nat>, t: nat)
    requires |lh| <= LOGSIZE && |lh| < c.size && t <= |lh|
    requires forall i :: 0 <= i < |lh| ==> !InLog(c, lh[i])
    ensures LogCopied(c, view, lh, Apply(view, LogWrites(c, view, lh)[..t]), t)
  {
    if t > 0 {
      var u, ws := t - 1, LogWrites(c, view, lh);
      var v, w := Apply(view, ws[..u]), Write(c.start + u + 1, Read(view, lh[u]));
      LogPrefixReads(c, view, lh, u);
      assert LogCopied(c, view, lh, Put(v, w), t) by { LogCopiedStep(c, view, lh, v, u); }
      assert Apply(view, ws[..t]) == Put(v, w) by { ApplyStep(view, ws, u); }
    }
  }

  /** `install_trans` touches no block of the log. */
  lemma {:induction false} HomePrefixReads(c: Config, view: Image, lh: seq<nat>, t: nat)
    requires t <= |lh| && forall i :: 0 <= i < |lh| ==> !InLog(c, lh[i])
    ensures forall b {:trigger InLog(c, b)} :: InLog(c, b) ==>
              Read(Apply(view, HomeWrites(c, view, lh)[..t]), b) == Read(view, b)
  {
    if t > 0 {
      HomePrefixReads(c, view, lh, t - 1);
      ApplyStep(view, HomeWrites(c, view, lh), t - 1);
    }
  }

  /** The header write of a commit, after `write_log` has left the view at `v1`. */
  function HeadWrite(c: Config, v1: Image, lh: seq<nat>): Write
    requires |lh| <= LOGSIZE
  {
    Write(c.start, HeadBlock(Read(v1, c.start), lh))
  }

  /** What `install_trans` reads once `write_log` has left the view at `v1` and the header `w` is written, and what
      it leaves of that header. */
  lemma HomeReads(c: Config, view: Image, lh: seq<nat>, v1: Image, w: Write)
    requires LogCopied(c, view, lh, v1, |lh|) && w.at == c.start && |lh| < c.size
    requires forall i :: 0 <= i < |lh| ==> !InLog(c, lh[i])
    ensures forall i :: 0 <= i < |lh| ==> Read(Put(v1, w), c.start + i + 1) == Read(view, lh[i])
    ensures Read(Apply(Put(v1, w), HomeWrites(c, Put(v1, w), lh)), c.start) == w.block
  {
    var v2 := Put(v1, w);
    HomePrefixReads(c, v2, lh, |lh|);
    assert HomeWrites(c, v2, lh)[..|lh|] == HomeWrites(c, v2, lh) && InLog(c, c.start);
  }

  /** The writes of a commit past the log blocks are those of its trace. */
  lemma CommitReads(c: Config, view: Image, lh: seq<nat>)
    requires 0 < |lh| <= LOGSIZE && |lh| < c.size
    requires forall i :: 0 <= i < |lh| ==> !InLog(c, lh[i])
    ensures var v1 := Apply(view, LogWrites(c, view, lh));
            var v2 := Put(v1, HeadWrite(c, v1, lh));
            var v3 := Apply(v2, HomeWrites(c, v2, lh));
            && Read(v1, c.start) == Read(view, c.start)
            && (forall i :: 0 <= i < |lh| ==> Read(v2, c.start + i + 1) == Read(view, lh[i]))
            && Read(v3, c.start) == HeadBlock(Read(view, c.start), lh)
  {
    var logs := LogWrites(c, view, lh);
    LogPrefixReads(c, view, lh, |lh|);
    assert logs[..|lh|] == logs;
    var v1 := Apply(view, logs);
    HomeReads(c, view, lh, v1, HeadWrite(c, v1, lh));
  }

  /** The four stages of a commit, each reading the view the previous one left, together issue the
      commit trace. */
  lemma CommitStages(c: Config, view: Image, lh: seq<nat>)
    requires 0 < |lh| <= LOGSIZE && |lh| < c.size
    requires forall i :: 0 <= i < |lh| ==> !InLog(c, lh[i])
    ensures var v1 := Apply(view, LogWrites(c, view, lh));
            var v2 := Put(v1, HeadWrite(c, v1, lh));
            var v3 := Apply(v2, HomeWrites(c, v2, lh));
            CommitTrace(c, view, lh) == LogWrites(c, view, lh) + [HeadWrite(c, v1, lh)]
                                        + HomeWrites(c, v2, lh) + [HeadWrite(c, v3, [])]
  {
    CommitReads(c, view, lh);
  }

  lemma CommitParts(c: Config, view: Image, d: Image, v: Image, t: seq<Write>, lh: seq<nat>)
    requires 0 < |lh| <= LOGSIZE && |lh| < c.size
    requires forall i :: 0 <= i < |lh| ==> !InLog(c, lh[i])
    ensures var ws := CommitTrace(c, view, lh);
            var logs := LogWrites(c, view, lh);
            var v1 := Apply(view, logs);
            var head := HeadWrite(c, v1, lh);
            var v2 := Put(v1, head);
            var home := HomeWrites(c, v2, lh);
            var clear := HeadWrite(c, Apply(v2, home), []);
            && Apply(d, ws) == Put(Apply(Put(Apply(d, logs), head), home), clear)
            && Apply(v, ws) == Put(Apply(Put(Apply(v, logs), head), home), clear)
            && t + ws == t + logs + [head] + home + [clear]
  {
    CommitStages(c, view, lh);
    var logs := LogWrites(c, view, lh);
    var v1 := Apply(view, logs);
    var head := HeadWrite(c, v1, lh);
    var v2 := Put(v1, head);
    var home := HomeWrites(c, v2, lh);
    var clear := HeadWrite(c, Apply(v2, home), []);
    FourParts(d, t, logs, head, home, clear);
    FourParts(v, t, logs, head, home, clear);
  }

  lemma RecoverParts(c: Config, d: Image, t: seq<Write>, durable: Image)
    requires Recoverable(c, d, durable)
    ensures var ws := RecoverTrace(c, d);
            var home := HomeWrites(c, d, HeadList(Read(d, c.start)));
            var clear := HeadWrite(c, Apply(d, home), []);
            && Apply(d, ws) == Put(Apply(d, home), clear)
            && t + ws == t + home + [clear]
  {
    var h := HeadList(Read(d, c.start));
    var home := HomeWrites(c, d, h);
    HomePrefixReads(c, d, h, |h|);
    assert home[..|h|] == home;
    assert Read(Apply(d, home), c.start) == Read(d, c.start) by { assert InLog(c, c.start); }
    var clear := HeadWrite(c, Apply(d, home), []);
    var ws := RecoverTrace(c, d);
    assert ws == home + [clear];
    ApplyConcat(d, home, [clear]);
    ApplyOne(Apply(d, home), clear);
  }

  /** One more write of the trace `ws` has been issued. */
  lemma Push(d0: Image, v0: Image, t0: seq<Write>, d: Image, v: Image, t: seq<Write>, ws: seq<Write>, k: nat)
    requires k < |ws| && d == Apply(d0, ws[..k]) && v == Apply(v0, ws[..k]) && t == t0 + ws[..k]
    ensures Put(d, ws[k]) == Apply(d0, ws[..k + 1]) && Put(v, ws[k]) == Apply(v0, ws[..k + 1])
    ensures t + [ws[k]] == t0 + ws[..k + 1]
  {
    ApplyStep(d0, ws, k);
    ApplyStep(v0, ws, k);
    assert ws[..k + 1] == ws[..k] + [ws[k]];
  }

  lemma Assoc(t: seq<Write>, p: seq<Write>, q: seq<Write>, r: seq<Write>, u: seq<Write>)
    ensures t + (p + q + r + u) == t + p + q + r + u
  {
  }

  lemma FourParts(d: Image, t: seq<Write>, p: seq<Write>, x: Write, r: seq<Write>, y: Write)
    ensures Apply(d, p + [x] + r + [y]) == Put(Apply(Put(Apply(d, p), x), r), y)
    ensures t + (p + [x] + r + [y]) == t + p + [x] + r + [y]
  {
    Assoc(t, p, [x], r, [y]);
    var px := p + [x];
    var pxr := px + r;
    ApplyConcat(d, pxr, [y]);
    ApplyConcat(d, px, r);
    ApplyConcat(d, p, [x]);
    ApplyOne(Apply(d, p), x);
    ApplyOne(Apply(d, pxr), y);
  }
}

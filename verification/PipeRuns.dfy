/** All interleavings of readers and writers on one pipe. A step is what a thread does under the pipe's
    lock; when it sleeps, `sleep` releases that lock and marks the thread asleep in one go. */
module PipeRuns {
  import opened Blocks
  import opened Pipes

  /** A thread in `pipewrite` still has `src[i..]` to write; `base` is how much it had stored before this
      call. A thread in `piperead` wants `n` bytes. */
  datatype Thread =
    | Idle
    | Writing(src: seq<Byte>, i: nat, base: nat, asleep: bool)
    | Reading(n: nat, asleep: bool)

  /** `log` records every byte stored with the thread that stored it, `removed` every byte taken out. */
  datatype State = State(ring: Ring, log: seq<(nat, Byte)>, removed: seq<Byte>, threads: seq<Thread>)

  datatype Event =
    | StartWrite(t: nat, src: seq<Byte>)
    | WriteOn(t: nat, killAt: nat, badAt: nat)
    | StartRead(t: nat, n: nat)
    | ReadOn(t: nat, killed: bool, badAt: nat)
    | Kill(t: nat)
    | CloseWrite
    | CloseRead

  function Bytes(log: seq<(nat, Byte)>): (bs: seq<Byte>)
    ensures |bs| == |log|
    ensures forall k :: 0 <= k < |log| ==> bs[k] == log[k].1
  {
    seq(|log|, k requires 0 <= k < |log| => log[k].1)
  }

  function Tag(t: nat, bs: seq<Byte>): (log: seq<(nat, Byte)>)
    ensures |log| == |bs|
    ensures forall k :: 0 <= k < |bs| ==> log[k] == (t, bs[k])
  {
    seq(|bs|, k requires 0 <= k < |bs| => (t, bs[k]))
  }

  /** What thread `t` stored. */
  function Of(log: seq<(nat, Byte)>, t: nat): seq<Byte> {
    if log == [] then []
    else if log[|log| - 1].0 == t then Of(log[..|log| - 1], t) + [log[|log| - 1].1]
    else Of(log[..|log| - 1], t)
  }

  function Awake(T: Thread): Thread {
    match T
    case Idle => Idle
    case Writing(src, i, base, _) => Writing(src, i, base, false)
    case Reading(n, _) => Reading(n, false)
  }

  function WakeReaders(ts: seq<Thread>): (us: seq<Thread>)
    ensures |us| == |ts|
    ensures forall t :: 0 <= t < |ts| ==> us[t] == if ts[t].Reading? then Awake(ts[t]) else ts[t]
  {
    seq(|ts|, t requires 0 <= t < |ts| => if ts[t].Reading? then Awake(ts[t]) else ts[t])
  }

  function WakeWriters(ts: seq<Thread>): (us: seq<Thread>)
    ensures |us| == |ts|
    ensures forall t :: 0 <= t < |ts| ==> us[t] == if ts[t].Writing? then Awake(ts[t]) else ts[t]
  {
    seq(|ts|, t requires 0 <= t < |ts| => if ts[t].Writing? then Awake(ts[t]) else ts[t])
  }

  /** An end is closed when its last file descriptor is, so no thread is then using it. */
  predicate Enabled(s: State, e: Event) {
    |s.ring.data| == PIPESIZE &&
    match e
    case StartWrite(t, _) => t < |s.threads| && s.threads[t].Idle? && s.ring.writeopen
    case WriteOn(t, _, _) => t < |s.threads| && s.threads[t].Writing? && !s.threads[t].asleep &&
      s.threads[t].i <= |s.threads[t].src|
    case StartRead(t, _) => t < |s.threads| && s.threads[t].Idle? && s.ring.readopen
    case ReadOn(t, _, _) => t < |s.threads| && s.threads[t].Reading? && !s.threads[t].asleep
    case Kill(t) => t < |s.threads|
    case CloseWrite => s.ring.writeopen && forall t :: 0 <= t < |s.threads| ==> !s.threads[t].Writing?
    case CloseRead => s.ring.readopen && forall t :: 0 <= t < |s.threads| ==> !s.threads[t].Reading?
  }

  /** `pipewrite` wakes the readers before it sleeps and before it returns a count, but not when it fails. */
  function WriteStep(s: State, t: nat, killAt: nat, badAt: nat): State
    requires Enabled(s, WriteOn(t, killAt, badAt))
  {
    var T := s.threads[t];
    var w := WriteRun(s.ring, T.src, T.i, killAt, badAt);
    var woken := if w.end.Failed? then s.threads else WakeReaders(s.threads);
    var log := if T.i <= w.i <= |T.src| then s.log + Tag(t, T.src[T.i..w.i]) else s.log;
    State(w.ring, log, s.removed, woken[t := if w.end.Slept? then Writing(T.src, w.i, T.base, true) else Idle])
  }

  function ReadStep(s: State, t: nat, killed: bool, badAt: nat): State
    requires Enabled(s, ReadOn(t, killed, badAt))
  {
    var T := s.threads[t];
    var c := ReadRun(s.ring, T.n, killed, badAt);
    var woken := if c.end.Returned? then WakeWriters(s.threads) else s.threads;
    State(c.ring, s.log, s.removed + c.got, woken[t := if c.end.Slept? then Reading(T.n, true) else Idle])
  }

  function Next(s: State, e: Event): State
    requires Enabled(s, e)
  {
    match e
    case StartWrite(t, src) => s.(threads := s.threads[t := Writing(src, 0, |Of(s.log, t)|, false)])
    case WriteOn(t, killAt, badAt) => WriteStep(s, t, killAt, badAt)
    case StartRead(t, n) => s.(threads := s.threads[t := Reading(n, false)])
    case ReadOn(t, killed, badAt) => ReadStep(s, t, killed, badAt)
    case Kill(t) => s.(threads := s.threads[t := Awake(s.threads[t])])
    case CloseWrite => s.(ring := s.ring.(writeopen := false), threads := WakeReaders(s.threads))
    case CloseRead => s.(ring := s.ring.(readopen := false), threads := WakeWriters(s.threads))
  }

  predicate IsRun(s: State, es: seq<Event>)
    decreases |es|
  {
    es == [] || (Enabled(s, es[0]) && IsRun(Next(s, es[0]), es[1..]))
  }

  function After(s: State, es: seq<Event>): State
    requires IsRun(s, es)
    decreases |es|
  {
    if es == [] then s else After(Next(s, es[0]), es[1..])
  }

  /** A new pipe. */
  predicate Init(s: State) {
    s.ring.nread == 0 && s.ring.nwrite == 0 && |s.ring.data| == PIPESIZE && s.ring.readopen && s.ring.writeopen &&
    s.log == [] && s.removed == [] && forall t :: 0 <= t < |s.threads| ==> s.threads[t].Idle?
  }

  // ----- Nothing is lost, reordered or invented -----

  /** Sleeping writers wait for space and for readers that still exist; a thread that writes has stored a
      prefix of what it was asked to. */
  predicate ThreadOk(s: State, t: nat) {
    t < |s.threads| &&
    match s.threads[t]
    case Idle => true
    case Reading(_, _) => s.ring.readopen
    case Writing(src, i, base, asleep) =>
      s.ring.writeopen && i <= |src| && (asleep ==> Full(s.ring) && s.ring.readopen) &&
      base + i == |Of(s.log, t)| && Of(s.log, t)[base..] == src[..i]
  }

  predicate Inv(s: State) {
    Holds(s.ring, Bytes(s.log), |s.removed|) && s.removed == Bytes(s.log)[..|s.removed|] &&
    forall t: nat :: t < |s.threads| ==> ThreadOk(s, t)
  }

  lemma BytesTag(log: seq<(nat, Byte)>, t: nat, bs: seq<Byte>)
    ensures Bytes(log + Tag(t, bs)) == Bytes(log) + bs
  {
  }

  lemma {:induction false} OfTag(log: seq<(nat, Byte)>, t: nat, bs: seq<Byte>, u: nat)
    ensures Of(log + Tag(t, bs), u) == if u == t then Of(log, u) + bs else Of(log, u)
  {
    if bs == [] {
      assert log + Tag(t, bs) == log;
    } else {
      var all := log + Tag(t, bs);
      assert all[..|all| - 1] == log + Tag(t, bs[..|bs| - 1]);
      OfTag(log, t, bs[..|bs| - 1], u);
      assert bs == bs[..|bs| - 1] + [bs[|bs| - 1]];
    }
  }

  lemma InitInv(s: State)
    requires Init(s)
    ensures Inv(s)
  {
  }

  lemma WriteStepParts(s: State, t: nat, killAt: nat, badAt: nat)
    requires Inv(s) && Enabled(s, WriteOn(t, killAt, badAt))
    ensures var T, w := s.threads[t], WriteRun(s.ring, s.threads[t].src, s.threads[t].i, killAt, badAt);
            var s' := WriteStep(s, t, killAt, badAt);
            T.i <= w.i <= |T.src| && s'.log == s.log + Tag(t, T.src[T.i..w.i]) &&
            Holds(w.ring, Bytes(s'.log), |s.removed|) &&
            s'.removed == Bytes(s'.log)[..|s.removed|]
  {
    var T := s.threads[t];
    WriteRunStores(s.ring, Bytes(s.log), |s.removed|, T.src, T.i, killAt, badAt);
    BytesTag(s.log, t, T.src[T.i..WriteRun(s.ring, T.src, T.i, killAt, badAt).i]);
  }

  lemma WriteStepThread(s: State, t: nat, killAt: nat, badAt: nat, u: nat)
    requires Inv(s) && Enabled(s, WriteOn(t, killAt, badAt)) && u < |s.threads|
    ensures ThreadOk(WriteStep(s, t, killAt, badAt), u)
  {
    var T := s.threads[t];
    var w := WriteRun(s.ring, T.src, T.i, killAt, badAt);
    WriteRunStores(s.ring, Bytes(s.log), |s.removed|, T.src, T.i, killAt, badAt);
    OfTag(s.log, t, T.src[T.i..w.i], u);
    assert ThreadOk(s, u) && ThreadOk(s, t);
    if u == t {
      PrefixGrows(Of(s.log, t), T.base, T.src, T.i, w.i);
    } else if s.threads[u].Writing? && s.threads[u].asleep {
      FullStays(s.ring, T.src, T.i, killAt, badAt);
    }
  }

  lemma PrefixGrows(all: seq<Byte>, base: nat, src: seq<Byte>, i: nat, j: nat)
    requires base + i == |all| && i <= j <= |src| && all[base..] == src[..i]
    ensures (all + src[i..j])[base..] == src[..j]
  {
    assert (all + src[i..j])[base..] == all[base..] + src[i..j];
  }

  /** A write finds a full ring full. */
  lemma FullStays(r: Ring, src: seq<Byte>, i: nat, killAt: nat, badAt: nat)
    requires |r.data| == PIPESIZE && Full(r)
    ensures WriteRun(r, src, i, killAt, badAt).ring == r
  {
  }

  lemma ReadStepKeepsInv(s: State, t: nat, killed: bool, badAt: nat)
    requires Inv(s) && Enabled(s, ReadOn(t, killed, badAt))
    ensures Inv(ReadStep(s, t, killed, badAt))
  {
    var stored := Bytes(s.log);
    ReadRunTakes(s.ring, stored, |s.removed|, s.threads[t].n, killed, badAt);
    var c := ReadRun(s.ring, s.threads[t].n, killed, badAt);
    assert stored[..|s.removed|] + stored[|s.removed|..|s.removed| + |c.got|] == stored[..|s.removed| + |c.got|];
    forall u: nat | u < |s.threads| ensures ThreadOk(ReadStep(s, t, killed, badAt), u) {
      assert ThreadOk(s, u);
    }
  }

  lemma NextKeepsInv(s: State, e: Event)
    requires Inv(s) && Enabled(s, e)
    ensures Inv(Next(s, e))
  {
    match e
    case WriteOn(t, killAt, badAt) =>
      WriteStepParts(s, t, killAt, badAt);
      forall u: nat | u < |s.threads| ensures ThreadOk(Next(s, e), u) {
        WriteStepThread(s, t, killAt, badAt, u);
      }
    case ReadOn(t, killed, badAt) => ReadStepKeepsInv(s, t, killed, badAt);
    case _ =>
      forall u: nat | u < |s.threads| ensures ThreadOk(Next(s, e), u) {
        assert ThreadOk(s, u);
      }
  }

  lemma {:induction false} RunKeepsInv(s: State, es: seq<Event>)
    requires Inv(s) && IsRun(s, es)
    ensures Inv(After(s, es))
    decreases |es|
  {
    if es != [] {
      NextKeepsInv(s, es[0]);
      RunKeepsInv(Next(s, es[0]), es[1..]);
    }
  }

  /** The bytes in the ring, oldest first. */
  function Buffered(r: Ring): seq<Byte>
    requires |r.data| == PIPESIZE
  {
    seq((r.nwrite - r.nread) % WRAP, k => r.data[(r.nread + k) % WRAP % PIPESIZE])
  }

  lemma SlotAt(r: Ring, stored: seq<Byte>, taken: nat, k: nat)
    requires Holds(r, stored, taken) && k < |stored| - taken
    ensures r.data[(r.nread + k) % WRAP % PIPESIZE] == stored[taken + k]
  {
    WrapPlus(taken, k);
    WrapKeepsSlot(taken + k);
  }

  lemma CountIs(r: Ring, stored: seq<Byte>, taken: nat)
    requires Holds(r, stored, taken)
    ensures (r.nwrite - r.nread) % WRAP == |stored| - taken
  {
  }

  lemma BufferedIs(r: Ring, stored: seq<Byte>, taken: nat)
    requires Holds(r, stored, taken)
    ensures Buffered(r) == stored[taken..]
  {
    CountIs(r, stored, taken);
    var buffered := Buffered(r);
    assert |buffered| == |stored[taken..]|;
    forall k: nat | k < |stored| - taken ensures buffered[k] == stored[taken..][k] {
      SlotAt(r, stored, taken, k);
    }
  }

  /** First in, first out: after any run, what has been removed followed by what is in the ring is what has
      been stored, and the ring holds at most 512 bytes. */
  lemma Fifo(s0: State, es: seq<Event>)
    requires Init(s0) && IsRun(s0, es)
    ensures var s := After(s0, es);
            |s.ring.data| == PIPESIZE && s.removed + Buffered(s.ring) == Bytes(s.log) && |Buffered(s.ring)| <= PIPESIZE
  {
    InitInv(s0);
    RunKeepsInv(s0, es);
    var s := After(s0, es);
    BufferedIs(s.ring, Bytes(s.log), |s.removed|);
  }

  /** What a thread has stored since its current `pipewrite` began is the first `i` bytes of its source,
      in order, whatever others have written in between. */
  lemma WritesInOrder(s0: State, es: seq<Event>, t: nat)
    requires Init(s0) && IsRun(s0, es)
    requires var s := After(s0, es); t < |s.threads| && s.threads[t].Writing?
    ensures var s := After(s0, es);
            var T := s.threads[t];
            T.base <= |Of(s.log, t)| && T.i <= |T.src| && Of(s.log, t)[T.base..] == T.src[..T.i]
  {
    InitInv(s0);
    RunKeepsInv(s0, es);
    assert ThreadOk(After(s0, es), t);
  }

  // ----- Nobody sleeps on a pipe that is ready -----

  /** After any run, a writer sleeps only while the ring is full and the read end open. */
  lemma SleepingWriterWaits(s0: State, es: seq<Event>, t: nat)
    requires Init(s0) && IsRun(s0, es)
    requires var s := After(s0, es); t < |s.threads| && s.threads[t].Writing? && s.threads[t].asleep
    ensures var s := After(s0, es);
            |s.ring.data| == PIPESIZE && |Buffered(s.ring)| == PIPESIZE && s.ring.readopen
  {
    InitInv(s0);
    RunKeepsInv(s0, es);
    var s := After(s0, es);
    assert ThreadOk(s, t);
    Tests(s.ring, Bytes(s.log), |s.removed|);
    BufferedIs(s.ring, Bytes(s.log), |s.removed|);
  }

  predicate SleepingReader(s: State) {
    exists t :: 0 <= t < |s.threads| && s.threads[t].Reading? && s.threads[t].asleep
  }

  /** A reader sleeps although there is something to read or nothing more to come. */
  predicate Forgotten(s: State) {
    SleepingReader(s) && (!Empty(s.ring) || !s.ring.writeopen)
  }

  /** While a reader sleeps a writer is killed after it has stored something and before its last byte, and
      nothing stops it earlier: neither an address it cannot read from nor a full ring. It then leaves by
      the one exit of `pipewrite` that does not wake the readers. */
  predicate Silent(s: State, e: Event)
    requires Enabled(s, e)
  {
    e.WriteOn? && SleepingReader(s) && s.ring.readopen &&
    var T := s.threads[e.t];
    T.i < e.killAt < |T.src| && e.killAt <= e.badAt &&
    e.killAt - T.i <= PIPESIZE - (s.ring.nwrite - s.ring.nread) % WRAP
  }

  predicate NeverForgotten(s: State, es: seq<Event>)
    requires IsRun(s, es)
    decreases |es|
  {
    !Forgotten(s) && (es != [] ==> NeverForgotten(Next(s, es[0]), es[1..]))
  }

  predicate NeverSilent(s: State, es: seq<Event>)
    requires IsRun(s, es)
    decreases |es|
  {
    es != [] ==> !Silent(s, es[0]) && NeverSilent(Next(s, es[0]), es[1..])
  }

  /** One step makes a reader forgotten exactly if it is such an exit. */
  lemma ForgottenStep(s: State, e: Event)
    requires Inv(s) && Enabled(s, e) && !Forgotten(s)
    ensures Forgotten(Next(s, e)) <==> Silent(s, e)
  {
    var s' := Next(s, e);
    match e
    case WriteOn(t, killAt, badAt) =>
      var T := s.threads[t];
      var w := WriteRun(s.ring, T.src, T.i, killAt, badAt);
      WriteRunStores(s.ring, Bytes(s.log), |s.removed|, T.src, T.i, killAt, badAt);
      WriteFailsPartWayIff(s.ring, Bytes(s.log), |s.removed|, T.src, T.i, killAt, badAt);
      CountIs(s.ring, Bytes(s.log), |s.removed|);
      Tests(s.ring, Bytes(s.log), |s.removed|);
      Tests(w.ring, Bytes(s.log) + T.src[T.i..w.i], |s.removed|);
      if w.end.Failed? && SleepingReader(s) {
        var u :| 0 <= u < |s.threads| && s.threads[u].Reading? && s.threads[u].asleep;
        assert s'.threads[u] == s.threads[u];
      }
    case ReadOn(t, killed, badAt) =>
      ReadRunTakes(s.ring, Bytes(s.log), |s.removed|, s.threads[t].n, killed, badAt);
      Tests(s.ring, Bytes(s.log), |s.removed|);
    case _ =>
  }

  /** After every prefix of a run no reader sleeps on a pipe that is ready for it, if and only if no writer
      in the run is killed between storing a byte and its next wakeup while a reader sleeps. */
  lemma {:induction false} SleepingReaderWaitsIff(s: State, es: seq<Event>)
    requires Inv(s) && IsRun(s, es) && !Forgotten(s)
    ensures NeverForgotten(s, es) <==> NeverSilent(s, es)
    decreases |es|
  {
    if es != [] {
      ForgottenStep(s, es[0]);
      NextKeepsInv(s, es[0]);
      if !Silent(s, es[0]) {
        SleepingReaderWaitsIff(Next(s, es[0]), es[1..]);
      } else {
        assert !NeverForgotten(Next(s, es[0]), es[1..]);
      }
    }
  }

  /** The forgotten reader: it sleeps on an empty pipe, a writer stores one byte of two and is then killed,
      and the byte stays in the ring with the reader asleep. */
  lemma KilledWriterForgetsReader(s0: State)
    requires Init(s0) && |s0.threads| == 2
    ensures exists es :: IsRun(s0, es) && Forgotten(After(s0, es))
  {
    var e1, e2, e3, e4 := StartRead(0, 1), ReadOn(0, false, 1), StartWrite(1, [7, 8]), WriteOn(1, 1, 2);
    var s1 := Next(s0, e1);
    var s2 := Next(s1, e2);
    var s3 := Next(s2, e3);
    assert s3.threads == [Reading(1, true), Writing([7, 8], 0, 0, false)];
    assert WriteRun(s3.ring, [7, 8], 0, 1, 2) == Wrote(Store(s3.ring, 7), 1, Failed) by {
      assert WriteRun(Store(s3.ring, 7), [7, 8], 1, 1, 2) == Wrote(Store(s3.ring, 7), 1, Failed);
    }
    assert Next(s3, e4).threads[0] == Reading(1, true);
    RunOfOne(s3, e4);
    RunOfMore(s2, e3, [e4]);
    RunOfMore(s1, e2, [e3] + [e4]);
    RunOfMore(s0, e1, [e2] + ([e3] + [e4]));
  }

  lemma RunOfOne(s: State, e: Event)
    requires Enabled(s, e)
    ensures IsRun(s, [e]) && After(s, [e]) == Next(s, e)
  {
    assert [e][1..] == [];
  }

  lemma RunOfMore(s: State, e: Event, es: seq<Event>)
    requires Enabled(s, e) && IsRun(Next(s, e), es)
    ensures IsRun(s, [e] + es) && After(s, [e] + es) == After(Next(s, e), es)
  {
    assert ([e] + es)[1..] == es;
  }

  /** No deadlock on the pipe: if no reader is forgotten, a reader and a writer never sleep at once. */
  lemma NeverBothAsleep(s0: State, es: seq<Event>, t: nat)
    requires Init(s0) && IsRun(s0, es) && NeverSilent(s0, es)
    requires var s := After(s0, es); t < |s.threads| && s.threads[t].Writing? && s.threads[t].asleep
    ensures !SleepingReader(After(s0, es))
  {
    InitInv(s0);
    RunKeepsInv(s0, es);
    SleepingReaderWaitsIff(s0, es);
    LastNotForgotten(s0, es);
    var s := After(s0, es);
    assert ThreadOk(s, t);
    Tests(s.ring, Bytes(s.log), |s.removed|);
  }

  lemma {:induction false} LastNotForgotten(s: State, es: seq<Event>)
    requires IsRun(s, es) && NeverForgotten(s, es)
    ensures !Forgotten(After(s, es))
    decreases |es|
  {
    if es != [] {
      LastNotForgotten(Next(s, es[0]), es[1..]);
    }
  }
}

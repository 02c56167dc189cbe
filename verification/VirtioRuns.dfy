/** All interleavings of threads in `virtio_disk_rw`, the interrupt handler and a disk that takes and
    completes requests in any order. A step of the driver is what happens under its lock. */
module VirtioRuns {
  import opened Virtqueue

  /** The ring indices are 16 bits wide. */
  const WRAP := 0x1_0000

  /** How far a request is: in the avail ring, taken by the disk, in the used ring, or acknowledged by the
      interrupt handler. */
  datatype Stage = Queued | Taken | Done | Acked

  /** A thread transfers buffer `b`: it asks for descriptors, or its request flies with chain `i0`, `i1`,
      `i2`. `asleep` says that it sleeps for descriptors or for the end of its request. */
  datatype Thread =
    | Idle
    | Asking(b: nat, asleep: bool)
    | Flying(b: nat, i0: nat, i1: nat, i2: nat, stage: Stage, asleep: bool)

  /** `info` gives the buffer of the chain with that head and `busy` the buffers with `b->disk` set. `availIdx`
      and `usedIdx` are the indices in the rings, `devIdx` how far the disk has read the avail ring and `seen`
      how far the driver has read the used ring. Not in memory: `queued`, `working` and `finished` say which
      thread each request belongs to, in the order of the rings. */
  datatype State = State(
    free: seq<bool>,
    desc: seq<Desc>,
    info: seq<int>,
    busy: set<nat>,
    avail: seq<nat>,
    availIdx: nat,
    devIdx: nat,
    used: seq<nat>,
    usedIdx: nat,
    seen: nat,
    threads: seq<Thread>,
    queued: seq<nat>,
    working: map<nat, nat>,
    finished: seq<nat>
  )

  datatype Event =
    | Start(t: nat, b: nat)
    | Submit(t: nat, i0: nat, i1: nat, i2: nat)
    | NoRoom(t: nat)
    | Check(t: nat)
    | Take
    | Complete(h: nat)
    | Interrupt

  predicate Sizes(s: State) {
    |s.free| == |s.desc| == |s.info| == |s.avail| == |s.used| == NUM
  }

  predicate Uses(T: Thread, b: nat) {
    !T.Idle? && T.b == b
  }

  /** The caller holds the lock of its buffer, so no other thread transfers it. The disk reads an entry of the
      avail ring when the indices differ, and completes what it has taken. */
  predicate Enabled(s: State, e: Event) {
    Sizes(s) &&
    match e
    case Start(t, b) => t < |s.threads| && s.threads[t].Idle? && forall u :: 0 <= u < |s.threads| ==>
      !Uses(s.threads[u], b)
    case Submit(t, i0, i1, i2) => t < |s.threads| && s.threads[t].Asking? && !s.threads[t].asleep &&
      ThreeFree(s.free, i0, i1, i2)
    case NoRoom(t) => t < |s.threads| && s.threads[t].Asking? && !s.threads[t].asleep && Count(s.free) < 3
    case Check(t) =>
      t < |s.threads| && s.threads[t].Flying? && !s.threads[t].asleep &&
      s.threads[t].i0 < NUM && s.threads[t].i1 < NUM && s.threads[t].i2 < NUM
    case Take => s.devIdx != s.availIdx && s.queued != [] && s.queued[0] < |s.threads| && s.threads[s.queued[0]].Flying?
    case Complete(h) => h in s.working && s.working[h] < |s.threads| && s.threads[s.working[h]].Flying?
    case Interrupt =>
      s.seen != s.usedIdx && s.finished != [] && s.finished[0] < |s.threads| && s.threads[s.finished[0]].Flying? &&
      s.used[s.seen % WRAP % NUM] < NUM
  }

  /** `wakeup` of the threads that sleep for descriptors. */
  function WakeAsking(ts: seq<Thread>): (us: seq<Thread>)
    ensures |us| == |ts|
    ensures forall t :: 0 <= t < |ts| ==> us[t] == if ts[t].Asking? then Asking(ts[t].b, false) else ts[t]
  {
    seq(|ts|, t requires 0 <= t < |ts| => if ts[t].Asking? then Asking(ts[t].b, false) else ts[t])
  }

  function WithStage(T: Thread, st: Stage): Thread
    requires T.Flying?
  {
    Flying(T.b, T.i0, T.i1, T.i2, st, T.asleep)
  }

  function WithSleep(T: Thread, asleep: bool): Thread
    requires T.Flying?
  {
    Flying(T.b, T.i0, T.i1, T.i2, T.stage, asleep)
  }

  /** Formatting the chain and publishing its head. */
  function SubmitStep(s: State, t: nat, i0: nat, i1: nat, i2: nat): State
    requires Enabled(s, Submit(t, i0, i1, i2))
  {
    var b := s.threads[t].b;
    s.(free := s.free[i0 := false][i1 := false][i2 := false],
    desc := s.desc[i0 := Desc(i1, true)][i1 := Desc(i2, true)][i2 := Desc(0, false)],
    info := s.info[i0 := b], busy := s.busy + {b},
    avail := s.avail[s.availIdx % NUM := i0], availIdx := (s.availIdx + 1) % WRAP,
    threads := s.threads[t := Flying(b, i0, i1, i2, Queued, false)], queued := s.queued + [t])
  }

  /** The wait loop's test: the thread sleeps on, or frees its chain, wakes those who ask, and returns. */
  function CheckStep(s: State, t: nat): State
    requires Enabled(s, Check(t))
  {
    var T := s.threads[t];
    if T.b in s.busy then s.(threads := s.threads[t := WithSleep(T, true)])
    else
      s.(info := s.info[T.i0 := -1], free := s.free[T.i0 := true][T.i1 := true][T.i2 := true],
      desc := s.desc[T.i0 := Desc(0, false)][T.i1 := Desc(0, false)][T.i2 := Desc(0, false)],
      threads := WakeAsking(s.threads)[t := Idle])
  }

  function TakeStep(s: State): State
    requires Enabled(s, Take)
  {
    var t := s.queued[0];
    s.(devIdx := (s.devIdx + 1) % WRAP, queued := s.queued[1..],
      working := s.working[s.avail[s.devIdx % WRAP % NUM] := t],
    threads := s.threads[t := WithStage(s.threads[t], Taken)])
  }

  function CompleteStep(s: State, h: nat): State
    requires Enabled(s, Complete(h))
  {
    var t := s.working[h];
    s.(used := s.used[s.usedIdx % WRAP % NUM := h], usedIdx := (s.usedIdx + 1) % WRAP, working := s.working - {h},
    finished := s.finished + [t], threads := s.threads[t := WithStage(s.threads[t], Done)])
  }

  /** One turn of the loop in `virtio_disk_intr`: the buffer recorded for the used entry is no longer busy,
      and whoever sleeps for it is woken. */
  function InterruptStep(s: State): State
    requires Enabled(s, Interrupt)
  {
    var b, t := s.info[s.used[s.seen % WRAP % NUM]], s.finished[0];
    var woken := WakeBuffer(s.threads, b);
    s.(seen := (s.seen + 1) % WRAP, finished := s.finished[1..], busy := (set x | x in s.busy && x != b),
    threads := woken[t := WithStage(woken[t], Acked)])
  }

  function WakeBuffer(ts: seq<Thread>, b: int): (us: seq<Thread>)
    ensures |us| == |ts|
    ensures forall t :: 0 <= t < |ts| ==> us[t] == if ts[t].Flying? && ts[t].b == b then WithSleep(ts[t], false)
            else ts[t]
  {
    seq(|ts|, t requires 0 <= t < |ts| => if ts[t].Flying? && ts[t].b == b then WithSleep(ts[t], false) else ts[t])
  }

  function Next(s: State, e: Event): State
    requires Enabled(s, e)
  {
    match e
    case Start(t, b) => s.(threads := s.threads[t := Asking(b, false)])
    case Submit(t, i0, i1, i2) => SubmitStep(s, t, i0, i1, i2)
    case NoRoom(t) =>
      s.(threads := (if Count(s.free) > 0 then WakeAsking(s.threads) else s.threads)[t := Asking(s.threads[t].b, true)])
    case Check(t) => CheckStep(s, t)
    case Take => TakeStep(s)
    case Complete(h) => CompleteStep(s, h)
    case Interrupt => InterruptStep(s)
  }

  predicate IsRun(s: State, es: seq<Event>)
    decreases |es|
  {
    es == [] || (Enabled(s, es[0]) && IsRun(Next(s, es[0]), es[1..]))
  }

  function After(s: State, es: seq<Event>): State
    requires IsRun(s, es)
    decreases |es|
  {
    if es == [] then s else After(Next(s, es[0]), es[1..])
  }

  /** After `virtio_disk_init`. */
  predicate Init(s: State) {
    Sizes(s) && (forall i :: 0 <= i < NUM ==> s.free[i]) && s.busy == {} &&
    s.availIdx == 0 && s.devIdx == 0 && s.usedIdx == 0 && s.seen == 0 &&
    s.queued == [] && s.working == map[] && s.finished == [] && forall t :: 0 <= t < |s.threads| ==> s.threads[t].Idle?
  }
}

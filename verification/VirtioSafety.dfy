/** What every reachable state of the disk driver and the disk satisfies. */
module VirtioSafety {
  import opened Virtqueue
  import opened VirtioRuns

  // ----- Slots of the rings -----

  function Slot(x: nat): nat {
    x % WRAP % NUM
  }

  /** Wrapping the index loses nothing: the ring's size divides 2^16. */
  lemma SlotIs(x: nat)
    ensures Slot(x) == x % NUM
  {
    assert x == NUM * (8192 * (x / WRAP)) + x % WRAP;
    MultipleOff(x % WRAP, 8192 * (x / WRAP));
  }

  lemma {:induction false} MultipleOff(x: nat, q: nat)
    ensures (NUM * q + x) % NUM == x % NUM
  {
    if q > 0 {
      MultipleOff(x, q - 1);
    }
  }

  lemma SlotsApart(x: nat, i: nat, j: nat)
    requires i < j < i + NUM
    ensures Slot(x + i) != Slot(x + j)
  {
    var y, z := x + i, x + j;
    assert Slot(y) == y % NUM by { SlotIs(y); }
    assert Slot(z) == z % NUM by { SlotIs(z); }
    ModApart(y, z);
  }

  lemma ModApart(y: nat, z: nat)
    requires y < z < y + NUM
    ensures y % NUM != z % NUM
  {
  }

  lemma SlotShift(x: nat, j: nat)
    ensures Slot((x + 1) % WRAP + j) == Slot(x + (j + 1))
  {
    var y, q := (x + 1) % WRAP, (x + 1) / WRAP;
    SlotIs(y + j);
    SlotIs(x + (j + 1));
    assert x + (j + 1) == NUM * (8192 * q) + (y + j);
    MultipleOff(y + j, 8192 * q);
  }

  lemma IndexShift(x: nat, n: nat)
    requires n > 0
    ensures ((x + 1) % WRAP + (n - 1)) % WRAP == (x + n) % WRAP
  {
  }

  lemma IndexEqual(x: nat, n: nat)
    requires x < WRAP && n < WRAP
    ensures (x + n) % WRAP == x <==> n == 0
  {
  }

  // ----- How many requests are at each stage -----

  function At(T: Thread, st: Stage): nat {
    if T.Flying? && T.stage == st then 1 else 0
  }

  function Tally(ts: seq<Thread>, st: Stage): nat {
    if ts == [] then 0 else Tally(ts[..|ts| - 1], st) + At(ts[|ts| - 1], st)
  }

  lemma {:induction false} TallyChange(ts: seq<Thread>, t: nat, T: Thread, st: Stage)
    requires t < |ts|
    ensures Tally(ts[t := T], st) == Tally(ts, st) - At(ts[t], st) + At(T, st)
  {
    var n := |ts| - 1;
    if t == n {
      assert ts[t := T][..n] == ts[..n];
    } else {
      assert ts[t := T][..n] == ts[..n][t := T];
      TallyChange(ts[..n], t, T, st);
    }
  }

  lemma {:induction false} TallySame(ts: seq<Thread>, us: seq<Thread>, st: Stage)
    requires |ts| == |us| && forall t :: 0 <= t < |ts| ==> At(us[t], st) == At(ts[t], st)
    ensures Tally(us, st) == Tally(ts, st)
  {
    if ts != [] {
      TallySame(ts[..|ts| - 1], us[..|us| - 1], st);
    }
  }

  lemma {:induction false} TallyNone(ts: seq<Thread>, st: Stage)
    requires forall t :: 0 <= t < |ts| ==> ts[t].Idle?
    ensures Tally(ts, st) == 0
  {
    if ts != [] {
      TallyNone(ts[..|ts| - 1], st);
    }
  }

  function InFlight(ts: seq<Thread>): nat {
    Tally(ts, Queued) + Tally(ts, Taken) + Tally(ts, Done) + Tally(ts, Acked)
  }

  // ----- The invariant -----

  predicate Flies(s: State, t: nat) {
    t < |s.threads| && s.threads[t].Flying?
  }

  /** A request has its own chain of three descriptors, none of them free, and its buffer is busy until the
      request is acknowledged. */
  predicate FlyOk(s: State, t: nat) {
    Sizes(s) &&
    (Flies(s, t) ==>
       var T := s.threads[t];
       T.i0 < NUM && T.i1 < NUM && T.i2 < NUM && T.i0 != T.i1 && T.i0 != T.i2 && T.i1 != T.i2 &&
       !s.free[T.i0] && !s.free[T.i1] && !s.free[T.i2] && Chain(s.desc, T.i0, T.i1, T.i2) && s.info[T.i0] == T.b &&
       (T.b in s.busy <==> !T.stage.Acked?) && (T.asleep ==> !T.stage.Acked?))
  }

  predicate InChain(T: Thread, d: nat) {
    T.Flying? && (T.i0 == d || T.i1 == d || T.i2 == d)
  }

  /** Two threads transfer different buffers with different descriptors. */
  predicate Apart(s: State, t: nat, u: nat) {
    t < |s.threads| && u < |s.threads| &&
    var T, U := s.threads[t], s.threads[u];
    (!T.Idle? && !U.Idle? ==> T.b != U.b) &&
    (T.Flying? && U.Flying? ==> !InChain(U, T.i0) && !InChain(U, T.i1) && !InChain(U, T.i2))
  }

  predicate QueuedOk(s: State, j: nat) {
    j < |s.queued| && |s.avail| == NUM && Flies(s, s.queued[j]) && s.threads[s.queued[j]].stage.Queued? &&
    s.avail[Slot(s.devIdx + j)] == s.threads[s.queued[j]].i0
  }

  predicate FinishedOk(s: State, j: nat) {
    j < |s.finished| && |s.used| == NUM && Flies(s, s.finished[j]) && s.threads[s.finished[j]].stage.Done? &&
    s.used[Slot(s.seen + j)] == s.threads[s.finished[j]].i0
  }

  predicate WorkingOk(s: State, h: nat) {
    h in s.working && Flies(s, s.working[h]) && s.threads[s.working[h]].stage.Taken? && s.threads[s.working[h]].i0 == h
  }

  /** A thread that is not flying has no busy buffer, and sleeps for descriptors only while there are not
      three. */
  predicate AskOk(s: State, t: nat) {
    t < |s.threads| && (s.threads[t].Asking? ==>
       s.threads[t].b !in s.busy && (s.threads[t].asleep ==> Count(s.free) < 3))
  }

  /** Every busy buffer is being transferred by a thread. */
  predicate BusyOk(s: State, b: nat) {
    exists t :: 0 <= t < |s.threads| && s.threads[t].Flying? && s.threads[t].b == b
  }

  predicate Distinct(q: seq<nat>) {
    forall i, j :: 0 <= i < j < |q| ==> q[i] != q[j]
  }

  /** Free descriptors and three for each request in flight are all there are. */
  predicate Counts(free: seq<bool>, ts: seq<Thread>, queued: nat, finished: nat) {
    Count(free) + 3 * InFlight(ts) == NUM && queued == Tally(ts, Queued) && finished == Tally(ts, Done)
  }

  predicate Indices(s: State) {
    s.devIdx < WRAP && s.seen < WRAP &&
    s.availIdx == (s.devIdx + |s.queued|) % WRAP && s.usedIdx == (s.seen + |s.finished|) % WRAP
  }

  predicate Numbers(s: State) {
    Counts(s.free, s.threads, |s.queued|, |s.finished|) && Indices(s)
  }

  ghost predicate Inv(s: State) {
    Sizes(s) && Numbers(s) && Distinct(s.queued) && Distinct(s.finished) &&
    (forall t: nat :: t < |s.threads| ==> FlyOk(s, t)) &&
    (forall t: nat :: t < |s.threads| ==> AskOk(s, t)) &&
    (forall b: nat :: b in s.busy ==> BusyOk(s, b)) &&
    (forall t: nat, u: nat :: t < |s.threads| && u < |s.threads| && t != u ==> Apart(s, t, u)) &&
    (forall j: nat :: j < |s.queued| ==> QueuedOk(s, j)) &&
    (forall j: nat :: j < |s.finished| ==> FinishedOk(s, j)) &&
    forall h: nat :: h in s.working ==> WorkingOk(s, h)
  }

  lemma InitInv(s: State)
    requires Init(s)
    ensures Inv(s)
  {
    TallyNone(s.threads, Queued);
    TallyNone(s.threads, Taken);
    TallyNone(s.threads, Done);
    TallyNone(s.threads, Acked);
    var free := s.free;
    assert free == [true, true, true, true, true, true, true, true];
    CountAll(free);
  }

  lemma {:induction false} CountAll(free: seq<bool>)
    requires forall i :: 0 <= i < |free| ==> free[i]
    ensures Count(free) == |free|
  {
    if free != [] {
      CountAll(free[..|free| - 1]);
    }
  }

  // ----- Steps -----

  /** The parts of the invariant that a step without effect on requests keeps. */
  ghost predicate SameRequests(s: State, s': State) {
    s' == s.(threads := s'.threads) && |s'.threads| == |s.threads| &&
    forall t :: 0 <= t < |s.threads| ==> SameRequest(s.threads[t], s'.threads[t])
  }

  predicate SameRequest(T: Thread, U: Thread) {
    if T.Flying? then U.Flying? && U == Flying(T.b, T.i0, T.i1, T.i2, T.stage, U.asleep) else !U.Flying?
  }

  lemma SameRequestsParts(s: State, s': State)
    requires Inv(s) && SameRequests(s, s')
    ensures Numbers(s') && (forall j: nat :: j < |s'.queued| ==> QueuedOk(s', j)) &&
            (forall j: nat :: j < |s'.finished| ==> FinishedOk(s', j)) &&
            (forall h: nat :: h in s'.working ==> WorkingOk(s', h)) &&
            forall b: nat :: b in s'.busy ==> BusyOk(s', b)
  {
    TalliesSame(s.threads, s'.threads);
    forall j: nat | j < |s'.queued| ensures QueuedOk(s', j) {
      assert QueuedOk(s, j);
    }
    forall j: nat | j < |s'.finished| ensures FinishedOk(s', j) {
      assert FinishedOk(s, j);
    }
    forall h: nat | h in s'.working ensures WorkingOk(s', h) {
      assert WorkingOk(s, h);
    }
    forall b: nat | b in s'.busy ensures BusyOk(s', b) {
      assert BusyOk(s, b);
      var t :| 0 <= t < |s.threads| && s.threads[t].Flying? && s.threads[t].b == b;
      assert SameRequest(s.threads[t], s'.threads[t]);
    }
  }

  lemma TalliesSame(ts: seq<Thread>, us: seq<Thread>)
    requires |ts| == |us| && forall t :: 0 <= t < |ts| ==> SameRequest(ts[t], us[t])
    ensures forall st: Stage :: Tally(us, st) == Tally(ts, st)
  {
    forall st: Stage ensures Tally(us, st) == Tally(ts, st) {
      TallySame(ts, us, st);
    }
  }

  lemma StartKeepsInv(s: State, t: nat, b: nat)
    requires Inv(s) && Enabled(s, Start(t, b))
    ensures Inv(Next(s, Start(t, b)))
  {
    var s' := Next(s, Start(t, b));
    SameRequestsParts(s, s');
    assert b in s.busy ==> BusyOk(s, b);
    assert forall u :: 0 <= u < |s.threads| ==> !Uses(s.threads[u], b);
    forall u: nat | u < |s'.threads| ensures FlyOk(s', u) && AskOk(s', u) {
      assert FlyOk(s, u) && AskOk(s, u);
    }
    forall u: nat, v: nat | u < |s'.threads| && v < |s'.threads| && u != v ensures Apart(s', u, v) {
      assert Apart(s, u, v) && !Uses(s.threads[u], b) && !Uses(s.threads[v], b);
    }
  }

  lemma NoRoomKeepsInv(s: State, t: nat)
    requires Inv(s) && Enabled(s, NoRoom(t))
    ensures Inv(Next(s, NoRoom(t)))
  {
    var s' := Next(s, NoRoom(t));
    SameRequestsParts(s, s');
    forall u: nat | u < |s'.threads| ensures FlyOk(s', u) && AskOk(s', u) {
      assert FlyOk(s, u) && AskOk(s, u);
    }
    forall u: nat, v: nat | u < |s'.threads| && v < |s'.threads| && u != v ensures Apart(s', u, v) {
      assert Apart(s, u, v);
    }
  }

  lemma WaitKeepsInv(s: State, t: nat)
    requires Inv(s) && Enabled(s, Check(t)) && s.threads[t].b in s.busy
    ensures Inv(Next(s, Check(t)))
  {
    var s' := Next(s, Check(t));
    SameRequestsParts(s, s');
    forall u: nat | u < |s'.threads| ensures FlyOk(s', u) && AskOk(s', u) {
      assert FlyOk(s, u) && AskOk(s, u);
    }
    forall u: nat, v: nat | u < |s'.threads| && v < |s'.threads| && u != v ensures Apart(s', u, v) {
      assert Apart(s, u, v);
    }
  }

  lemma TalliesChange(ts: seq<Thread>, t: nat, T: Thread)
    requires t < |ts|
    ensures forall st: Stage :: Tally(ts[t := T], st) == Tally(ts, st) - At(ts[t], st) + At(T, st)
  {
    forall st: Stage ensures Tally(ts[t := T], st) == Tally(ts, st) - At(ts[t], st) + At(T, st) {
      TallyChange(ts, t, T, st);
    }
  }

  /** At most two requests are in flight, so the rings never fill. */
  lemma FewInFlight(s: State)
    requires Inv(s)
    ensures InFlight(s.threads) <= 2 && |s.queued| <= 2 && |s.finished| <= 2
  {
  }

  lemma IndexNext(x: nat, n: nat)
    ensures ((x + n) % WRAP + 1) % WRAP == (x + (n + 1)) % WRAP
  {
  }

  lemma SubmitCounts(free: seq<bool>, ts: seq<Thread>, q: nat, f: nat, t: nat, i0: nat, i1: nat, i2: nat)
    requires Counts(free, ts, q, f) && ThreeFree(free, i0, i1, i2) && t < |ts| && ts[t].Asking?
    ensures Counts(free[i0 := false][i1 := false][i2 := false], ts[t := Flying(ts[t].b, i0, i1, i2, Queued, false)],
              q + 1, f)
  {
    CountThree(free, i0, i1, i2);
    TalliesChange(ts, t, Flying(ts[t].b, i0, i1, i2, Queued, false));
  }

  lemma SubmitNumbers(s: State, t: nat, i0: nat, i1: nat, i2: nat)
    requires Numbers(s) && Enabled(s, Submit(t, i0, i1, i2))
    ensures Numbers(Next(s, Submit(t, i0, i1, i2)))
  {
    SubmitCounts(s.free, s.threads, |s.queued|, |s.finished|, t, i0, i1, i2);
    IndexNext(s.devIdx, |s.queued|);
  }

  lemma SubmitFly(s: State, t: nat, i0: nat, i1: nat, i2: nat, u: nat)
    requires Enabled(s, Submit(t, i0, i1, i2)) && FlyOk(s, u) && AskOk(s, u) && (u != t ==> Apart(s, u, t)) &&
             u < |s.threads|
    ensures var s' := Next(s, Submit(t, i0, i1, i2)); FlyOk(s', u) && AskOk(s', u)
  {
    CountThree(s.free, i0, i1, i2);
  }

  lemma SubmitApart(s: State, t: nat, i0: nat, i1: nat, i2: nat, u: nat, v: nat)
    requires Enabled(s, Submit(t, i0, i1, i2)) && Apart(s, u, v) && u != v && FlyOk(s, u) && FlyOk(s, v)
    ensures Apart(Next(s, Submit(t, i0, i1, i2)), u, v)
  {
  }

  lemma SubmitQueued(s: State, t: nat, i0: nat, i1: nat, i2: nat, j: nat)
    requires Enabled(s, Submit(t, i0, i1, i2)) && j < |s.queued| <= 2 && QueuedOk(s, j)
    requires s.availIdx == (s.devIdx + |s.queued|) % WRAP
    ensures QueuedOk(Next(s, Submit(t, i0, i1, i2)), j) && s.queued[j] != t
  {
    SlotsApart(s.devIdx, j, |s.queued|);
  }

  lemma SubmitBusy(s: State, t: nat, i0: nat, i1: nat, i2: nat, b: nat)
    requires Enabled(s, Submit(t, i0, i1, i2)) && b in Next(s, Submit(t, i0, i1, i2)).busy &&
             (b in s.busy ==> BusyOk(s, b))
    ensures BusyOk(Next(s, Submit(t, i0, i1, i2)), b)
  {
    var s' := Next(s, Submit(t, i0, i1, i2));
    assert s'.threads[t].Flying? && s'.threads[t].b == s.threads[t].b;
    if b != s.threads[t].b {
      var u :| 0 <= u < |s.threads| && s.threads[u].Flying? && s.threads[u].b == b;
      assert s'.threads[u] == s.threads[u];
    }
  }

  lemma SubmitKeepsInv(s: State, t: nat, i0: nat, i1: nat, i2: nat)
    requires Inv(s) && Enabled(s, Submit(t, i0, i1, i2))
    ensures Inv(Next(s, Submit(t, i0, i1, i2)))
  {
    var s' := Next(s, Submit(t, i0, i1, i2));
    SubmitNumbers(s, t, i0, i1, i2);
    FewInFlight(s);
    forall u: nat | u < |s'.threads| ensures FlyOk(s', u) && AskOk(s', u) {
      assert FlyOk(s, u) && AskOk(s, u) && (u != t ==> Apart(s, u, t));
      SubmitFly(s, t, i0, i1, i2, u);
    }
    forall u: nat, v: nat | u < |s'.threads| && v < |s'.threads| && u != v ensures Apart(s', u, v) {
      assert Apart(s, u, v) && FlyOk(s, u) && FlyOk(s, v);
      SubmitApart(s, t, i0, i1, i2, u, v);
    }
    SubmitQueues(s, t, i0, i1, i2);
  }

  lemma SubmitQueues(s: State, t: nat, i0: nat, i1: nat, i2: nat)
    requires Inv(s) && Enabled(s, Submit(t, i0, i1, i2)) && |s.queued| <= 2
    ensures var s' := Next(s, Submit(t, i0, i1, i2));
            (forall j: nat :: j < |s'.queued| ==> QueuedOk(s', j)) &&
            (forall j: nat :: j < |s'.finished| ==> FinishedOk(s', j)) &&
            (forall h: nat :: h in s'.working ==> WorkingOk(s', h)) &&
            (forall b: nat :: b in s'.busy ==> BusyOk(s', b)) &&
            Distinct(s'.queued)
  {
    var s' := Next(s, Submit(t, i0, i1, i2));
    forall j: nat | j < |s.queued| ensures QueuedOk(s', j) && s.queued[j] != t {
      assert QueuedOk(s, j);
      SubmitQueued(s, t, i0, i1, i2, j);
    }
    forall j: nat | j < |s'.finished| ensures FinishedOk(s', j) {
      assert FinishedOk(s, j);
    }
    forall h: nat | h in s'.working ensures WorkingOk(s', h) {
      assert WorkingOk(s, h);
    }
    forall b: nat | b in s'.busy ensures BusyOk(s', b) {
      assert b in s.busy ==> BusyOk(s, b);
      SubmitBusy(s, t, i0, i1, i2, b);
    }
  }

  lemma ReturnCounts(free: seq<bool>, ts: seq<Thread>, q: nat, f: nat, t: nat, i0: nat, i1: nat, i2: nat)
    requires Counts(free, ts, q, f) && t < |ts| && ts[t].Flying? && ts[t].stage.Acked? && |free| == NUM
    requires i0 < NUM && i1 < NUM && i2 < NUM && i0 != i1 && i0 != i2 && i1 != i2 && !free[i0] && !free[i1] && !free[i2]
    ensures Counts(free[i0 := true][i1 := true][i2 := true], WakeAsking(ts)[t := Idle], q, f)
  {
    CountFreed(free, i0, i1, i2);
    TalliesSame(ts, WakeAsking(ts));
    TalliesChange(WakeAsking(ts), t, Idle);
  }

  lemma ReturnNumbers(s: State, t: nat)
    requires Numbers(s) && Enabled(s, Check(t)) && s.threads[t].b !in s.busy && FlyOk(s, t)
    ensures Numbers(Next(s, Check(t)))
  {
    var T := s.threads[t];
    ReturnCounts(s.free, s.threads, |s.queued|, |s.finished|, t, T.i0, T.i1, T.i2);
  }

  lemma ReturnFly(s: State, t: nat, u: nat)
    requires Enabled(s, Check(t)) && s.threads[t].b !in s.busy && FlyOk(s, t) && u < |s.threads|
    requires FlyOk(s, u) && AskOk(s, u) && (u != t ==> Apart(s, u, t))
    ensures FlyOk(Next(s, Check(t)), u) && AskOk(Next(s, Check(t)), u)
  {
  }

  /** A thread that finds its buffer no longer busy frees its own three descriptors. */
  lemma ReturnKeepsInv(s: State, t: nat)
    requires Inv(s) && Enabled(s, Check(t)) && s.threads[t].b !in s.busy
    ensures Inv(Next(s, Check(t)))
  {
    var s' := Next(s, Check(t));
    assert FlyOk(s, t);
    ReturnNumbers(s, t);
    forall u: nat | u < |s'.threads| ensures FlyOk(s', u) && AskOk(s', u) {
      assert FlyOk(s, u) && AskOk(s, u) && (u != t ==> Apart(s, u, t));
      ReturnFly(s, t, u);
    }
    forall u: nat, v: nat | u < |s'.threads| && v < |s'.threads| && u != v ensures Apart(s', u, v) {
      assert Apart(s, u, v);
    }
    ReturnQueues(s, t);
  }

  lemma ReturnQueues(s: State, t: nat)
    requires Inv(s) && Enabled(s, Check(t)) && s.threads[t].b !in s.busy
    ensures var s' := Next(s, Check(t));
            (forall j: nat :: j < |s'.queued| ==> QueuedOk(s', j)) &&
            (forall j: nat :: j < |s'.finished| ==> FinishedOk(s', j)) &&
            (forall h: nat :: h in s'.working ==> WorkingOk(s', h)) && forall b: nat :: b in s'.busy ==> BusyOk(s', b)
  {
    var s' := Next(s, Check(t));
    assert FlyOk(s, t);
    forall j: nat | j < |s'.queued| ensures QueuedOk(s', j) {
      assert QueuedOk(s, j);
    }
    forall j: nat | j < |s'.finished| ensures FinishedOk(s', j) {
      assert FinishedOk(s, j);
    }
    forall h: nat | h in s'.working ensures WorkingOk(s', h) {
      assert WorkingOk(s, h);
    }
    forall b: nat | b in s'.busy ensures BusyOk(s', b) {
      assert BusyOk(s, b);
      var u :| 0 <= u < |s.threads| && s.threads[u].Flying? && s.threads[u].b == b;
      assert s'.threads[u] == s.threads[u];
    }
  }

  // ----- The disk and the interrupt handler -----

  /** Only the stage of the request of thread `t` has changed among the threads. */
  predicate Staged(s: State, s': State, t: nat) {
    Flies(s, t) && s'.free == s.free && s'.desc == s.desc && s'.info == s.info && |s'.threads| == |s.threads| &&
    Sizes(s') &&
    Flies(s', t) && s'.threads[t] == Flying(s.threads[t].b, s.threads[t].i0, s.threads[t].i1, s.threads[t].i2,
                                            s'.threads[t].stage, s'.threads[t].asleep) &&
    forall u :: 0 <= u < |s.threads| && u != t ==> s'.threads[u] == s.threads[u]
  }

  lemma StagedApart(s: State, s': State, t: nat, u: nat, v: nat)
    requires Staged(s, s', t) && Apart(s, u, v)
    ensures Apart(s', u, v)
  {
  }

  lemma StagedFly(s: State, s': State, t: nat, u: nat)
    requires Staged(s, s', t) && FlyOk(s, u) && s'.busy == s.busy && u < |s.threads| && AskOk(s, u)
    requires !s.threads[t].stage.Acked? && !s'.threads[t].stage.Acked? && s'.threads[t].asleep == s.threads[t].asleep
    ensures FlyOk(s', u) && AskOk(s', u)
  {
  }

  lemma StagedBusy(s: State, s': State, t: nat, b: nat)
    requires Staged(s, s', t) && BusyOk(s, b)
    ensures BusyOk(s', b)
  {
    var u :| 0 <= u < |s.threads| && s.threads[u].Flying? && s.threads[u].b == b;
    assert s'.threads[u].Flying? && s'.threads[u].b == b;
  }

  /** What a step of the disk keeps of threads and buffers. */
  lemma StagedKeeps(s: State, s': State, t: nat)
    requires Inv(s) && Staged(s, s', t) && s'.busy == s.busy
    requires !s.threads[t].stage.Acked? && !s'.threads[t].stage.Acked? && s'.threads[t].asleep == s.threads[t].asleep
    ensures forall u: nat :: u < |s'.threads| ==> FlyOk(s', u)
    ensures forall u: nat :: u < |s'.threads| ==> AskOk(s', u)
    ensures forall u: nat, v: nat :: u < |s'.threads| && v < |s'.threads| && u != v ==> Apart(s', u, v)
    ensures forall b: nat :: b in s'.busy ==> BusyOk(s', b)
  {
    forall u: nat | u < |s'.threads| ensures FlyOk(s', u) && AskOk(s', u) {
      assert FlyOk(s, u) && AskOk(s, u);
      StagedFly(s, s', t, u);
    }
    forall u: nat, v: nat | u < |s'.threads| && v < |s'.threads| && u != v ensures Apart(s', u, v) {
      assert Apart(s, u, v);
      StagedApart(s, s', t, u, v);
    }
    forall b: nat | b in s'.busy ensures BusyOk(s', b) {
      assert BusyOk(s, b);
      StagedBusy(s, s', t, b);
    }
  }

  lemma StagedCounts(free: seq<bool>, ts: seq<Thread>, q: nat, f: nat, t: nat, st: Stage)
    requires Counts(free, ts, q, f) && t < |ts| && ts[t].Flying? && ts[t].stage != st && !st.Queued?
    ensures At(ts[t], Queued) <= q && At(ts[t], Done) <= f
    ensures Counts(free, ts[t := WithStage(ts[t], st)], q - At(ts[t], Queued),
                   if st.Done? then f + 1 else f - At(ts[t], Done))
  {
    TalliesChange(ts, t, WithStage(ts[t], st));
  }

  lemma TakeQueues(s: State)
    requires Inv(s) && Enabled(s, Take)
    ensures var s' := Next(s, Take);
            (forall j: nat :: j < |s'.queued| ==> QueuedOk(s', j)) &&
            (forall j: nat :: j < |s'.finished| ==> FinishedOk(s', j)) &&
            (forall h: nat :: h in s'.working ==> WorkingOk(s', h)) && Distinct(s'.queued)
  {
    var s' := Next(s, Take);
    var t := s.queued[0];
    assert QueuedOk(s, 0);
    forall j: nat | j < |s'.queued| ensures QueuedOk(s', j) {
      assert QueuedOk(s, j + 1) && s.queued[0] != s.queued[j + 1];
      SlotShift(s.devIdx, j);
    }
    forall j: nat | j < |s'.finished| ensures FinishedOk(s', j) {
      assert FinishedOk(s, j);
    }
    forall h: nat | h in s'.working ensures WorkingOk(s', h) {
      if h != s.threads[t].i0 {
        assert WorkingOk(s, h);
      }
    }
  }

  lemma TakeNumbers(s: State)
    requires Numbers(s) && Enabled(s, Take) && QueuedOk(s, 0)
    ensures Numbers(Next(s, Take))
  {
    StagedCounts(s.free, s.threads, |s.queued|, |s.finished|, s.queued[0], Taken);
    IndexShift(s.devIdx, |s.queued|);
  }

  lemma TakeKeepsInv(s: State)
    requires Inv(s) && Enabled(s, Take)
    ensures Inv(Next(s, Take))
  {
    assert QueuedOk(s, 0);
    TakeNumbers(s);
    StagedKeeps(s, Next(s, Take), s.queued[0]);
    TakeQueues(s);
  }

  /** The slot that the disk writes next is not one that the driver has yet to read. */
  lemma CompleteFinished(s: State, h: nat, j: nat)
    requires Enabled(s, Complete(h)) && WorkingOk(s, h) && Indices(s) && |s.finished| <= 2 && j <= |s.finished|
    requires j < |s.finished| ==> FinishedOk(s, j)
    ensures FinishedOk(Next(s, Complete(h)), j) && (j < |s.finished| ==> s.finished[j] != s.working[h])
  {
    var n := |s.finished|;
    assert s.usedIdx % WRAP % NUM == Slot(s.seen + n);
    if j < n {
      SlotsApart(s.seen, j, n);
    }
  }

  lemma CompleteQueues(s: State, h: nat)
    requires Inv(s) && Enabled(s, Complete(h)) && WorkingOk(s, h)
    ensures var s' := Next(s, Complete(h));
            (forall j: nat :: j < |s'.queued| ==> QueuedOk(s', j)) &&
            (forall g: nat :: g in s'.working ==> WorkingOk(s', g))
  {
    var s' := Next(s, Complete(h));
    forall j: nat | j < |s'.queued| ensures QueuedOk(s', j) {
      assert QueuedOk(s, j);
    }
    forall g: nat | g in s'.working ensures WorkingOk(s', g) {
      assert WorkingOk(s, g);
    }
  }

  lemma CompleteNumbers(s: State, h: nat)
    requires Numbers(s) && Enabled(s, Complete(h)) && WorkingOk(s, h)
    ensures Numbers(Next(s, Complete(h)))
  {
    StagedCounts(s.free, s.threads, |s.queued|, |s.finished|, s.working[h], Done);
    IndexNext(s.seen, |s.finished|);
  }

  lemma CompleteKeepsInv(s: State, h: nat)
    requires Inv(s) && Enabled(s, Complete(h))
    ensures Inv(Next(s, Complete(h)))
  {
    var s' := Next(s, Complete(h));
    assert WorkingOk(s, h);
    CompleteNumbers(s, h);
    StagedKeeps(s, s', s.working[h]);
    CompleteQueues(s, h);
    FewInFlight(s);
    forall j: nat | j <= |s.finished| ensures FinishedOk(s', j) &&
      (j < |s.finished| ==> s.finished[j] != s.working[h]) {
      assert j < |s.finished| ==> FinishedOk(s, j);
      CompleteFinished(s, h, j);
    }
  }

  /** The entry of the used ring that the driver reads next names the request that was completed first, and
      the buffer recorded for it is that request's. */
  lemma NextUsed(s: State)
    requires Inv(s) && Enabled(s, Interrupt)
    ensures var t := s.finished[0];
            Flies(s, t) && s.threads[t].stage.Done? && s.info[s.used[s.seen % WRAP % NUM]] == s.threads[t].b &&
            s.used[s.seen % WRAP % NUM] == s.threads[t].i0
  {
    assert FinishedOk(s, 0) && FlyOk(s, s.finished[0]);
  }

  lemma WakesOne(s: State, u: nat)
    requires Inv(s) && Enabled(s, Interrupt) && u < |s.threads| && u != s.finished[0]
    ensures Next(s, Interrupt).threads[u] == s.threads[u]
  {
    NextUsed(s);
    assert Apart(s, u, s.finished[0]);
  }

  lemma InterruptNumbers(s: State)
    requires Numbers(s) && Enabled(s, Interrupt)
    requires s.info[s.used[s.seen % WRAP % NUM]] == s.threads[s.finished[0]].b && s.threads[s.finished[0]].stage.Done?
    ensures Numbers(Next(s, Interrupt))
  {
    var t := s.finished[0];
    AckCounts(s.free, s.threads, |s.queued|, |s.finished|, t, s.threads[t].b);
    IndexShift(s.seen, |s.finished|);
  }

  lemma AckCounts(free: seq<bool>, ts: seq<Thread>, q: nat, f: nat, t: nat, b: nat)
    requires Counts(free, ts, q, f) && t < |ts| && ts[t].Flying? && ts[t].stage.Done?
    ensures f > 0 && Counts(free, WakeBuffer(ts, b)[t := WithStage(WakeBuffer(ts, b)[t], Acked)], q, f - 1)
  {
    TalliesSame(ts, WakeBuffer(ts, b));
    StagedCounts(free, WakeBuffer(ts, b), q, f, t, Acked);
  }

  lemma InterruptThread(s: State, u: nat)
    requires Inv(s) && Enabled(s, Interrupt) && u < |s.threads|
    ensures FlyOk(Next(s, Interrupt), u) && AskOk(Next(s, Interrupt), u)
  {
    var t := s.finished[0];
    NextUsed(s);
    assert FlyOk(s, u) && AskOk(s, u);
    if u != t {
      WakesOne(s, u);
      assert Apart(s, u, t);
    }
  }

  lemma InterruptQueues(s: State)
    requires Inv(s) && Enabled(s, Interrupt)
    ensures var s' := Next(s, Interrupt);
            (forall j: nat :: j < |s'.queued| ==> QueuedOk(s', j)) &&
            (forall j: nat :: j < |s'.finished| ==> FinishedOk(s', j)) &&
            (forall h: nat :: h in s'.working ==> WorkingOk(s', h)) && Distinct(s'.finished)
  {
    var s' := Next(s, Interrupt);
    NextUsed(s);
    forall j: nat | j < |s'.queued| ensures QueuedOk(s', j) {
      assert QueuedOk(s, j);
      WakesOne(s, s.queued[j]);
    }
    forall j: nat | j < |s'.finished| ensures FinishedOk(s', j) {
      assert FinishedOk(s, j + 1) && s.finished[0] != s.finished[j + 1];
      WakesOne(s, s.finished[j + 1]);
      SlotShift(s.seen, j);
    }
    forall h: nat | h in s'.working ensures WorkingOk(s', h) {
      assert WorkingOk(s, h);
      WakesOne(s, s.working[h]);
    }
  }

  lemma InterruptKeepsInv(s: State)
    requires Inv(s) && Enabled(s, Interrupt)
    ensures Inv(Next(s, Interrupt))
  {
    var s' := Next(s, Interrupt);
    var t := s.finished[0];
    NextUsed(s);
    InterruptNumbers(s);
    InterruptQueues(s);
    forall u: nat | u < |s.threads| && u != t ensures s'.threads[u] == s.threads[u] {
      WakesOne(s, u);
    }
    assert Staged(s, s', t);
    forall u: nat | u < |s'.threads| ensures FlyOk(s', u) && AskOk(s', u) {
      InterruptThread(s, u);
    }
    forall u: nat, v: nat | u < |s'.threads| && v < |s'.threads| && u != v ensures Apart(s', u, v) {
      assert Apart(s, u, v);
      StagedApart(s, s', t, u, v);
    }
    forall b: nat | b in s'.busy ensures BusyOk(s', b) {
      assert BusyOk(s, b);
      StagedBusy(s, s', t, b);
    }
  }

  // ----- Every reachable state -----

  lemma NextKeepsInv(s: State, e: Event)
    requires Inv(s) && Enabled(s, e)
    ensures Inv(Next(s, e))
  {
    match e
    case Start(t, b) => StartKeepsInv(s, t, b);
    case Submit(t, i0, i1, i2) => SubmitKeepsInv(s, t, i0, i1, i2);
    case NoRoom(t) => NoRoomKeepsInv(s, t);
    case Check(t) =>
      if s.threads[t].b in s.busy {
        WaitKeepsInv(s, t);
      } else {
        ReturnKeepsInv(s, t);
      }
    case Take => TakeKeepsInv(s);
    case Complete(h) => CompleteKeepsInv(s, h);
    case Interrupt => InterruptKeepsInv(s);
  }

  lemma {:induction false} RunKeepsInv(s: State, es: seq<Event>)
    requires Inv(s) && IsRun(s, es)
    ensures Inv(After(s, es))
    decreases |es|
  {
    if es != [] {
      NextKeepsInv(s, es[0]);
      RunKeepsInv(Next(s, es[0]), es[1..]);
    }
  }

  /** Conservation: after any run, free descriptors plus three for each request in flight are NUM. */
  lemma DescriptorsConserved(s0: State, es: seq<Event>)
    requires Init(s0) && IsRun(s0, es)
    ensures var s := After(s0, es); Count(s.free) + 3 * InFlight(s.threads) == NUM
  {
    InitInv(s0);
    RunKeepsInv(s0, es);
  }

  /** After any run, the chains of different requests in flight share no descriptor. */
  lemma ChainsDisjoint(s0: State, es: seq<Event>, t: nat, u: nat, d: nat)
    requires Init(s0) && IsRun(s0, es)
    ensures var s := After(s0, es);
            Flies(s, t) && Flies(s, u) && t != u ==> !(InChain(s.threads[t], d) && InChain(s.threads[u], d))
  {
    InitInv(s0);
    RunKeepsInv(s0, es);
    var s := After(s0, es);
    if Flies(s, t) && Flies(s, u) && t != u {
      assert Apart(s, t, u);
    }
  }

  /** `free_desc` never panics: whenever a thread in flight could free its chain, this has three different
      descriptors in range, none of them free. */
  lemma FreeNeverPanics(s0: State, es: seq<Event>, t: nat)
    requires Init(s0) && IsRun(s0, es) && Flies(After(s0, es), t)
    ensures var s := After(s0, es);
            var T := s.threads[t];
            Sizes(s) && Chain(s.desc, T.i0, T.i1, T.i2) && T.i0 != T.i1 && T.i0 != T.i2 && T.i1 != T.i2 &&
            !s.free[T.i0] && !s.free[T.i1] && !s.free[T.i2]
  {
    InitInv(s0);
    RunKeepsInv(s0, es);
    assert FlyOk(After(s0, es), t);
  }

  /** Neither ring is overrun, however often the indices wrap: what the disk has not read of the avail ring
      and the driver of the used ring is there unharmed, in order, and the wrapped indices tell correctly
      whether there is anything to read. */
  lemma RingsIntact(s0: State, es: seq<Event>)
    requires Init(s0) && IsRun(s0, es)
    ensures var s := After(s0, es);
            (forall j: nat :: j < |s.queued| ==> QueuedOk(s, j)) &&
            (forall j: nat :: j < |s.finished| ==> FinishedOk(s, j)) &&
            (s.devIdx != s.availIdx <==> s.queued != []) && (s.seen != s.usedIdx <==> s.finished != []) &&
            |s.queued| <= 2 && |s.finished| <= 2
  {
    InitInv(s0);
    RunKeepsInv(s0, es);
    var s := After(s0, es);
    FewInFlight(s);
    IndexEqual(s.devIdx, |s.queued|);
    IndexEqual(s.seen, |s.finished|);
  }

  /** `virtio_disk_rw` returns only after the disk has completed its own request and the driver has
      acknowledged it; and until then it does not return. */
  lemma ReturnsAfterCompletion(s0: State, es: seq<Event>, t: nat)
    requires Init(s0) && IsRun(s0, es) && Enabled(After(s0, es), Check(t))
    ensures var s := After(s0, es); Next(s, Check(t)).threads[t].Idle? <==> s.threads[t].stage.Acked?
  {
    InitInv(s0);
    RunKeepsInv(s0, es);
    assert FlyOk(After(s0, es), t);
  }

  /** Nobody sleeps in vain: a thread sleeps for descriptors only while fewer than three are free, and for its
      request only until that is acknowledged. */
  lemma SleepersWait(s0: State, es: seq<Event>, t: nat)
    requires Init(s0) && IsRun(s0, es)
    requires var s := After(s0, es); t < |s.threads| && !s.threads[t].Idle? && s.threads[t].asleep
    ensures var s := After(s0, es); if s.threads[t].Asking? then Count(s.free) < 3 else !s.threads[t].stage.Acked?
  {
    InitInv(s0);
    RunKeepsInv(s0, es);
    assert AskOk(After(s0, es), t) && FlyOk(After(s0, es), t);
  }
}

/** All interleavings of threads that use the buffer cache: they get buffers, wait for their locks, fill,
    change, write, pin and release them. The cache is compared with a plain store of blocks. */
module BioRuns {
  import opened Bcache
  import Disk

  type Key = (nat, nat)

  type Blocks = map<Key, Disk.Block>

  function At(m: Blocks, k: Key): Disk.Block {
    if k in m then m[k] else Disk.ZERO
  }

  /** Where a thread is with its buffer `b` for block `k`: it waits for the buffer's lock, holds it, or has
      released it and still has to give up its reference. */
  datatype Pc = Idle | Want(b: nat, k: Key) | Hold(b: nat, k: Key) | Drop(b: nat, k: Key)

  /** `store` is what a store without a cache would contain: the last thing written into any buffer. */
  datatype State = State(c: Cache, disk: Blocks, store: Blocks, pins: seq<nat>, threads: seq<Pc>)

  datatype Event =
    | Bget(t: nat, k: Key)
    | Lock(t: nat)
    | Fill(t: nat)
    | Change(t: nat, data: Disk.Block)
    | Bwrite(t: nat)
    | Pin(t: nat)
    | Unpin(t: nat)
    | Unlock(t: nat)
    | Brelse(t: nat)

  predicate Holds(s: State, t: nat) {
    t < |s.threads| && s.threads[t].Hold? && s.threads[t].b < |s.c.bufs| == |s.pins|
  }

  predicate Locked(s: State, b: nat) {
    exists t :: 0 <= t < |s.threads| && s.threads[t].Hold? && s.threads[t].b == b
  }

  /** The buffer has the contents that are on disk. */
  predicate Clean(s: State, b: nat)
    requires b < |s.c.bufs|
  {
    s.c.bufs[b].data == At(s.disk, (s.c.bufs[b].dev, s.c.bufs[b].blockno))
  }

  /** Users of the cache keep to one rule: a buffer that differs from the disk stays pinned when it is
      unlocked, and is unpinned only once it does not. */
  predicate Enabled(s: State, e: Event) {
    match e
    case Bget(t, k) => t < |s.threads| && s.threads[t].Idle? && Get(s.c, k.0, k.1).b >= 0
    case Lock(t) => t < |s.threads| && s.threads[t].Want? && !Locked(s, s.threads[t].b)
    case Fill(t) => Holds(s, t) && !s.c.bufs[s.threads[t].b].valid
    case Change(t, _) => Holds(s, t) && s.c.bufs[s.threads[t].b].valid
    case Bwrite(t) => Holds(s, t) && s.c.bufs[s.threads[t].b].valid
    case Pin(t) => Holds(s, t)
    case Unpin(t) => Holds(s, t) && s.pins[s.threads[t].b] > 0 && s.c.bufs[s.threads[t].b].refcnt > 0 &&
      Clean(s, s.threads[t].b)
    case Unlock(t) => Holds(s, t) && s.c.bufs[s.threads[t].b].valid &&
      (Clean(s, s.threads[t].b) || s.pins[s.threads[t].b] > 0)
    case Brelse(t) =>
      t < |s.threads| && s.threads[t].Drop? &&
      var b := s.threads[t].b;
      b < |s.c.bufs| == |s.c.rel| && b in s.c.order && s.c.bufs[b].refcnt > 0
  }

  function SetBuf(s: State, b: nat, B: Buf): State
    requires b < |s.c.bufs|
  {
    s.(c := s.c.(bufs := s.c.bufs[b := B]))
  }

  function Next(s: State, e: Event): State
    requires Enabled(s, e)
  {
    var T := s.threads[e.t];
    match e
    case Bget(t, k) =>
      var g := Get(s.c, k.0, k.1);
      s.(c := g.cache, threads := s.threads[t := Want(g.b, k)])
    case Lock(t) => s.(threads := s.threads[t := Hold(T.b, T.k)])
    case Fill(t) =>
      var B := s.c.bufs[T.b];
      SetBuf(s, T.b, B.(data := At(s.disk, (B.dev, B.blockno)), valid := true))
    case Change(t, data) =>
      var B := s.c.bufs[T.b];
      SetBuf(s, T.b, B.(data := data)).(store := s.store[(B.dev, B.blockno) := data])
    case Bwrite(t) =>
      var B := s.c.bufs[T.b];
      s.(disk := s.disk[(B.dev, B.blockno) := B.data])
    case Pin(t) =>
      SetBuf(s, T.b, s.c.bufs[T.b].(refcnt := s.c.bufs[T.b].refcnt + 1)).(pins := s.pins[T.b := s.pins[T.b] + 1])
    case Unpin(t) =>
      SetBuf(s, T.b, s.c.bufs[T.b].(refcnt := s.c.bufs[T.b].refcnt - 1)).(pins := s.pins[T.b := s.pins[T.b] - 1])
    case Unlock(t) => s.(threads := s.threads[t := Drop(T.b, T.k)])
    case Brelse(t) => s.(c := Release(s.c, T.b), threads := s.threads[t := Idle])
  }

  predicate IsRun(s: State, es: seq<Event>)
    decreases |es|
  {
    es == [] || (Enabled(s, es[0]) && IsRun(Next(s, es[0]), es[1..]))
  }

  function After(s: State, es: seq<Event>): State
    requires IsRun(s, es)
    decreases |es|
  {
    if es == [] then s else After(Next(s, es[0]), es[1..])
  }

  /** After `binit`: nothing cached, every buffer claims to be for block 0 of device 0. */
  ghost predicate Init(s: State) {
    Wf(s.c) && s.store == s.disk && |s.pins| == |s.c.bufs| &&
    (forall b :: 0 <= b < |s.c.bufs| ==> s.pins[b] == 0 && s.c.bufs[b].refcnt == 0 && !s.c.bufs[b].valid &&
                                         s.c.bufs[b].dev == 0 && s.c.bufs[b].blockno == 0) &&
    forall t :: 0 <= t < |s.threads| ==> s.threads[t].Idle?
  }

  // ----- The invariant -----

  /** How many threads have a reference to buffer `b`. */
  function Users(threads: seq<Pc>, b: nat): nat {
    if threads == [] then 0
    else Users(threads[..|threads| - 1], b) + Uses(threads[|threads| - 1], b)
  }

  function Uses(pc: Pc, b: nat): nat {
    if !pc.Idle? && pc.b == b then 1 else 0
  }

  const NOBLOCK: Key := (0, 0)

  predicate CountOk(s: State, b: nat) {
    b < |s.c.bufs| == |s.pins| && s.c.bufs[b].refcnt == Users(s.threads, b) + s.pins[b]
  }

  predicate ThreadOk(s: State, t: nat) {
    t < |s.threads| && (!s.threads[t].Idle? ==> Caches(s.c, s.threads[t].b, s.threads[t].k.0, s.threads[t].k.1))
  }

  predicate HoldersApart(s: State, t: nat, u: nat) {
    t < |s.threads| && u < |s.threads| && (s.threads[t].Hold? && s.threads[u].Hold? ==>
      s.threads[t].b != s.threads[u].b)
  }

  function KeyOf(s: State, b: nat): Key
    requires b < |s.c.bufs|
  {
    (s.c.bufs[b].dev, s.c.bufs[b].blockno)
  }

  predicate Twin(s: State, a: nat, b: nat) {
    a < |s.c.bufs| && b < |s.c.bufs| && a != b && KeyOf(s, a) == KeyOf(s, b)
  }

  /** Buffer `a` was released for good after buffer `b`, which puts it ahead of it in the ring. */
  predicate Newer(c: Cache, a: nat, b: nat) {
    a < |c.rel| && b < |c.rel| && c.rel[a] > c.rel[b]
  }

  /** Only block 0 of device 0 may have several buffers, and of any two of them the one further back in the
      ring is not in use and was never filled. */
  predicate SoleOk(s: State, a: nat, b: nat) {
    Twin(s, a, b) ==>
      KeyOf(s, b) == NOBLOCK && (Newer(s.c, a, b) ==> s.c.bufs[b].refcnt == 0 && !s.c.bufs[b].valid)
  }

  /** The buffer that `bget` finds for its block. */
  ghost predicate Foremost(s: State, b: nat) {
    forall a: nat :: Twin(s, a, b) ==> Newer(s.c, b, a)
  }

  /** A filled buffer has the latest contents of its block, and if these are not on disk it is pinned or
      locked; if the buffer for a block is unfilled then the block is up to date on disk. */
  ghost predicate DataOk(s: State, b: nat) {
    b < |s.c.bufs| == |s.pins| &&
    (s.c.bufs[b].valid ==>
       s.c.bufs[b].data == At(s.store, KeyOf(s, b)) && (Clean(s, b) || s.pins[b] > 0 || Locked(s, b))) &&
    (!s.c.bufs[b].valid && Foremost(s, b) ==> At(s.store, KeyOf(s, b)) == At(s.disk, KeyOf(s, b)))
  }

  /** A block that is not cached is up to date on disk. */
  predicate UncachedOk(s: State, k: Key) {
    At(s.store, k) == At(s.disk, k) || exists b :: 0 <= b < |s.c.bufs| && KeyOf(s, b) == k
  }

  ghost predicate Inv(s: State) {
    Wf(s.c) && |s.pins| == |s.c.bufs| &&
    (forall b: nat :: b < |s.c.bufs| ==> CountOk(s, b)) &&
    (forall t: nat :: t < |s.threads| ==> ThreadOk(s, t)) &&
    (forall t: nat, u: nat :: t < |s.threads| && u < |s.threads| && t != u ==> HoldersApart(s, t, u)) &&
    (forall a: nat, b: nat :: a < |s.c.bufs| && b < |s.c.bufs| ==> SoleOk(s, a, b)) &&
    (forall b: nat :: b < |s.c.bufs| ==> DataOk(s, b)) &&
    forall k: Key :: UncachedOk(s, k)
  }

  lemma {:induction false} UsersChange(threads: seq<Pc>, t: nat, pc: Pc, b: nat)
    requires t < |threads|
    ensures Users(threads[t := pc], b) == Users(threads, b) - Uses(threads[t], b) + Uses(pc, b)
  {
    var n := |threads| - 1;
    if t == n {
      assert threads[t := pc][..n] == threads[..n];
    } else {
      assert threads[t := pc][..n] == threads[..n][t := pc];
      UsersChange(threads[..n], t, pc, b);
    }
  }

  lemma {:induction false} UsersNone(threads: seq<Pc>, b: nat)
    requires forall t :: 0 <= t < |threads| ==> threads[t].Idle?
    ensures Users(threads, b) == 0
  {
    if threads != [] {
      UsersNone(threads[..|threads| - 1], b);
    }
  }

  lemma {:induction false} UsersSome(threads: seq<Pc>, t: nat, b: nat)
    requires t < |threads| && Uses(threads[t], b) == 1
    ensures Users(threads, b) > 0
  {
    if t < |threads| - 1 {
      UsersSome(threads[..|threads| - 1], t, b);
    }
  }

  lemma InitInv(s: State)
    requires Init(s)
    ensures Inv(s)
  {
    forall b: nat | b < |s.c.bufs| ensures CountOk(s, b) {
      UsersNone(s.threads, b);
    }
  }

  /** A buffer in use is the one that `bget` finds. */
  lemma UsedIsForemost(s: State, b: nat)
    requires Inv(s) && b < |s.c.bufs| && s.c.bufs[b].refcnt > 0
    ensures Foremost(s, b)
  {
    forall a: nat | Twin(s, a, b) ensures Newer(s.c, b, a) {
      assert SoleOk(s, a, b);
      ReleasedApart(s.c, a, b);
    }
  }

  lemma ReleasedApart(c: Cache, a: nat, b: nat)
    requires Wf(c) && a < |c.bufs| && b < |c.bufs| && a != b
    ensures Newer(c, a, b) || Newer(c, b, a)
  {
    assert a in c.order && b in c.order;
    var i: nat :| i < |c.order| && c.order[i] == a;
    var j: nat :| j < |c.order| && c.order[j] == b;
    assert i < j ==> OlderThan(c, i, j);
    assert j < i ==> OlderThan(c, j, i);
  }

  /** The first buffer of the ring for a block is the foremost one. */
  lemma FirstIsForemost(s: State, k: Key)
    requires Wf(s.c) && FirstMatch(s.c, k.0, k.1, 0) < |s.c.order|
    ensures Foremost(s, s.c.order[FirstMatch(s.c, k.0, k.1, 0)])
  {
    var i := FirstMatch(s.c, k.0, k.1, 0);
    var b := s.c.order[i];
    forall a: nat | Twin(s, a, b) ensures Newer(s.c, b, a) {
      assert a in s.c.order;
      var j: nat :| j < |s.c.order| && s.c.order[j] == a;
      assert i < j ==> OlderThan(s.c, i, j);
      assert Caches(s.c, a, k.0, k.1);
    }
  }

  // ----- Steps of a thread that holds a buffer's lock -----

  /** A step that changes neither which block a buffer is for nor who uses it. */
  ghost predicate SameUse(s: State, s': State, b: nat) {
    |s'.c.bufs| == |s.c.bufs| == |s.pins| == |s'.pins| && b < |s.c.bufs| && Wf(s'.c) && s'.threads == s.threads &&
    s'.c.rel == s.c.rel &&
    (forall a: nat :: a < |s.c.bufs| && a != b ==> s'.c.bufs[a] == s.c.bufs[a] && s'.pins[a] == s.pins[a]) &&
    KeyOf(s', b) == KeyOf(s, b) && s'.c.bufs[b].refcnt - s'.pins[b] == s.c.bufs[b].refcnt - s.pins[b] &&
    forall k: Key :: k != KeyOf(s, b) ==> At(s'.store, k) == At(s.store, k) && At(s'.disk, k) == At(s.disk, k)
  }

  lemma SameForemost(s: State, s': State, a: nat)
    requires |s'.c.bufs| == |s.c.bufs| && s'.c.rel == s.c.rel && Foremost(s', a)
    requires forall d: nat :: d < |s.c.bufs| ==> KeyOf(s', d) == KeyOf(s, d)
    ensures Foremost(s, a)
  {
    forall d: nat | Twin(s, d, a) ensures Newer(s.c, a, d) {
      assert Twin(s', d, a);
    }
  }

  lemma SameUseKeepsInv(s: State, s': State, b: nat)
    requires Inv(s) && SameUse(s, s', b) && DataOk(s', b) && s.c.bufs[b].refcnt > 0
    ensures Inv(s')
  {
    UsedIsForemost(s, b);
    forall a: nat | a < |s'.c.bufs| ensures CountOk(s', a) {
      assert CountOk(s, a);
    }
    forall t: nat | t < |s'.threads| ensures ThreadOk(s', t) {
      assert ThreadOk(s, t);
    }
    forall t: nat, u: nat | t < |s'.threads| && u < |s'.threads| && t != u ensures HoldersApart(s', t, u) {
      assert HoldersApart(s, t, u);
    }
    forall a: nat, d: nat | a < |s'.c.bufs| && d < |s'.c.bufs| ensures SoleOk(s', a, d) {
      assert SoleOk(s, a, d);
      assert d == b && Twin(s, a, b) ==> Newer(s.c, b, a);
    }
    forall a: nat | a < |s'.c.bufs| ensures DataOk(s', a) {
      SameUseData(s, s', b, a);
    }
    forall k: Key ensures UncachedOk(s', k) {
      assert UncachedOk(s, k);
      if k == KeyOf(s, b) {
        assert KeyOf(s', b) == k;
      } else if a: nat :| a < |s.c.bufs| && KeyOf(s, a) == k {
        assert KeyOf(s', a) == k;
      }
    }
  }

  lemma SameUseData(s: State, s': State, b: nat, a: nat)
    requires SameUse(s, s', b) && DataOk(s', b) && Foremost(s, b) && a < |s.c.bufs| && DataOk(s, a) && SoleOk(s, b, a)
    ensures DataOk(s', a)
  {
    if Twin(s, a, b) {
      assert Newer(s.c, b, a) && Twin(s', b, a);
    } else if Foremost(s', a) {
      SameForemost(s, s', a);
    }
  }

  lemma HolderLocks(s: State, t: nat)
    requires Holds(s, t)
    ensures Locked(s, s.threads[t].b)
  {
  }

  lemma HolderStepKeepsInv(s: State, e: Event)
    requires Inv(s) && Enabled(s, e) && (e.Fill? || e.Change? || e.Bwrite? || e.Pin? || e.Unpin?)
    ensures Inv(Next(s, e))
  {
    var b := s.threads[e.t].b;
    var s' := Next(s, e);
    assert DataOk(s, b) && CountOk(s, b);
    UsersSome(s.threads, e.t, b);
    UsedIsForemost(s, b);
    HolderData(s, e, b);
    SameRing(s.c, b, s'.c.bufs[b]);
    assert s'.c == s.c.(bufs := s.c.bufs[b := s'.c.bufs[b]]);
    SameUseKeepsInv(s, s', b);
  }

  /** What a holder does to its buffer keeps the buffer's contents accounted for. */
  lemma HolderData(s: State, e: Event, b: nat)
    requires Enabled(s, e) && (e.Fill? || e.Change? || e.Bwrite? || e.Pin? || e.Unpin?) && b == s.threads[e.t].b &&
             DataOk(s, b)
    requires Foremost(s, b)
    ensures DataOk(Next(s, e), b)
  {
    HolderLocks(s, e.t);
    HolderLocks(Next(s, e), e.t);
  }

  // ----- Locking and unlocking -----

  lemma LockKeepsInv(s: State, t: nat)
    requires Inv(s) && Enabled(s, Lock(t))
    ensures Inv(Next(s, Lock(t)))
  {
    var s' := Next(s, Lock(t));
    assert ThreadOk(s, t);
    ThreadsOnly(s, s', t);
    forall t: nat, u: nat | t < |s'.threads| && u < |s'.threads| && t != u ensures HoldersApart(s', t, u) {
      assert HoldersApart(s, t, u);
    }
    forall a: nat | a < |s'.c.bufs| ensures DataOk(s', a) {
      assert DataOk(s, a);
      if Foremost(s', a) {
        SameForemost(s, s', a);
      }
      if Locked(s, a) {
        var u :| 0 <= u < |s.threads| && s.threads[u].Hold? && s.threads[u].b == a;
        assert s'.threads[u] == s.threads[u];
      }
    }
  }

  /** A thread goes on with the same buffer. */
  lemma ThreadsOnly(s: State, s': State, t: nat)
    requires Inv(s) && t < |s.threads| == |s'.threads| && s' == s.(threads := s.threads[t := s'.threads[t]])
    requires !s.threads[t].Idle? && !s'.threads[t].Idle? && s'.threads[t].b == s.threads[t].b &&
             s'.threads[t].k == s.threads[t].k
    ensures forall b: nat :: b < |s'.c.bufs| ==> CountOk(s', b)
    ensures forall u: nat :: u < |s'.threads| ==> ThreadOk(s', u)
    ensures forall a: nat, b: nat :: a < |s'.c.bufs| && b < |s'.c.bufs| ==> SoleOk(s', a, b)
    ensures forall k: Key :: UncachedOk(s', k)
  {
    forall b: nat | b < |s'.c.bufs| ensures CountOk(s', b) {
      assert CountOk(s, b);
      UsersChange(s.threads, t, s'.threads[t], b);
    }
    forall u: nat | u < |s'.threads| ensures ThreadOk(s', u) {
      assert ThreadOk(s, u) && ThreadOk(s, t);
    }
    forall a: nat, b: nat | a < |s'.c.bufs| && b < |s'.c.bufs| ensures SoleOk(s', a, b) {
      assert SoleOk(s, a, b);
    }
    forall k: Key ensures UncachedOk(s', k) {
      assert UncachedOk(s, k);
      if a: nat :| a < |s.c.bufs| && KeyOf(s, a) == k {
        assert KeyOf(s', a) == k;
      }
    }
  }

  lemma UnlockKeepsInv(s: State, t: nat)
    requires Inv(s) && Enabled(s, Unlock(t))
    ensures Inv(Next(s, Unlock(t)))
  {
    var s' := Next(s, Unlock(t));
    ThreadsOnly(s, s', t);
    forall t: nat, u: nat | t < |s'.threads| && u < |s'.threads| && t != u ensures HoldersApart(s', t, u) {
      assert HoldersApart(s, t, u);
    }
    forall a: nat | a < |s'.c.bufs| ensures DataOk(s', a) {
      assert DataOk(s, a);
      if Foremost(s', a) {
        SameForemost(s, s', a);
      }
      if Locked(s, a) && a != s.threads[t].b {
        var u :| 0 <= u < |s.threads| && s.threads[u].Hold? && s.threads[u].b == a;
        assert s'.threads[u] == s.threads[u];
      }
    }
  }

  // ----- Getting and releasing -----

  /** A thread's reference to buffer `b` comes or goes, and nothing else about the buffers changes. */
  ghost predicate Recounted(s: State, s': State, t: nat, b: nat) {
    |s'.c.bufs| == |s.c.bufs| == |s.pins| && b < |s.c.bufs| && Wf(s'.c) && t < |s.threads| == |s'.threads| &&
    s'.threads == s.threads[t := s'.threads[t]] && !s.threads[t].Hold? && !s'.threads[t].Hold? &&
    s'.disk == s.disk && s'.store == s.store && s'.pins == s.pins &&
    (forall a: nat :: a < |s.c.bufs| && a != b ==> s'.c.bufs[a] == s.c.bufs[a]) &&
    s'.c.bufs[b] == s.c.bufs[b].(refcnt := s'.c.bufs[b].refcnt) &&
    s'.c.bufs[b].refcnt == s.c.bufs[b].refcnt + Uses(s'.threads[t], b) - Uses(s.threads[t], b) &&
    (s.threads[t].Idle? || s.threads[t].b == b) && (s'.threads[t].Idle? || s'.threads[t].b == b) &&
    |s'.c.rel| == |s.c.rel| && (s'.c.rel == s.c.rel || forall a: nat :: a < |s.c.bufs| && a != b ==>
      Newer(s'.c, b, a)) &&
    forall a: nat :: a < |s.c.rel| && a != b ==> s'.c.rel[a] == s.c.rel[a]
  }

  /** The foremost buffer of a block stays foremost, and the others stay behind it. */
  lemma RecountedOrder(s: State, s': State, t: nat, b: nat, a: nat)
    requires Recounted(s, s', t, b) && Foremost(s, b) && a < |s.c.bufs| && Wf(s.c)
    ensures Foremost(s', a) ==> Foremost(s, a)
  {
    if Foremost(s', a) && a != b {
      forall d: nat | Twin(s, d, a) ensures Newer(s.c, a, d) {
        assert Twin(s', d, a);
        if d == b {
          assert Twin(s, a, b) && Newer(s.c, b, a) && Newer(s'.c, a, b);
          assert s'.c.rel == s.c.rel || Newer(s'.c, b, a);
        }
      }
    }
  }

  lemma RecountedSole(s: State, s': State, t: nat, b: nat, a: nat, d: nat)
    requires Recounted(s, s', t, b) && Foremost(s, b) && Wf(s.c) && SoleOk(s, a, d)
    ensures SoleOk(s', a, d)
  {
    if Twin(s', a, d) {
      assert Twin(s, a, d) && Twin(s, d, a);
      if d == b {
        assert Newer(s.c, b, a);
        assert s'.c.rel == s.c.rel || Newer(s'.c, b, a);
      } else if a == b {
        assert Newer(s.c, b, d);
      }
    }
  }

  lemma SameLocks(s: State, s': State, t: nat, a: nat)
    requires t < |s.threads| == |s'.threads| && s'.threads == s.threads[t := s'.threads[t]]
    requires !s.threads[t].Hold? && !s'.threads[t].Hold?
    ensures Locked(s', a) <==> Locked(s, a)
  {
    if Locked(s, a) {
      var u :| 0 <= u < |s.threads| && s.threads[u].Hold? && s.threads[u].b == a;
      assert s'.threads[u] == s.threads[u];
    }
    if Locked(s', a) {
      var u :| 0 <= u < |s'.threads| && s'.threads[u].Hold? && s'.threads[u].b == a;
      assert s'.threads[u] == s.threads[u];
    }
  }

  lemma RecountedKeepsInv(s: State, s': State, t: nat, b: nat)
    requires Inv(s) && Recounted(s, s', t, b) && ThreadOk(s', t) && Foremost(s, b)
    ensures Inv(s')
  {
    forall a: nat | a < |s'.c.bufs| ensures CountOk(s', a) && DataOk(s', a) {
      assert CountOk(s, a) && DataOk(s, a);
      UsersChange(s.threads, t, s'.threads[t], a);
      SameLocks(s, s', t, a);
      RecountedOrder(s, s', t, b, a);
    }
    forall u: nat | u < |s'.threads| ensures ThreadOk(s', u) {
      assert ThreadOk(s, u);
    }
    forall u: nat, v: nat | u < |s'.threads| && v < |s'.threads| && u != v ensures HoldersApart(s', u, v) {
      assert HoldersApart(s, u, v);
    }
    forall a: nat, d: nat | a < |s'.c.bufs| && d < |s'.c.bufs| ensures SoleOk(s', a, d) {
      assert SoleOk(s, a, d);
      RecountedSole(s, s', t, b, a, d);
    }
    forall k: Key ensures UncachedOk(s', k) {
      assert UncachedOk(s, k);
      if a: nat :| a < |s.c.bufs| && KeyOf(s, a) == k {
        assert KeyOf(s', a) == k;
      }
    }
  }

  lemma BrelseKeepsInv(s: State, t: nat)
    requires Inv(s) && Enabled(s, Brelse(t))
    ensures Inv(Next(s, Brelse(t)))
  {
    var b := s.threads[t].b;
    ReleaseWf(s.c, b);
    UsedIsForemost(s, b);
    assert Recounted(s, Next(s, Brelse(t)), t, b);
    RecountedKeepsInv(s, Next(s, Brelse(t)), t, b);
  }

  /** An unreferenced buffer is used by nobody and not pinned, and if it is the one that `bget` would find, its
      block is up to date on disk. */
  lemma UnusedIsClean(s: State, b: nat)
    requires Inv(s) && Unused(s.c, b)
    ensures s.pins[b] == 0 && (forall t :: 0 <= t < |s.threads| ==> Uses(s.threads[t], b) == 0)
    ensures Foremost(s, b) ==> At(s.store, KeyOf(s, b)) == At(s.disk, KeyOf(s, b))
  {
    assert CountOk(s, b) && DataOk(s, b);
    forall t | 0 <= t < |s.threads| ensures Uses(s.threads[t], b) == 0 {
      if Uses(s.threads[t], b) == 1 {
        UsersSome(s.threads, t, b);
      }
    }
  }

  lemma NoMatch(c: Cache, dev: nat, blockno: nat, b: nat)
    requires Wf(c) && FirstMatch(c, dev, blockno, 0) == |c.order| && b < |c.bufs|
    ensures !Caches(c, b, dev, blockno)
  {
    assert b in c.order;
    var i: nat :| i < |c.order| && c.order[i] == b;
  }

  function Recycled(s: State, t: nat, b: nat, k: Key): State
    requires b < |s.c.bufs| && t < |s.threads|
  {
    var B := s.c.bufs[b].(dev := k.0, blockno := k.1, valid := false, refcnt := 1);
    s.(c := s.c.(bufs := s.c.bufs[b := B]), threads := s.threads[t := Want(b, k)])
  }

  /** Recycling buffer `b` for block `k`, which was not cached. */
  lemma RecycleKeepsInv(s: State, s': State, t: nat, b: nat, k: Key)
    requires Inv(s) && Unused(s.c, b) && t < |s.threads| && s.threads[t].Idle? &&
             FirstMatch(s.c, k.0, k.1, 0) == |s.c.order|
    requires Oldest(s.c, b)
    requires s' == Recycled(s, t, b, k)
    ensures Inv(s')
  {
    UnusedIsClean(s, b);
    SameRing(s.c, b, s'.c.bufs[b]);
    assert |s.c.rel| == |s.c.bufs|;
    forall a: nat | a < |s.c.bufs| ensures KeyOf(s, a) != k {
      NoMatch(s.c, k.0, k.1, a);
    }
    RecycleUsers(s, s', t, b, k);
    RecycleData(s, s', t, b, k);
  }

  lemma RecycleUsers(s: State, s': State, t: nat, b: nat, k: Key)
    requires Inv(s) && Unused(s.c, b) && t < |s.threads| && s.threads[t].Idle?
    requires s' == Recycled(s, t, b, k)
    requires s.pins[b] == 0 && forall t :: 0 <= t < |s.threads| ==> Uses(s.threads[t], b) == 0
    ensures forall a: nat :: a < |s'.c.bufs| ==> CountOk(s', a)
    ensures forall u: nat :: u < |s'.threads| ==> ThreadOk(s', u)
    ensures forall t: nat, u: nat :: t < |s'.threads| && u < |s'.threads| && t != u ==> HoldersApart(s', t, u)
  {
    forall a: nat | a < |s'.c.bufs| ensures CountOk(s', a) {
      assert CountOk(s, a);
      UsersChange(s.threads, t, Want(b, k), a);
    }
    forall u: nat | u < |s'.threads| ensures ThreadOk(s', u) {
      assert ThreadOk(s, u) && Uses(s.threads[u], b) == 0;
    }
    forall u: nat, v: nat | u < |s'.threads| && v < |s'.threads| && u != v ensures HoldersApart(s', u, v) {
      assert HoldersApart(s, u, v);
    }
  }

  /** No unreferenced buffer was released before `b`. */
  ghost predicate Oldest(c: Cache, b: nat) {
    forall a: nat :: Unused(c, a) ==> !Newer(c, b, a)
  }

  /** Recycling never takes the foremost buffer of a block while there are others, so every block keeps its
      foremost buffer or loses all. */
  lemma RecycleOrder(s: State, s': State, b: nat, a: nat)
    requires Inv(s) && b < |s.c.bufs| == |s'.c.bufs| && Oldest(s.c, b) && a < |s.c.bufs| && a != b
    requires s'.c.rel == s.c.rel && forall d: nat :: d < |s.c.bufs| && d != b ==> s'.c.bufs[d] == s.c.bufs[d]
    ensures Foremost(s', a) ==> Foremost(s, a)
    ensures Twin(s, a, b) ==> Newer(s.c, a, b)
  {
    assert SoleOk(s, b, a);
    if Twin(s, a, b) {
      ReleasedApart(s.c, a, b);
      assert Newer(s.c, b, a) ==> Unused(s.c, a);
    }
    if Foremost(s', a) {
      forall d: nat | Twin(s, d, a) ensures Newer(s.c, a, d) {
        assert d != b ==> Twin(s', d, a);
      }
    }
  }

  lemma RecycleData(s: State, s': State, t: nat, b: nat, k: Key)
    requires Inv(s) && b < |s.c.bufs| && t < |s.threads| && s.threads[t].Idle?
    requires s' == Recycled(s, t, b, k)
    requires Oldest(s.c, b) && (Foremost(s, b) ==> At(s.store, KeyOf(s, b)) == At(s.disk, KeyOf(s, b)))
    requires forall a: nat :: a < |s.c.bufs| ==> KeyOf(s, a) != k
    ensures forall a: nat, d: nat :: a < |s'.c.bufs| && d < |s'.c.bufs| ==> SoleOk(s', a, d)
    ensures forall a: nat :: a < |s'.c.bufs| ==> DataOk(s', a)
    ensures forall k: Key :: UncachedOk(s', k)
  {
    assert UncachedOk(s, k);
    forall a: nat, d: nat | a < |s'.c.bufs| && d < |s'.c.bufs| ensures SoleOk(s', a, d) {
      assert SoleOk(s, a, d);
    }
    forall a: nat | a < |s'.c.bufs| ensures DataOk(s', a) {
      assert DataOk(s, a);
      SameLocks(s, s', t, a);
      if a != b {
        RecycleOrder(s, s', b, a);
      }
    }
    forall j: Key ensures UncachedOk(s', j) {
      RecycleUncached(s, s', b, j);
    }
  }

  lemma RecycleUncached(s: State, s': State, b: nat, j: Key)
    requires Inv(s) && b < |s.c.bufs| == |s'.c.bufs| && Oldest(s.c, b) && s'.c.rel == s.c.rel
    requires forall d: nat :: d < |s.c.bufs| && d != b ==> s'.c.bufs[d] == s.c.bufs[d]
    requires s'.store == s.store && s'.disk == s.disk
    requires Foremost(s, b) ==> At(s.store, KeyOf(s, b)) == At(s.disk, KeyOf(s, b))
    ensures UncachedOk(s', j)
  {
    assert UncachedOk(s, j);
    if a: nat :| a < |s.c.bufs| && a != b && KeyOf(s, a) == j {
      assert KeyOf(s', a) == j;
    } else if KeyOf(s, b) == j {
      assert Foremost(s, b);
    }
  }

  lemma BgetKeepsInv(s: State, t: nat, k: Key)
    requires Inv(s) && Enabled(s, Bget(t, k))
    ensures Inv(Next(s, Bget(t, k)))
  {
    var s' := Next(s, Bget(t, k));
    var b := Get(s.c, k.0, k.1).b;
    if FirstMatch(s.c, k.0, k.1, 0) < |s.c.order| {
      SameRing(s.c, b, s'.c.bufs[b]);
      FirstIsForemost(s, k);
      assert Recounted(s, s', t, b);
      RecountedKeepsInv(s, s', t, b);
    } else {
      assert Oldest(s.c, b) by {
        forall a: nat | a < |s.c.bufs| ensures !Caches(s.c, a, k.0, k.1) {
          NoMatch(s.c, k.0, k.1, a);
        }
        VictimIsOldest(s.c, k.0, k.1);
      }
      RecycleKeepsInv(s, s', t, b, k);
    }
  }

  // ----- Every reachable state -----

  lemma NextKeepsInv(s: State, e: Event)
    requires Inv(s) && Enabled(s, e)
    ensures Inv(Next(s, e))
  {
    match e
    case Bget(t, k) => BgetKeepsInv(s, t, k);
    case Lock(t) => LockKeepsInv(s, t);
    case Unlock(t) => UnlockKeepsInv(s, t);
    case Brelse(t) => BrelseKeepsInv(s, t);
    case _ => HolderStepKeepsInv(s, e);
  }

  lemma {:induction false} RunKeepsInv(s: State, es: seq<Event>)
    requires Inv(s) && IsRun(s, es)
    ensures Inv(After(s, es))
    decreases |es|
  {
    if es != [] {
      NextKeepsInv(s, es[0]);
      RunKeepsInv(Next(s, es[0]), es[1..]);
    }
  }

  /** The cache is transparent: after any run, a thread that holds a filled buffer for a block finds in it
      what was last written to that block through any buffer. */
  lemma Transparent(s0: State, es: seq<Event>, t: nat)
    requires Init(s0) && IsRun(s0, es)
    requires var s := After(s0, es); Holds(s, t) && s.c.bufs[s.threads[t].b].valid
    ensures var s := After(s0, es); s.c.bufs[s.threads[t].b].data == At(s.store, s.threads[t].k)
  {
    InitInv(s0);
    RunKeepsInv(s0, es);
    var s := After(s0, es);
    assert ThreadOk(s, t) && DataOk(s, s.threads[t].b);
  }

  /** Mutual exclusion by block: after any run no two threads hold buffers for the same block. */
  lemma OneHolderPerBlock(s0: State, es: seq<Event>, t: nat, u: nat)
    requires Init(s0) && IsRun(s0, es)
    requires var s := After(s0, es); Holds(s, t) && Holds(s, u) && t != u
    ensures var s := After(s0, es); s.threads[t].k != s.threads[u].k
  {
    InitInv(s0);
    RunKeepsInv(s0, es);
    var s := After(s0, es);
    var a, b := s.threads[t].b, s.threads[u].b;
    assert ThreadOk(s, t) && ThreadOk(s, u) && HoldersApart(s, t, u);
    UsersSome(s.threads, t, a);
    UsersSome(s.threads, u, b);
    assert CountOk(s, a) && CountOk(s, b) && SoleOk(s, a, b) && SoleOk(s, b, a);
    ReleasedApart(s.c, a, b);
  }

  /** A buffer in use or pinned stays with its block: whatever one step does, it is not recycled. */
  lemma HeldIsNotRecycled(s0: State, es: seq<Event>, e: Event, b: nat)
    requires Init(s0) && IsRun(s0, es)
    requires var s := After(s0, es); Enabled(s, e) && b < |s.c.bufs| == |s.pins|
    requires var s := After(s0, es); s.pins[b] > 0 || exists t :: 0 <= t < |s.threads| && Uses(s.threads[t], b) == 1
    ensures var s := After(s0, es); b < |Next(s, e).c.bufs| && KeyOf(Next(s, e), b) == KeyOf(s, b)
  {
    InitInv(s0);
    RunKeepsInv(s0, es);
    var s := After(s0, es);
    assert CountOk(s, b);
    if t :| 0 <= t < |s.threads| && Uses(s.threads[t], b) == 1 {
      UsersSome(s.threads, t, b);
    }
    if e.Bget? {
      GetKeeps(s.c, e.k.0, e.k.1, b);
    }
  }

  predicate SoleFor(s: State, k: Key) {
    forall a: nat, b: nat :: a < |s.c.bufs| && b < |s.c.bufs| && KeyOf(s, a) == k && KeyOf(s, b) == k ==> a == b
  }

  lemma SoleAfter(s0: State, es: seq<Event>, k: Key)
    requires Init(s0) && IsRun(s0, es) && k != NOBLOCK
    ensures SoleFor(After(s0, es), k)
  {
    InitInv(s0);
    RunKeepsInv(s0, es);
    var s := After(s0, es);
    forall a: nat, b: nat | a < |s.c.bufs| && b < |s.c.bufs| && KeyOf(s, a) == k && KeyOf(s, b) == k ensures a == b {
      assert SoleOk(s, a, b);
    }
  }

  lemma NotSoleAtFirst(s0: State)
    requires Init(s0) && |s0.c.bufs| >= 2
    ensures IsRun(s0, []) && !SoleFor(After(s0, []), NOBLOCK)
  {
    assert KeyOf(s0, 0) == NOBLOCK && KeyOf(s0, 1) == NOBLOCK;
  }

  /** In every reachable state a block has at most one buffer, if and only if the block is not block 0 of
      device 0, for which every buffer starts out. */
  lemma OneBufferPerBlockIff(s0: State, k: Key)
    requires Init(s0) && |s0.c.bufs| >= 2
    ensures (forall es :: IsRun(s0, es) ==> SoleFor(After(s0, es), k)) <==> k != NOBLOCK
  {
    NotSoleAtFirst(s0);
    if k != NOBLOCK {
      forall es | IsRun(s0, es) ensures SoleFor(After(s0, es), k) {
        SoleAfter(s0, es, k);
      }
    }
  }
}

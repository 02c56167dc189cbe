/** The buffer cache as a value: its buffers, and the order of its ring from the most recently used one on.
    What lookups, recycling and release do, and why the recycled buffer is the one least recently used. */
module Bcache {
  import Disk

  datatype Buf = Buf(dev: nat, blockno: nat, valid: bool, refcnt: nat, data: Disk.Block)

  /** `order` lists the buffers from `head.next` on. `clock` counts releases and `rel` says when `brelse` last
      let go of each buffer for good, or `binit` set it up. */
  datatype Cache = Cache(bufs: seq<Buf>, order: seq<nat>, rel: seq<int>, clock: nat)

  predicate InOrder(c: Cache, i: nat) {
    i < |c.order| && c.order[i] < |c.bufs| == |c.rel|
  }

  predicate OlderThan(c: Cache, i: nat, j: nat) {
    InOrder(c, i) && InOrder(c, j) && c.rel[c.order[i]] > c.rel[c.order[j]]
  }

  /** Every buffer is in the ring, and the ring is sorted by the time of the last release. */
  ghost predicate Wf(c: Cache) {
    |c.order| == |c.bufs| == |c.rel| &&
    (forall i: nat :: i < |c.order| ==> InOrder(c, i)) &&
    (forall i: nat, j: nat :: i < j < |c.order| ==> OlderThan(c, i, j)) &&
    (forall b: nat :: b < |c.bufs| ==> b in c.order && c.rel[b] <= c.clock)
  }

  predicate Caches(c: Cache, b: nat, dev: nat, blockno: nat) {
    b < |c.bufs| && c.bufs[b].dev == dev && c.bufs[b].blockno == blockno
  }

  /** The first position at or behind `i` with a buffer for the block, or the end. */
  function FirstMatch(c: Cache, dev: nat, blockno: nat, i: nat): (k: nat)
    requires i <= |c.order|
    ensures i <= k <= |c.order| && (k < |c.order| ==> Caches(c, c.order[k], dev, blockno))
    ensures forall j :: i <= j < k ==> !Caches(c, c.order[j], dev, blockno)
    decreases |c.order| - i
  {
    if i == |c.order| || Caches(c, c.order[i], dev, blockno) then i else FirstMatch(c, dev, blockno, i + 1)
  }

  predicate Unused(c: Cache, b: nat) {
    b < |c.bufs| && c.bufs[b].refcnt == 0
  }

  /** The last position before `i` with an unreferenced buffer, or -1. */
  function LastUnused(c: Cache, i: nat): (k: int)
    requires i <= |c.order|
    ensures -1 <= k < i && (k >= 0 ==> Unused(c, c.order[k]))
    ensures forall j :: k < j < i ==> !Unused(c, c.order[j])
  {
    if i == 0 then -1 else if Unused(c, c.order[i - 1]) then i - 1 else LastUnused(c, i - 1)
  }

  /** The outcome of `bget`: the buffer, or -1 for its panic. */
  datatype Got = Got(b: int, cache: Cache)

  function Get(c: Cache, dev: nat, blockno: nat): Got {
    var k := FirstMatch(c, dev, blockno, 0);
    if k < |c.order| then
      var b := c.order[k];
      Got(b, c.(bufs := c.bufs[b := c.bufs[b].(refcnt := c.bufs[b].refcnt + 1)]))
    else
      var v := LastUnused(c, |c.order|);
      if v < 0 then Got(-1, c)
      else
        var b := c.order[v];
        Got(b, c.(bufs := c.bufs[b := c.bufs[b].(dev := dev, blockno := blockno, valid := false, refcnt := 1)]))
  }

  /** Where buffer `b` is in the ring. */
  function Position(order: seq<nat>, b: nat): (k: nat)
    requires b in order
    ensures k < |order| && order[k] == b && b !in order[..k]
  {
    if order[0] == b then 0 else 1 + Position(order[1..], b)
  }

  function Without(order: seq<nat>, k: nat): seq<nat>
    requires k < |order|
  {
    order[..k] + order[k + 1..]
  }

  /** `brelse`, after the buffer's own lock is released. */
  function Release(c: Cache, b: nat): Cache
    requires b < |c.bufs| == |c.rel| && b in c.order && c.bufs[b].refcnt > 0
  {
    var B := c.bufs[b];
    if B.refcnt > 1 then c.(bufs := c.bufs[b := B.(refcnt := B.refcnt - 1)])
    else
      Cache(c.bufs[b := B.(refcnt := 0)], [b] + Without(c.order, Position(c.order, b)), c.rel[b := c.clock + 1],
        c.clock + 1)
  }

  lemma OnceInOrder(c: Cache, i: nat, j: nat)
    requires Wf(c) && i < |c.order| && j < |c.order| && c.order[i] == c.order[j]
    ensures i == j
  {
    assert i < j ==> OlderThan(c, i, j);
    assert j < i ==> OlderThan(c, j, i);
  }

  /** Changing a buffer's contents or count leaves the ring as it is. */
  lemma SameRing(c: Cache, b: nat, B: Buf)
    requires Wf(c) && b < |c.bufs|
    ensures Wf(c.(bufs := c.bufs[b := B]))
  {
    var t := c.(bufs := c.bufs[b := B]);
    forall i: nat | i < |t.order| ensures InOrder(t, i) {
      assert InOrder(c, i);
    }
    forall i: nat, j: nat | i < j < |t.order| ensures OlderThan(t, i, j) {
      assert OlderThan(c, i, j);
    }
  }

  lemma GetWf(c: Cache, dev: nat, blockno: nat)
    requires Wf(c)
    ensures Wf(Get(c, dev, blockno).cache)
  {
    var g := Get(c, dev, blockno);
    if g.b >= 0 {
      SameRing(c, g.b, g.cache.bufs[g.b]);
    }
  }

  /** Where position `i` behind the front of the new ring was in the old one, from which position `k` moved
      to the front. */
  function Was(i: nat, k: nat): nat
    requires i > 0
  {
    if i <= k then i - 1 else i
  }

  lemma WasAt(c: Cache, b: nat, i: nat)
    requires Wf(c) && b < |c.bufs| && c.bufs[b].refcnt == 1 && b in c.order && 0 < i < |c.order|
    ensures var t := Release(c, b);
            var k := Was(i, Position(c.order, b));
            k < |c.order| && |t.order| == |c.order| && t.order[i] == c.order[k] != b && InOrder(t, i)
  {
    var p := Position(c.order, b);
    var k := Was(i, p);
    assert InOrder(c, k);
    if c.order[k] == b {
      OnceInOrder(c, k, p);
    }
  }

  lemma MovedToFront(c: Cache, b: nat)
    requires Wf(c) && b < |c.bufs| && c.bufs[b].refcnt == 1 && b in c.order
    ensures Wf(Release(c, b))
  {
    var t := Release(c, b);
    var p := Position(c.order, b);
    forall i: nat | i < |t.order| ensures InOrder(t, i) {
      if i > 0 {
        WasAt(c, b, i);
      }
    }
    forall i: nat, j: nat | i < j < |t.order| ensures OlderThan(t, i, j) {
      WasAt(c, b, j);
      assert InOrder(c, Was(j, p));
      if i > 0 {
        WasAt(c, b, i);
        assert OlderThan(c, Was(i, p), Was(j, p));
      }
    }
    forall d: nat | d < |t.bufs| ensures d in t.order && t.rel[d] <= t.clock {
      assert d in c.order;
      var i: nat :| i < |c.order| && c.order[i] == d;
      assert d != b ==> t.order[if i < p then i + 1 else i] == d;
    }
  }

  lemma ReleaseWf(c: Cache, b: nat)
    requires Wf(c) && b < |c.bufs| && c.bufs[b].refcnt > 0
    ensures b in c.order && Wf(Release(c, b))
  {
    assert b in c.order;
    if c.bufs[b].refcnt > 1 {
      SameRing(c, b, Release(c, b).bufs[b]);
    } else {
      MovedToFront(c, b);
    }
  }

  /** The recycled buffer is unreferenced, and of all unreferenced buffers it is the one that was released
      longest ago; `bget` panics only if there is none. */
  lemma VictimIsOldest(c: Cache, dev: nat, blockno: nat)
    requires Wf(c) && forall b: nat :: !Caches(c, b, dev, blockno)
    ensures var g := Get(c, dev, blockno);
            (g.b < 0 <==> forall b: nat :: b < |c.bufs| ==> !Unused(c, b)) &&
            (g.b >= 0 ==> Unused(c, g.b) && forall b: nat :: Unused(c, b) && b != g.b ==> c.rel[g.b] < c.rel[b])
  {
    var v := LastUnused(c, |c.order|);
    forall b: nat | Unused(c, b) ensures v >= 0 && (b != c.order[v] ==> c.rel[c.order[v]] < c.rel[b]) {
      assert b in c.order;
      var i: nat :| i < |c.order| && c.order[i] == b;
      if i < v {
        assert OlderThan(c, i, v);
      }
    }
  }

  /** `bget` finds a cached block, and never recycles a buffer that is held or pinned. */
  lemma GetKeeps(c: Cache, dev: nat, blockno: nat, b: nat)
    requires Wf(c) && b < |c.bufs|
    ensures var g := Get(c, dev, blockno);
            b < |g.cache.bufs| && (g.b >= 0 ==> Caches(g.cache, g.b, dev, blockno)) &&
            (c.bufs[b].refcnt > 0 ==>
               g.cache.bufs[b] == c.bufs[b].(refcnt := g.cache.bufs[b].refcnt) &&
               g.cache.bufs[b].refcnt >= c.bufs[b].refcnt) &&
            (Caches(c, b, dev, blockno) ==> g.b >= 0 && Caches(c, g.b, dev, blockno))
  {
    if Caches(c, b, dev, blockno) {
      assert b in c.order;
      var i: nat :| i < |c.order| && c.order[i] == b;
    }
  }
}

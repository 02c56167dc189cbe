/** The buffer cache's doubly linked ring and the code that walks and changes it. Buffers are numbered
    from 0; the ring's `head` has the number behind the last one. */
module BioCode {
  import opened Bcache
  import Disk

  // ----- The links describe the order -----

  /** The node at place `i` of the ring that goes from `head` through `order` back to `head`. */
  function Node(order: seq<nat>, head: nat, i: nat): nat
    requires i <= |order| + 1
  {
    if i == 0 || i == |order| + 1 then head else order[i - 1]
  }

  predicate LinkOk(prev: seq<nat>, next: seq<nat>, order: seq<nat>, head: nat, i: nat) {
    i <= |order| &&
    var a, b := Node(order, head, i), Node(order, head, i + 1);
    a < |next| && b < |prev| && next[a] == b && prev[b] == a
  }

  predicate Distinct(order: seq<nat>, head: nat) {
    (forall i :: 0 <= i < |order| ==> order[i] < head) &&
    forall i, j :: 0 <= i < j < |order| ==> order[i] != order[j]
  }

  /** `next` runs through `order` and `prev` through it in the opposite direction. */
  ghost predicate Linked(prev: seq<nat>, next: seq<nat>, order: seq<nat>, head: nat) {
    |prev| == |next| == head + 1 && Distinct(order, head) &&
    forall i: nat :: i <= |order| ==> LinkOk(prev, next, order, head, i)
  }

  /** `b->next->prev = b->prev; b->prev->next = b->next;` for the buffer at position `k`. */
  lemma Unlinks(prev: seq<nat>, next: seq<nat>, order: seq<nat>, head: nat, k: nat)
    requires Linked(prev, next, order, head) && k < |order|
    ensures var b := order[k];
            next[b] <= head && prev[b] <= head && Linked(prev[next[b] := prev[b]], next[prev[b] := next[b]],
              Without(order, k), head)
  {
    var b, o := order[k], Without(order, k);
    assert LinkOk(prev, next, order, head, k) && LinkOk(prev, next, order, head, k + 1);
    var p, n := prev[next[b] := prev[b]], next[prev[b] := next[b]];
    forall i: nat | i <= |o| ensures LinkOk(p, n, o, head, i) {
      assert LinkOk(prev, next, order, head, if i <= k then i else i + 1);
    }
  }

  /** `b->next = head.next; b->prev = &head; head.next->prev = b; head.next = b;` */
  lemma Pushes(prev: seq<nat>, next: seq<nat>, order: seq<nat>, head: nat, b: nat)
    requires Linked(prev, next, order, head) && b < head && b !in order
    ensures next[head] <= head && Linked(prev[b := head][next[head] := b], next[b := next[head]][head := b],
              [b] + order, head)
  {
    assert LinkOk(prev, next, order, head, 0);
    var p, n := prev[b := head][next[head] := b], next[b := next[head]][head := b];
    var o := [b] + order;
    forall i: nat | i <= |o| ensures LinkOk(p, n, o, head, i) {
      assert i > 0 ==> LinkOk(prev, next, order, head, i - 1);
    }
  }

  class BufferCache {
    const head: nat
    var prev: seq<nat>
    var next: seq<nat>
    var bufs: seq<Buf>
    ghost var order: seq<nat>
    ghost var rel: seq<int>
    ghost var clock: nat

    ghost function Now(): Cache
      reads this
    {
      Cache(bufs, order, rel, clock)
    }

    ghost predicate Valid()
      reads this
    {
      |bufs| == head && Linked(prev, next, order, head) && Wf(Now())
    }

    /** `binit`: all buffers, as the loader zeroed them, in the order the loop puts them. */
    constructor (n: nat, zero: Disk.Block)
      ensures Valid() && head == n && order == seq(n, i requires 0 <= i < n => n - 1 - i)
      ensures forall b :: 0 <= b < n ==>
                bufs[b].dev == 0 && bufs[b].blockno == 0 && !bufs[b].valid && bufs[b].refcnt == 0
    {
      head, clock := n, 0;
      prev, next := seq(n + 1, i => n), seq(n + 1, i => n);
      bufs := seq(n, i => Buf(0, 0, false, 0, zero));
      rel := seq(n, i => i - n);
      order := [];
      new;
      var b := 0;
      assert LinkOk(prev, next, order, head, 0);
      while b < n
        invariant 0 <= b <= n && head == n && Linked(prev, next, order, n)
        invariant |order| == b && forall i :: 0 <= i < b ==> order[i] == b - 1 - i
        invariant bufs == seq(n, i => Buf(0, 0, false, 0, zero)) && clock == 0 && rel == seq(n, i => i - n)
      {
        PushFront(b);
        b := b + 1;
      }
      forall i: nat | i < |order| ensures InOrder(Now(), i) {
      }
      forall i: nat, j: nat | i < j < |order| ensures OlderThan(Now(), i, j) {
      }
      forall d: nat | d < |bufs| ensures d in order {
        assert order[n - 1 - d] == d;
      }
    }

    method PushFront(b: nat)
      requires Linked(prev, next, order, head) && b < head && b !in order
      modifies this`prev, this`next, this`order
      ensures Linked(prev, next, order, head) && order == [b] + old(order)
    {
      Pushes(prev, next, order, head, b);
      ghost var p, n := prev[b := head][next[head] := b], next[b := next[head]][head := b];
      next := next[b := next[head]];
      prev := prev[b := head];
      prev := prev[next[head] := b];
      next := next[head := b];
      order := [b] + order;
      assert prev == p && next == n;
    }

    method Unlink(b: nat)
      requires Linked(prev, next, order, head) && b in order
      modifies this`prev, this`next, this`order
      ensures Linked(prev, next, order, head) && order == Without(old(order), Position(old(order), b))
    {
      ghost var k := Position(order, b);
      Unlinks(prev, next, order, head, k);
      ghost var p, n := prev[next[b] := prev[b]], next[prev[b] := next[b]];
      prev := prev[next[b] := prev[b]];
      next := next[prev[b] := next[b]];
      order := Without(order, k);
      assert prev == p;
      assert next == n;
    }

    /** The first loop of `bget`, along `next`. */
    method Find(dev: nat, blockno: nat) returns (b: nat)
      requires Valid()
      ensures var k := FirstMatch(Now(), dev, blockno, 0); b == if k < |order| then order[k] else head
    {
      ghost var i := 0;
      assert LinkOk(prev, next, order, head, 0);
      b := next[head];
      while b != head && !(bufs[b].dev == dev && bufs[b].blockno == blockno)
        invariant 0 <= i <= |order| && b == Node(order, head, i + 1) && b <= head
        invariant FirstMatch(Now(), dev, blockno, i) == FirstMatch(Now(), dev, blockno, 0)
        decreases |order| - i
      {
        assert LinkOk(prev, next, order, head, i + 1) && InOrder(Now(), i);
        b := next[b];
        i := i + 1;
      }
    }

    /** The second loop of `bget`, along `prev`. */
    method FindUnused() returns (b: nat)
      requires Valid()
      ensures var k := LastUnused(Now(), |order|); b == if k >= 0 then order[k] else head
    {
      ghost var i: nat := |order|;
      assert LinkOk(prev, next, order, head, i);
      b := prev[head];
      while b != head && bufs[b].refcnt != 0
        invariant i <= |order| && b == Node(order, head, i) && b <= head
        invariant LastUnused(Now(), i) == LastUnused(Now(), |order|)
        decreases i
      {
        assert LinkOk(prev, next, order, head, i - 1) && InOrder(Now(), i - 1);
        b := prev[b];
        i := i - 1;
      }
    }

    /** `bget`; -1 is its panic. */
    method Bget(dev: nat, blockno: nat) returns (r: int)
      requires Valid()
      modifies this`bufs
      ensures Valid() && Got(r, Now()) == Get(old(Now()), dev, blockno)
    {
      GetWf(Now(), dev, blockno);
      var b := Find(dev, blockno);
      assert forall i: nat :: i < |order| ==> InOrder(Now(), i) && order[i] < head;
      if b != head {
        bufs := bufs[b := bufs[b].(refcnt := bufs[b].refcnt + 1)];
        return b;
      }
      b := FindUnused();
      if b != head {
        bufs := bufs[b := bufs[b].(dev := dev, blockno := blockno, valid := false, refcnt := 1)];
        return b;
      }
      return -1;
    }

    /** `brelse`, once the buffer's own lock is released. */
    method Brelse(b: nat)
      requires Valid() && b < |bufs| && bufs[b].refcnt > 0
      modifies this
      ensures Valid() && b in old(order) && Now() == Release(old(Now()), b)
    {
      ghost var c := Now();
      ReleaseWf(c, b);
      OnlyHere(c, Position(order, b));
      bufs := bufs[b := bufs[b].(refcnt := bufs[b].refcnt - 1)];
      if bufs[b].refcnt == 0 {
        MoveToFront(b);
        clock := clock + 1;
        rel := rel[b := clock];
      }
      assert Now() == Release(c, b);
    }

    method MoveToFront(b: nat)
      requires Linked(prev, next, order, head) && b in order && b !in Without(order, Position(order, b))
      modifies this`prev, this`next, this`order
      ensures Linked(prev, next, order, head) && order == [b] + Without(old(order), Position(old(order), b))
    {
      Unlink(b);
      PushFront(b);
    }

    method Bpin(b: nat)
      requires Valid() && b < |bufs|
      modifies this`bufs
      ensures Valid() && bufs == old(bufs)[b := old(bufs[b]).(refcnt := old(bufs[b].refcnt) + 1)]
    {
      SameRing(Now(), b, bufs[b].(refcnt := bufs[b].refcnt + 1));
      bufs := bufs[b := bufs[b].(refcnt := bufs[b].refcnt + 1)];
    }

    method Bunpin(b: nat)
      requires Valid() && b < |bufs| && bufs[b].refcnt > 0
      modifies this`bufs
      ensures Valid() && bufs == old(bufs)[b := old(bufs[b]).(refcnt := old(bufs[b].refcnt) - 1)]
    {
      SameRing(Now(), b, bufs[b].(refcnt := bufs[b].refcnt - 1));
      bufs := bufs[b := bufs[b].(refcnt := bufs[b].refcnt - 1)];
    }
  }

  lemma OnlyHere(c: Cache, k: nat)
    requires Wf(c) && k < |c.order|
    ensures c.order[k] !in Without(c.order, k)
  {
    forall i: nat | i < |c.order| && c.order[i] == c.order[k] ensures i == k {
      OnceInOrder(c, i, k);
    }
  }
}

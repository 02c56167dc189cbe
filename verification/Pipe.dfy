/** Pipes: the ring buffer with its wrapping 32-bit counters, the loops of `pipewrite` and `piperead`
    between taking the pipe's lock and releasing it, and all interleavings of any number of readers and
    writers that sleep, are woken and are killed. */
module Pipes {
  import opened Blocks

  const PIPESIZE := 512

  /** Counters are `uint`. */
  const WRAP := 0x1_0000_0000

  datatype Ring = Ring(data: seq<Byte>, nread: nat, nwrite: nat, readopen: bool, writeopen: bool)

  predicate Full(r: Ring) {
    r.nwrite == (r.nread + PIPESIZE) % WRAP
  }

  predicate Empty(r: Ring) {
    r.nread == r.nwrite
  }

  function Store(r: Ring, b: Byte): Ring
    requires |r.data| == PIPESIZE
  {
    r.(data := r.data[r.nwrite % PIPESIZE := b], nwrite := (r.nwrite + 1) % WRAP)
  }

  function Drop(r: Ring): Ring {
    r.(nread := (r.nread + 1) % WRAP)
  }

  /** How a stretch of code under the pipe's lock ends: the call returns a count, fails, or sleeps. */
  datatype End = Returned | Failed | Slept

  datatype Wrote = Wrote(ring: Ring, i: nat, end: End)

  /** `pipewrite` from its `i`-th byte on, until it returns or sleeps. The process is seen to be killed
      from the `killAt`-th byte on, and `copyin` fails from the `badAt`-th on. */
  function WriteRun(r: Ring, src: seq<Byte>, i: nat, killAt: nat, badAt: nat): Wrote
    requires |r.data| == PIPESIZE
    decreases |src| - i
  {
    if i >= |src| then Wrote(r, i, Returned)
    else if !r.readopen || i >= killAt then Wrote(r, i, Failed)
    else if Full(r) then Wrote(r, i, Slept)
    else if i >= badAt then Wrote(r, i, Returned)
    else WriteRun(Store(r, src[i]), src, i + 1, killAt, badAt)
  }

  /** `got` is what was taken out of the ring, `n` the count that is returned. */
  datatype ReadBack = ReadBack(ring: Ring, got: seq<Byte>, n: nat, end: End)

  /** The copy loop of `piperead` from its `i`-th byte on. */
  function CopyRun(r: Ring, n: nat, i: nat, badAt: nat): ReadBack
    requires |r.data| == PIPESIZE
    decreases n - i
  {
    if i >= n || Empty(r) then ReadBack(r, [], i, Returned)
    else
      var b := r.data[r.nread % PIPESIZE];
      if i >= badAt then ReadBack(Drop(r), [b], i, Returned)
      else
        var rest := CopyRun(Drop(r), n, i + 1, badAt);
        rest.(got := [b] + rest.got)
  }

  /** `piperead` until it returns or sleeps; `copyout` fails from the `badAt`-th byte on. */
  function ReadRun(r: Ring, n: nat, killed: bool, badAt: nat): ReadBack
    requires |r.data| == PIPESIZE
  {
    if Empty(r) && r.writeopen then ReadBack(r, [], 0, if killed then Failed else Slept)
    else CopyRun(r, n, 0, badAt)
  }

  // ----- The ring holds what was stored and not yet removed -----

  /** `stored` is everything ever put in and `taken` how much of it has been removed. */
  predicate Holds(r: Ring, stored: seq<Byte>, taken: nat) {
    |r.data| == PIPESIZE && taken <= |stored| <= taken + PIPESIZE &&
    r.nwrite == |stored| % WRAP && r.nread == taken % WRAP &&
    forall k: nat :: taken <= k < |stored| ==> r.data[k % PIPESIZE] == stored[k]
  }

  /** Wrapping the counters loses nothing: the ring's size divides 2^32. */
  lemma WrapKeepsSlot(k: nat)
    ensures (k % WRAP) % PIPESIZE == k % PIPESIZE
  {
    assert WRAP == PIPESIZE * 8388608;
    var q := k / WRAP;
    assert k == PIPESIZE * (8388608 * q) + k % WRAP;
    ModPlus(k % WRAP, 8388608 * q);
  }

  lemma {:induction false} ModPlus(x: nat, q: nat)
    ensures (PIPESIZE * q + x) % PIPESIZE == x % PIPESIZE
  {
    if q > 0 {
      ModPlus(x, q - 1);
      assert (PIPESIZE * (q - 1) + x + PIPESIZE) % PIPESIZE == (PIPESIZE * (q - 1) + x) % PIPESIZE;
    }
  }

  lemma WrapPlus(a: nat, d: nat)
    requires d <= PIPESIZE
    ensures (a % WRAP + d) % WRAP == (a + d) % WRAP
    ensures (a + d) % WRAP == a % WRAP <==> d == 0
  {
  }

  /** The tests on the wrapped counters mean what they should. */
  lemma Tests(r: Ring, stored: seq<Byte>, taken: nat)
    requires Holds(r, stored, taken)
    ensures Full(r) <==> |stored| == taken + PIPESIZE
    ensures Empty(r) <==> |stored| == taken
  {
    WrapPlus(taken, PIPESIZE);
    WrapPlus(taken, |stored| - taken);
    WrapPlus(|stored|, PIPESIZE + taken - |stored|);
  }

  /** Two different positions less than the ring's size apart have different slots. */
  lemma SlotsDiffer(a: nat, b: nat)
    requires a < b < a + PIPESIZE
    ensures a % PIPESIZE != b % PIPESIZE
  {
  }

  lemma StoreHolds(r: Ring, stored: seq<Byte>, taken: nat, b: Byte)
    requires Holds(r, stored, taken) && !Full(r)
    ensures Holds(Store(r, b), stored + [b], taken)
  {
    Tests(r, stored, taken);
    WrapKeepsSlot(|stored|);
    WrapPlus(|stored|, 1);
    forall k: nat | taken <= k < |stored| + 1
      ensures Store(r, b).data[k % PIPESIZE] == (stored + [b])[k]
    {
      if k < |stored| {
        SlotsDiffer(k, |stored|);
      }
    }
  }

  lemma DropHolds(r: Ring, stored: seq<Byte>, taken: nat)
    requires Holds(r, stored, taken) && !Empty(r)
    ensures taken < |stored| && r.data[r.nread % PIPESIZE] == stored[taken] && Holds(Drop(r), stored, taken + 1)
  {
    Tests(r, stored, taken);
    WrapKeepsSlot(taken);
    WrapPlus(taken, 1);
  }

  /** A write stores exactly the bytes it counts, in order, after all that was stored before. */
  lemma {:induction false} WriteRunStores(r: Ring, stored: seq<Byte>, taken: nat, src: seq<Byte>, i: nat, killAt: nat,
                                          badAt: nat)
    requires Holds(r, stored, taken) && i <= |src|
    ensures var w := WriteRun(r, src, i, killAt, badAt);
            i <= w.i <= |src| && Holds(w.ring, stored + src[i..w.i], taken) &&
            w.ring.readopen == r.readopen && w.ring.writeopen == r.writeopen &&
            (w.end.Slept? ==> Full(w.ring) && r.readopen && w.i < |src|) &&
            (w.end.Failed? <==> w.i < |src| && (!r.readopen || w.i >= killAt)) &&
            (w.end.Returned? ==> w.i == |src| || w.i >= badAt)
    decreases |src| - i
  {
    if i >= |src| || !r.readopen || i >= killAt || Full(r) || i >= badAt {
      assert stored + src[i..i] == stored;
    } else {
      StoreHolds(r, stored, taken, src[i]);
      WriteRunStores(Store(r, src[i]), stored + [src[i]], taken, src, i + 1, killAt, badAt);
      var w := WriteRun(r, src, i, killAt, badAt);
      assert stored + [src[i]] + src[i + 1..w.i] == stored + src[i..w.i];
    }
  }

  /** Exactly when a write fails after it has stored something: it is killed part-way, and no fault and no full
      ring stops it before that. */
  lemma {:induction false} WriteFailsPartWayIff(r: Ring, stored: seq<Byte>, taken: nat, src: seq<Byte>, i: nat,
                                                killAt: nat, badAt: nat)
    requires Holds(r, stored, taken) && i <= |src|
    ensures var w := WriteRun(r, src, i, killAt, badAt);
            w.end.Failed? && w.i > i <==>
            r.readopen && i < killAt < |src| && killAt <= badAt && killAt - i <= PIPESIZE - (|stored| - taken)
    decreases |src| - i
  {
    Tests(r, stored, taken);
    if !(i >= |src| || !r.readopen || i >= killAt || Full(r) || i >= badAt) {
      StoreHolds(r, stored, taken, src[i]);
      WriteFailsPartWayIff(Store(r, src[i]), stored + [src[i]], taken, src, i + 1, killAt, badAt);
      WriteRunStores(Store(r, src[i]), stored + [src[i]], taken, src, i + 1, killAt, badAt);
    }
  }

  /** What the copy loop leaves: the oldest bytes are removed, in order, and it has stopped at `n`, at an empty ring or
      at a bad address, where one byte is lost. */
  ghost predicate Taken(r: Ring, stored: seq<Byte>, taken: nat, n: nat, i: nat, badAt: nat, c: ReadBack) {
    && c.end.Returned? && taken + |c.got| <= |stored| && c.got == stored[taken..taken + |c.got|]
    && Holds(c.ring, stored, taken + |c.got|) && c.ring.readopen == r.readopen && c.ring.writeopen == r.writeopen
    && i <= c.n <= n && (c.n == i + |c.got| || (c.n + 1 == i + |c.got| && c.n >= badAt))
    && (c.n == n || Empty(c.ring) || c.n >= badAt)
  }

  lemma TakenMore(r: Ring, stored: seq<Byte>, taken: nat, n: nat, i: nat, badAt: nat, c: ReadBack)
    requires Holds(r, stored, taken) && !Empty(r) && i < n && i < badAt
    requires Taken(Drop(r), stored, taken + 1, n, i + 1, badAt, c)
    ensures taken < |stored| && Taken(r, stored, taken, n, i, badAt, Prefixed([stored[taken]], c))
  {
    DropHolds(r, stored, taken);
    SliceFront(stored, taken, |c.got|);
  }

  /** A read removes the oldest bytes, and stops only at `n`, at an empty ring or at a bad address. */
  lemma {:induction false} CopyRunTakes(r: Ring, stored: seq<Byte>, taken: nat, n: nat, i: nat, badAt: nat)
    requires Holds(r, stored, taken) && i <= n
    ensures Taken(r, stored, taken, n, i, badAt, CopyRun(r, n, i, badAt))
    decreases n - i
  {
    if i < n && !Empty(r) {
      DropHolds(r, stored, taken);
      if i < badAt {
        CopyRunTakes(Drop(r), stored, taken + 1, n, i + 1, badAt);
        TakenMore(r, stored, taken, n, i, badAt, CopyRun(Drop(r), n, i + 1, badAt));
      }
    }
  }

  lemma SliceFront(s: seq<Byte>, i: nat, n: nat)
    requires i + 1 + n <= |s|
    ensures [s[i]] + s[i + 1..i + 1 + n] == s[i..i + (n + 1)]
  {
  }

  /** A read result with `got` put in front of the bytes taken. */
  function Prefixed(got: seq<Byte>, c: ReadBack): ReadBack {
    c.(got := got + c.got)
  }

  lemma CopyNext(r: Ring, n: nat, i: nat, badAt: nat, got: seq<Byte>)
    requires |r.data| == PIPESIZE && i < n && !Empty(r)
    ensures var b := r.data[r.nread % PIPESIZE];
            Prefixed(got, CopyRun(r, n, i, badAt)) ==
            if i >= badAt then ReadBack(Drop(r), got + [b], i, Returned)
            else Prefixed(got + [b], CopyRun(Drop(r), n, i + 1, badAt))
  {
    var b := r.data[r.nread % PIPESIZE];
    if i < badAt {
      var rest := CopyRun(Drop(r), n, i + 1, badAt);
      assert got + ([b] + rest.got) == got + [b] + rest.got;
    }
  }

  lemma CopyEnds(r: Ring, n: nat, i: nat, badAt: nat, got: seq<Byte>)
    requires |r.data| == PIPESIZE && (i >= n || Empty(r))
    ensures Prefixed(got, CopyRun(r, n, i, badAt)) == ReadBack(r, got, i, Returned)
  {
  }

  lemma ReadRunTakes(r: Ring, stored: seq<Byte>, taken: nat, n: nat, killed: bool, badAt: nat)
    requires Holds(r, stored, taken)
    ensures var c := ReadRun(r, n, killed, badAt);
            taken + |c.got| <= |stored| && c.got == stored[taken..taken + |c.got|] &&
            Holds(c.ring, stored, taken + |c.got|) &&
            c.ring.readopen == r.readopen && c.ring.writeopen == r.writeopen &&
            (!c.end.Returned? <==> Empty(r) && r.writeopen) && (!c.end.Returned? ==> c.ring == r) &&
            (c.end.Failed? ==> killed)
  {
    if !(Empty(r) && r.writeopen) {
      CopyRunTakes(r, stored, taken, n, 0, badAt);
    }
  }

  /** Zero means end of file: a read of at least one byte to a good address returns 0 only if the pipe is
      empty and its write end is closed. */
  lemma EndOfFile(r: Ring, stored: seq<Byte>, taken: nat, n: nat, killed: bool, badAt: nat)
    requires Holds(r, stored, taken) && n > 0 && badAt > 0
    ensures var c := ReadRun(r, n, killed, badAt); c.end.Returned? && c.n == 0 <==> taken == |stored| && !r.writeopen
  {
    Tests(r, stored, taken);
    if !(Empty(r) && r.writeopen) {
      CopyRunTakes(r, stored, taken, n, 0, badAt);
    }
  }
}

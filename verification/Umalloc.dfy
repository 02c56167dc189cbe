/** The user-level memory allocator: `malloc`, `morecore` and `free` on headers in memory. Sizes are multiples
    of a header's 16 bytes, but where memory from `sbrk` begins is up to others. */
module Umalloc {
  import opened FreeRing

  const HEADER := 16

  /** The size of a process of `sz` bytes after `growproc(n)`. To shrink it by more than it has wraps around, and
      leaves it as it was. */
  function Grown(sz: int, n: int): int {
    if sz + n < 0 then sz else sz + n
  }

  /** What is left of a byte count passed to `sbrk`, whose parameter is a 32-bit `int`. */
  function Int32(x: int): (n: int)
    ensures -0x8000_0000 <= n < 0x8000_0000
  {
    (x + 0x8000_0000) % 0x1_0000_0000 - 0x8000_0000
  }

  /** The size of the block for a request of `nbytes` bytes: as many headers as hold them and one more. The
      sum is computed in 64 bits. */
  function BlockSize(nbytes: nat): (n: nat)
    ensures n % HEADER == 0 && nbytes + HEADER <= n < nbytes + 2 * HEADER
  {
    ((nbytes + HEADER - 1) / HEADER + 1) * HEADER
  }

  /** `sbrk` is told the right number of bytes exactly below 2^31. */
  lemma SbrkArgumentIff(n: nat)
    ensures Int32(n) == n <==> n < 0x8000_0000
  {
  }

  /** The largest request that can always be passed on to `sbrk` is 2^31 - 32 bytes. */
  lemma LargestRequest(nbytes: nat)
    ensures BlockSize(nbytes) < 0x8000_0000 <==> nbytes <= 0x8000_0000 - 2 * HEADER
  {
  }

  /** A request for all of 2^32 - 1 bytes asks `sbrk` for 16. */
  lemma HugeRequestAsksForLittle()
    ensures BlockSize(0xffff_ffff) == 0x1_0000_0010 && Int32(BlockSize(0xffff_ffff)) == 16
  {
  }

  class Allocator {
    const base: int
    var ptr: map<int, int>
    var size: map<int, int>
    var freep: int
    /** The end of the process's memory. */
    var brk: int

    ghost var ring: seq<int>
    ghost var live: set<int>
    ghost var own: map<int, int>

    ghost function Now(): Heap
      reads this
    {
      Heap(ptr, size, base, ring, live, own)
    }

    /** The ring is in order. Before the first call there is none yet. */
    ghost predicate Sound()
      reads this
    {
      0 < base && if freep == 0 then ring == [] && live == {} && own == map[] else Good(Now()) && freep in ring
    }

    /** And all that the allocator takes to be its memory is memory of the process. */
    ghost predicate Valid()
      reads this
    {
      Sound() && base < brk && forall u: int :: u in own ==> u < brk
    }

    /** A block of the ring has `n` bytes. */
    ghost predicate Fits(n: nat)
      reads this
    {
      freep != 0 && !NoneFits(Now(), n)
    }

    constructor (base: int, brk: int)
      requires 0 < base < brk
      ensures Valid() && live == {} && own == map[] && this.brk == brk && this.base == base
    {
      this.base, this.brk, this.freep := base, brk, 0;
      ptr, size, ring, live, own := map[], map[], [], {}, map[];
    }

    /** `p->s.ptr`. */
    function PtrOf(p: int): int
      reads this
    {
      if p in ptr then ptr[p] else 0
    }

    /** `p->s.size`. */
    function SizeOf(p: int): int
      reads this
    {
      if p in size then size[p] else 0
    }

    /** The search in `free`: it ends, at the place of the block. */
    method FindSpot(bp: int) returns (p: int, ghost j: nat)
      requires Sound() && freep != 0 && bp > base && bp !in ring
      ensures Place(Now(), bp, j) && p == ring[j]
    {
      ghost var h := Now();
      ghost var goal := StopsOnce(h, bp);
      p := freep;
      j :| j < |ring| && ring[j] == p;
      while !(bp > p && bp < PtrOf(p))
        invariant j < |ring| && p == ring[j]
        decreases Steps(h, j, goal)
      {
        PlaceIff(h, bp, j);
        if p >= PtrOf(p) && (bp > p || bp < PtrOf(p)) {
          return;
        }
        SuccIs(h, j);
        p := PtrOf(p);
        j := Succ(h, j);
      }
      PlaceIff(h, bp, j);
    }

    /** The first half of `free`: the block takes in its upper neighbour if it touches it. */
    method JoinUp(bp: int, p: int, ghost j: nat)
      requires Good(Now()) && bp in live && Place(Now(), bp, j) && p == ring[j]
      modifies this`ptr, this`size, this`ring, this`own
      ensures Floating(Now(), j, bp) && p == ring[j] && own.Keys == old(own.Keys) && SizeOf(bp) >= old(SizeOf(bp))
      ensures SameSizes(live - {bp}, old(Now()), Now())
      ensures forall i: nat :: i < |ring| ==> ring[i] in old(ring) && SizeOf(ring[i]) == Size(old(Now()), ring[i])
    {
      ghost var h := Now();
      assert LinkOk(h, j);
      var next := PtrOf(p);
      if bp + SizeOf(bp) == next {
        AbsorbAt(h, j, bp);
        Ascends(h, 0, j + 1);
        assert BlockOk(h, next);
        size := size[bp := SizeOf(bp) + SizeOf(next)];
        ptr := ptr[bp := PtrOf(next)];
        ring, own := ring[..j + 1] + ring[j + 2..], Renamed(own, next, bp);
        assert Now() == Absorb(h, j, bp);
        AbsorbFloats(h, j, bp);
      } else {
        ptr := ptr[bp := next];
        assert Now() == Point(h, j, bp);
        PointFloats(h, j, bp);
      }
    }

    /** The second half of `free`: the lower neighbour takes in the block if it touches it, or is linked to
        it. */
    method JoinDown(bp: int, p: int, ghost j: nat) returns (ghost k: nat)
      requires Floating(Now(), j, bp) && p == ring[j]
      modifies this`ptr, this`size, this`ring, this`own, this`live
      ensures Good(Now()) && j < |ring| && p == ring[j] && own.Keys == old(own.Keys) && live == old(live) - {bp}
      ensures Contains(Now(), k, bp, old(SizeOf(bp)))
      ensures SameSizes(live, old(Now()), Now()) && OthersKept(old(Now()), Now(), k)
    {
      ghost var h := Now();
      if p + SizeOf(p) == bp {
        size := size[p := SizeOf(p) + SizeOf(bp)];
        ptr := ptr[p := PtrOf(bp)];
        live, own := live - {bp}, Renamed(own, bp, p);
        assert Now() == Sink(h, j, bp);
        SinkGood(h, j, bp);
        SinkOthers(h, j, bp);
        assert BlockOk(h, bp);
        k := j;
      } else {
        ptr := ptr[p := bp];
        ring, live := ring[..j + 1] + [bp] + ring[j + 1..], live - {bp};
        assert Now() == LinkIn(h, j, bp);
        LinkInGood(h, j, bp);
        LinkInOthers(h, j, bp);
        k := j + 1;
      }
    }

    /** The block of `ap` goes back into the ring, joined with the free blocks it touches. */
    method Free(ap: int) returns (ghost k: nat)
      requires Sound() && ap - HEADER in live
      modifies this`ptr, this`size, this`ring, this`own, this`live, this`freep
      ensures Sound() && (old(Valid()) ==> Valid()) && freep != 0 && live == old(live) - {ap - HEADER} &&
              own.Keys == old(own.Keys)
      ensures SameSizes(live, old(Now()), Now())
      ensures Contains(Now(), k, ap - HEADER, old(SizeOf(ap - HEADER))) && OthersKept(old(Now()), Now(), k)
    {
      var bp := ap - HEADER;
      assert BlockOk(Now(), bp);
      var p; ghost var j;
      p, j := FindSpot(bp);
      JoinUp(bp, p, j);
      k := JoinDown(bp, p, j);
      freep := p;
      NoZero(Now(), p);
    }

    /** New memory becomes a block of `n` bytes in use. The process now ends at `top`. */
    method Extend(hp: int, n: nat, top: int)
      requires Valid() && freep != 0 && n > 0 && hp >= brk
      modifies this`size, this`brk, this`own, this`live
      ensures Sound() && live == old(live) + {hp} && hp !in old(live) && SizeOf(hp) == n && brk == top
      ensures top == hp + n ==> Valid()
      ensures own.Keys == old(own.Keys) + Span(hp, n)
      ensures SameSizes(old(live), old(Now()), Now()) && ring == old(ring)
      ensures forall i: nat :: i < |ring| ==> SizeOf(ring[i]) == Size(old(Now()), ring[i])
    {
      ghost var h := Now();
      NewIsFresh(h, brk, hp, n);
      GrowGood(h, hp, n);
      assert hp !in ring;
      size := size[hp := n];
      brk := top;
      own, live := Grow(h, hp, n).own, live + {hp};
      assert Now() == Grow(h, hp, n);
    }

    /** More memory, for a block of `nu` bytes. `sbrk` gives it `gap` bytes beyond the end the allocator last
        saw, if others have used it too. `wild` says that the process got another amount of memory than the
        allocator goes on to use. */
    method Morecore(nu: nat, gap: nat, oom: bool, ghost from: int) returns (p: int, wild: bool)
      requires Valid() && freep != 0 && nu > 0 && NoneFits(Now(), nu) && from == brk + gap
      modifies this
      ensures wild <==> !oom && nu >= 0x8000_0000
      ensures oom ==> p == 0 && Now() == old(Now()) && freep == old(freep) && brk == old(brk)
      ensures !oom ==> Sound() && (!wild ==> Valid()) && freep != 0 && p == freep && live == old(live)
      ensures !oom ==> SameSizes(live, old(Now()), Now())
      ensures !oom ==> Enlarged(old(own), from, nu) && !NoneFits(Now(), nu)
    {
      var n := AtLeastPage(nu);
      if oom {
        return 0, false;
      }
      var hp := brk + gap;
      var top := Grown(hp, Int32(n));
      TakeIn(hp, n, top, nu, hp + n);
      p, wild := freep, top != hp + n;
    }

    /** The new memory is set up as a block and freed. */
    method TakeIn(hp: int, n: nat, top: int, ghost nu: nat, ghost end: int)
      requires Valid() && freep != 0 && 0 < nu <= n && hp >= brk && end == hp + n && NoneFits(Now(), nu)
      modifies this
      ensures Sound() && (top == hp + n ==> Valid()) && freep != 0 && live == old(live) &&
              SameSizes(live, old(Now()), Now())
      ensures own.Keys == old(own.Keys) + Span(hp, n) && brk == top
      ensures Reaching(Now(), nu, end) && !NoneFits(Now(), nu)
    {
      ghost var was := Now();
      Extend(hp, n, top);
      ghost var mid := Now();
      ghost var k := Free(hp + HEADER);
      assert live == was.live;
      assert !TooSmall(Now(), k, nu);
      OnlyNewFits(was, mid, Now(), k, hp, n, nu, end);
    }

    /** The allocator has taken in memory for a block of `n` bytes at `from`: every block that is big enough
        reaches to the end of what it asked for, and the process ends where `sbrk` put its end. */
    ghost predicate Enlarged(before: map<int, int>, from: int, n: nat)
      reads this
    {
      own.Keys == before.Keys + Span(from, AtLeastPage(n)) && brk == Grown(from, Int32(AtLeastPage(n))) &&
      Reaching(Now(), n, from + AtLeastPage(n))
    }

    /** The body of the search in `malloc` when a block fits: `n` bytes leave the ring. */
    method Take(prevp: int, p: int, n: nat, ghost i: nat) returns (q: int)
      requires Good(Now()) && n > 0 && 0 < i < |ring| && p == ring[i] && prevp == ring[i - 1] && SizeOf(p) >= n
      modifies this`ptr, this`size, this`ring, this`own, this`live
      ensures Good(Now()) && prevp in ring && own.Keys == old(own.Keys)
      ensures q !in old(live) && live == old(live) + {q} && SizeOf(q) == n && q > base
      ensures q + n == p + old(SizeOf(p))
      ensures SameSizes(old(live), old(Now()), Now())
    {
      ghost var h := Now();
      Ascends(h, 0, i);
      assert p !in live && BlockOk(h, p);
      if SizeOf(p) == n {
        TakeAllGood(h, i);
        ptr := ptr[prevp := PtrOf(p)];
        ring, live := ring[..i] + ring[i + 1..], live + {p};
        assert Now() == TakeAll(h, i);
        assert ring[i - 1] == prevp;
        q := p;
      } else {
        TakeEndGood(h, i, n);
        size := size[p := SizeOf(p) - n];
        q := p + SizeOf(p);
        size := size[q := n];
        own, live := TakeEnd(h, i, n).own, live + {q};
        assert Now() == TakeEnd(h, i, n);
      }
    }

    /** The first call makes a ring of `base` alone. */
    method Start(ghost n: nat)
      requires Valid() && n > 0
      modifies this`ptr, this`size, this`ring, this`freep
      ensures Valid() && freep != 0 && Fits(n) == old(Fits(n)) && SameSizes(live, old(Now()), Now())
    {
      if freep == 0 {
        ptr, freep := ptr[base := base], base;
        size := size[base := 0];
        ring := [base];
        assert LinkOk(Now(), 0) && TooSmall(Now(), 0, n);
      }
    }

    /** `malloc`. A null result is 0. `wild` says that `sbrk` misread the amount asked for and the block reaches
        beyond the memory of the process. */
    method Malloc(nbytes: nat, gap: nat, oom: bool) returns (ap: int, wild: bool)
      requires Valid() && nbytes < 0x1_0000_0000
      modifies this
      ensures Outcome(old(Now()), old(brk) + gap, old(Fits(BlockSize(nbytes))), BlockSize(nbytes), oom, ap, wild)
    {
      var n := BlockSize(nbytes);
      ghost var h0, fits, from := Now(), Fits(n), brk + gap;
      ghost var asked := false;
      var prevp, p; ghost var f, i;
      wild := false;
      prevp, p, f, i := Begin(n, gap, oom);
      while true
        invariant Looking(f, i, prevp, p, n, h0, from, asked, fits, oom, gap)
        invariant wild <==> asked && n >= 0x8000_0000
        decreases !asked, Steps(Now(), i, f)
      {
        if SizeOf(p) >= n {
          ap := Finish(prevp, p, n, oom, h0, from, asked, fits, f, i);
          return;
        }
        if p == freep {
          prevp, p, f, i, wild := Refill(prevp, p, n, gap, oom, h0, from, asked, fits, f, i);
          if p == 0 {
            return 0, wild;
          }
          asked := true;
        } else {
          prevp, p, i := Advance(prevp, p, n, gap, oom, h0, from, asked, fits, f, i);
        }
      }
    }

    /** What `malloc` of a block of `n` bytes does, if `fits` says whether the ring had such a block. It goes
        wild exactly when it has to ask for memory and the byte count does not fit into an `int`; then the
        block that it returns reaches beyond the memory of the process. It fails exactly when it has to ask
        and is refused, and else adds one block of `n` bytes to those in use, which all keep their sizes; it
        takes memory from `sbrk`, at `from`, only if it had to ask. The ring stays in order in any case. */
    ghost predicate Outcome(h0: Heap, from: int, fits: bool, n: nat, oom: bool, ap: int, wild: bool)
      reads this
    {
      (wild <==> !oom && !fits && n >= 0x8000_0000) &&
      Sound() && (if wild then ap - HEADER + n > brk else Valid()) &&
      (ap == 0 <==> oom && !fits) && SameSizes(h0.live, h0, Now()) &&
      (if ap == 0 then live == h0.live && own == h0.own
       else
         ap - HEADER !in h0.live && live == h0.live + {ap - HEADER} && SizeOf(ap - HEADER) == n &&
         own.Keys == h0.own.Keys + if fits then {} else Span(from, AtLeastPage(n)))
    }

    /** What has changed since `malloc` began: at most that memory has been added at `from`. */
    ghost predicate Account(h0: Heap, from: int, asked: bool, fits: bool, n: nat, oom: bool)
      reads this
    {
      (fits || asked <==> Fits(n)) && live == h0.live && SameSizes(live, h0, Now()) &&
      ((asked && n >= 0x8000_0000) || Valid()) &&
      (if asked then Enlarged(h0.own, from, n) && !fits && !oom else own == h0.own)
    }

    /** `malloc` looks at `p`, at position `i`, behind `prevp`; it has come from `freep`, at position `f`, and
        nothing on the way was big enough. */
    ghost predicate Seeking(f: nat, i: nat, prevp: int, p: int, n: nat)
      reads this
    {
      f < |ring| && ring[f] == freep && i < |ring| && p == ring[i] && prevp in ring && PtrOf(prevp) == p &&
      forall k: nat :: k < |ring| && Behind(f, i, k) ==> TooSmall(Now(), k, n)
    }

    /** `prevp = p, p = p->s.ptr`. */
    method Onward(prevp: int, ghost f: nat, ghost i: nat, ghost n: nat) returns (p: int)
      requires Sound() && freep != 0 && f < |ring| && ring[f] == freep && i < |ring| && prevp == ring[i]
      requires i == f || (TooSmall(Now(), i, n) && forall k: nat :: k < |ring| && Behind(f, i, k) ==>
                 TooSmall(Now(), k, n))
      ensures Seeking(f, Succ(Now(), i), prevp, p, n)
      ensures i != f ==> Steps(Now(), Succ(Now(), i), f) < Steps(Now(), i, f)
    {
      SuccIs(Now(), i);
      p := PtrOf(prevp);
    }

    lemma AllTooSmall(f: nat, i: nat, prevp: int, p: int, n: nat)
      requires Sound() && freep != 0 && Seeking(f, i, prevp, p, n) && p == freep && SizeOf(p) < n
      ensures NoneFits(Now(), n) && i == f
    {
      OnlyAt(Now(), i, f);
      assert TooSmall(Now(), f, n);
    }

    /** The invariant of the search in `malloc`. */
    ghost predicate Looking(f: nat, i: nat, prevp: int, p: int, n: nat, h0: Heap, from: int, asked: bool, fits: bool,
                            oom: bool, gap: nat)
      reads this
    {
      Sound() && freep != 0 && n > 0 && Seeking(f, i, prevp, p, n) && Account(h0, from, asked, fits, n, oom) &&
      (!asked ==> brk + gap == from)
    }

    method Begin(n: nat, ghost gap: nat, ghost oom: bool) returns (prevp: int, p: int, ghost f: nat, ghost i: nat)
      requires Valid() && n > 0
      modifies this`ptr, this`size, this`ring, this`freep
      ensures Looking(f, i, prevp, p, n, old(Now()), brk + gap, false, old(Fits(n)), oom, gap)
    {
      Start(n);
      prevp := freep;
      f :| f < |ring| && ring[f] == freep;
      p := Onward(prevp, f, f, n);
      i := Succ(Now(), f);
    }

    method Advance(prevp: int, p: int, ghost n: nat, ghost gap: nat, ghost oom: bool, ghost h0: Heap, ghost from: int,
                   ghost asked: bool, ghost fits: bool, ghost f: nat, ghost i: nat)
      returns (prevp': int, p': int, ghost i': nat)
      requires Looking(f, i, prevp, p, n, h0, from, asked, fits, oom, gap) && SizeOf(p) < n && p != freep
      ensures Looking(f, i', prevp', p', n, h0, from, asked, fits, oom, gap) && Steps(Now(), i', f) < Steps(Now(), i, f)
    {
      prevp' := p;
      p' := Onward(prevp', f, i, n);
      i' := Succ(Now(), i);
    }

    /** `malloc` is back where it began and asks for more memory; it does so at most once, and then goes on
        behind `freep`. */
    method Refill(prevp: int, p: int, n: nat, gap: nat, oom: bool, ghost h0: Heap, ghost from: int, ghost asked: bool,
                  ghost fits: bool, ghost f: nat, ghost i: nat)
      returns (prevp': int, p': int, ghost f': nat, ghost i': nat, wild: bool)
      requires Looking(f, i, prevp, p, n, h0, from, asked, fits, oom, gap) && SizeOf(p) < n && p == freep
      modifies this
      ensures !asked
      ensures p' == 0 ==> Outcome(h0, from, fits, n, oom, 0, wild)
      ensures p' != 0 ==> Looking(f', i', prevp', p', n, h0, from, true, fits, oom, gap) && (wild <==> n >= 0x8000_0000)
    {
      AllTooSmall(f, i, prevp, p, n);
      f', i', p' := f, i, 0;
      prevp', wild := Morecore(n, gap, oom, from);
      if prevp' != 0 {
        f' :| f' < |ring| && ring[f'] == freep;
        p' := Onward(prevp', f', f', n);
        i' := Succ(Now(), f');
        NoZero(Now(), p');
      }
    }

    /** The block at `p` is big enough. */
    method Finish(prevp: int, p: int, n: nat, oom: bool, ghost h0: Heap, ghost from: int, ghost asked: bool,
                  ghost fits: bool, ghost f: nat, ghost i: nat)
      returns (ap: int)
      requires Sound() && freep != 0 && n > 0 && Seeking(f, i, prevp, p, n) && Account(h0, from, asked, fits, n, oom)
      requires SizeOf(p) >= n
      modifies this`ptr, this`size, this`ring, this`own, this`live, this`freep
      ensures Outcome(h0, from, fits, n, oom, ap, asked && n >= 0x8000_0000)
    {
      assert !TooSmall(Now(), i, n) && i > 0;
      Before(Now(), prevp, i);
      var q := Take(prevp, p, n, i);
      freep, ap := prevp, q + HEADER;
      NoZero(Now(), prevp);
    }
  }

  /** The element of the ring that points to position `i` is the one before it. */
  lemma Before(h: Heap, prevp: int, i: nat)
    requires Sorted(h) && Linked(h) && 0 < i < |h.ring| && prevp in h.ring && Next(h, prevp) == h.ring[i]
    ensures prevp == h.ring[i - 1]
  {
    var k: nat :| k < |h.ring| && h.ring[k] == prevp;
    assert LinkOk(h, k);
    Ascends(h, 0, i);
    OnlyAt(h, k + 1, i);
  }

  /** Every block of the ring with `n` bytes reaches to `end` at least. */
  ghost predicate Reaching(h: Heap, n: nat, end: int) {
    forall i: nat {:trigger TooSmall(h, i, n)} :: i < |h.ring| ==>
      TooSmall(h, i, n) || h.ring[i] + Size(h, h.ring[i]) >= end
  }

  /** Apart from the block at position `k`, the ring of `t` holds only blocks of the ring of `h`. */
  ghost predicate OthersKept(h: Heap, t: Heap, k: nat) {
    forall i: nat {:trigger t.ring[i]} :: i < |t.ring| && i != k ==>
      t.ring[i] in h.ring && Size(t, t.ring[i]) == Size(h, t.ring[i])
  }

  lemma SinkOthers(h: Heap, j: nat, bp: int)
    requires Sorted(h) && j < |h.ring|
    ensures OthersKept(h, Sink(h, j, bp), j)
  {
    var t := Sink(h, j, bp);
    forall i: nat | i < |t.ring| && i != j ensures t.ring[i] in h.ring && Size(t, t.ring[i]) == Size(h, t.ring[i]) {
      if h.ring[i] == h.ring[j] {
        OnlyAt(h, i, j);
      }
    }
  }

  lemma LinkInOthers(h: Heap, j: nat, bp: int)
    requires j < |h.ring|
    ensures OthersKept(h, LinkIn(h, j, bp), j + 1)
  {
    var t := LinkIn(h, j, bp);
    forall i: nat | i < |t.ring| && i != j + 1 ensures t.ring[i] in h.ring && Size(t, t.ring[i]) == Size(h, t.ring[i]) {
      assert t.ring[i] == h.ring[if i <= j then i else i - 1];
    }
  }

  /** When no block was big enough, only the one with the new memory is. */
  lemma OnlyNewFits(was: Heap, mid: Heap, now: Heap, k: nat, hp: int, n: nat, nu: nat, end: int)
    requires end == hp + n && NoneFits(was, nu) && mid.ring == was.ring && OthersKept(mid, now, k) &&
             Contains(now, k, hp, n)
    requires forall i: nat :: i < |was.ring| ==> Size(mid, was.ring[i]) == Size(was, was.ring[i])
    ensures Reaching(now, nu, end)
  {
    forall i: nat | i < |now.ring| && i != k ensures TooSmall(now, i, nu) {
      var b := now.ring[i];
      var j: nat :| j < |was.ring| && was.ring[j] == b;
      assert TooSmall(was, j, nu);
    }
  }

  /** The blocks in `bs` keep their sizes. */
  ghost predicate SameSizes(bs: set<int>, h: Heap, t: Heap) {
    forall b: int :: b in bs ==> Size(t, b) == Size(h, b)
  }

  /** At least 4096 headers. */
  function AtLeastPage(nu: nat): nat {
    if nu < 4096 * HEADER then 4096 * HEADER else nu
  }

  lemma NewIsFresh(h: Heap, brk: int, hp: int, n: nat)
    requires (forall u: int :: u in h.own ==> u < brk) && brk <= hp && h.base < brk
    ensures Fresh(h, hp, n)
  {
  }

  /** The block at position `k` of the ring contains the `n` bytes at `a`. */
  predicate Contains(h: Heap, k: nat, a: int, n: int) {
    0 < k < |h.ring| && h.ring[k] <= a && a + n <= h.ring[k] + Size(h, h.ring[k])
  }

  lemma NoZero(h: Heap, p: int)
    requires Sorted(h) && h.base > 0 && p in h.ring
    ensures p > 0
  {
    var i: nat :| i < |h.ring| && h.ring[i] == p;
    if i > 0 {
      Ascends(h, 0, i);
    }
  }

  /** What touches a block from above is its neighbour in the ring, not `base`. */
  lemma AbsorbAt(h: Heap, j: nat, bp: int)
    requires Good(h) && bp in h.live && Place(h, bp, j) && bp + Size(h, bp) == After(h, j)
    ensures Touching(h, j, bp)
  {
    assert BlockOk(h, bp);
  }
}

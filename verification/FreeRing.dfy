/** The free ring of the user-level allocator as a value: its headers, who owns each byte of memory, and
    what the pieces of `free` and `malloc` do to it. Addresses and sizes are in bytes. */
module FreeRing {

  /** `ptr` and `size` are the fields of the headers in memory; what the field counts in headers of 16 bytes,
      `size` gives in bytes. The rest is not in memory: `ring` lists the
      ring's headers from `base` upwards, `live` holds the headers of the blocks in use, and `own` says for
      every byte obtained from `sbrk` in which block it is. */
  datatype Heap = Heap(
    ptr: map<int, int>,
    size: map<int, int>,
    base: int,
    ring: seq<int>,
    live: set<int>,
    own: map<int, int>
  )

  predicate IsFree(h: Heap, b: int) {
    b in h.ring && b != h.base
  }

  predicate IsBlock(h: Heap, b: int) {
    b in h.live || IsFree(h, b)
  }

  function Size(h: Heap, b: int): int {
    if b in h.size then h.size[b] else 0
  }

  function Next(h: Heap, b: int): int {
    if b in h.ptr then h.ptr[b] else 0
  }

  predicate Inside(h: Heap, b: int, u: int) {
    b <= u < b + Size(h, b)
  }

  /** What follows position `i` of the ring. */
  function After(h: Heap, i: nat): int
    requires i < |h.ring|
  {
    if i + 1 < |h.ring| then h.ring[i + 1] else h.base
  }

  predicate LinkOk(h: Heap, i: nat) {
    i < |h.ring| && Next(h, h.ring[i]) == After(h, i)
  }

  /** Between two neighbours in the ring there is room, so they are not adjacent. */
  predicate GapOk(h: Heap, i: nat) {
    i + 1 < |h.ring| && h.ring[i] < h.ring[i + 1] && h.ring[i] + Size(h, h.ring[i]) < h.ring[i + 1]
  }

  /** The ring begins at `base`, ascends, and holds no two adjacent blocks. */
  predicate Sorted(h: Heap) {
    |h.ring| > 0 && h.ring[0] == h.base && Size(h, h.base) == 0 &&
    forall i: nat :: i + 1 < |h.ring| ==> GapOk(h, i)
  }

  predicate Linked(h: Heap) {
    forall i: nat :: i < |h.ring| ==> LinkOk(h, i)
  }

  predicate OwnerOk(h: Heap, u: int) {
    u in h.own && IsBlock(h, h.own[u]) && Inside(h, h.own[u], u)
  }

  predicate InsideOk(h: Heap, b: int, u: int) {
    IsBlock(h, b) && Inside(h, b, u) ==> u in h.own && h.own[u] == b
  }

  predicate BlockOk(h: Heap, b: int) {
    IsBlock(h, b) ==> b > h.base && Size(h, b) > 0
  }

  /** The blocks, free and live, divide the memory obtained from `sbrk`: every byte is in exactly one. */
  ghost predicate Divided(h: Heap) {
    (forall u: int :: u in h.own ==> OwnerOk(h, u)) &&
    (forall b: int, u: int :: InsideOk(h, b, u)) &&
    (forall b: int :: BlockOk(h, b)) &&
    forall b: int :: b in h.live ==> b !in h.ring
  }

  ghost predicate Good(h: Heap) {
    Sorted(h) && Linked(h) && Divided(h)
  }

  // ----- The ring ascends -----

  lemma {:induction false} Ascends(h: Heap, i: nat, j: nat)
    requires Sorted(h) && i < j < |h.ring|
    ensures h.ring[i] < h.ring[j]
    decreases j - i
  {
    assert GapOk(h, j - 1);
    if i + 1 < j {
      Ascends(h, i, j - 1);
    }
  }

  lemma OnlyAt(h: Heap, i: nat, j: nat)
    requires Sorted(h) && i < |h.ring| && j < |h.ring| && h.ring[i] == h.ring[j]
    ensures i == j
  {
    if i < j {
      Ascends(h, i, j);
    } else if j < i {
      Ascends(h, j, i);
    }
  }

  /** Position `j` is where a block at `bp` belongs in the ring. */
  predicate Place(h: Heap, bp: int, j: nat) {
    j < |h.ring| && h.ring[j] < bp && (j + 1 < |h.ring| ==> bp < h.ring[j + 1])
  }

  /** The test with which `free` ends its search. */
  predicate Stops(h: Heap, bp: int, i: nat) {
    i < |h.ring| &&
    var p := h.ring[i];
    var q := Next(h, p);
    p < bp < q || (p >= q && (bp > p || bp < q))
  }

  /** It holds exactly at the place of the block. */
  lemma PlaceIff(h: Heap, bp: int, i: nat)
    requires Sorted(h) && Linked(h) && h.base < bp && i < |h.ring|
    ensures Stops(h, bp, i) <==> Place(h, bp, i)
  {
    assert LinkOk(h, i);
    if i > 0 {
      Ascends(h, 0, i);
    }
    if i + 1 < |h.ring| {
      assert GapOk(h, i);
    }
  }

  lemma {:induction false} FindPlace(h: Heap, bp: int, n: nat) returns (j: nat)
    requires Sorted(h) && h.base < bp && bp !in h.ring && 0 < n <= |h.ring|
    requires n == |h.ring| || bp < h.ring[n]
    ensures Place(h, bp, j) && j < n
  {
    if h.ring[n - 1] < bp {
      j := n - 1;
    } else {
      j := FindPlace(h, bp, n - 1);
    }
  }

  lemma PlaceUnique(h: Heap, bp: int, i: nat, j: nat)
    requires Sorted(h) && Place(h, bp, i) && Place(h, bp, j)
    ensures i == j
  {
    if i < j {
      if i + 1 < j {
        Ascends(h, i + 1, j);
      }
    } else if j < i {
      if j + 1 < i {
        Ascends(h, j + 1, i);
      }
    }
  }

  /** The search ends at exactly one position of the ring. */
  lemma StopsOnce(h: Heap, bp: int) returns (j: nat)
    requires Sorted(h) && Linked(h) && h.base < bp && bp !in h.ring
    ensures Stops(h, bp, j) && forall i: nat :: Stops(h, bp, i) ==> i == j
  {
    j := FindPlace(h, bp, |h.ring|);
    PlaceIff(h, bp, j);
    forall i: nat | Stops(h, bp, i) ensures i == j {
      PlaceIff(h, bp, i);
      PlaceUnique(h, bp, i, j);
    }
  }

  // ----- The pieces of `free` -----

  function Renamed(own: map<int, int>, a: int, b: int): map<int, int> {
    map u | u in own :: if own[u] == a then b else own[u]
  }

  /** The block `bp` is not in the ring, but its pointer is that of its place `j`, behind which the ring
      goes on; the link from `j` itself may be out of date. */
  ghost predicate Floating(h: Heap, j: nat, bp: int) {
    Sorted(h) && Divided(h) && bp in h.live && Place(h, bp, j) && Next(h, bp) == After(h, j) &&
    (j + 1 < |h.ring| ==> bp + Size(h, bp) < h.ring[j + 1]) &&
    forall i: nat :: i < |h.ring| && i != j ==> LinkOk(h, i)
  }

  /** `bp` takes in the free block right above it. */
  function Absorb(h: Heap, j: nat, bp: int): Heap
    requires j + 1 < |h.ring|
  {
    var n := h.ring[j + 1];
    h.(size := h.size[bp := Size(h, bp) + Size(h, n)], ptr := h.ptr[bp := Next(h, n)],
    ring := h.ring[..j + 1] + h.ring[j + 2..], own := Renamed(h.own, n, bp))
  }

  function Point(h: Heap, j: nat, bp: int): Heap
    requires j < |h.ring|
  {
    h.(ptr := h.ptr[bp := After(h, j)])
  }

  /** `bp` becomes a block of the ring behind position `j`. */
  function LinkIn(h: Heap, j: nat, bp: int): Heap
    requires j < |h.ring|
  {
    h.(ptr := h.ptr[h.ring[j] := bp], ring := h.ring[..j + 1] + [bp] + h.ring[j + 1..], live := h.live - {bp})
  }

  /** The free block right below `bp` takes it in. */
  function Sink(h: Heap, j: nat, bp: int): Heap
    requires j < |h.ring|
  {
    var p := h.ring[j];
    h.(size := h.size[p := Size(h, p) + Size(h, bp)], ptr := h.ptr[p := Next(h, bp)],
    live := h.live - {bp}, own := Renamed(h.own, bp, p))
  }

  /** Blocks do not overlap, so the room between neighbours is real. */
  lemma Room(h: Heap, j: nat, bp: int)
    requires Sorted(h) && Divided(h) && bp in h.live && Place(h, bp, j)
    ensures h.ring[j] + Size(h, h.ring[j]) <= bp
    ensures j + 1 < |h.ring| ==> bp + Size(h, bp) <= h.ring[j + 1]
  {
    assert BlockOk(h, bp) && InsideOk(h, bp, bp) && InsideOk(h, h.ring[j], bp);
    if j + 1 < |h.ring| {
      var n := h.ring[j + 1];
      Ascends(h, 0, j + 1);
      assert BlockOk(h, n) && InsideOk(h, n, n) && InsideOk(h, bp, n);
    }
    if j > 0 {
      Ascends(h, 0, j);
    }
  }

  lemma PointFloats(h: Heap, j: nat, bp: int)
    requires Good(h) && bp in h.live && Place(h, bp, j)
    requires j + 1 < |h.ring| ==> bp + Size(h, bp) != h.ring[j + 1]
    ensures Floating(Point(h, j, bp), j, bp)
  {
    Room(h, j, bp);
    var t := Point(h, j, bp);
    SameBlocks(h, t);
    forall i: nat | i < |t.ring| && i != j ensures LinkOk(t, i) {
      assert LinkOk(h, i);
    }
  }

  /** Pointers do not matter for who owns what. */
  lemma SameBlocks(h: Heap, t: Heap)
    requires Sorted(h) && Divided(h) && t == h.(ptr := t.ptr)
    ensures Sorted(t) && Divided(t)
  {
    forall i: nat | i + 1 < |t.ring| ensures GapOk(t, i) {
      assert GapOk(h, i);
    }
    forall u: int | u in t.own ensures OwnerOk(t, u) {
      assert OwnerOk(h, u);
    }
    forall b: int, u: int ensures InsideOk(t, b, u) {
      assert InsideOk(h, b, u);
    }
    forall b: int ensures BlockOk(t, b) {
      assert BlockOk(h, b);
    }
  }

  /** What the ring looks like without its element at `j + 1`. */
  lemma Removed(h: Heap, j: nat, b: int)
    requires Sorted(h) && j + 1 < |h.ring|
    ensures var ring := h.ring[..j + 1] + h.ring[j + 2..]; b in ring <==> b in h.ring && b != h.ring[j + 1]
  {
    var ring := h.ring[..j + 1] + h.ring[j + 2..];
    if b in h.ring {
      var i: nat :| i < |h.ring| && h.ring[i] == b;
      if i != j + 1 {
        assert b == ring[if i <= j then i else i - 1];
        if h.ring[j + 1] == b {
          OnlyAt(h, i, j + 1);
        }
      }
    }
    if b in ring {
      var i: nat :| i < |ring| && ring[i] == b;
      var k := if i <= j then i else i + 1;
      assert h.ring[k] == b;
      if h.ring[j + 1] == b {
        OnlyAt(h, k, j + 1);
      }
    }
  }

  /** The block right above `bp` in the ring touches it. */
  ghost predicate Touching(h: Heap, j: nat, bp: int) {
    Good(h) && bp in h.live && Place(h, bp, j) && j + 1 < |h.ring| && bp + Size(h, bp) == h.ring[j + 1]
  }

  lemma AbsorbDivided(h: Heap, j: nat, bp: int)
    requires Touching(h, j, bp)
    ensures Divided(Absorb(h, j, bp))
  {
    var t := Absorb(h, j, bp);
    var n := h.ring[j + 1];
    Ascends(h, 0, j + 1);
    assert BlockOk(h, n) && BlockOk(h, bp);
    forall b: int ensures b in t.ring <==> b in h.ring && b != n {
      Removed(h, j, b);
    }
    forall u: int | u in t.own ensures OwnerOk(t, u) {
      assert OwnerOk(h, u);
    }
    forall b: int, u: int ensures InsideOk(t, b, u) {
      assert InsideOk(h, b, u) && InsideOk(h, n, u);
    }
    forall b: int ensures BlockOk(t, b) {
      assert BlockOk(h, b);
    }
  }

  lemma AbsorbSorted(h: Heap, j: nat, bp: int)
    requires Touching(h, j, bp)
    ensures Sorted(Absorb(h, j, bp)) && Place(Absorb(h, j, bp), bp, j)
    ensures j + 2 < |h.ring| ==> bp + Size(Absorb(h, j, bp), bp) < h.ring[j + 2]
  {
    var t := Absorb(h, j, bp);
    assert BlockOk(h, bp) && GapOk(h, j);
    forall i: nat | i + 1 < |t.ring| ensures GapOk(t, i) {
      assert GapOk(h, i) && (i >= j ==> GapOk(h, i + 1));
    }
    if j + 2 < |h.ring| {
      assert GapOk(h, j + 1);
    }
  }

  lemma AbsorbFloats(h: Heap, j: nat, bp: int)
    requires Touching(h, j, bp)
    ensures Floating(Absorb(h, j, bp), j, bp)
  {
    var t := Absorb(h, j, bp);
    AbsorbDivided(h, j, bp);
    AbsorbSorted(h, j, bp);
    assert LinkOk(h, j + 1);
    forall i: nat | i < |t.ring| && i != j ensures LinkOk(t, i) {
      assert LinkOk(h, if i < j then i else i + 1);
    }
  }

  lemma Inserted(h: Heap, j: nat, bp: int, b: int)
    requires j < |h.ring|
    ensures b in LinkIn(h, j, bp).ring <==> b in h.ring || b == bp
  {
    var ring := LinkIn(h, j, bp).ring;
    assert h.ring == h.ring[..j + 1] + h.ring[j + 1..];
    assert ring == h.ring[..j + 1] + ([bp] + h.ring[j + 1..]);
  }

  lemma LinkInDivided(h: Heap, j: nat, bp: int)
    requires Floating(h, j, bp)
    ensures Divided(LinkIn(h, j, bp))
  {
    var t := LinkIn(h, j, bp);
    assert BlockOk(h, bp);
    forall b: int ensures b in t.ring <==> b in h.ring || b == bp {
      Inserted(h, j, bp, b);
    }
    forall u: int | u in t.own ensures OwnerOk(t, u) {
      assert OwnerOk(h, u);
    }
    forall b: int, u: int ensures InsideOk(t, b, u) {
      assert InsideOk(h, b, u);
    }
    forall b: int ensures BlockOk(t, b) {
      assert BlockOk(h, b);
    }
  }

  lemma LinkInGood(h: Heap, j: nat, bp: int)
    requires Floating(h, j, bp) && h.ring[j] + Size(h, h.ring[j]) != bp
    ensures Good(LinkIn(h, j, bp))
  {
    var t := LinkIn(h, j, bp);
    LinkInDivided(h, j, bp);
    Room(h, j, bp);
    forall i: nat | i + 1 < |t.ring| ensures GapOk(t, i) {
      assert i < j ==> GapOk(h, i);
      assert i > j + 1 ==> GapOk(h, i - 1);
    }
    forall i: nat | i < |t.ring| ensures LinkOk(t, i) {
      assert i < j ==> LinkOk(h, i);
      assert i > j + 1 ==> LinkOk(h, i - 1);
      if i < j {
        Ascends(h, i, j);
      } else if i > j + 1 {
        Ascends(h, j, i - 1);
      }
    }
  }

  lemma SinkGood(h: Heap, j: nat, bp: int)
    requires Floating(h, j, bp) && h.ring[j] + Size(h, h.ring[j]) == bp
    ensures Good(Sink(h, j, bp))
  {
    var t := Sink(h, j, bp);
    var p := h.ring[j];
    assert BlockOk(h, bp);
    if j > 0 {
      Ascends(h, 0, j);
    }
    assert BlockOk(h, p);
    forall u: int | u in t.own ensures OwnerOk(t, u) {
      assert OwnerOk(h, u);
    }
    forall b: int, u: int ensures InsideOk(t, b, u) {
      assert InsideOk(h, b, u) && InsideOk(h, bp, u);
    }
    forall b: int ensures BlockOk(t, b) {
      assert BlockOk(h, b);
    }
    forall i: nat | i + 1 < |t.ring| ensures GapOk(t, i) {
      assert GapOk(h, i);
      if i != j && h.ring[i] == p {
        OnlyAt(h, i, j);
      }
    }
    forall i: nat | i < |t.ring| ensures LinkOk(t, i) {
      assert i != j ==> LinkOk(h, i);
      if i != j && h.ring[i] == p {
        OnlyAt(h, i, j);
      }
    }
  }

  // ----- The pieces of `malloc` -----

  /** The block at position `i` leaves the ring. */
  function TakeAll(h: Heap, i: nat): Heap
    requires 0 < i < |h.ring|
  {
    h.(ptr := h.ptr[h.ring[i - 1] := Next(h, h.ring[i])], ring := h.ring[..i] + h.ring[i + 1..],
      live := h.live + {h.ring[i]})
  }

  /** The last `n` bytes of the block at position `i` become a block of their own. */
  function TakeEnd(h: Heap, i: nat, n: nat): Heap
    requires i < |h.ring|
  {
    var p := h.ring[i];
    var q := p + Size(h, p) - n;
    h.(size := h.size[p := Size(h, p) - n][q := n], live := h.live + {q},
    own := map u | u in h.own :: if q <= u < q + n then q else h.own[u])
  }

  /** `n` bytes at `hp`, fresh from `sbrk`, as a block in use. */
  function Grow(h: Heap, hp: int, n: nat): Heap {
    h.(size := h.size[hp := n], live := h.live + {hp},
    own := map u | u in h.own.Keys + Span(hp, n) :: if hp <= u < hp + n then hp else h.own[u])
  }

  function Span(a: int, n: nat): set<int> {
    set u: int | a <= u < a + n && Within(u, a, n)
  }

  predicate Within(u: int, a: int, n: nat) {
    a <= u < a + n
  }

  lemma TakeAllDivided(h: Heap, i: nat)
    requires Good(h) && 0 < i < |h.ring|
    ensures Divided(TakeAll(h, i))
  {
    var t := TakeAll(h, i);
    Ascends(h, 0, i);
    forall b: int ensures b in t.ring <==> b in h.ring && b != h.ring[i] {
      Removed(h, i - 1, b);
    }
    forall u: int | u in t.own ensures OwnerOk(t, u) {
      assert OwnerOk(h, u);
    }
    forall b: int, u: int ensures InsideOk(t, b, u) {
      assert InsideOk(h, b, u);
    }
    forall b: int ensures BlockOk(t, b) {
      assert BlockOk(h, b);
    }
  }

  lemma TakeAllGood(h: Heap, i: nat)
    requires Good(h) && 0 < i < |h.ring|
    ensures Good(TakeAll(h, i))
  {
    var t := TakeAll(h, i);
    TakeAllDivided(h, i);
    assert LinkOk(h, i) && GapOk(h, i - 1);
    forall k: nat | k + 1 < |t.ring| ensures GapOk(t, k) {
      assert GapOk(h, k) && (k + 1 >= i ==> GapOk(h, k + 1));
    }
    forall k: nat | k < |t.ring| ensures LinkOk(t, k) {
      assert k + 1 < i ==> LinkOk(h, k);
      assert k >= i ==> LinkOk(h, k + 1);
      if k + 1 < i {
        Ascends(h, k, i - 1);
      } else if k >= i {
        Ascends(h, i - 1, k + 1);
      }
    }
  }

  lemma TakeEndDivided(h: Heap, i: nat, n: nat)
    requires Good(h) && 0 < i < |h.ring| && 0 < n < Size(h, h.ring[i])
    ensures Divided(TakeEnd(h, i, n)) && !IsBlock(h, h.ring[i] + Size(h, h.ring[i]) - n)
  {
    var t := TakeEnd(h, i, n);
    var p := h.ring[i];
    var q := p + Size(h, p) - n;
    Ascends(h, 0, i);
    assert BlockOk(h, p) && InsideOk(h, p, q) && InsideOk(h, q, q) && BlockOk(h, q);
    forall u: int | u in t.own ensures OwnerOk(t, u) {
      assert OwnerOk(h, u) && InsideOk(h, p, u);
    }
    forall b: int, u: int ensures InsideOk(t, b, u) {
      assert InsideOk(h, b, u) && InsideOk(h, p, u);
    }
    forall b: int ensures BlockOk(t, b) {
      assert BlockOk(h, b);
    }
  }

  lemma TakeEndGood(h: Heap, i: nat, n: nat)
    requires Good(h) && 0 < i < |h.ring| && 0 < n < Size(h, h.ring[i])
    ensures Good(TakeEnd(h, i, n)) && !IsBlock(h, h.ring[i] + Size(h, h.ring[i]) - n)
  {
    var t := TakeEnd(h, i, n);
    var q := h.ring[i] + Size(h, h.ring[i]) - n;
    TakeEndDivided(h, i, n);
    Ascends(h, 0, i);
    assert !IsFree(h, q) && q !in h.ring;
    forall k: nat | k + 1 < |t.ring| ensures GapOk(t, k) {
      assert GapOk(h, k) && h.ring[k] != q;
    }
    forall k: nat | k < |t.ring| ensures LinkOk(t, k) {
      assert LinkOk(h, k);
    }
  }

  /** New memory has not been handed out before and lies above `base`. */
  ghost predicate Fresh(h: Heap, hp: int, n: nat) {
    h.base < hp && forall u: int :: hp <= u < hp + n ==> u !in h.own
  }

  lemma GrowGood(h: Heap, hp: int, n: nat)
    requires Good(h) && n > 0 && Fresh(h, hp, n)
    ensures Good(Grow(h, hp, n)) && !IsBlock(h, hp)
  {
    var t := Grow(h, hp, n);
    assert hp !in h.own;
    assert BlockOk(h, hp) && InsideOk(h, hp, hp);
    forall u: int | u in t.own ensures OwnerOk(t, u) {
      assert hp <= u < hp + n || OwnerOk(h, u);
    }
    forall b: int, u: int ensures InsideOk(t, b, u) {
      assert InsideOk(h, b, u);
      assert Within(u, hp, n) ==> u in Span(hp, n);
    }
    forall b: int ensures BlockOk(t, b) {
      assert BlockOk(h, b);
    }
    assert hp !in h.ring;
    forall k: nat | k + 1 < |t.ring| ensures GapOk(t, k) {
      assert GapOk(h, k) && h.ring[k] != hp;
    }
    forall k: nat | k < |t.ring| ensures LinkOk(t, k) {
      assert LinkOk(h, k);
    }
  }

  // ----- Going round the ring -----

  function Succ(h: Heap, i: nat): nat {
    if i + 1 < |h.ring| then i + 1 else 0
  }

  /** How many steps from position `i` to position `j`. */
  function Steps(h: Heap, i: nat, j: nat): int {
    if i <= j then j - i else |h.ring| - i + j
  }

  /** Position `k` comes after `f` and before `i`. */
  predicate Behind(f: nat, i: nat, k: nat) {
    if f < i then f < k < i else f < k || k < i
  }

  predicate TooSmall(h: Heap, k: nat, n: nat) {
    k < |h.ring| ==> Size(h, h.ring[k]) < n
  }

  /** No block in the ring has `n` bytes. */
  predicate NoneFits(h: Heap, n: nat) {
    forall k: nat :: k < |h.ring| ==> TooSmall(h, k, n)
  }

  lemma SuccIs(h: Heap, i: nat)
    requires Sorted(h) && Linked(h) && i < |h.ring|
    ensures Succ(h, i) < |h.ring| && Next(h, h.ring[i]) == h.ring[Succ(h, i)]
    ensures forall j: nat :: j < |h.ring| && i != j ==> Steps(h, Succ(h, i), j) + 1 == Steps(h, i, j)
  {
    assert LinkOk(h, i);
  }

  // ----- What a good heap promises -----

  /** Every byte obtained from `sbrk` is in exactly one block, free or in use. */
  lemma EachByteOnce(h: Heap, u: int)
    requires Good(h) && u in h.own
    ensures exists b: int {:trigger Inside(h, b, u)} :: IsBlock(h, b) && Inside(h, b, u)
    ensures forall a: int, b: int {:trigger Inside(h, a, u), Inside(h, b, u)} ::
              IsBlock(h, a) && IsBlock(h, b) && Inside(h, a, u) && Inside(h, b, u) ==> a == b
  {
    assert OwnerOk(h, u);
    forall a: int, b: int | IsBlock(h, a) && IsBlock(h, b) && Inside(h, a, u) && Inside(h, b, u) ensures a == b {
      assert InsideOk(h, a, u) && InsideOk(h, b, u);
    }
  }

  /** Two blocks, free or in use, do not overlap. */
  lemma BlocksDisjoint(h: Heap, a: int, b: int)
    requires Good(h) && IsBlock(h, a) && IsBlock(h, b) && a < b
    ensures a + Size(h, a) <= b
  {
    assert BlockOk(h, b) && InsideOk(h, a, b) && InsideOk(h, b, b);
  }

  /** No two free blocks touch: `free` leaves nothing unjoined. */
  lemma FreeBlocksApart(h: Heap, a: int, b: int)
    requires Good(h) && IsFree(h, a) && IsFree(h, b) && a < b
    ensures a + Size(h, a) < b
  {
    var i: nat :| i < |h.ring| && h.ring[i] == a;
    var j: nat :| j < |h.ring| && h.ring[j] == b;
    if j <= i {
      if j < i {
        Ascends(h, j, i);
      }
    } else {
      assert GapOk(h, i);
      if i + 1 < j {
        Ascends(h, i + 1, j);
      }
    }
  }
}

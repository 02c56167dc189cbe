/** The page allocator and the page table code above it: `kalloc`, `kfree`, `walk`, `mappages`,
    `uvmunmap`, `uvmalloc`, `uvmdealloc`, `uvmcopy`, `freewalk`, `uvmfree`, `copyin` and `copyout`. Every
    page has exactly one role at all times, also when memory runs out half-way. */
module VmCode {
  import opened Sv39
  import opened VmFree
  import opened VmCopy
  import opened VmSteps
  import opened Seqs

  class Vm {
    var mem: map<nat, Frame>
    /** The free list, first page first. */
    var free: seq<nat>
    ghost var role: map<nat, Role>
    ghost var at: map<Role, nat>

    ghost function Now(): State
      reads this
    {
      State(mem, free, role, at)
    }

    /** `kinit`: `freerange` frees the pages [lo, hi) one by one. */
    constructor (lo: nat, hi: nat)
      requires 0 < lo <= hi
      ensures Inv(Now()) && at == map[]
      ensures forall p :: p in role <==> lo <= p < hi
      ensures forall p :: lo <= p < hi ==> role[p] == Free
    {
      mem, free, role, at := map[], [], map[], map[];
      new;
      var p := lo;
      while p < hi
        invariant lo <= p <= hi && at == map[]
        invariant forall q :: q in role <==> lo <= q < p
        invariant forall q :: q in role ==> q in mem && role[q] == Free
        invariant forall q {:trigger q in free} :: q in free <==> lo <= q < p
        invariant forall i, j :: 0 <= i < j < |free| ==> free[i] != free[j]
      {
        mem := mem[p := Junk];
        assert p !in free;
        free := [p] + free;
        role := role[p := Free];
        p := p + 1;
      }
    }

    /** `kalloc`: the first free page, or 0. */
    method Kalloc() returns (p: nat)
      requires Inv(Now())
      modifies this
      ensures Inv(Now())
      ensures old(free) == [] ==> p == 0 && Now() == old(Now())
      ensures old(free) != [] ==> p == old(free)[0] && p != 0 && Now() == Taken(old(Now()))
    {
      if free == [] {
        return 0;
      }
      TakenKeepsInv(Now(), {});
      p := free[0];
      free := free[1..];
      mem := mem[p := Junk];
      role := role[p := Held];
    }

    /** `kfree` of a page of the allocator's memory; any other address is its panic. */
    method Kfree(p: nat)
      requires p in role
      modifies this
      ensures Now() == Given(old(Now()), p)
    {
      mem := mem[p := Junk];
      free := [p] + free;
      role := role[p := Free];
    }

    /** One round of `walk`'s loop: the table below entry `idx` of table `t`, or 0. */
    method WalkLevel(t: nat, idx: nat, alloc: bool, ghost o: Role) returns (t': nat)
      requires Inv(Now()) && (o.Top? || o.Mid?) && o in at && at[o] == t && idx < TABLE
      modifies this
      ensures Inv(Now()) && TablesOnly(old(Now()), Now(), o.root)
      ensures t' != 0 ==> Child(o, idx) in at && at[Child(o, idx)] == t'
      ensures t' == 0 ==> Child(o, idx) !in at && Now() == old(Now())
      ensures t' == 0 && alloc ==> free == []
      ensures !alloc ==> Now() == old(Now())
    {
      TablesOnlyRefl(Now(), o.root);
      ReadsEntry(Now(), o, idx);
      var e := mem[t].ptes[idx];
      if e.v {
        t' := e.page;
      } else {
        if !alloc || free == [] {
          return 0;
        }
        TakeAndAdd(Now(), o, idx);
        t' := AddTable(t, idx, o);
      }
    }

    /** A fresh page becomes the empty table below entry `idx` of table `t`. */
    method AddTable(t: nat, idx: nat, ghost o: Role) returns (t': nat)
      requires Inv(Now()) && free != [] && (o.Top? || o.Mid?) && o in at && at[o] == t && idx < TABLE && free[0] != t
      requires t in mem && mem[t].Table? && |mem[t].ptes| == TABLE
      modifies this
      ensures t' == old(free)[0] && Now() == TableGrown(old(Now()), o, idx)
    {
      t' := Kalloc();
      mem := mem[t' := Table(Blank())];
      mem := mem[t := Table(mem[t].ptes[idx := TablePte(t')])];
      role := role[t' := Child(o, idx)];
      at := at[Child(o, idx) := t'];
    }

    /** `walk`: the bottom table that holds the entry for `vpn`, or 0. Addresses past MAXVA are its
        panic. */
    method Walk(root: nat, vpn: nat, alloc: bool) returns (t: nat)
      requires Inv(Now()) && Top(root) in at && vpn < MAXVPN
      modifies this
      ensures Inv(Now()) && TablesOnly(old(Now()), Now(), root)
      ensures t != 0 ==> PathRole(root, vpn, 0) in at && at[PathRole(root, vpn, 0)] == t
      ensures t == 0 ==> if alloc then free == [] else PathRole(root, vpn, 0) !in at
      ensures !alloc ==> Now() == old(Now())
    {
      t := root;
      TablesOnlyRefl(Now(), root);
      var level := 2;
      while level > 0
        invariant 0 <= level <= 2
        invariant Inv(Now()) && TablesOnly(old(Now()), Now(), root)
        invariant PathRole(root, vpn, level) in at && at[PathRole(root, vpn, level)] == t
        invariant !alloc ==> Now() == old(Now())
      {
        t := WalkDown(old(Now()), t, root, vpn, level, alloc);
        if t == 0 {
          return;
        }
        level := level - 1;
      }
    }

    /** One level of `walk`. */
    method WalkDown(ghost was: State, t: nat, ghost root: nat, vpn: nat, level: nat, alloc: bool) returns (t': nat)
      requires Inv(Now()) && TablesOnly(was, Now(), root) && 1 <= level <= 2 && vpn < MAXVPN
      requires PathRole(root, vpn, level) in at && at[PathRole(root, vpn, level)] == t
      modifies this
      ensures Inv(Now()) && TablesOnly(was, Now(), root)
      ensures t' != 0 ==> PathRole(root, vpn, level - 1) in at && at[PathRole(root, vpn, level - 1)] == t'
      ensures t' == 0 ==> if alloc then free == [] else PathRole(root, vpn, 0) !in at
      ensures !alloc ==> Now() == old(Now())
    {
      ghost var here := Now();
      t' := WalkLevel(t, Px(level, vpn), alloc, PathRole(root, vpn, level));
      TablesOnlyTrans(was, here, Now(), root);
      if t' == 0 {
        Unreached(Now(), root, vpn, level);
      }
    }

    /** One round of `mappages`' loop: `page` is mapped at `vpn`. Remapping is its panic. With `own` the caller
        hands the page over to the mapping. */
    method MapPage(root: nat, vpn: nat, page: nat, perm: Pte, ghost own: bool) returns (ok: bool)
      requires Inv(Now()) && Top(root) in at && vpn < MAXVPN && Leafy(perm)
      requires !PteAt(Now(), root, vpn).v
      requires own ==> page in role && role[page] == Held
      modifies this
      ensures Inv(Now())
      ensures !ok ==> free == [] && TablesOnly(old(Now()), Now(), root)
      ensures ok ==>
        && PteAt(Now(), root, vpn) == perm.(page := page, v := true)
        && GrownOne(old(Now()), Now(), root, vpn, if own then {page} else {}, own)
        && (page in old(role) && old(role)[page] == Held ==>
           page in mem && page in old(mem) && mem[page] == old(mem)[page])
    {
      var t := Walk(root, vpn, true);
      if t == 0 {
        return false;
      }
      ghost var mid := Now();
      var e := perm.(page := page, v := true);
      SetLeaf(t, root, vpn, e, own);
      MapDone(old(Now()), mid, root, vpn, e, own);
      ok := true;
    }

    /** The entry for `vpn` in the lowest table `t` is written. */
    method SetLeaf(t: nat, ghost root: nat, vpn: nat, e: Pte, ghost own: bool)
      requires Inv(Now()) && Top(root) in at && vpn < MAXVPN && PathRole(root, vpn, 0) in at &&
               at[PathRole(root, vpn, 0)] == t
      modifies this`mem, this`role, this`at
      ensures Now() == MappedAt(old(Now()), root, vpn, e, own)
    {
      ghost var mid := Now();
      assert t in mem && mem[t].Table? && |mem[t].ptes| == TABLE by {
        ReadsEntry(mid, PathRole(root, vpn, 0), Px0(vpn));
      }
      mem := mem[t := Table(mem[t].ptes[Px0(vpn) := e])];
      if own {
        role := role[e.page := LeafAt(root, vpn)];
        at := at[LeafAt(root, vpn) := e.page];
      }
    }

    /** `uvmcreate`: a fresh page becomes an empty page table. */
    method Uvmcreate() returns (root: nat)
      requires Inv(Now())
      modifies this
      ensures Inv(Now())
      ensures root == 0 <==> old(free) == []
      ensures root == 0 ==> Now() == old(Now())
      ensures root != 0 ==>
        && root == old(free)[0] && Top(root) !in old(at) && Now() == RootAdded(Taken(old(Now())), root)
        && (forall v :: 0 <= v ==> PteAt(Now(), root, v) == EMPTY)
        && (forall r, v :: 0 <= r && 0 <= v ==> PteAt(Now(), r, v) == PteAt(old(Now()), r, v))
    {
      ghost var was := Now();
      root := Kalloc();
      if root != 0 {
        ghost var held := Now();
        CreateRoot(was);
        mem := mem[root := Table(Blank())];
        role := role[root := Top(root)];
        at := at[Top(root) := root];
        assert Now() == RootAdded(held, root);
      }
    }

    /** `mappages`: maps the pages that [va, va + size) touches, in order, to consecutive physical
        pages from `page` on. When no table can be had the first `upto - lo` of them are mapped. Callers
        that map process memory give their pages to the mappings (`own`); the kernel's direct map, the
        trapframe and the trampoline are mapped without. */
    method Mappages(root: nat, va: nat, size: nat, page: nat, perm: Pte, ghost own: bool)
      returns (r: int, ghost upto: nat)
      requires Inv(Now()) && 0 < size && va + size <= MAXVPN * PGSIZE && Leafy(perm)
      requires Ready(Now(), root, va / PGSIZE, (va + size - 1) / PGSIZE, page, own)
      modifies this
      ensures Inv(Now()) && (r == 0 || r == -1)
      ensures va / PGSIZE <= upto <= (va + size - 1) / PGSIZE + 1
      ensures Grown(old(Now()), Now(), root, va / PGSIZE, upto, Handed(page, va / PGSIZE, upto, own), own)
      ensures MapsTo(Now(), root, va / PGSIZE, upto, page, perm)
      ensures r == 0 <==> upto == (va + size - 1) / PGSIZE + 1
      ensures r == -1 ==> free == []
    {
      LastPage(va, size);
      r, upto := MapRange(root, va / PGSIZE, (va + size - 1) / PGSIZE, page, perm, own);
    }

    /** The loop of `mappages`, over the pages [lo, last]. */
    method MapRange(root: nat, lo: nat, last: nat, page: nat, perm: Pte, ghost own: bool)
      returns (r: int, ghost upto: nat)
      requires Inv(Now()) && lo <= last < MAXVPN && Leafy(perm) && Ready(Now(), root, lo, last, page, own)
      modifies this
      ensures Inv(Now()) && (r == 0 || r == -1) && lo <= upto <= last + 1
      ensures Grown(old(Now()), Now(), root, lo, upto, Handed(page, lo, upto, own), own) &&
              MapsTo(Now(), root, lo, upto, page, perm)
      ensures r == 0 <==> upto == last + 1
      ensures r == -1 ==> free == []
    {
      ghost var was := Now();
      assert Handed(page, lo, lo, own) == {};
      GrownRefl(was, root, lo, own);
      var a := lo;
      while true
        invariant lo <= a <= last && Inv(Now())
        invariant Grown(was, Now(), root, lo, a, Handed(page, lo, a, own), own) &&
                  MapsTo(Now(), root, lo, a, page, perm)
        decreases last - a
      {
        var ok, a' := MapNext(was, root, lo, a, last, page, perm, own);
        upto := a';
        if !ok {
          return -1, upto;
        }
        if a == last {
          return 0, upto;
        }
        a := a';
      }
    }

    /** One round of `mappages`' loop. */
    method MapNext(ghost was: State, root: nat, lo: nat, a: nat, ghost last: nat, page: nat, perm: Pte, ghost own: bool)
      returns (ok: bool, a': nat)
      requires Inv(Now()) && lo <= a <= last < MAXVPN && Leafy(perm) && Ready(was, root, lo, last, page, own)
      requires Grown(was, Now(), root, lo, a, Handed(page, lo, a, own), own) && MapsTo(Now(), root, lo, a, page, perm)
      modifies this
      ensures a' == (if ok then a + 1 else a) && Inv(Now())
      ensures Grown(was, Now(), root, lo, a', Handed(page, lo, a', own), own) && MapsTo(Now(), root, lo, a', page, perm)
      ensures !ok ==> free == []
    {
      ghost var here := Now();
      var p := page + (a - lo);
      NextInHand(was, here, root, lo, a, last, page, p, own);
      ok := MapPage(root, a, p, perm, own);
      a' := a;
      if ok {
        a' := a + 1;
        HandedNext(was, here, Now(), root, lo, a, a', page, p, perm, own);
      } else {
        HandedTables(was, here, Now(), root, lo, a, page, perm, own);
      }
    }

    /** One round of `uvmunmap`'s loop. A page that is not mapped by a leaf entry is its panic. The page is
        freed, which takes that the mapping owns it, or left alone; one that the mapping owned is then the
        caller's. */
    method UnmapPage(root: nat, vpn: nat, doFree: bool)
      requires Inv(Now()) && Top(root) in at && vpn < MAXVPN && PteAt(Now(), root, vpn).v
      requires doFree ==> Owned(Now(), root, vpn)
      modifies this
      ensures Inv(Now()) && PrunedOne(old(Now()), Now(), root, vpn, doFree)
      ensures |free| == |old(free)| + if doFree then 1 else 0
    {
      ghost var was := Now();
      UnmapReads(was, root, vpn);
      MappedEntry(was, root, vpn);
      var t := Walk(root, vpn, false);
      var pte := mem[t].ptes[Px0(vpn)];
      if doFree {
        Kfree(pte.page);
      } else if Owned(was, root, vpn) {
        role := role[pte.page := Held];
      }
      at := at - {LeafAt(root, vpn)};
      mem := mem[t := Table(mem[t].ptes[Px0(vpn) := EMPTY])];
      assert Now() == UnmappedAt(was, root, vpn, doFree) by {
        UnmapStores(was, root, vpn, doFree, t, pte.page);
      }
      UnmapStep(was, root, vpn, doFree);
    }

    /** `uvmunmap`: removes exactly the mappings of the pages [lo, hi). */
    method Uvmunmap(root: nat, lo: nat, hi: nat, doFree: bool)
      requires Inv(Now()) && Top(root) in at && lo <= hi <= MAXVPN
      requires AllMapped(Now(), root, lo, hi, doFree)
      modifies this
      ensures Inv(Now()) && Pruned(old(Now()), Now(), root, lo, hi, doFree)
      ensures |free| == |old(free)| + if doFree then hi - lo else 0
    {
      ghost var was := Now();
      PrunedRefl(was, root, lo, doFree);
      var a := lo;
      while a < hi
        invariant lo <= a <= hi && |free| == |was.free| + if doFree then a - lo else 0
        invariant Inv(Now()) && Pruned(was, Now(), root, lo, a, doFree)
      {
        a := UnmapNext(was, root, lo, a, hi, doFree);
      }
      assert a == hi;
    }

    method UnmapNext(ghost was: State, root: nat, ghost lo: nat, a: nat, ghost hi: nat, doFree: bool) returns (a': nat)
      requires Inv(Now()) && Pruned(was, Now(), root, lo, a, doFree) && Top(root) in was.at && lo <= a < hi <= MAXVPN
      requires AllMapped(was, root, lo, hi, doFree)
      modifies this
      ensures a' == a + 1 && Inv(Now()) && Pruned(was, Now(), root, lo, a', doFree)
      ensures |free| == |old(free)| + if doFree then 1 else 0
    {
      ghost var here := Now();
      StillMapped(was, here, root, lo, a, hi, doFree);
      UnmapPage(root, a, doFree);
      a' := a + 1;
      PrunedNext(was, here, Now(), root, lo, a, a', doFree);
    }

    /** The common step of `uvmalloc` and `uvmcopy`: take a page, fill it with `f`, map it at `vpn`;
        when no table can be had for it, give the page back. */
    method AllocMap(root: nat, vpn: nat, f: Frame, perm: Pte) returns (ok: bool)
      requires Inv(Now()) && Top(root) in at && vpn < MAXVPN && Leafy(perm) && !PteAt(Now(), root, vpn).v
      modifies this
      ensures Inv(Now())
      ensures !ok ==> TablesOnly(old(Now()), Now(), root) && |free| <= 1
      ensures ok ==> GrownOne(old(Now()), Now(), root, vpn, {}, true) && Holds(Now(), root, vpn, perm, f)
    {
      ghost var was := Now();
      var p := Kalloc();
      if p == 0 {
        TablesOnlyRefl(was, root);
        return false;
      }
      mem := mem[p := f];
      ghost var filled := Now();
      assert filled == Filled(was, f);
      assert Inv(filled) && PteAt(filled, root, vpn) == PteAt(was, root, vpn) && p in role && role[p] == Held by {
        FilledSameMap(was, f);
      }
      ok := MapPage(root, vpn, p, perm, true);
      if ok {
        AllocDone(was, Now(), root, vpn, f, perm);
      } else {
        TakenAndGiven(was, Now(), root, f);
        Kfree(p);
      }
    }

    /** `uvmalloc`: grows the process from `oldsz` to `newsz` bytes. When memory runs out it takes
        back every page it mapped: only page-table pages remain, and no more pages are free than were asked for. */
    method Uvmalloc(root: nat, oldsz: nat, newsz: nat, xperm: Pte) returns (r: nat, ghost ok: bool)
      requires Inv(Now()) && Top(root) in at && newsz <= MAXVPN * PGSIZE
      requires forall v :: PgUp(oldsz) <= v < PgUp(newsz) ==> !PteAt(Now(), root, v).v
      modifies this
      ensures Inv(Now())
      ensures newsz < oldsz ==> ok && r == oldsz && Now() == old(Now())
      ensures newsz >= oldsz && ok ==>
        && r == newsz && Grown(old(Now()), Now(), root, PgUp(oldsz), PgUp(newsz), {}, true)
        && AllHold(Now(), root, PgUp(oldsz), PgUp(newsz), UserPerm(xperm), Data(ZeroBytes()))
      ensures !ok ==> r == 0 && TablesOnly(old(Now()), Now(), root) && |free| <= PgUp(newsz) - PgUp(oldsz)
    {
      if newsz < oldsz {
        return oldsz, true;
      }
      ghost var was := Now();
      var lo, hi := PgUp(oldsz), PgUp(newsz);
      PgUpMonotone(oldsz, newsz);
      GrownRefl(was, root, lo, true);
      var a := lo;
      while a < hi
        invariant lo <= a <= hi
        invariant Inv(Now()) && Grown(was, Now(), root, lo, a, {}, true)
        invariant AllHold(Now(), root, lo, a, UserPerm(xperm), Data(ZeroBytes()))
      {
        var more;
        more, a := AllocNext(was, root, lo, a, hi, UserPerm(xperm));
        if !more {
          UndoAlloc(was, root, lo, a);
          return 0, false;
        }
      }
      assert a == hi;
      return newsz, true;
    }

    /** One round of `uvmalloc`'s loop; on failure [lo, a) is still mapped. */
    method AllocNext(ghost was: State, root: nat, ghost lo: nat, a: nat, ghost hi: nat, perm: Pte)
      returns (ok: bool, a': nat)
      requires Inv(Now()) && Grown(was, Now(), root, lo, a, {}, true) && Top(root) in was.at && lo <= a < hi <= MAXVPN
      requires AllHold(Now(), root, lo, a, perm, Data(ZeroBytes())) && Leafy(perm)
      requires forall v :: lo <= v < hi ==> !PteAt(was, root, v).v
      modifies this
      ensures Inv(Now()) && Grown(was, Now(), root, lo, a', {}, true)
      ensures a' == if ok then a + 1 else a
      ensures ok ==> AllHold(Now(), root, lo, a', perm, Data(ZeroBytes()))
      ensures !ok ==> |free| <= 1
    {
      ghost var here := Now();
      StillUnmapped(was, here, root, lo, a, hi);
      ok := AllocMap(root, a, Data(ZeroBytes()), perm);
      a' := a;
      if ok {
        a' := a + 1;
        GrownNext(was, here, Now(), root, lo, a, a', {}, {}, {}, true);
        AllHoldNext(here, Now(), root, lo, a, a', perm, Data(ZeroBytes()));
      } else {
        GrownThenTables(was, here, Now(), root, lo, a, {}, true);
      }
    }

    /** `uvmdealloc`: shrinks the process from `oldsz` to `newsz` bytes. */
    method Uvmdealloc(root: nat, oldsz: nat, newsz: nat) returns (r: nat)
      requires Inv(Now()) && Top(root) in at && oldsz <= MAXVPN * PGSIZE
      requires AllMapped(Now(), root, PgUp(newsz), PgUp(oldsz), true)
      modifies this
      ensures Inv(Now()) && r == if newsz < oldsz then newsz else oldsz
      ensures newsz >= oldsz ==> Now() == old(Now())
      ensures newsz < oldsz ==> Pruned(old(Now()), Now(), root, PgUp(newsz), PgUp(oldsz), true)
    {
      if newsz >= oldsz {
        return oldsz;
      }
      PgUpMonotone(newsz, oldsz);
      PrunedRefl(Now(), root, PgUp(newsz), true);
      if PgUp(newsz) < PgUp(oldsz) {
        Uvmunmap(root, PgUp(newsz), PgUp(oldsz), true);
      }
      return newsz;
    }

    /** `uvmcopy`: copies the parent's first `sz` bytes, pages and flags, into the child. When memory
        runs out the child is left without any of them, and no more pages are free than were asked for. A page
        missing in the parent is its panic. */
    method Uvmcopy(parent: nat, child: nat, sz: nat) returns (r: int)
      requires Inv(Now()) && Top(parent) in at && Top(child) in at && parent != child && sz <= MAXVPN * PGSIZE
      requires AllMapped(Now(), parent, 0, PgUp(sz), true) && forall v :: 0 <= v < PgUp(sz) ==>
               !PteAt(Now(), child, v).v
      modifies this
      ensures Inv(Now()) && (r == 0 || r == -1)
      ensures r == 0 ==>
                Grown(old(Now()), Now(), child, 0, PgUp(sz), {}, true) && Copied(Now(), parent, child, PgUp(sz))
      ensures r == -1 ==> TablesOnly(old(Now()), Now(), child) && |free| <= PgUp(sz)
    {
      ghost var was := Now();
      PgUpMonotone(sz, MAXVPN * PGSIZE);
      GrownRefl(was, child, 0, true);
      var i, hi := 0, PgUp(sz);
      while i < hi
        invariant 0 <= i <= hi
        invariant Inv(Now()) && Grown(was, Now(), child, 0, i, {}, true) && Copied(Now(), parent, child, i)
      {
        var more;
        more, i := CopyNext(was, parent, child, i, hi);
        if !more {
          UndoAlloc(was, child, 0, i);
          return -1;
        }
      }
      assert i == hi;
      return 0;
    }

    /** One round of `uvmcopy`'s loop; on failure [0, a) of the child is still mapped. */
    method CopyNext(ghost was: State, parent: nat, child: nat, a: nat, ghost hi: nat) returns (ok: bool, a': nat)
      requires Inv(Now()) && Grown(was, Now(), child, 0, a, {}, true) && Copied(Now(), parent, child, a)
      requires Top(parent) in was.at && Top(child) in was.at && parent != child && 0 <= a < hi <= MAXVPN
      requires AllMapped(was, parent, 0, hi, true) && forall v :: 0 <= v < hi ==> !PteAt(was, child, v).v
      modifies this
      ensures Inv(Now()) && Grown(was, Now(), child, 0, a', {}, true)
      ensures a' == if ok then a + 1 else a
      ensures ok ==> Copied(Now(), parent, child, a')
      ensures !ok ==> |free| <= 1
    {
      ghost var here := Now();
      assert PteAt(here, parent, a).v && Owned(here, parent, a) && Top(parent) in here.at by {
        assert PteAt(was, parent, a).v && Owned(was, parent, a);
        ParentMapped(was, here, parent, child, 0, a, a);
      }
      StillUnmapped(was, here, child, 0, a, hi);
      MappedPage(here, parent, a);
      UnmapReads(here, parent, a);
      var t := Walk(parent, a, false);
      var pte := mem[t].ptes[Px0(a)];
      ok := AllocMap(child, a, mem[pte.page], pte);
      a' := a;
      if ok {
        a' := a + 1;
        GrownNext(was, here, Now(), child, 0, a, a', {}, {}, {}, true);
        CopiedNext(here, Now(), parent, child, a, a');
      } else {
        GrownThenTables(was, here, Now(), child, 0, a, {}, true);
      }
    }

    /** The error exit of `uvmalloc` and `uvmcopy`: the pages mapped so far are freed. */
    method UndoAlloc(ghost was: State, root: nat, lo: nat, a: nat)
      requires Inv(was) && Inv(Now()) && Grown(was, Now(), root, lo, a, {}, true) && Top(root) in was.at
      requires lo <= a <= MAXVPN && (forall v :: lo <= v < a ==> !PteAt(was, root, v).v)
      modifies this
      ensures Inv(Now()) && TablesOnly(was, Now(), root) && |free| == |old(free)| + (a - lo)
    {
      ghost var here := Now();
      Uvmunmap(root, lo, a, true);
      GrownThenPruned(was, here, Now(), root, lo, a);
    }

    /** `freewalk`: frees table `t` and every table below it. A leaf entry is its panic. `holes` are
        the callers' entries that still point at tables already being freed. */
    method Freewalk(t: nat, ghost o: Role, ghost holes: Holes, ghost orphans: set<Role>)
      requires Tearable(Now(), holes, orphans, o) && at[o] == t
      modifies this
      ensures InvBut(But(Now(), holes), orphans - {o}) && FreedTree(old(Now()), Now(), o)
      decreases Rank(o), 1
    {
      ghost var was := Now();
      var i := 0;
      while i < TABLE
        invariant 0 <= i <= TABLE
        invariant Walking(was, Now(), holes, orphans, o, i) && at[o] == t
      {
        i := FreewalkEntry(was, t, i, o, holes, orphans);
      }
      assert i == TABLE;
      FreeEmptied(was, t, o, holes, orphans);
    }

    /** The end of `freewalk`: the emptied table itself is freed. */
    method FreeEmptied(ghost was: State, t: nat, ghost o: Role, ghost holes: Holes, ghost orphans: set<Role>)
      requires Walking(was, Now(), holes, orphans, o, TABLE) && at[o] == t
      modifies this
      ensures InvBut(But(Now(), holes), orphans - {o}) && FreedTree(was, Now(), o)
    {
      ghost var here := Now();
      FinishTable(was, here, holes, orphans, o);
      at := at - {o};
      Kfree(t);
      assert Now() == Given(NodeRemoved(here, o), t);
    }

    /** One round of `freewalk`'s loop. */
    method FreewalkEntry(ghost was: State, t: nat, i: nat, ghost o: Role, ghost holes: Holes, ghost orphans: set<Role>)
      returns (i': nat)
      requires i < TABLE && Walking(was, Now(), holes, orphans, o, i) && at[o] == t
      modifies this
      ensures i' == i + 1 && Walking(was, Now(), holes, orphans, o, i') && at[o] == t
      decreases Rank(o), 0
    {
      ghost var here := Now();
      ReadsOwn(here, holes, o, i);
      var pte := mem[t].ptes[i];
      if pte.v {
        DescendReady(here, holes, orphans, o, i);
        ghost var c := Child(o, i);
        assert orphans + {c} - {c} == orphans;
        Freewalk(pte.page, c, holes[t := i], orphans + {c});
        i' := ClearEntry(was, here, t, i, o, holes, orphans);
      } else {
        i' := i + 1;
        SkipEmpty(was, here, holes, orphans, o, i, i');
      }
    }

    /** `pagetable[i] = 0`. */
    method StoreEmpty(t: nat, i: nat)
      requires t in mem && mem[t].Table? && i < |mem[t].ptes|
      modifies this`mem
      ensures Now() == old(Now()).(mem := SetSlot(old(mem), t, i, EMPTY))
    {
      mem := mem[t := Table(mem[t].ptes[i := EMPTY])];
    }

    /** The entry is cleared after the table below has been freed. */
    method ClearEntry(ghost was: State, ghost here: State, t: nat, i: nat, ghost o: Role, ghost holes: Holes,
                      ghost orphans: set<Role>)
      returns (i': nat)
      requires i < TABLE && Walking(was, here, holes, orphans, o, i) && here.at[o] == t
      requires (o.Top? || o.Mid?) && FreedTree(here, Now(), Child(o, i)) && InvBut(But(Now(), holes[t := i]), orphans)
      modifies this
      ensures i' == i + 1 && Walking(was, Now(), holes, orphans, o, i') && at[o] == t
    {
      ghost var there := Now();
      ghost var next := there.(mem := SetSlot(there.mem, t, i, EMPTY));
      i' := i + 1;
      ClimbBack(was, here, there, next, holes, orphans, o, i, i');
      StoreEmpty(t, i);
    }

    /** `uvmfree`: frees the user pages below `sz` and then the page table. With nothing else mapped,
        every page of the tree goes back to the free list. */
    method Uvmfree(root: nat, sz: nat)
      requires Inv(Now()) && Top(root) in at && sz <= MAXVPN * PGSIZE
      requires AllMapped(Now(), root, 0, PgUp(sz), true)
      requires forall v :: PgUp(sz) <= v ==> !PteAt(Now(), root, v).v
      modifies this
      ensures Inv(Now()) && RootGone(old(Now()), Now(), root)
      ensures forall r, v {:trigger PteAt(Now(), r, v)} :: 0 <= r && 0 <= v && r != root ==>
        PteAt(Now(), r, v) == PteAt(old(Now()), r, v)
    {
      ghost var was := Now();
      PgUpMonotone(sz, MAXVPN * PGSIZE);
      PrunedRefl(was, root, 0, true);
      var hi := PgUp(sz);
      if sz > 0 {
        Uvmunmap(root, 0, hi, true);
      }
      ghost var mid := Now();
      AllUnmapped(was, mid, root, hi);
      RootTearable(mid, root);
      assert at[Top(root)] == root;
      Freewalk(root, Top(root), map[], {});
      NoHoles(Now());
      PruneThenTear(was, mid, Now(), root, hi);
    }

    /** `walkaddr`: the page behind a user address, or 0 exactly if there is none that the user may access. */
    method Walkaddr(root: nat, va: nat) returns (page: nat)
      requires Inv(Now()) && Top(root) in at
      requires UserPage(Now(), root, va / PGSIZE) ==> Owned(Now(), root, va / PGSIZE)
      modifies this
      ensures Now() == old(Now())
      ensures page != 0 <==> UserPage(Now(), root, va / PGSIZE)
      ensures page != 0 ==> page == PteAt(Now(), root, va / PGSIZE).page && page in mem
    {
      var vpn := va / PGSIZE;
      if vpn >= MAXVPN {
        return 0;
      }
      var t := Walk(root, vpn, false);
      if t == 0 {
        return 0;
      }
      ReadsEntry(Now(), PathRole(root, vpn, 0), Px0(vpn));
      var pte := mem[t].ptes[Px0(vpn)];
      if !pte.v || !pte.u {
        return 0;
      }
      MappedPage(Now(), root, vpn);
      page := pte.page;
    }

    /** One round of `copyin`'s loop: the bytes of [va, va + n), inside one page. */
    method CopyinPage(root: nat, va: nat, n: nat, ghost m: UserMem) returns (ok: bool, piece: seq<nat>)
      requires Copyable(Now(), root, m) && UserOwned(Now()) && InOnePage(va, n)
      modifies this
      ensures Now() == old(Now()) && (ok <==> Addr(root, va) in m)
      ensures ok ==> |piece| == n && Reads(m, root, va, piece)
    {
      assert UserPage(Now(), root, va / PGSIZE) ==> Owned(Now(), root, va / PGSIZE);
      var page := Walkaddr(root, va);
      assert UserAt(Now(), root, va) <==> Addr(root, va) in m;
      if page == 0 {
        return false, [];
      }
      assert IsBytes(FrameOf(Now(), root, va / PGSIZE));
      PageReads(Now(), m, root, va, n);
      piece := mem[page].bytes[va % PGSIZE..va % PGSIZE + n];
      ok := true;
    }

    /** One round of `copyin`'s loop, after the bytes `data`. */
    method CopyinNext(root: nat, srcva: nat, len: nat, data: seq<nat>, ghost m: UserMem)
      returns (ok: bool, data': seq<nat>)
      requires Copyable(Now(), root, m) && UserOwned(Now()) && |data| < len && Reads(m, root, srcva, data)
      modifies this
      ensures Now() == old(Now()) && |data'| <= len && Reads(m, root, srcva, data')
      ensures if ok then |data| < |data'| else data' == data && Addr(root, srcva + |data|) !in m
    {
      var va := srcva + |data|;
      var piece;
      ok, piece := CopyinPage(root, va, InPageSize(va, len - |data|), m);
      if !ok {
        return false, data;
      }
      data' := data + piece;
      assert Reads(m, root, srcva, data') by {
        ReadsMore(m, root, srcva, data, piece);
      }
    }

    /** `copyin`: the bytes of [srcva, srcva + len) as the user sees them, where `m` is user memory. It fails
        exactly if some address of the range is not accessible; then it has copied what comes before the
        first such address. */
    method Copyin(root: nat, srcva: nat, len: nat, ghost m: UserMem) returns (r: int, data: seq<nat>)
      requires Copyable(Now(), root, m) && UserOwned(Now())
      modifies this
      ensures Now() == old(Now()) && (r == 0 || r == -1)
      ensures |data| <= len && Reads(m, root, srcva, data)
      ensures r == 0 <==> |data| == len
      ensures r == -1 ==> Addr(root, srcva + |data|) !in m
    {
      data := [];
      ghost var was := Now();
      while |data| < len
        invariant Now() == was && |data| <= len && Reads(m, root, srcva, data)
        decreases len - |data|
      {
        var ok;
        ok, data := CopyinNext(root, srcva, len, data, m);
        if !ok {
          return -1, data;
        }
      }
      return 0, data;
    }

    /** One round of `copyout`'s loop. */
    method CopyoutPage(root: nat, va: nat, piece: seq<nat>, ghost m: UserMem) returns (ok: bool)
      requires Copyable(Now(), root, m) && UserOwned(Now()) && InOnePage(va, |piece|)
      modifies this
      ensures ok <==> Addr(root, va) in m
      ensures if ok then CopiedOut(old(Now()), Now(), root, m, va, piece) else Now() == old(Now())
    {
      ghost var was := Now();
      assert UserPage(was, root, va / PGSIZE) ==> Owned(was, root, va / PGSIZE);
      var page := Walkaddr(root, va);
      assert UserAt(was, root, va) <==> Addr(root, va) in m;
      if page == 0 {
        return false;
      }
      assert IsBytes(FrameOf(was, root, va / PGSIZE));
      PageUser(was, m, root, va, |piece|);
      PokeStores(was, m, root, va, piece);
      PokeKeeps(was, root, va, piece);
      mem := mem[page := Data(Spliced(mem[page].bytes, va % PGSIZE, piece))];
      assert Now() == Poke(was, root, va, piece);
      ok := true;
    }

    /** The same after the bytes `x` have been copied. */
    method CopyoutNext(ghost was: State, root: nat, va: nat, piece: seq<nat>, ghost m: UserMem, ghost a: nat,
                       ghost x: seq<nat>)
      returns (ok: bool)
      requires CopiedOut(was, Now(), root, m, a, x) && UserOwned(was) && va == a + |x| && InOnePage(va, |piece|)
      modifies this
      ensures ok ==> CopiedOut(was, Now(), root, m, a, x + piece)
      ensures !ok ==> Now() == old(Now()) && Addr(root, va) !in m
    {
      ghost var here := Now();
      StillOwned(was, here);
      ok := CopyoutPage(root, va, piece, Stored(m, root, a, x));
      if ok {
        assert CopiedOut(was, Now(), root, m, a, x + piece) by {
          CopiedOutMore(was, here, Now(), root, m, a, x, va, piece);
        }
      }
    }

    /** `copyout`: the first `n` bytes of `src` are stored at `dstva` in that address space; no other byte of any
        address space changes, nor any other page, and no translation. All are stored unless some address of the
        range is not accessible; then those before the first such address are. */
    method Copyout(root: nat, dstva: nat, src: seq<nat>, ghost m: UserMem) returns (r: int, ghost n: nat)
      requires Copyable(Now(), root, m) && UserOwned(Now())
      modifies this
      ensures n <= |src| && (r == 0 || r == -1) && (r == 0 <==> n == |src|)
      ensures CopiedOut(old(Now()), Now(), root, m, dstva, src[..n])
      ensures r == -1 ==> Addr(root, dstva + n) !in m
    {
      var done: nat := 0;
      ghost var was, x := Now(), [];
      CopiedNothing(was, root, m, dstva);
      while done < |src|
        invariant done <= |src| && x == src[..done] && CopiedOut(was, Now(), root, m, dstva, x)
        decreases |src| - done
      {
        var va := dstva + done;
        var k := InPageSize(va, |src| - done);
        var piece := src[done..done + k];
        var ok := CopyoutNext(was, root, va, piece, m, dstva, x);
        if !ok {
          n, r := done, -1;
          return;
        }
        done, x := done + k, x + piece;
      }
      n, r := done, 0;
    }
  }

  /** How many of `n` bytes from `va` on lie in the same page. */
  function InPageSize(va: nat, n: nat): (m: nat)
    requires n > 0
    ensures 0 < m <= n && InOnePage(va, m)
  {
    var room := PGSIZE - va % PGSIZE;
    if room > n then n else room
  }

  /** `PGROUNDUP(sz) / PGSIZE`. */
  function PgUp(sz: nat): nat {
    (sz + PGSIZE - 1) / PGSIZE
  }

  lemma PgUpMonotone(a: nat, b: nat)
    requires a <= b && b <= MAXVPN * PGSIZE
    ensures PgUp(a) <= PgUp(b) <= MAXVPN
  {
  }

  lemma LastPage(va: nat, size: nat)
    requires 0 < size && va + size <= MAXVPN * PGSIZE
    ensures va / PGSIZE <= (va + size - 1) / PGSIZE < MAXVPN
  {
  }

  function ZeroBytes(): seq<nat> {
    seq(PGSIZE, _ => 0)
  }

  /** `PTE_R | PTE_U | xperm`. */
  function UserPerm(xperm: Pte): Pte {
    xperm.(r := true, u := true)
  }
}

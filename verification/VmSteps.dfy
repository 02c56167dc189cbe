/** What the page table code does step by step, as relations between states: which translations
    change, which pages change role, and how such steps compose. */
module VmSteps {
  import opened Sv39
  import opened VmFree

  /** Only tables were added under `root`: no translation changed, and no page that was held or
      mapped was touched. */
  ghost predicate TablesOnly(s: State, s': State, root: nat) {
    && SameMap(s, s')
    && (forall q {:trigger q in s'.at} :: q in s.at ==> q in s'.at && s'.at[q] == s.at[q])
    && (forall q {:trigger q in s'.at} :: q in s'.at ==> q in s.at || ((q.Mid? || q.Low?) && q.root == root))
    && KeepsPages(s, s', root)
  }

  /** Held and mapped pages keep role and contents; free ones stay free or become tables of `root`. */
  ghost predicate KeepsPages(s: State, s': State, root: nat) {
    && s'.role.Keys == s.role.Keys
    && (forall p {:trigger s'.role[p]} :: p in s.role && (s.role[p].Held? || s.role[p].Leaf?) ==>
          s'.role[p] == s.role[p] && p in s.mem && p in s'.mem && s'.mem[p] == s.mem[p])
    && (forall p {:trigger s'.role[p]} :: p in s.role && s.role[p].Free? ==>
          s'.role[p].Free? || (IsTable(s'.role[p]) && s'.role[p].root == root))
    && (forall p {:trigger s'.role[p]} :: p in s.role && IsTable(s.role[p]) ==> s'.role[p] == s.role[p])
  }

  lemma TablesOnlyTrans(s: State, t: State, u: State, root: nat)
    requires TablesOnly(s, t, root) && TablesOnly(t, u, root)
    ensures TablesOnly(s, u, root)
  {
    forall o: Role, k: nat | o.Low? ensures Entry(u, o, k) == Entry(s, o, k) {
      assert Entry(t, o, k) == Entry(s, o, k);
    }
    forall q | q in s.at ensures q in u.at && u.at[q] == s.at[q] {
      assert q in t.at;
    }
    forall p | p in s.role ensures p in t.role {
    }
  }

  lemma TablesOnlyRefl(s: State, root: nat)
    requires Inv(s)
    ensures TablesOnly(s, s, root)
  {
  }

  /** Taking a free page and hanging it as a table. */
  function TableGrown(s: State, o: Role, idx: nat): State
    requires s.free != [] && IsTable(o) && o in s.at
  {
    NodeAdded(Taken(s), o, idx, s.free[0])
  }

  lemma TableGrownPages(s: State, o: Role, idx: nat)
    requires RolesOk(s) && FreeOk(s) && s.free != [] && o in s.at && (o.Top? || o.Mid?)
    requires Child(o, idx) !in s.at
    ensures KeepsPages(s, TableGrown(s, o, idx), o.root)
    ensures forall q {:trigger q in TableGrown(s, o, idx).at} ::
              q in TableGrown(s, o, idx).at <==> q in s.at || q == Child(o, idx)
    ensures forall q {:trigger q in TableGrown(s, o, idx).at} ::
              q in s.at ==> TableGrown(s, o, idx).at[q] == s.at[q]
  {
    var p, u := s.free[0], TableGrown(s, o, idx);
    assert p in s.free;
    forall r | r in s.role && (s.role[r].Held? || s.role[r].Leaf?)
      ensures u.role[r] == s.role[r] && r in u.mem && u.mem[r] == s.mem[r]
    {
      assert r != p && r != s.at[o];
    }
  }

  lemma TableGrownKeepsInv(s: State, o: Role, idx: nat)
    requires Inv(s) && s.free != [] && o in s.at && (o.Top? || o.Mid?) && idx < TABLE && !Entry(s, o, idx).v
    ensures s.free[0] != 0 && s.free[0] != s.at[o] && Child(o, idx) !in s.at
    ensures Inv(TableGrown(s, o, idx)) && SameMap(s, TableGrown(s, o, idx))
  {
    var p, t := s.free[0], Taken(s);
    TakenKeepsInv(s, {});
    assert p in s.free && s.at[o] != p;
    assert Ptes(t, o) == Ptes(s, o);
    NodeAddedKeepsInv(t, o, idx, p);
    NodeAddedEntries(t, o, idx, p);
    forall q: Role, k: nat | q.Low? ensures Entry(TableGrown(s, o, idx), q, k) == Entry(s, q, k) {
      assert Entry(t, q, k) == Entry(s, q, k);
    }
  }

  lemma TakeAndAdd(s: State, o: Role, idx: nat)
    requires Inv(s) && s.free != [] && o in s.at && (o.Top? || o.Mid?) && idx < TABLE && !Entry(s, o, idx).v
    ensures s.free[0] != 0 && s.free[0] != s.at[o]
    ensures Inv(TableGrown(s, o, idx)) && TablesOnly(s, TableGrown(s, o, idx), o.root)
  {
    TableGrownKeepsInv(s, o, idx);
    TableGrownPages(s, o, idx);
  }

  /** What `walk` finds when it looks at an entry of an upper table. */
  lemma ReadsEntry(s: State, o: Role, idx: nat)
    requires Inv(s) && o in s.at && IsTable(o) && idx < TABLE
    ensures s.at[o] in s.mem && s.mem[s.at[o]].Table? && |s.mem[s.at[o]].ptes| == TABLE
    ensures s.mem[s.at[o]].ptes[idx] == Entry(s, o, idx)
    ensures (o.Top? || o.Mid?) && Entry(s, o, idx).v ==>
              Child(o, idx) in s.at && s.at[Child(o, idx)] == Entry(s, o, idx).page != 0
    ensures (o.Top? || o.Mid?) && !Entry(s, o, idx).v ==> Child(o, idx) !in s.at
  {
    assert |Ptes(s, o)| == TABLE;
  }

  /** The table that a walk for `vpn` visits at each level. */
  function PathRole(root: nat, vpn: nat, level: nat): Role {
    if level >= 2 then Top(root) else if level == 1 then Mid(root, Px2(vpn)) else Low(root, Px2(vpn), Px1(vpn))
  }

  function Px(level: nat, vpn: nat): nat {
    if level >= 2 then Px2(vpn) else if level == 1 then Px1(vpn) else Px0(vpn)
  }

  /** Without the table at one level there is none further down. */
  lemma Unreached(s: State, root: nat, vpn: nat, level: nat)
    requires Inv(s) && 1 <= level <= 2 && PathRole(root, vpn, level - 1) !in s.at
    ensures PathRole(root, vpn, 0) !in s.at
  {
  }

  // ----- What mapping and unmapping do to the flat map and to the pages -----

  function LeafAt(root: nat, vpn: nat): Role {
    Leaf(root, Px2(vpn), Px1(vpn), Px0(vpn))
  }

  predicate LeafIn(q: Role, root: nat, lo: nat, hi: nat) {
    q.Leaf? && q.root == root && lo <= Vpn(q.i, q.j, q.k) < hi
  }

  /** Outside [lo, hi) of `root` no translation changed. */
  ghost predicate SameOutside(s: State, s': State, root: nat, lo: nat, hi: nat) {
    forall r, v {:trigger PteAt(s', r, v)} :: 0 <= r && 0 <= v && !(r == root && lo <= v < hi) ==>
      PteAt(s', r, v) == PteAt(s, r, v)
  }

  /** Roles were only added: tables of `root`, and with `own` pages owned by mappings in [lo, hi). */
  ghost predicate GrownRoles(s: State, s': State, root: nat, lo: nat, hi: nat, own: bool) {
    && (forall q {:trigger q in s'.at} :: q in s.at ==> q in s'.at && s'.at[q] == s.at[q])
    && (forall q {:trigger q in s'.at} :: q in s'.at ==>
          q in s.at || ((q.Mid? || q.Low?) && q.root == root) || (own && LeafIn(q, root, lo, hi)))
    && (own ==> AllOwned(s', root, lo, hi))
  }

  /** Pages that were `given` (held before) or free before are the ones newly mapped or used as
      tables; every other page keeps its role and, unless it is a table, its contents. */
  ghost predicate GrownPages(s: State, s': State, root: nat, lo: nat, hi: nat, given: set<nat>) {
    && s'.role.Keys == s.role.Keys
    && (forall p {:trigger s'.role[p]} :: p in s.role && !s.role[p].Free? && p !in given ==>
          && s'.role[p] == s.role[p]
          && (!IsTable(s.role[p]) ==> p in s.mem && p in s'.mem && s'.mem[p] == s.mem[p]))
    && (forall p {:trigger s'.role[p]} :: p in s.role && (s.role[p].Free? || p in given) ==>
          || (s.role[p].Free? && s'.role[p].Free?)
          || (s.role[p].Free? && IsTable(s'.role[p]) && s'.role[p].root == root)
          || LeafIn(s'.role[p], root, lo, hi))
  }

  /** [lo, hi) was mapped under `root`, with `own` to pages that it now owns, and nothing else changed
      translation. */
  ghost predicate Grown(s: State, s': State, root: nat, lo: nat, hi: nat, given: set<nat>, own: bool) {
    && SameOutside(s, s', root, lo, hi)
    && (forall v {:trigger PteAt(s', root, v)} :: lo <= v < hi ==> PteAt(s', root, v).v)
    && GrownRoles(s, s', root, lo, hi, own)
    && GrownPages(s, s', root, lo, hi, given)
  }

  /** The pages that mappings of [lo, hi) owned became free or were left to the caller; no other role or
      page changed. */
  ghost predicate PrunedPages(s: State, s': State, root: nat, lo: nat, hi: nat, freed: bool) {
    && (forall q {:trigger q in s'.at} :: q in s'.at <==> q in s.at && !LeafIn(q, root, lo, hi))
    && (forall q {:trigger q in s'.at} :: q in s'.at ==> s'.at[q] == s.at[q])
    && s'.role.Keys == s.role.Keys
    && (forall p {:trigger s'.role[p]} :: p in s.role ==>
          && s'.role[p] == (if !LeafIn(s.role[p], root, lo, hi) then s.role[p] else if freed then Free else Held)
          && (!IsTable(s.role[p]) && !(freed && LeafIn(s.role[p], root, lo, hi)) ==>
                p in s.mem && p in s'.mem && s'.mem[p] == s.mem[p]))
  }

  /** [lo, hi) was unmapped under `root` and the pages owned there were freed or left to the caller; nothing
      else changed. */
  ghost predicate Pruned(s: State, s': State, root: nat, lo: nat, hi: nat, freed: bool) {
    && SameOutside(s, s', root, lo, hi)
    && (forall v {:trigger PteAt(s', root, v)} :: lo <= v < hi ==> PteAt(s', root, v) == EMPTY)
    && PrunedPages(s, s', root, lo, hi, freed)
  }

  /** Virtual page `vpn` of `root` owns the page it is mapped to. */
  predicate Owned(s: State, root: nat, vpn: nat) {
    LeafAt(root, vpn) in s.at
  }

  /** Every page of [lo, hi) is mapped, with `owned` to a page of its own. */
  ghost predicate AllMapped(s: State, root: nat, lo: nat, hi: nat, owned: bool) {
    (forall v {:trigger PteAt(s, root, v)} :: lo <= v < hi ==> PteAt(s, root, v).v) &&
    (owned ==> AllOwned(s, root, lo, hi))
  }

  ghost predicate AllOwned(s: State, root: nat, lo: nat, hi: nat) {
    forall v {:trigger Owned(s, root, v)} :: lo <= v < hi ==> Owned(s, root, v)
  }

  ghost predicate GrownOne(s: State, s': State, root: nat, vpn: nat, given: set<nat>, own: bool) {
    Grown(s, s', root, vpn, vpn + 1, given, own)
  }

  ghost predicate PrunedOne(s: State, s': State, root: nat, vpn: nat, freed: bool) {
    Pruned(s, s', root, vpn, vpn + 1, freed)
  }

  /** A change of one entry of a bottom table, seen in the flat map. */
  lemma FlatSet(s: State, s': State, root: nat, vpn: nat, e: Pte)
    requires EntrySet(s, s', PathRole(root, vpn, 0), Px0(vpn), e)
    ensures PteAt(s', root, vpn) == e
    ensures forall r, v {:trigger PteAt(s', r, v)} :: 0 <= r && 0 <= v && !(r == root && v == vpn) ==>
              PteAt(s', r, v) == PteAt(s, r, v)
  {
    forall r, v | 0 <= r && 0 <= v && !(r == root && v == vpn) ensures PteAt(s', r, v) == PteAt(s, r, v) {
      IndicesUnique(v, Px2(vpn), Px1(vpn), Px0(vpn));
      IndicesUnique(vpn, Px2(vpn), Px1(vpn), Px0(vpn));
    }
  }

  lemma FlatSame(s: State, s': State)
    requires SameMap(s, s')
    ensures forall r, v {:trigger PteAt(s', r, v)} :: 0 <= r && 0 <= v ==> PteAt(s', r, v) == PteAt(s, r, v)
  {
  }

  /** The state after adding tables (`mid`) and then mapping a held page. */
  function MappedAt(mid: State, root: nat, vpn: nat, e: Pte, own: bool): State
    requires PathRole(root, vpn, 0) in mid.at
  {
    LeafAdded(mid, PathRole(root, vpn, 0), Px0(vpn), e, own)
  }

  lemma VpnOfIndices(vpn: nat)
    ensures Vpn(Px2(vpn), Px1(vpn), Px0(vpn)) == vpn
  {
    IndicesUnique(vpn, Px2(vpn), Px1(vpn), Px0(vpn));
  }

  lemma MapStepFlat(s: State, mid: State, root: nat, vpn: nat, e: Pte, own: bool)
    requires SameMap(s, mid) && PathRole(root, vpn, 0) in mid.at
    requires EntrySet(mid, MappedAt(mid, root, vpn, e, own), PathRole(root, vpn, 0), Px0(vpn), e)
    ensures PteAt(MappedAt(mid, root, vpn, e, own), root, vpn) == e
    ensures SameOutside(s, MappedAt(mid, root, vpn, e, own), root, vpn, vpn + 1)
  {
    FlatSet(mid, MappedAt(mid, root, vpn, e, own), root, vpn, e);
    FlatSame(s, mid);
  }

  lemma MapStepRoles(s: State, mid: State, root: nat, vpn: nat, e: Pte, own: bool)
    requires TablesOnly(s, mid, root) && PathRole(root, vpn, 0) in mid.at && LeafAt(root, vpn) !in mid.at
    ensures GrownRoles(s, MappedAt(mid, root, vpn, e, own), root, vpn, vpn + 1, own)
  {
    VpnOfIndices(vpn);
    forall q | q in s.at ensures q in mid.at && mid.at[q] == s.at[q] {
    }
  }

  lemma MapStepPages(s: State, mid: State, root: nat, vpn: nat, e: Pte, own: bool)
    requires TablesOnly(s, mid, root) && RolesOk(mid) && PathRole(root, vpn, 0) in mid.at
    requires own ==> e.page in s.role && s.role[e.page] == Held
    ensures GrownPages(s, MappedAt(mid, root, vpn, e, own), root, vpn, vpn + 1, if own then {e.page} else {})
    ensures e.page in s.role && s.role[e.page] == Held ==>
              e.page in s.mem && e.page in MappedAt(mid, root, vpn, e, own).mem &&
              MappedAt(mid, root, vpn, e, own).mem[e.page] == s.mem[e.page]
  {
    VpnOfIndices(vpn);
    var o, k := PathRole(root, vpn, 0), Px0(vpn);
    var s' := LeafAdded(mid, o, k, e, own);
    forall p | p in s.role && !s.role[p].Free? ensures mid.role[p] == s.role[p] {
      assert p in mid.role;
    }
    forall p | p in s.role && (s.role[p].Held? || s.role[p].Leaf?)
      ensures p in s'.mem && p in s.mem && s'.mem[p] == s.mem[p]
    {
      assert p in mid.role && p != mid.at[o];
    }
  }

  lemma MapStepInv(mid: State, root: nat, vpn: nat, e: Pte, own: bool)
    requires Inv(mid) && CanMap(mid, PathRole(root, vpn, 0), Px0(vpn), e, own)
    ensures Inv(MappedAt(mid, root, vpn, e, own)) && LeafAt(root, vpn) !in mid.at
    ensures EntrySet(mid, MappedAt(mid, root, vpn, e, own), PathRole(root, vpn, 0), Px0(vpn), e)
  {
    LeafAddedKeepsInv(mid, PathRole(root, vpn, 0), Px0(vpn), e, own);
    LeafAddedEntries(mid, PathRole(root, vpn, 0), Px0(vpn), e, own);
  }

  /** Adding tables and then mapping a held page. */
  lemma MapStep(s: State, mid: State, root: nat, vpn: nat, e: Pte, own: bool)
    requires TablesOnly(s, mid, root) && RolesOk(mid) && PathRole(root, vpn, 0) in mid.at && e.v
    requires EntrySet(mid, MappedAt(mid, root, vpn, e, own), PathRole(root, vpn, 0), Px0(vpn), e)
    requires LeafAt(root, vpn) !in mid.at
    requires own ==> e.page in s.role && s.role[e.page] == Held
    ensures PteAt(MappedAt(mid, root, vpn, e, own), root, vpn) == e
    ensures GrownOne(s, MappedAt(mid, root, vpn, e, own), root, vpn, if own then {e.page} else {}, own)
    ensures e.page in s.role && s.role[e.page] == Held ==>
              e.page in s.mem && e.page in MappedAt(mid, root, vpn, e, own).mem &&
              MappedAt(mid, root, vpn, e, own).mem[e.page] == s.mem[e.page]
  {
    MapStepFlat(s, mid, root, vpn, e, own);
    MapStepRoles(s, mid, root, vpn, e, own);
    MapStepPages(s, mid, root, vpn, e, own);
  }

  /** After a successful walk the entry is there to be set. */
  lemma MapReady(s: State, mid: State, root: nat, vpn: nat, e: Pte, own: bool)
    requires TablesOnly(s, mid, root) && Inv(mid) && PathRole(root, vpn, 0) in mid.at
    requires !PteAt(s, root, vpn).v && e.v && Leafy(e)
    requires own ==> e.page in s.role && s.role[e.page] == Held
    ensures CanMap(mid, PathRole(root, vpn, 0), Px0(vpn), e, own)
  {
    VpnOfIndices(vpn);
    FlatSame(s, mid);
    assert PteAt(mid, root, vpn) == PteAt(s, root, vpn);
  }

  lemma MapDone(s: State, mid: State, root: nat, vpn: nat, e: Pte, own: bool)
    requires TablesOnly(s, mid, root) && Inv(mid) && PathRole(root, vpn, 0) in mid.at
    requires !PteAt(s, root, vpn).v && e.v && Leafy(e)
    requires own ==> e.page in s.role && s.role[e.page] == Held
    ensures Inv(MappedAt(mid, root, vpn, e, own))
    ensures PteAt(MappedAt(mid, root, vpn, e, own), root, vpn) == e
    ensures GrownOne(s, MappedAt(mid, root, vpn, e, own), root, vpn, if own then {e.page} else {}, own)
    ensures e.page in s.role && s.role[e.page] == Held ==>
              e.page in s.mem && e.page in MappedAt(mid, root, vpn, e, own).mem &&
              MappedAt(mid, root, vpn, e, own).mem[e.page] == s.mem[e.page]
  {
    assert CanMap(mid, PathRole(root, vpn, 0), Px0(vpn), e, own) by {
      MapReady(s, mid, root, vpn, e, own);
    }
    MapStepInv(mid, root, vpn, e, own);
    MapStep(s, mid, root, vpn, e, own);
  }

  // ----- Several pages in a row -----

  lemma GrownPagesNext(s: State, t: State, u: State, root: nat, lo: nat, a: nat, a': nat,
                       g1: set<nat>, g2: set<nat>, g: set<nat>)
    requires GrownPages(s, t, root, lo, a, g1) && GrownPages(t, u, root, a, a', g2) && lo <= a <= a'
    requires g1 <= g <= g1 + g2 && (forall p :: p in g2 ==> p in g || (p in s.role && s.role[p].Free?))
    ensures GrownPages(s, u, root, lo, a', g)
  {
    forall p | p in s.role && !s.role[p].Free? && p !in g
      ensures u.role[p] == s.role[p] && (!IsTable(s.role[p]) ==> p in s.mem && p in u.mem && u.mem[p] == s.mem[p])
    {
      assert p in t.role;
    }
    forall p | p in s.role && (s.role[p].Free? || p in g)
      ensures || (s.role[p].Free? && u.role[p].Free?)
              || (s.role[p].Free? && IsTable(u.role[p]) && u.role[p].root == root)
              || LeafIn(u.role[p], root, lo, a')
    {
      assert p in t.role;
    }
  }

  /** One more page mapped after [lo, a). */
  lemma GrownNext(s: State, t: State, u: State, root: nat, lo: nat, a: nat, a': nat,
                  g1: set<nat>, g2: set<nat>, g: set<nat>, own: bool)
    requires Grown(s, t, root, lo, a, g1, own) && GrownOne(t, u, root, a, g2, own) && lo <= a && a' == a + 1
    requires g1 <= g <= g1 + g2 && (forall p :: p in g2 ==> p in g || (p in s.role && s.role[p].Free?))
    ensures Grown(s, u, root, lo, a', g, own)
  {
    GrownPagesNext(s, t, u, root, lo, a, a', g1, g2, g);
    forall r, v | 0 <= r && 0 <= v && !(r == root && lo <= v < a') ensures PteAt(u, r, v) == PteAt(s, r, v) {
      assert PteAt(t, r, v) == PteAt(s, r, v);
    }
    forall v | lo <= v < a' ensures PteAt(u, root, v).v {
      assert v < a ==> PteAt(t, root, v).v;
    }
    forall q | q in s.at ensures q in u.at && u.at[q] == s.at[q] {
      assert q in t.at;
    }
    if own {
      forall v | lo <= v < a' ensures Owned(u, root, v) {
        assert v < a ==> Owned(t, root, v);
      }
    }
  }

  lemma GrownRefl(s: State, root: nat, lo: nat, own: bool)
    requires RolesOk(s)
    ensures Grown(s, s, root, lo, lo, {}, own)
  {
  }

  /** A page fresh from the free list, filled in and then mapped, came from the free list. */
  lemma GrownFromFree(s: State, u: State, root: nat, vpn: nat, f: Frame)
    requires Inv(s) && s.free != []
    requires GrownOne(Filled(s, f), u, root, vpn, {s.free[0]}, true)
    ensures GrownOne(s, u, root, vpn, {}, true)
  {
    var t, p := Filled(s, f), s.free[0];
    assert p in s.free;
    forall r, v | 0 <= r && 0 <= v ensures PteAt(t, r, v) == PteAt(s, r, v) {
      FilledSameMap(s, f);
    }
    forall q | q in s.role ensures q in t.role && (q != p ==> t.role[q] == s.role[q] && t.mem[q] == s.mem[q]) {
    }
  }

  lemma AllocDone(s: State, u: State, root: nat, vpn: nat, f: Frame, perm: Pte)
    requires Inv(s) && s.free != [] && GrownOne(Filled(s, f), u, root, vpn, {s.free[0]}, true)
    requires PteAt(u, root, vpn) == perm.(page := s.free[0], v := true) && s.free[0] in u.mem && u.mem[s.free[0]] == f
    ensures GrownOne(s, u, root, vpn, {}, true) && Holds(u, root, vpn, perm, f)
  {
    GrownFromFree(s, u, root, vpn, f);
    assert Owned(u, root, vpn);
  }

  /** The state after `kalloc` and filling the page with `f`. */
  function Filled(s: State, f: Frame): State
    requires s.free != []
  {
    var t := Taken(s);
    t.(mem := t.mem[s.free[0] := f])
  }

  lemma FilledSameMap(s: State, f: Frame)
    requires Inv(s) && s.free != []
    ensures Inv(Filled(s, f)) && SameMap(s, Filled(s, f))
    ensures s.free[0] != 0 && s.free[0] in s.role && s.role[s.free[0]] == Free
  {
    var t := Taken(s);
    TakenKeepsInv(s, {});
    FrameKeepsInv(t, s.free[0], f);
    forall o: Role, k: nat | o.Low? ensures Entry(Filled(s, f), o, k) == Entry(s, o, k) {
      assert Entry(t, o, k) == Entry(s, o, k);
    }
  }

  /** A page taken, filled and given back, with only tables added in between. */
  lemma TakenAndGiven(s: State, u: State, root: nat, f: Frame)
    requires Inv(s) && s.free != [] && TablesOnly(Filled(s, f), u, root) && Inv(u)
    ensures s.free[0] in u.role && u.role[s.free[0]] == Held
    ensures Inv(Given(u, s.free[0])) && TablesOnly(s, Given(u, s.free[0]), root)
  {
    var p := s.free[0];
    assert p in u.role && u.role[p] == Held by {
      assert Filled(s, f).role[p] == Held;
    }
    GivenKeepsInv(u, p, {});
    TakenAndGivenMap(s, u, root, f);
    TakenAndGivenPages(s, u, root, f);
  }

  lemma TakenAndGivenPages(s: State, u: State, root: nat, f: Frame)
    requires RolesOk(s) && FreeOk(s) && s.free != [] && KeepsPages(Filled(s, f), u, root)
    ensures KeepsPages(s, Given(u, s.free[0]), root)
  {
    var t, p := Filled(s, f), s.free[0];
    assert p in s.free && p in t.role && t.role[p] == Held;
    var w := Given(u, p);
    forall q | q in s.role && q != p ensures q in t.role && t.role[q] == s.role[q] && w.role[q] == u.role[q] {
      assert q in u.role;
    }
    forall q | q in s.role && (s.role[q].Held? || s.role[q].Leaf?)
      ensures q in s.mem && q in w.mem && w.mem[q] == s.mem[q]
    {
      assert q != p && t.mem[q] == s.mem[q];
    }
  }

  lemma TakenAndGivenMap(s: State, u: State, root: nat, f: Frame)
    requires Inv(s) && s.free != [] && TablesOnly(Filled(s, f), u, root) && Inv(u)
    requires s.free[0] in u.role && u.role[s.free[0]] == Held
    ensures SameMap(s, Given(u, s.free[0]))
  {
    FilledSameMap(s, f);
    GivenKeepsInv(u, s.free[0], {});
    var w := Given(u, s.free[0]);
    forall o: Role, k: nat | o.Low? ensures Entry(w, o, k) == Entry(s, o, k) {
      assert Entry(w, o, k) == Entry(u, o, k);
      assert Entry(u, o, k) == Entry(Filled(s, f), o, k);
    }
  }

  // ----- Unmapping -----

  /** The mapping of `vpn` is removed; a page it owned is left to the caller or goes to the free list. */
  function UnmappedAt(s: State, root: nat, vpn: nat, freed: bool): State
    requires PathRole(root, vpn, 0) in s.at
  {
    var t := LeafRemoved(s, PathRole(root, vpn, 0), Px0(vpn));
    if freed then Given(t, PteAt(s, root, vpn).page) else t
  }

  /** What a mapping says about its page. */
  lemma MappedEntry(s: State, root: nat, vpn: nat)
    requires Inv(s) && PteAt(s, root, vpn).v
    ensures PathRole(root, vpn, 0) in s.at && Leafy(PteAt(s, root, vpn))
    ensures Owned(s, root, vpn) ==> s.at[LeafAt(root, vpn)] == PteAt(s, root, vpn).page
  {
    assert DownAt(s, PathRole(root, vpn, 0), Px0(vpn));
  }

  lemma UnmapInv(s: State, root: nat, vpn: nat, freed: bool)
    requires Inv(s) && PteAt(s, root, vpn).v && (freed ==> Owned(s, root, vpn))
    ensures PathRole(root, vpn, 0) in s.at && Inv(UnmappedAt(s, root, vpn, freed))
  {
    var o, k := PathRole(root, vpn, 0), Px0(vpn);
    MappedEntry(s, root, vpn);
    LeafRemovedKeepsInv(s, o, k);
    if freed {
      GivenKeepsInv(LeafRemoved(s, o, k), PteAt(s, root, vpn).page, {});
    }
  }

  lemma UnmapFlat(s: State, root: nat, vpn: nat, freed: bool)
    requires Inv(s) && PteAt(s, root, vpn).v && (freed ==> Owned(s, root, vpn))
    ensures PathRole(root, vpn, 0) in s.at
    ensures PteAt(UnmappedAt(s, root, vpn, freed), root, vpn) == EMPTY
    ensures SameOutside(s, UnmappedAt(s, root, vpn, freed), root, vpn, vpn + 1)
  {
    var o, k := PathRole(root, vpn, 0), Px0(vpn);
    MappedEntry(s, root, vpn);
    LeafRemovedKeepsInv(s, o, k);
    var t, u := LeafRemoved(s, o, k), UnmappedAt(s, root, vpn, freed);
    FlatSet(s, t, root, vpn, EMPTY);
    if freed {
      GivenKeepsInv(t, PteAt(s, root, vpn).page, {});
      FlatSame(t, u);
    }
    forall r, v | 0 <= r && 0 <= v && !(r == root && v == vpn) ensures PteAt(u, r, v) == PteAt(s, r, v) {
      assert PteAt(t, r, v) == PteAt(s, r, v);
    }
  }

  /** Role and page of the one mapping are gone, all others stay. */
  lemma UnmapPages(s: State, root: nat, vpn: nat, freed: bool)
    requires RolesOk(s) && UpOk(s, {}) && PathRole(root, vpn, 0) in s.at && (freed ==> Owned(s, root, vpn))
    requires Owned(s, root, vpn) ==> s.at[LeafAt(root, vpn)] == PteAt(s, root, vpn).page
    ensures PrunedPages(s, UnmappedAt(s, root, vpn, freed), root, vpn, vpn + 1, freed)
  {
    VpnOfIndices(vpn);
    forall q | q in s.at && LeafIn(q, root, vpn, vpn + 1) ensures q == LeafAt(root, vpn) {
      assert Index(q) < TABLE && Parent(q) in s.at && Index(Parent(q)) < TABLE;
      IndicesUnique(vpn, q.i, q.j, q.k);
    }
  }

  /** Unmapping one page that is mapped. */
  lemma UnmapStep(s: State, root: nat, vpn: nat, freed: bool)
    requires Inv(s) && PteAt(s, root, vpn).v && (freed ==> Owned(s, root, vpn))
    ensures PathRole(root, vpn, 0) in s.at && Inv(UnmappedAt(s, root, vpn, freed))
    ensures PrunedOne(s, UnmappedAt(s, root, vpn, freed), root, vpn, freed)
  {
    MappedEntry(s, root, vpn);
    UnmapInv(s, root, vpn, freed);
    UnmapFlat(s, root, vpn, freed);
    UnmapPages(s, root, vpn, freed);
  }

  lemma PrunedNext(s: State, t: State, u: State, root: nat, lo: nat, a: nat, a': nat, freed: bool)
    requires Pruned(s, t, root, lo, a, freed) && PrunedOne(t, u, root, a, freed) && lo <= a && a' == a + 1
    ensures Pruned(s, u, root, lo, a', freed)
  {
    forall r, v | 0 <= r && 0 <= v && !(r == root && lo <= v < a') ensures PteAt(u, r, v) == PteAt(s, r, v) {
      assert PteAt(t, r, v) == PteAt(s, r, v);
    }
    forall v | lo <= v < a' ensures PteAt(u, root, v) == EMPTY {
      assert v < a ==> PteAt(t, root, v) == EMPTY;
    }
    forall q ensures q in u.at <==> q in s.at && !LeafIn(q, root, lo, a') {
      assert q in t.at <==> q in s.at && !LeafIn(q, root, lo, a);
    }
    forall p | p in s.role ensures p in t.role {
    }
  }

  lemma PrunedRefl(s: State, root: nat, lo: nat, freed: bool)
    requires RolesOk(s)
    ensures Pruned(s, s, root, lo, lo, freed)
  {
  }

  /** Mapping a range and unmapping it again leaves only tables behind. */
  lemma GrownThenPruned(s: State, t: State, u: State, root: nat, lo: nat, hi: nat)
    requires Inv(s) && Inv(u) && Grown(s, t, root, lo, hi, {}, true) && Pruned(t, u, root, lo, hi, true)
    requires forall v :: lo <= v < hi ==> !PteAt(s, root, v).v
    ensures TablesOnly(s, u, root)
  {
    forall v | lo <= v < hi ensures PteAt(s, root, v) == EMPTY {
      EmptyUnlessValid(s, root, v);
    }
    assert forall r, v :: 0 <= r && 0 <= v ==> PteAt(u, r, v) == PteAt(s, r, v) by {
      forall r, v | 0 <= r && 0 <= v ensures PteAt(u, r, v) == PteAt(s, r, v) {
        assert r == root && lo <= v < hi ==> PteAt(u, r, v) == EMPTY;
        assert !(r == root && lo <= v < hi) ==> PteAt(u, r, v) == PteAt(t, r, v) == PteAt(s, r, v);
      }
    }
    FlatIsAll(s, u);
    GrownThenPrunedRoles(s, t, u, root, lo, hi);
  }

  lemma EmptyUnlessValid(s: State, root: nat, vpn: nat)
    requires Inv(s) && !PteAt(s, root, vpn).v
    ensures PteAt(s, root, vpn) == EMPTY
  {
    var o := PathRole(root, vpn, 0);
    if o in s.at {
      assert DownAt(s, o, Px0(vpn)) || Entry(s, o, Px0(vpn)) == EMPTY;
    }
  }

  /** Every entry of every bottom table is the translation of some virtual page. */
  lemma FlatIsAll(s: State, u: State)
    requires Inv(s) && Inv(u)
    requires forall r, v :: 0 <= r && 0 <= v ==> PteAt(u, r, v) == PteAt(s, r, v)
    ensures SameMap(s, u)
  {
    forall o: Role, k: nat | o.Low? ensures Entry(u, o, k) == Entry(s, o, k) {
      if o.j < TABLE && k < TABLE {
        IndicesUnique(Vpn(o.i, o.j, k), o.i, o.j, k);
        assert PteAt(u, o.root, Vpn(o.i, o.j, k)) == PteAt(s, o.root, Vpn(o.i, o.j, k));
      } else {
        assert o in s.at ==> Index(o) < TABLE && |Ptes(s, o)| == TABLE;
        assert o in u.at ==> Index(o) < TABLE && |Ptes(u, o)| == TABLE;
      }
    }
  }

  /** Where nothing is mapped no page has a leaf role. */
  lemma NoLeafInGap(s: State, root: nat, lo: nat, hi: nat, q: Role)
    requires UpOk(s, {}) && q in s.at
    requires forall v :: lo <= v < hi ==> !PteAt(s, root, v).v
    ensures !LeafIn(q, root, lo, hi)
  {
    if q.Leaf? && q.root == root {
      LeafMapped(s, q);
    }
  }

  lemma GrownThenPrunedRoles(s: State, t: State, u: State, root: nat, lo: nat, hi: nat)
    requires RolesOk(s) && UpOk(s, {}) && Grown(s, t, root, lo, hi, {}, true) && PrunedPages(t, u, root, lo, hi, true)
    requires forall v :: lo <= v < hi ==> !PteAt(s, root, v).v
    ensures forall q {:trigger q in u.at} :: q in s.at ==> q in u.at && u.at[q] == s.at[q]
    ensures forall q {:trigger q in u.at} :: q in u.at ==> q in s.at || ((q.Mid? || q.Low?) && q.root == root)
    ensures KeepsPages(s, u, root)
  {
    forall q | q in s.at ensures q in u.at && u.at[q] == s.at[q] && !LeafIn(q, root, lo, hi) {
      NoLeafInGap(s, root, lo, hi, q);
      assert q in t.at;
    }
    forall q | q in u.at ensures q in t.at && !LeafIn(q, root, lo, hi) {
    }
    GrownThenPrunedPages(s, t, u, root, lo, hi);
  }

  lemma GrownThenPrunedPages(s: State, t: State, u: State, root: nat, lo: nat, hi: nat)
    requires RolesOk(s) && GrownPages(s, t, root, lo, hi, {}) && PrunedPages(t, u, root, lo, hi, true)
    requires forall q :: q in s.at ==> !LeafIn(q, root, lo, hi)
    ensures KeepsPages(s, u, root)
  {
    forall p | p in s.role
      ensures p in t.role && p in u.role && (Placed(s.role[p]) ==> !LeafIn(s.role[p], root, lo, hi))
    {
      if Placed(s.role[p]) {
        assert s.role[p] in s.at;
      }
    }
  }

  /** What `uvmunmap` reads when it looks up a mapped page. */
  lemma UnmapReads(s: State, root: nat, vpn: nat)
    requires Inv(s) && PteAt(s, root, vpn).v
    ensures PathRole(root, vpn, 0) in s.at
    ensures var t := s.at[PathRole(root, vpn, 0)];
            && t in s.mem && s.mem[t].Table? && |s.mem[t].ptes| == TABLE
            && s.mem[t].ptes[Px0(vpn)] == PteAt(s, root, vpn)
            && (Owned(s, root, vpn) ==> PteAt(s, root, vpn).page in s.role && PteAt(s, root, vpn).page != t)
            && t in s.role && t != 0
  {
    MappedEntry(s, root, vpn);
    ReadsEntry(s, PathRole(root, vpn, 0), Px0(vpn));
  }

  /** The unmapped state, written out as the stores that produce it. */
  lemma UnmapStores(s: State, root: nat, vpn: nat, freed: bool, t: nat, page: nat)
    requires PathRole(root, vpn, 0) in s.at && t == s.at[PathRole(root, vpn, 0)] && page == PteAt(s, root, vpn).page
    requires t in s.mem && s.mem[t].Table? && |s.mem[t].ptes| == TABLE
    requires Owned(s, root, vpn) ==> s.at[LeafAt(root, vpn)] == page != t
    requires freed ==> Owned(s, root, vpn)
    ensures var role := if Owned(s, root, vpn) then s.role[page := if freed then Free else Held] else s.role;
            var mem := if freed then s.mem[page := Junk] else s.mem;
            UnmappedAt(s, root, vpn, freed) ==
            State(mem[t := Table(s.mem[t].ptes[Px0(vpn) := EMPTY])], if freed then [page] + s.free else s.free,
                  role, s.at - {LeafAt(root, vpn)})
  {
    assert !Owned(s, root, vpn) ==> s.at - {LeafAt(root, vpn)} == s.at;
  }

  /** While [lo, a) of the range is being unmapped the rest of it stays as it was. */
  lemma StillMapped(s: State, t: State, root: nat, lo: nat, a: nat, hi: nat, freed: bool)
    requires Pruned(s, t, root, lo, a, freed) && Top(root) in s.at && lo <= a < hi
    requires AllMapped(s, root, lo, hi, freed)
    ensures PteAt(t, root, a).v && (freed ==> Owned(t, root, a)) && Top(root) in t.at
  {
    assert PteAt(t, root, a) == PteAt(s, root, a);
    assert freed ==> Owned(s, root, a);
    VpnOfIndices(a);
  }

  // ----- Filling new mappings -----

  /** [lo, hi) of `root` is mapped with permissions `perm` to pages of its own, each holding `f`. */
  ghost predicate AllHold(s: State, root: nat, lo: nat, hi: nat, perm: Pte, f: Frame) {
    forall v {:trigger PteAt(s, root, v)} :: lo <= v < hi ==> Holds(s, root, v, perm, f)
  }

  ghost predicate Holds(s: State, root: nat, vpn: nat, perm: Pte, f: Frame) {
    var e := PteAt(s, root, vpn);
    Owned(s, root, vpn) && e == perm.(page := e.page, v := true) && e.page in s.mem && s.mem[e.page] == f
  }

  /** Mapping another page leaves what a mapped user page holds. */
  lemma HoldsKept(s: State, t: State, root: nat, vpn: nat, r: nat, v: nat, perm: Pte, f: Frame)
    requires Inv(s) && GrownOne(s, t, root, vpn, {}, true) && Holds(s, r, v, perm, f) && !(r == root && v == vpn)
    ensures Holds(t, r, v, perm, f)
  {
    MappedEntry(s, r, v);
    var p := PteAt(s, r, v).page;
    assert PteAt(t, r, v) == PteAt(s, r, v);
    assert s.role[s.at[LeafAt(r, v)]] == LeafAt(r, v);
    assert t.role[p] == s.role[p];
  }

  lemma AllHoldNext(s: State, t: State, root: nat, lo: nat, a: nat, a': nat, perm: Pte, f: Frame)
    requires Inv(s) && GrownOne(s, t, root, a, {}, true) && AllHold(s, root, lo, a, perm, f)
    requires Holds(t, root, a, perm, f) && a' == a + 1
    ensures AllHold(t, root, lo, a', perm, f)
  {
    forall v | lo <= v < a' ensures Holds(t, root, v, perm, f) {
      if v < a {
        assert Holds(s, root, v, perm, f) by { assert PteAt(s, root, v) == PteAt(s, root, v); }
        HoldsKept(s, t, root, a, root, v, perm, f);
      }
    }
  }

  /** What is still to be done when [lo, a) of [lo, hi) has been mapped. */
  lemma StillUnmapped(s: State, t: State, root: nat, lo: nat, a: nat, hi: nat)
    requires Grown(s, t, root, lo, a, {}, true) && Top(root) in s.at && lo <= a < hi
    requires forall v :: lo <= v < hi ==> !PteAt(s, root, v).v
    ensures !PteAt(t, root, a).v && Top(root) in t.at
  {
    assert PteAt(t, root, a) == PteAt(s, root, a);
  }

  /** Growing a range and then adding tables is still growing the range. */
  lemma GrownThenTables(s: State, t: State, u: State, root: nat, lo: nat, hi: nat, given: set<nat>, own: bool)
    requires Grown(s, t, root, lo, hi, given, own) && TablesOnly(t, u, root)
    ensures Grown(s, u, root, lo, hi, given, own)
  {
    FlatSame(t, u);
    forall r, v | 0 <= r && 0 <= v && !(r == root && lo <= v < hi) ensures PteAt(u, r, v) == PteAt(s, r, v) {
      assert PteAt(t, r, v) == PteAt(s, r, v);
    }
    forall v | lo <= v < hi ensures PteAt(u, root, v).v {
      assert PteAt(t, root, v).v;
    }
    forall q | q in s.at ensures q in u.at && u.at[q] == s.at[q] {
      assert q in t.at;
    }
    if own {
      forall v | lo <= v < hi ensures Owned(u, root, v) {
        assert Owned(t, root, v);
      }
    }
    GrownThenTablesPages(s, t, u, root, lo, hi, given);
  }

  lemma GrownThenTablesPages(s: State, t: State, u: State, root: nat, lo: nat, hi: nat, given: set<nat>)
    requires GrownPages(s, t, root, lo, hi, given) && KeepsPages(t, u, root)
    ensures GrownPages(s, u, root, lo, hi, given)
  {
    forall p | p in s.role ensures p in t.role && p in u.role {
    }
  }

  // ----- Mapping consecutive physical pages -----

  ghost predicate InHand(s: State, p: nat) {
    p in s.role && s.role[p] == Held
  }

  /** Page `p` backs an address of [lo, hi) when `lo` is mapped to `page`. */
  predicate Backs(page: nat, lo: nat, hi: nat, p: nat) {
    page <= p && lo + (p - page) < hi
  }

  /** The pages that `mappages` hands over to the mappings in [lo, hi), if these are to own them. */
  ghost function Handed(page: nat, lo: nat, hi: nat, own: bool): set<nat> {
    if own then set p | page <= p < page + hi && Backs(page, lo, hi, p) else {}
  }

  ghost predicate MapsTo(s: State, root: nat, lo: nat, hi: nat, page: nat, perm: Pte) {
    forall v {:trigger PteAt(s, root, v)} :: lo <= v < hi ==>
      PteAt(s, root, v) == perm.(page := page + (v - lo), v := true)
  }

  /** `mappages` may map [lo, last] to consecutive pages; those that the mappings are to own are the caller's. */
  ghost predicate Ready(s: State, root: nat, lo: nat, last: nat, page: nat, own: bool) {
    && Top(root) in s.at
    && (forall v {:trigger PteAt(s, root, v)} :: lo <= v <= last ==> !PteAt(s, root, v).v)
    && (own ==> forall p {:trigger Backs(page, lo, last + 1, p)} :: 0 <= p && Backs(page, lo, last + 1, p) ==>
         InHand(s, p))
  }

  lemma NextInHand(s: State, t: State, root: nat, lo: nat, a: nat, last: nat, page: nat, p: nat, own: bool)
    requires Grown(s, t, root, lo, a, Handed(page, lo, a, own), own) && Ready(s, root, lo, last, page, own)
    requires lo <= a <= last && p == page + (a - lo)
    ensures !PteAt(t, root, a).v && Top(root) in t.at && (own ==> InHand(t, p))
  {
    assert PteAt(t, root, a) == PteAt(s, root, a);
    if own {
      assert Backs(page, lo, last + 1, p);
      assert InHand(s, p) && p !in Handed(page, lo, a, own);
      assert t.role[p] == s.role[p];
    }
  }

  lemma HandedNext(s: State, t: State, u: State, root: nat, lo: nat, a: nat, a': nat, page: nat, p: nat, perm: Pte,
                   own: bool)
    requires Grown(s, t, root, lo, a, Handed(page, lo, a, own), own) && MapsTo(t, root, lo, a, page, perm)
    requires lo <= a && a' == a + 1 && p == page + (a - lo)
    requires GrownOne(t, u, root, a, if own then {p} else {}, own)
    requires PteAt(u, root, a) == perm.(page := p, v := true)
    ensures Grown(s, u, root, lo, a', Handed(page, lo, a', own), own) && MapsTo(u, root, lo, a', page, perm)
  {
    var g2 := if own then {p} else {};
    assert Handed(page, lo, a', own) == Handed(page, lo, a, own) + g2;
    GrownNext(s, t, u, root, lo, a, a', Handed(page, lo, a, own), g2, Handed(page, lo, a', own), own);
    forall v | lo <= v < a' ensures PteAt(u, root, v) == perm.(page := page + (v - lo), v := true) {
      assert v < a ==> PteAt(u, root, v) == PteAt(t, root, v);
    }
  }

  lemma HandedTables(s: State, t: State, u: State, root: nat, lo: nat, a: nat, page: nat, perm: Pte, own: bool)
    requires Grown(s, t, root, lo, a, Handed(page, lo, a, own), own) && MapsTo(t, root, lo, a, page, perm)
    requires TablesOnly(t, u, root)
    ensures Grown(s, u, root, lo, a, Handed(page, lo, a, own), own) && MapsTo(u, root, lo, a, page, perm)
  {
    GrownThenTables(s, t, u, root, lo, a, Handed(page, lo, a, own), own);
    FlatSame(t, u);
  }

  // ----- Copying an address space -----

  /** [0, hi) of `child` maps its own copies of the pages that `parent` maps there, with equal
      flags. */
  ghost predicate Copied(s: State, parent: nat, child: nat, hi: nat) {
    forall v {:trigger PteAt(s, child, v)} :: 0 <= v < hi ==> CopiedAt(s, parent, child, v)
  }

  ghost predicate CopiedAt(s: State, parent: nat, child: nat, v: nat) {
    var e, e' := PteAt(s, parent, v), PteAt(s, child, v);
    && Owned(s, parent, v) && Owned(s, child, v)
    && e.v && e.page in s.mem && e'.page in s.mem && e'.page != e.page
    && e' == e.(page := e'.page) && s.mem[e'.page] == s.mem[e.page]
  }

  /** The page that a mapping owns has the role that says so. */
  lemma MappedPage(s: State, root: nat, vpn: nat)
    requires Inv(s) && Owned(s, root, vpn)
    ensures var e := PteAt(s, root, vpn);
            e.v && e.page in s.mem && e.page in s.role && s.role[e.page] == LeafAt(root, vpn) && Leafy(e)
  {
    assert Parent(LeafAt(root, vpn)) == PathRole(root, vpn, 0) && Index(LeafAt(root, vpn)) == Px0(vpn);
    assert PteAt(s, root, vpn).v;
    MappedEntry(s, root, vpn);
    assert s.role[s.at[LeafAt(root, vpn)]] == LeafAt(root, vpn);
  }

  lemma CopiedKept(s: State, t: State, parent: nat, child: nat, a: nat, v: nat)
    requires Inv(s) && GrownOne(s, t, child, a, {}, true) && CopiedAt(s, parent, child, v) && parent != child
    requires v != a
    ensures CopiedAt(t, parent, child, v)
  {
    var e, e' := PteAt(s, parent, v), PteAt(s, child, v);
    HoldsKept(s, t, child, a, child, v, e', s.mem[e'.page]);
    HoldsKept(s, t, child, a, parent, v, e, s.mem[e.page]);
  }

  lemma CopiedNow(s: State, t: State, parent: nat, child: nat, a: nat)
    requires Inv(s) && Inv(t) && GrownOne(s, t, child, a, {}, true) && parent != child && Owned(s, parent, a)
    requires PteAt(s, parent, a).v && PteAt(s, parent, a).page in s.mem
    requires Holds(t, child, a, PteAt(s, parent, a), s.mem[PteAt(s, parent, a).page])
    ensures CopiedAt(t, parent, child, a)
  {
    var e := PteAt(s, parent, a);
    assert Holds(s, parent, a, e, s.mem[e.page]);
    HoldsKept(s, t, child, a, parent, a, e, s.mem[e.page]);
    MappedPage(t, parent, a);
    MappedPage(t, child, a);
  }

  lemma CopiedNext(s: State, t: State, parent: nat, child: nat, a: nat, a': nat)
    requires Inv(s) && Inv(t) && GrownOne(s, t, child, a, {}, true) && parent != child && a' == a + 1
    requires Copied(s, parent, child, a) && Owned(s, parent, a) && PteAt(s, parent, a).v &&
             PteAt(s, parent, a).page in s.mem
    requires Holds(t, child, a, PteAt(s, parent, a), s.mem[PteAt(s, parent, a).page])
    ensures Copied(t, parent, child, a')
  {
    CopiedNow(s, t, parent, child, a);
    forall v | 0 <= v < a' ensures CopiedAt(t, parent, child, v) {
      if v < a {
        assert PteAt(s, child, v) == PteAt(s, child, v);
        CopiedKept(s, t, parent, child, a, v);
      }
    }
  }

  /** The parent is still fully mapped while the child grows. */
  lemma ParentMapped(s: State, t: State, parent: nat, child: nat, lo: nat, a: nat, v: nat)
    requires Grown(s, t, child, lo, a, {}, true) && parent != child && PteAt(s, parent, v).v && Owned(s, parent, v)
    ensures PteAt(t, parent, v).v && Owned(t, parent, v)
  {
    assert PteAt(t, parent, v) == PteAt(s, parent, v);
  }

  // ----- uvmfree -----

  /** After the user range is unmapped nothing is mapped any more. */
  lemma AllUnmapped(s: State, t: State, root: nat, hi: nat)
    requires Pruned(s, t, root, 0, hi, true) && Top(root) in s.at
    requires forall v :: hi <= v ==> !PteAt(s, root, v).v
    ensures (forall v :: 0 <= v ==> !PteAt(t, root, v).v) && Top(root) in t.at
  {
    forall v | 0 <= v ensures !PteAt(t, root, v).v {
      assert v >= hi ==> PteAt(t, root, v) == PteAt(s, root, v);
    }
  }

  lemma LeafOfRootPruned(s: State, root: nat, hi: nat, q: Role)
    requires Inv(s) && q in s.at && q.Leaf? && q.root == root
    requires forall v :: hi <= v ==> !PteAt(s, root, v).v
    ensures LeafIn(q, root, 0, hi)
  {
    LeafMapped(s, q);
  }

  lemma PruneThenTear(s: State, t: State, u: State, root: nat, hi: nat)
    requires Inv(s) && Inv(t) && Pruned(s, t, root, 0, hi, true) && FreedTree(t, u, Top(root))
    requires forall v :: hi <= v ==> !PteAt(s, root, v).v
    requires forall v :: 0 <= v ==> !PteAt(t, root, v).v
    ensures RootGone(s, u, root)
    ensures forall r, v {:trigger PteAt(u, r, v)} :: 0 <= r && 0 <= v && r != root ==> PteAt(u, r, v) == PteAt(s, r, v)
  {
    forall r, v | 0 <= r && 0 <= v && r != root ensures PteAt(u, r, v) == PteAt(s, r, v) {
      TearKeepsOthers(t, u, root, r, v);
    }
    forall q ensures q in u.at <==> q in s.at && !OfRoot(q, root) {
      assert q in t.at <==> q in s.at && !LeafIn(q, root, 0, hi);
      if q in t.at && OfRoot(q, root) {
        TreeIsRoot(t, root, q);
      }
    }
    forall p | p in s.role ensures p in t.role && u.role[p] == (if OfRoot(s.role[p], root) then Free else s.role[p]) {
      PageOfRoot(s, t, root, hi, p);
    }
  }

  /** Tearing down one tree leaves the translations of the others. */
  lemma TearKeepsOthers(t: State, u: State, root: nat, r: nat, v: nat)
    requires RolesOk(t) && FreedTree(t, u, Top(root)) && r != root
    ensures PteAt(u, r, v) == PteAt(t, r, v)
  {
    var o := PathRole(r, v, 0);
    assert o in u.at <==> o in t.at;
    if o in t.at {
      assert u.at[o] == t.at[o] && t.role[t.at[o]] == o;
      assert u.role[t.at[o]] == o;
    }
  }

  lemma PageOfRoot(s: State, t: State, root: nat, hi: nat, p: nat)
    requires Inv(s) && Inv(t) && Pruned(s, t, root, 0, hi, true) && p in s.role
    requires forall v :: hi <= v ==> !PteAt(s, root, v).v
    requires forall v :: 0 <= v ==> !PteAt(t, root, v).v
    ensures OfRoot(s.role[p], root) <==> LeafIn(s.role[p], root, 0, hi) || InSubtree(s.role[p], Top(root))
    ensures p in t.role
  {
    var q := s.role[p];
    if OfRoot(q, root) {
      assert q in s.at;
      if q.Leaf? {
        LeafOfRootPruned(s, root, hi, q);
      } else {
        assert q in t.at;
        TreeIsRoot(t, root, q);
      }
    }
  }

  lemma CreateRoot(s: State)
    requires Inv(s) && s.free != []
    ensures var p, u := s.free[0], RootAdded(Taken(s), s.free[0]);
            && Inv(u) && Top(p) !in s.at
            && (forall r, v :: 0 <= r && 0 <= v ==> PteAt(u, r, v) == PteAt(s, r, v))
            && (forall v :: 0 <= v ==> PteAt(u, p, v) == EMPTY)
  {
    var p, t := s.free[0], Taken(s);
    TakenKeepsInv(s, {});
    RootAddedKeepsInv(t, p);
    var u := RootAdded(t, p);
    forall r, v | 0 <= r && 0 <= v ensures PteAt(u, r, v) == PteAt(s, r, v) {
      FlatSame(s, t);
      FlatSame(t, u);
      assert PteAt(t, r, v) == PteAt(s, r, v);
    }
    forall v | 0 <= v ensures PteAt(u, p, v) == EMPTY {
      NoTables(s, p, v);
    }
  }

  lemma NoTables(s: State, root: nat, vpn: nat)
    requires Inv(s) && Top(root) !in s.at
    ensures PteAt(s, root, vpn) == EMPTY
  {
    if PathRole(root, vpn, 0) in s.at {
      assert false;
    }
  }

  // ----- What the invariant means for the pages -----

  /** Some mapping owns page `p`. */
  ghost predicate Mapped(s: State, p: nat) {
    exists r, v {:trigger PteAt(s, r, v)} :: 0 <= r && 0 <= v && Owned(s, r, v) && PteAt(s, r, v).v &&
      PteAt(s, r, v).page == p
  }

  /** Page `p` is the root of a page table, or an entry of a table above names it. */
  ghost predicate InTree(s: State, p: nat) {
    || (exists r {:trigger Top(r)} :: Top(r) in s.at && r == p)
    || (exists o: Role, i: nat {:trigger Entry(s, o, i)} :: (o.Top? || o.Mid?) && o in s.at && 0 <= i < TABLE &&
         Entry(s, o, i).v && Entry(s, o, i).page == p)
  }

  /** Page conservation: each page of the allocator is in exactly one place - the free list (once),
      a page table, a mapping that owns it, or the hands of the kernel. */
  lemma EachPageOnce(s: State, p: nat)
    requires Inv(s) && p in s.role
    ensures p in s.free <==> s.role[p].Free?
    ensures InTree(s, p) <==> IsTable(s.role[p])
    ensures Mapped(s, p) <==> s.role[p].Leaf?
    ensures |(if p in s.free then {1} else {}) + (if InTree(s, p) then {2} else {}) + (if Mapped(s, p) then {3} else {})
             + (if s.role[p].Held? then {4} else {})| == 1
    ensures forall i, j :: 0 <= i < j < |s.free| ==> s.free[i] != s.free[j]
  {
    var q := s.role[p];
    if q.Leaf? {
      assert q in s.at;
      var v := Vpn(q.i, q.j, q.k);
      LeafMapped(s, q);
      assert Parent(q) in s.at && Index(q) < TABLE && Index(Parent(q)) < TABLE;
      IndicesUnique(v, q.i, q.j, q.k);
      assert LeafAt(q.root, v) == q;
      MappedPage(s, q.root, v);
      assert s.at[q] == PteAt(s, q.root, v).page;
    }
    TreePages(s, p);
    if Mapped(s, p) {
      var r, v :| 0 <= r && 0 <= v && Owned(s, r, v) && PteAt(s, r, v).v && PteAt(s, r, v).page == p;
      MappedPage(s, r, v);
    }
  }

  lemma TreePages(s: State, p: nat)
    requires Inv(s) && p in s.role
    ensures InTree(s, p) <==> IsTable(s.role[p])
  {
    var q := s.role[p];
    if q.Top? {
      assert q in s.at && s.at[q] == q.root;
    } else if q.Mid? || q.Low? {
      assert q in s.at && Parent(q) in s.at;
      assert DownAt(s, Parent(q), Index(q));
      assert Entry(s, Parent(q), Index(q)).page == p;
    }
    if r :| Top(r) in s.at && r == p {
      assert s.at[Top(r)] == p && s.role[p] == Top(r);
    } else if o: Role, i: nat :|
      (o.Top? || o.Mid?) && o in s.at && 0 <= i < TABLE && Entry(s, o, i).v && Entry(s, o, i).page == p {
      assert DownAt(s, o, i);
      assert s.role[s.at[Child(o, i)]] == Child(o, i);
    }
  }

  lemma NoSharedPages(s: State, r: nat, v: nat, r': nat, v': nat)
    requires Inv(s) && Owned(s, r, v) && Owned(s, r', v')
    requires PteAt(s, r, v).page == PteAt(s, r', v').page
    ensures r == r' && v == v'
  {
    MappedPage(s, r, v);
    MappedPage(s, r', v');
    IndicesUnique(v, Px2(v), Px1(v), Px0(v));
    IndicesUnique(v', Px2(v), Px1(v), Px0(v));
  }
}

/** Sv39 page tables in physical memory: the invariant that ties the three-level trees, the pages
    they use and the free list together, and the elementary changes that keep it. */
module Sv39 {

  // ----- Page table entries -----

  /** A page table entry: the physical page number, the flags the kernel uses, and the other five
      flag bits. */
  datatype Pte = Pte(page: nat, v: bool, r: bool, w: bool, x: bool, u: bool, rest: nat)

  const EMPTY := Pte(0, false, false, false, false, false, 0)

  /** The entry that names a lower-level table: `PA2PTE(pa) | PTE_V`. */
  function TablePte(page: nat): Pte {
    Pte(page, true, false, false, false, false, 0)
  }

  /** Some of R, W, X set: the entry maps a page rather than naming a lower table. */
  predicate Leafy(e: Pte) {
    e.r || e.w || e.x
  }

  function Bit(b: bool): nat {
    if b then 1 else 0
  }

  /** `n << 1 | b`. */
  function Shift(n: nat, b: bool): nat {
    2 * n + Bit(b)
  }

  /** The 64-bit word: `((pa >> 12) << 10) | flags`. */
  function Encode(e: Pte): nat {
    Shift(Shift(Shift(Shift(Shift(e.page * 32 + e.rest, e.u), e.x), e.w), e.r), e.v)
  }

  /** `PTE2PA` and the flag tests, on the 64-bit word. */
  function Decode(w0: nat): Pte {
    var w1 := w0 / 2;
    var w2 := w1 / 2;
    var w3 := w2 / 2;
    var w4 := w3 / 2;
    var w5 := w4 / 2;
    Pte(w5 / 32, w0 % 2 == 1, w1 % 2 == 1, w2 % 2 == 1, w3 % 2 == 1, w4 % 2 == 1, w5 % 32)
  }

  lemma ShiftParts(n: nat, b: bool)
    ensures Shift(n, b) / 2 == n && (Shift(n, b) % 2 == 1) == b
  {
  }

  /** The flags come off one by one, and leave the page number. */
  lemma Unshift(w5: nat, u: bool, x: bool, w: bool, r: bool, v: bool)
    ensures Decode(Shift(Shift(Shift(Shift(Shift(w5, u), x), w), r), v)) == Pte(w5 / 32, v, r, w, x, u, w5 % 32)
  {
    ShiftParts(w5, u);
    var w4 := Shift(w5, u);
    ShiftParts(w4, x);
    var w3 := Shift(w4, x);
    ShiftParts(w3, w);
    var w2 := Shift(w3, w);
    ShiftParts(w2, r);
    ShiftParts(Shift(w2, r), v);
  }

  lemma PteRoundTrip(e: Pte)
    requires e.rest < 32
    ensures Decode(Encode(e)) == e
  {
    var w5 := e.page * 32 + e.rest;
    PageParts(w5, e.page, e.rest);
    Unshift(w5, e.u, e.x, e.w, e.r, e.v);
  }

  lemma PageParts(w: nat, page: nat, rest: nat)
    requires w == page * 32 + rest && rest < 32
    ensures w / 32 == page && w % 32 == rest
  {
  }

  // ----- Virtual pages -----

  const PGSIZE := 4096
  const TABLE := 512
  /** One past the highest virtual page: MAXVA / PGSIZE. */
  const MAXVPN := 0x400_0000

  /** The virtual page with table indices `i`, `j`, `k` at levels 2, 1, 0. */
  function Vpn(i: nat, j: nat, k: nat): nat {
    (i * TABLE + j) * TABLE + k
  }

  /** `PX(2, va)`, `PX(1, va)` and `PX(0, va)`, in terms of the page number. */
  function Px2(vpn: nat): nat {
    vpn / TABLE / TABLE
  }

  function Px1(vpn: nat): nat {
    vpn / TABLE % TABLE
  }

  function Px0(vpn: nat): nat {
    vpn % TABLE
  }

  /** Distinct virtual pages use distinct entries. */
  lemma IndicesUnique(vpn: nat, i: nat, j: nat, k: nat)
    requires j < TABLE && k < TABLE
    ensures vpn == Vpn(i, j, k) <==> i == Px2(vpn) && j == Px1(vpn) && k == Px0(vpn)
  {
    assert vpn == vpn / TABLE * TABLE + vpn % TABLE;
    assert vpn / TABLE == vpn / TABLE / TABLE * TABLE + vpn / TABLE % TABLE;
  }

  // ----- Physical memory -----

  /** A page of memory as the kernel last treated it: fresh from the allocator, as 512 page table
      entries, or as bytes. */
  datatype Frame = Junk | Table(ptes: seq<Pte>) | Data(bytes: seq<nat>)

  /** What a physical page is used for: free, in the hands of kernel code, one of the tables of the
      tree under `root`, or owned by the mapping of a virtual page there. */
  datatype Role =
    | Free
    | Held
    | Top(root: nat)
    | Mid(root: nat, i: nat)
    | Low(root: nat, i: nat, j: nat)
    | Leaf(root: nat, i: nat, j: nat, k: nat)

  predicate IsTable(o: Role) {
    o.Top? || o.Mid? || o.Low?
  }

  predicate Placed(o: Role) {
    IsTable(o) || o.Leaf?
  }

  /** What hangs in entry `idx` of table `o`. */
  function Child(o: Role, idx: nat): Role
    requires IsTable(o)
  {
    match o
    case Top(r) => Mid(r, idx)
    case Mid(r, i) => Low(r, i, idx)
    case Low(r, i, j) => Leaf(r, i, j, idx)
  }

  predicate Hangs(o: Role) {
    o.Mid? || o.Low? || o.Leaf?
  }

  function Parent(o: Role): Role
    requires Hangs(o)
  {
    match o
    case Mid(r, i) => Top(r)
    case Low(r, i, j) => Mid(r, i)
    case Leaf(r, i, j, k) => Low(r, i, j)
  }

  function Index(o: Role): nat
    requires Hangs(o)
  {
    match o
    case Mid(r, i) => i
    case Low(r, i, j) => j
    case Leaf(r, i, j, k) => k
  }

  /** Memory, the free list, and for each page its role, for each placed role its page. */
  datatype State = State(mem: map<nat, Frame>, free: seq<nat>, role: map<nat, Role>, at: map<Role, nat>)

  /** The entries of the table in role `o`; empty when there is no such table. */
  function Ptes(s: State, o: Role): seq<Pte> {
    if o in s.at && s.at[o] in s.mem && s.mem[s.at[o]].Table? then s.mem[s.at[o]].ptes else []
  }

  function Entry(s: State, o: Role, idx: nat): Pte {
    if idx < |Ptes(s, o)| then Ptes(s, o)[idx] else EMPTY
  }

  /** The entry that translates virtual page `vpn` under `root`; empty when no table reaches it. */
  function PteAt(s: State, root: nat, vpn: nat): Pte {
    Entry(s, Low(root, Px2(vpn), Px1(vpn)), Px0(vpn))
  }

  // ----- The invariant -----

  /** `role` and `at` describe one assignment of pages to roles. */
  ghost predicate RolesOk(s: State) {
    && 0 !in s.role
    && (forall p {:trigger s.role[p]} :: p in s.role ==>
          p in s.mem && (Placed(s.role[p]) ==> s.role[p] in s.at && s.at[s.role[p]] == p))
    && (forall o {:trigger s.at[o]} :: o in s.at ==>
          Placed(o) && s.at[o] in s.role && s.role[s.at[o]] == o)
  }

  ghost predicate TablesOk(s: State) {
    forall o {:trigger o in s.at} :: o in s.at && IsTable(o) ==>
      |Ptes(s, o)| == TABLE && (o.Top? ==> s.at[o] == o.root)
  }

  /** A valid entry of an upper table names the table in its child role and carries no other flag; a
      valid entry of a bottom table maps a page. If the mapping owns a page, as those of process memory
      do, it is that one; the kernel's direct map, trapframe and trampoline own none. */
  ghost predicate DownAt(s: State, o: Role, idx: nat) {
    match o
    case Top(r) => Mid(r, idx) in s.at && Entry(s, o, idx) == TablePte(s.at[Mid(r, idx)])
    case Mid(r, i) => Low(r, i, idx) in s.at && Entry(s, o, idx) == TablePte(s.at[Low(r, i, idx)])
    case Low(r, i, j) =>
      && Entry(s, o, idx).v && Leafy(Entry(s, o, idx))
      && (Leaf(r, i, j, idx) in s.at ==> Entry(s, o, idx).page == s.at[Leaf(r, i, j, idx)])
    case _ => false
  }

  /** Every other entry is zero. */
  ghost predicate DownOk(s: State) {
    forall o, idx {:trigger Entry(s, o, idx)} ::
      o in s.at && IsTable(o) && 0 <= idx < TABLE ==> DownAt(s, o, idx) || Entry(s, o, idx) == EMPTY
  }

  /** Everything below a root, tables and user pages, hangs in its parent, except the `orphans`. */
  ghost predicate UpOk(s: State, orphans: set<Role>) {
    forall o {:trigger o in s.at} :: o in s.at && Hangs(o) && o !in orphans ==>
      Parent(o) in s.at && Index(o) < TABLE && Entry(s, Parent(o), Index(o)).v
  }

  /** The free list holds each free page once. */
  ghost predicate FreeOk(s: State) {
    && (forall p {:trigger p in s.free} :: p in s.free <==> p in s.role && s.role[p] == Free)
    && (forall i, j :: 0 <= i < j < |s.free| ==> s.free[i] != s.free[j])
  }

  ghost predicate InvBut(s: State, orphans: set<Role>) {
    RolesOk(s) && TablesOk(s) && DownOk(s) && UpOk(s, orphans) && FreeOk(s)
  }

  ghost predicate Inv(s: State) {
    InvBut(s, {})
  }

  // ----- The flat map -----

  /** No translation under any root differs. */
  ghost predicate SameMap(s: State, s': State) {
    forall o: Role, k: nat {:trigger Entry(s', o, k)} :: o.Low? ==> Entry(s', o, k) == Entry(s, o, k)
  }

  /** The walk through memory that the hardware and `walk` perform. */
  function WalkMem(mem: map<nat, Frame>, root: nat, vpn: nat): Pte {
    var e2 := Slot(mem, root, Px2(vpn));
    if !e2.v then EMPTY
    else
      var e1 := Slot(mem, e2.page, Px1(vpn));
      if !e1.v then EMPTY else Slot(mem, e1.page, Px0(vpn))
  }

  function Slot(mem: map<nat, Frame>, t: nat, idx: nat): Pte {
    if t in mem && mem[t].Table? && idx < |mem[t].ptes| then mem[t].ptes[idx] else EMPTY
  }

  /** Refinement: for every root and every virtual page, the three-level walk through memory reads
      the flat map. */
  lemma WalkReadsFlat(s: State, root: nat, vpn: nat)
    requires Inv(s) && Top(root) in s.at
    ensures WalkMem(s.mem, root, vpn) == PteAt(s, root, vpn)
  {
    var i, j, k := Px2(vpn), Px1(vpn), Px0(vpn);
    assert Slot(s.mem, root, i) == Entry(s, Top(root), i);
    if Entry(s, Top(root), i).v {
      assert Slot(s.mem, s.at[Mid(root, i)], j) == Entry(s, Mid(root, i), j);
      if Entry(s, Mid(root, i), j).v {
        assert Slot(s.mem, s.at[Low(root, i, j)], k) == Entry(s, Low(root, i, j), k);
      } else {
        assert Low(root, i, j) !in s.at;
      }
    } else {
      assert Mid(root, i) !in s.at;
      assert Low(root, i, j) !in s.at;
    }
  }

  // ----- Taking and giving back pages -----

  function Blank(): (t: seq<Pte>)
    ensures |t| == TABLE
    ensures forall i :: 0 <= i < TABLE ==> t[i] == EMPTY
  {
    seq(TABLE, _ => EMPTY)
  }

  /** `kalloc` took the first free page. */
  function Taken(s: State): State
    requires s.free != []
  {
    State(s.mem[s.free[0] := Junk], s.free[1..], s.role[s.free[0] := Held], s.at)
  }

  /** `kfree` put a held page back. */
  function Given(s: State, p: nat): State {
    State(s.mem[p := Junk], [p] + s.free, s.role[p := Free], s.at)
  }

  /** Only the use of pages outside the trees changed. */
  ghost predicate SameTrees(s: State, s': State) {
    s'.at == s.at && forall o {:trigger Ptes(s', o)} :: o in s.at && IsTable(o) ==> Ptes(s', o) == Ptes(s, o)
  }

  lemma TreesKept(s: State, s': State, orphans: set<Role>)
    requires TablesOk(s) && DownOk(s) && UpOk(s, orphans) && SameTrees(s, s')
    ensures TablesOk(s') && DownOk(s') && UpOk(s', orphans) && SameMap(s, s')
  {
    forall o: Role, idx: nat | IsTable(o) ensures Entry(s', o, idx) == Entry(s, o, idx) {
      if o in s.at {
        assert Ptes(s', o) == Ptes(s, o);
      }
    }
    forall o | o in s'.at && IsTable(o) ensures |Ptes(s', o)| == |Ptes(s, o)| {
    }
    forall o, i | o in s'.at && IsTable(o) && 0 <= i < TABLE && Entry(s', o, i).v ensures DownAt(s', o, i) {
      assert DownAt(s, o, i);
    }
  }

  lemma TakenKeepsInv(s: State, orphans: set<Role>)
    requires InvBut(s, orphans) && s.free != []
    ensures InvBut(Taken(s), orphans) && SameMap(s, Taken(s))
    ensures s.free[0] in s.role && s.role[s.free[0]] == Free
  {
    var s', p := Taken(s), s.free[0];
    assert p in s.free;
    forall q | q in s.free ensures q == p || q in s'.free {
      var i :| 0 <= i < |s.free| && s.free[i] == q;
      assert i > 0 ==> s'.free[i - 1] == q;
    }
    forall q | q in s'.free ensures q in s.free && q != p {
      var i :| 0 <= i < |s'.free| && s'.free[i] == q;
      assert s.free[i + 1] == q;
    }
    assert SameTrees(s, s') by {
      forall o | o in s.at ensures Ptes(s', o) == Ptes(s, o) {
        assert s.at[o] != p;
      }
    }
    TreesKept(s, s', orphans);
  }

  lemma GivenKeepsInv(s: State, p: nat, orphans: set<Role>)
    requires InvBut(s, orphans) && p in s.role && s.role[p] == Held
    ensures InvBut(Given(s, p), orphans) && SameMap(s, Given(s, p))
  {
    var s' := Given(s, p);
    assert p !in s.free;
    assert FreeOk(s') by {
      assert p in s'.free;
      forall q ensures q in s'.free <==> q == p || q in s.free {
      }
      forall i, j | 0 <= i < j < |s'.free| ensures s'.free[i] != s'.free[j] {
        assert s'.free[j] == s.free[j - 1];
      }
    }
    assert SameTrees(s, s') by {
      forall o | o in s.at ensures Ptes(s', o) == Ptes(s, o) {
        assert s.at[o] != p;
      }
    }
    TreesKept(s, s', orphans);
  }

  // ----- Giving a page a role and taking it away -----

  lemma PlaceKeepsRoles(s: State, s': State, p: nat, c: Role)
    requires RolesOk(s) && FreeOk(s) && p in s.role && s.role[p] == Held && Placed(c) && c !in s.at
    requires s'.role == s.role[p := c] && s'.at == s.at[c := p] && s'.free == s.free && s.mem.Keys <= s'.mem.Keys
    ensures RolesOk(s') && FreeOk(s')
  {
    assert p !in s.free;
  }

  lemma UnplaceKeepsRoles(s: State, s': State, c: Role)
    requires RolesOk(s) && FreeOk(s) && c in s.at
    requires s'.role == s.role[s.at[c] := Held] && s'.at == s.at - {c} && s'.free == s.free && s.mem.Keys <= s'.mem.Keys
    ensures RolesOk(s') && FreeOk(s')
  {
    assert s.at[c] !in s.free;
  }

  // ----- Growing a tree -----

  function SetSlot(mem: map<nat, Frame>, t: nat, idx: nat, e: Pte): map<nat, Frame> {
    if t in mem && mem[t].Table? && idx < |mem[t].ptes| then mem[t := Table(mem[t].ptes[idx := e])] else mem
  }

  /** The held page `p` becomes the table below entry `idx` of table `o`. */
  function NodeAdded(s: State, o: Role, idx: nat, p: nat): State
    requires IsTable(o) && o in s.at
  {
    State(SetSlot(s.mem[p := Table(Blank())], s.at[o], idx, TablePte(p)), s.free,
          s.role[p := Child(o, idx)], s.at[Child(o, idx) := p])
  }

  ghost predicate CanAdd(s: State, o: Role, idx: nat, p: nat) {
    && o in s.at && (o.Top? || o.Mid?) && idx < TABLE && !Entry(s, o, idx).v
    && p in s.role && s.role[p] == Held
  }

  lemma NodeAddedPtes(s: State, o: Role, idx: nat, p: nat, q: Role)
    requires RolesOk(s) && TablesOk(s) && CanAdd(s, o, idx, p) && Child(o, idx) !in s.at
    ensures s.at[o] != p
    ensures Ptes(NodeAdded(s, o, idx, p), q) ==
            if q == o then Ptes(s, o)[idx := TablePte(p)] else if q == Child(o, idx) then Blank() else Ptes(s, q)
  {
    assert |Ptes(s, o)| == TABLE;
    assert q in s.at && q != o ==> s.at[q] != p && s.at[q] != s.at[o];
  }

  lemma NodeAddedEntries(s: State, o: Role, idx: nat, p: nat)
    requires Inv(s) && CanAdd(s, o, idx, p)
    ensures s.at[o] != p && Child(o, idx) !in s.at
    ensures forall q, i {:trigger Entry(NodeAdded(s, o, idx, p), q, i)} :: 0 <= i ==>
              Entry(NodeAdded(s, o, idx, p), q, i) ==
              if q == o && i == idx then TablePte(p) else if q == Child(o, idx) then EMPTY else Entry(s, q, i)
  {
    assert Child(o, idx) !in s.at;
    NodeAddedPtes(s, o, idx, p, o);
    forall q, i | 0 <= i
      ensures Entry(NodeAdded(s, o, idx, p), q, i) ==
              if q == o && i == idx then TablePte(p) else if q == Child(o, idx) then EMPTY else Entry(s, q, i)
    {
      NodeAddedPtes(s, o, idx, p, q);
    }
  }

  lemma NodeAddedDown(s: State, o: Role, idx: nat, p: nat)
    requires Inv(s) && CanAdd(s, o, idx, p)
    ensures DownOk(NodeAdded(s, o, idx, p))
  {
    NodeAddedEntries(s, o, idx, p);
    var s' := NodeAdded(s, o, idx, p);
    forall q, i | q in s'.at && IsTable(q) && 0 <= i < TABLE && Entry(s', q, i).v ensures DownAt(s', q, i) {
      if q != o || i != idx {
        assert Entry(s', q, i) == Entry(s, q, i) && q in s.at;
        assert DownAt(s, q, i);
      }
    }
  }

  lemma NodeAddedUp(s: State, o: Role, idx: nat, p: nat)
    requires Inv(s) && CanAdd(s, o, idx, p)
    ensures UpOk(NodeAdded(s, o, idx, p), {})
  {
    NodeAddedEntries(s, o, idx, p);
    var s', c := NodeAdded(s, o, idx, p), Child(o, idx);
    forall q | q in s'.at && Hangs(q) && q != c
      ensures Parent(q) in s.at && Entry(s', Parent(q), Index(q)) == Entry(s, Parent(q), Index(q))
    {
    }
  }

  lemma NodeAddedTables(s: State, o: Role, idx: nat, p: nat)
    requires Inv(s) && CanAdd(s, o, idx, p)
    ensures TablesOk(NodeAdded(s, o, idx, p))
  {
    NodeAddedEntries(s, o, idx, p);
    var s' := NodeAdded(s, o, idx, p);
    forall q | q in s'.at && IsTable(q) ensures |Ptes(s', q)| == TABLE && (q.Top? ==> s'.at[q] == q.root) {
      assert q != Child(o, idx) ==> q in s.at && s.at[q] != p && |Ptes(s, q)| == TABLE;
    }
  }

  lemma NodeAddedKeepsInv(s: State, o: Role, idx: nat, p: nat)
    requires Inv(s) && CanAdd(s, o, idx, p)
    ensures Inv(NodeAdded(s, o, idx, p)) && SameMap(s, NodeAdded(s, o, idx, p))
  {
    NodeAddedEntries(s, o, idx, p);
    NodeAddedDown(s, o, idx, p);
    NodeAddedUp(s, o, idx, p);
    NodeAddedTables(s, o, idx, p);
    PlaceKeepsRoles(s, NodeAdded(s, o, idx, p), p, Child(o, idx));
  }

  // ----- Mapping and unmapping one page -----

  /** Exactly entry `k` of table `o` became `e`. */
  ghost predicate EntrySet(s: State, s': State, o: Role, k: nat, e: Pte) {
    forall q: Role, i: nat {:trigger Entry(s', q, i)} :: IsTable(q) ==>
      Entry(s', q, i) == if q == o && i == k then e else Entry(s, q, i)
  }

  /** Entry `k` of bottom table `o` becomes `e`; with `own` the page passes to the mapping. */
  function LeafAdded(s: State, o: Role, k: nat, e: Pte, own: bool): State
    requires o.Low? && o in s.at
  {
    var mem := SetSlot(s.mem, s.at[o], k, e);
    if own then State(mem, s.free, s.role[e.page := Child(o, k)], s.at[Child(o, k) := e.page])
    else s.(mem := mem)
  }

  ghost predicate CanMap(s: State, o: Role, k: nat, e: Pte, own: bool) {
    && o.Low? && o in s.at && k < TABLE && !Entry(s, o, k).v && e.v && Leafy(e)
    && (own ==> e.page in s.role && s.role[e.page] == Held)
  }

  /** A store into one slot of a table changes that entry and no other. */
  lemma SlotWritten(s: State, s': State, o: Role, k: nat, e: Pte)
    requires RolesOk(s) && TablesOk(s) && o in s.at && IsTable(o) && k < TABLE
    requires s'.mem == SetSlot(s.mem, s.at[o], k, e)
    requires forall q {:trigger q in s'.at} :: IsTable(q) ==>
               (q in s'.at <==> q in s.at) && (q in s.at ==> s'.at[q] == s.at[q])
    ensures EntrySet(s, s', o, k, e) && TablesOk(s')
  {
    assert Ptes(s', o) == Ptes(s, o)[k := e];
    forall q | IsTable(q) && q in s.at && q != o ensures Ptes(s', q) == Ptes(s, q) {
      assert s.at[q] != s.at[o];
    }
    forall q | IsTable(q) && q !in s.at ensures Ptes(s', q) == [] {
    }
  }

  lemma LeafAddedEntries(s: State, o: Role, k: nat, e: Pte, own: bool)
    requires Inv(s) && CanMap(s, o, k, e, own)
    ensures Child(o, k) !in s.at
    ensures EntrySet(s, LeafAdded(s, o, k, e, own), o, k, e) && TablesOk(LeafAdded(s, o, k, e, own))
  {
    SlotWritten(s, LeafAdded(s, o, k, e, own), o, k, e);
  }

  /** What a table's entry says still holds while its child role is as it was. */
  lemma DownAtKept(s: State, s': State, q: Role, i: nat)
    requires DownAt(s, q, i) && Entry(s', q, i) == Entry(s, q, i)
    requires IsTable(q) && (Child(q, i) in s.at <==> Child(q, i) in s'.at)
    requires Child(q, i) in s.at ==> s'.at[Child(q, i)] == s.at[Child(q, i)]
    ensures DownAt(s', q, i)
  {
  }

  lemma LeafAddedDown(s: State, o: Role, k: nat, e: Pte, own: bool)
    requires Inv(s) && CanMap(s, o, k, e, own)
    requires Child(o, k) !in s.at && EntrySet(s, LeafAdded(s, o, k, e, own), o, k, e)
    ensures DownOk(LeafAdded(s, o, k, e, own))
  {
    var s' := LeafAdded(s, o, k, e, own);
    assert DownAt(s', o, k);
    forall q, i | q in s'.at && IsTable(q) && 0 <= i < TABLE
      ensures DownAt(s', q, i) || Entry(s', q, i) == EMPTY
    {
      if q != o || i != k {
        assert Entry(s', q, i) == Entry(s, q, i) && q in s.at;
        if DownAt(s, q, i) {
          DownAtKept(s, s', q, i);
        }
      }
    }
  }

  lemma LeafAddedUp(s: State, o: Role, k: nat, e: Pte, own: bool)
    requires Inv(s) && CanMap(s, o, k, e, own)
    ensures UpOk(LeafAdded(s, o, k, e, own), {})
  {
    LeafAddedEntries(s, o, k, e, own);
    var s' := LeafAdded(s, o, k, e, own);
    forall q | q in s'.at && Hangs(q)
      ensures Parent(q) in s'.at && Entry(s', Parent(q), Index(q)).v
    {
      assert q != Child(o, k) ==> q in s.at && Entry(s, Parent(q), Index(q)).v;
    }
  }

  lemma LeafAddedKeepsInv(s: State, o: Role, k: nat, e: Pte, own: bool)
    requires Inv(s) && CanMap(s, o, k, e, own)
    ensures Inv(LeafAdded(s, o, k, e, own)) && EntrySet(s, LeafAdded(s, o, k, e, own), o, k, e)
  {
    LeafAddedEntries(s, o, k, e, own);
    LeafAddedDown(s, o, k, e, own);
    LeafAddedUp(s, o, k, e, own);
    if own {
      PlaceKeepsRoles(s, LeafAdded(s, o, k, e, own), e.page, Child(o, k));
    }
  }

  /** Entry `k` of bottom table `o` is cleared; a page that belonged to the mapping is now held. */
  function LeafRemoved(s: State, o: Role, k: nat): State
    requires o.Low? && o in s.at
  {
    var mem := SetSlot(s.mem, s.at[o], k, EMPTY);
    if Child(o, k) in s.at then State(mem, s.free, s.role[s.at[Child(o, k)] := Held], s.at - {Child(o, k)})
    else s.(mem := mem)
  }

  ghost predicate CanUnmap(s: State, o: Role, k: nat) {
    o.Low? && o in s.at && k < TABLE && Entry(s, o, k).v
  }

  lemma LeafRemovedLinks(s: State, o: Role, k: nat)
    requires Inv(s) && CanUnmap(s, o, k) && EntrySet(s, LeafRemoved(s, o, k), o, k, EMPTY)
    ensures DownOk(LeafRemoved(s, o, k)) && UpOk(LeafRemoved(s, o, k), {})
  {
    var s' := LeafRemoved(s, o, k);
    forall q, i | q in s'.at && IsTable(q) && 0 <= i < TABLE && Entry(s', q, i).v ensures DownAt(s', q, i) {
      assert q != o || i != k;
      assert DownAt(s, q, i);
    }
    forall q | q in s'.at && Hangs(q)
      ensures Parent(q) in s'.at && Index(q) < TABLE && Entry(s', Parent(q), Index(q)).v
    {
      assert q in s.at && q != Child(o, k);
    }
  }

  lemma LeafRemovedKeepsInv(s: State, o: Role, k: nat)
    requires Inv(s) && CanUnmap(s, o, k)
    ensures Inv(LeafRemoved(s, o, k)) && EntrySet(s, LeafRemoved(s, o, k), o, k, EMPTY)
  {
    SlotWritten(s, LeafRemoved(s, o, k), o, k, EMPTY);
    LeafRemovedLinks(s, o, k);
    assert DownAt(s, o, k);
    if Child(o, k) in s.at {
      UnplaceKeepsRoles(s, LeafRemoved(s, o, k), Child(o, k));
    }
  }

  /** The contents of a page that is not a table do not matter to the trees. */
  lemma FrameKeepsInv(s: State, p: nat, f: Frame)
    requires Inv(s) && p in s.role && !IsTable(s.role[p])
    ensures Inv(s.(mem := s.mem[p := f])) && SameMap(s, s.(mem := s.mem[p := f]))
  {
    var s' := s.(mem := s.mem[p := f]);
    assert SameTrees(s, s') by {
      forall o | o in s.at && IsTable(o) ensures Ptes(s', o) == Ptes(s, o) {
        assert s.at[o] != p;
      }
    }
    TreesKept(s, s', {});
  }

  /** The held page `p` becomes an empty page table. */
  function RootAdded(s: State, p: nat): State {
    State(s.mem[p := Table(Blank())], s.free, s.role[p := Top(p)], s.at[Top(p) := p])
  }

  lemma RootAddedEntries(s: State, p: nat)
    requires Inv(s) && p in s.role && s.role[p] == Held
    ensures Top(p) !in s.at && TablesOk(RootAdded(s, p))
    ensures forall q: Role, i: nat {:trigger Entry(RootAdded(s, p), q, i)} :: IsTable(q) ==>
              Entry(RootAdded(s, p), q, i) == if q == Top(p) then EMPTY else Entry(s, q, i)
  {
    var s' := RootAdded(s, p);
    if Top(p) in s.at {
      assert false;
    }
    forall q | q in s.at && IsTable(q) ensures Ptes(s', q) == Ptes(s, q) && |Ptes(s, q)| == TABLE {
      assert s.at[q] != p;
    }
    assert Ptes(s', Top(p)) == Blank();
  }

  lemma RootAddedLinks(s: State, p: nat)
    requires Inv(s) && p in s.role && s.role[p] == Held
    ensures DownOk(RootAdded(s, p)) && UpOk(RootAdded(s, p), {})
  {
    RootAddedEntries(s, p);
    var s' := RootAdded(s, p);
    forall q, i | q in s'.at && IsTable(q) && 0 <= i < TABLE && Entry(s', q, i).v ensures DownAt(s', q, i) {
      assert DownAt(s, q, i);
    }
    forall q | q in s'.at && Hangs(q)
      ensures Parent(q) in s'.at && Entry(s', Parent(q), Index(q)) == Entry(s, Parent(q), Index(q))
    {
      assert q in s.at && Parent(q) in s.at;
    }
  }

  lemma RootAddedKeepsInv(s: State, p: nat)
    requires Inv(s) && p in s.role && s.role[p] == Held
    ensures Top(p) !in s.at && Inv(RootAdded(s, p)) && SameMap(s, RootAdded(s, p))
  {
    RootAddedEntries(s, p);
    RootAddedLinks(s, p);
    PlaceKeepsRoles(s, RootAdded(s, p), p, Top(p));
  }
}

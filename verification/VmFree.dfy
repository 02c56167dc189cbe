/** Tearing a page table down: what `freewalk` may rely on while it frees tables from the bottom up
    and its callers' entries still point at freed pages. */
module VmFree {
  import opened Sv39

  /** Entries that are about to be cleared: at most one per page. They count as empty. */
  type Holes = map<nat, nat>

  function Patched(mem: map<nat, Frame>, holes: Holes): map<nat, Frame> {
    map t | t in mem :: if t in holes && mem[t].Table? && holes[t] < |mem[t].ptes|
                        then Table(mem[t].ptes[holes[t] := EMPTY]) else mem[t]
  }

  function But(s: State, holes: Holes): State {
    s.(mem := Patched(s.mem, holes))
  }

  lemma HoleIsClearedSlot(mem: map<nat, Frame>, holes: Holes, t: nat, i: nat)
    requires t !in holes && t in mem && mem[t].Table? && i < |mem[t].ptes|
    ensures Patched(mem, holes[t := i]) == SetSlot(Patched(mem, holes), t, i, EMPTY)
    ensures Patched(SetSlot(mem, t, i, EMPTY), holes) == Patched(mem, holes[t := i])
  {
  }

  lemma PatchedOutside(mem: map<nat, Frame>, holes: Holes, p: nat, f: Frame)
    requires p !in holes
    ensures Patched(mem[p := f], holes) == Patched(mem, holes)[p := f]
  {
  }

  /** With its entry cleared, a table loses its place in the tree but nothing else. */
  lemma EntryCleared(s: State, s': State, orphans: set<Role>, o: Role, i: nat)
    requires InvBut(s, orphans) && o in s.at && (o.Top? || o.Mid?) && i < TABLE && Entry(s, o, i).v
    requires s' == s.(mem := SetSlot(s.mem, s.at[o], i, EMPTY))
    ensures InvBut(s', orphans + {Child(o, i)}) && EntrySet(s, s', o, i, EMPTY)
    ensures Child(o, i) in s.at && Entry(s, o, i) == TablePte(s.at[Child(o, i)])
  {
    SlotWritten(s, s', o, i, EMPTY);
    assert DownAt(s, o, i);
    forall q, k | q in s'.at && IsTable(q) && 0 <= k < TABLE && Entry(s', q, k).v ensures DownAt(s', q, k) {
      assert DownAt(s, q, k);
    }
    forall q | q in s'.at && Hangs(q) && q !in orphans + {Child(o, i)}
      ensures Parent(q) in s'.at && Entry(s', Parent(q), Index(q)) == Entry(s, Parent(q), Index(q))
    {
    }
  }

  /** An empty table that hangs nowhere can be given up. */
  function NodeRemoved(s: State, o: Role): State
    requires o in s.at
  {
    State(s.mem, s.free, s.role[s.at[o] := Held], s.at - {o})
  }

  ghost predicate CanRemove(s: State, orphans: set<Role>, o: Role) {
    && o in s.at && IsTable(o) && (Hangs(o) ==> o in orphans && !Entry(s, Parent(o), Index(o)).v)
    && (forall k :: 0 <= k < TABLE ==> !Entry(s, o, k).v)
    && (forall q :: q in orphans && Hangs(q) ==> Parent(q) != o)
  }

  lemma NodeRemovedKeepsInv(s: State, orphans: set<Role>, o: Role)
    requires InvBut(s, orphans) && CanRemove(s, orphans, o)
    ensures InvBut(NodeRemoved(s, o), orphans - {o})
    ensures forall q: Role, k: nat {:trigger Entry(NodeRemoved(s, o), q, k)} :: IsTable(q) && q != o ==>
              Entry(NodeRemoved(s, o), q, k) == Entry(s, q, k)
  {
    var s' := NodeRemoved(s, o);
    UnplaceKeepsRoles(s, s', o);
    forall q | q in s'.at ensures Ptes(s', q) == Ptes(s, q) {
    }
    forall q, k | q in s'.at && IsTable(q) && 0 <= k < TABLE
      ensures DownAt(s', q, k) || Entry(s', q, k) == EMPTY
    {
      assert Entry(s', q, k) == Entry(s, q, k);
      if Entry(s, q, k).v {
        assert Child(q, k) != o;
      }
    }
    forall q | q in s'.at && Hangs(q) && q !in orphans - {o}
      ensures Parent(q) in s'.at && Entry(s', Parent(q), Index(q)) == Entry(s, Parent(q), Index(q))
    {
      assert Parent(q) != o;
    }
  }

  /** `q` lies below table `o`, through one of its first `n` entries. */
  predicate Below(q: Role, o: Role, n: nat) {
    match o
    case Top(r) => (q.Mid? || (q.Low? && q.j < TABLE)) && q.root == r && q.i < n
    case Mid(r, i) => q.Low? && q.root == r && q.i == i && q.j < n
    case _ => false
  }

  predicate InSubtree(q: Role, o: Role) {
    q == o || Below(q, o, TABLE)
  }

  lemma BelowStep(q: Role, o: Role, n: nat)
    requires o.Top? || o.Mid?
    requires n < TABLE
    ensures Below(q, o, n + 1) <==> Below(q, o, n) || InSubtree(q, Child(o, n))
  {
  }

  function Rank(o: Role): nat {
    match o
    case Top(_) => 2
    case Mid(_, _) => 1
    case _ => 0
  }

  // ----- The states freewalk passes through -----

  /** No bottom table in the subtree of `o` maps anything. */
  ghost predicate NoLeaves(s: State, o: Role) {
    forall q: Role, k: nat {:trigger Entry(s, q, k)} :: q.Low? && InSubtree(q, o) ==> !Entry(s, q, k).v
  }

  /** Table `o` has been cut off: it hangs in a hole, if at all; the other cut-off tables and the holes
      are above it, and no leaf is left in it. */
  ghost predicate CutOff(s: State, holes: Holes, orphans: set<Role>, o: Role) {
    && IsTable(o) && o in s.at && s.at[o] !in holes
    && (Hangs(o) ==> o in orphans && !Entry(But(s, holes), Parent(o), Index(o)).v)
    && (forall q {:trigger q in orphans} :: q in orphans ==> IsTable(q) && Rank(q) >= Rank(o))
    && (forall h {:trigger h in holes} :: h in holes ==> h in s.role && IsTable(s.role[h]) && Rank(s.role[h]) > Rank(o))
    && NoLeaves(But(s, holes), o)
  }

  /** `freewalk` may be called on table `o`. */
  ghost predicate Tearable(s: State, holes: Holes, orphans: set<Role>, o: Role) {
    InvBut(But(s, holes), orphans) && CutOff(s, holes, orphans, o)
  }

  /** The roles marked by `Below(_, o, n)` are gone and their pages free; all else is as it was, except
      the contents of table `o` itself. */
  ghost predicate FreedBelow(s: State, s': State, o: Role, n: nat) {
    && (forall q {:trigger q in s'.at} :: q in s'.at <==> q in s.at && !Below(q, o, n))
    && (forall q {:trigger q in s'.at} :: q in s'.at ==> s'.at[q] == s.at[q])
    && s'.role.Keys == s.role.Keys
    && (forall p {:trigger s'.role[p]} :: p in s.role ==>
          && s'.role[p] == (if Below(s.role[p], o, n) then Free else s.role[p])
          && (!s.role[p].Free? && !Below(s.role[p], o, n) && s.role[p] != o ==>
                p in s.mem && p in s'.mem && s'.mem[p] == s.mem[p]))
  }

  /** The whole subtree of `o` is gone and its pages are free; all else is as it was. */
  ghost predicate FreedTree(s: State, s': State, o: Role) {
    && (forall q {:trigger q in s'.at} :: q in s'.at <==> q in s.at && !InSubtree(q, o))
    && (forall q {:trigger q in s'.at} :: q in s'.at ==> s'.at[q] == s.at[q])
    && s'.role.Keys == s.role.Keys
    && (forall p {:trigger s'.role[p]} :: p in s.role ==>
          && s'.role[p] == (if InSubtree(s.role[p], o) then Free else s.role[p])
          && (!s.role[p].Free? && !InSubtree(s.role[p], o) ==> p in s.mem && p in s'.mem && s'.mem[p] == s.mem[p]))
  }

  /** Half-way through the loop over the entries of `o`. */
  ghost predicate Walking(was: State, s: State, holes: Holes, orphans: set<Role>, o: Role, n: nat) {
    && Tearable(s, holes, orphans, o) && FreedBelow(was, s, o, n) && n <= TABLE
    && (forall k {:trigger Entry(But(s, holes), o, k)} :: 0 <= k < n ==> !Entry(But(s, holes), o, k).v)
  }

  /** Outside the holes the patched memory is the memory. */
  lemma ReadsOwn(s: State, holes: Holes, o: Role, idx: nat)
    requires RolesOk(But(s, holes)) && TablesOk(But(s, holes)) && o in s.at && IsTable(o) && s.at[o] !in holes &&
             idx < TABLE
    ensures s.at[o] in s.mem && s.mem[s.at[o]].Table? && |s.mem[s.at[o]].ptes| == TABLE
    ensures s.mem[s.at[o]].ptes[idx] == Entry(But(s, holes), o, idx)
  {
    assert |Ptes(But(s, holes), o)| == TABLE;
  }

  lemma SubtreeOfChild(q: Role, o: Role, i: nat)
    requires (o.Top? || o.Mid?) && i < TABLE && InSubtree(q, Child(o, i))
    ensures InSubtree(q, o) && q != o
  {
  }

  lemma NotLow(s: State, holes: Holes, orphans: set<Role>, o: Role, i: nat)
    requires Tearable(s, holes, orphans, o) && Entry(But(s, holes), o, i).v
    ensures o.Top? || o.Mid?
  {
    assert InSubtree(o, o);
  }

  /** Making a hole of a valid entry cuts off its child table. */
  lemma HoleMade(s: State, holes: Holes, orphans: set<Role>, o: Role, i: nat, holes': Holes)
    requires InvBut(But(s, holes), orphans) && o in s.at && (o.Top? || o.Mid?) && s.at[o] !in holes && i < TABLE
    requires Entry(But(s, holes), o, i).v && holes' == holes[s.at[o] := i]
    ensures InvBut(But(s, holes'), orphans + {Child(o, i)}) && EntrySet(But(s, holes), But(s, holes'), o, i, EMPTY)
    ensures Child(o, i) in s.at && Entry(But(s, holes), o, i) == TablePte(s.at[Child(o, i)])
  {
    var b, b', t := But(s, holes), But(s, holes'), s.at[o];
    assert b' == b.(mem := SetSlot(b.mem, b.at[o], i, EMPTY)) by {
      ReadsOwn(s, holes, o, i);
      HoleIsClearedSlot(s.mem, holes, t, i);
    }
    EntryCleared(b, b', orphans, o, i);
  }

  lemma ChildCutOff(s: State, holes: Holes, orphans: set<Role>, o: Role, i: nat, holes': Holes, b: State, b': State)
    requires CutOff(s, holes, orphans, o) && (o.Top? || o.Mid?) && i < TABLE
    requires b == But(s, holes) && b' == But(s, holes')
    requires holes' == holes[s.at[o] := i] && EntrySet(b, b', o, i, EMPTY) && Child(o, i) in s.at
    requires s.at[o] in s.role && s.role[s.at[o]] == o && s.at[Child(o, i)] in s.role &&
             s.role[s.at[Child(o, i)]] == Child(o, i)
    ensures CutOff(s, holes', orphans + {Child(o, i)}, Child(o, i))
  {
    var t, c := s.at[o], Child(o, i);
    assert s.at[c] !in holes';
    assert NoLeaves(b', c) by { NoLeavesBelow(b, b', o, i); }
  }

  /** The child table of a valid entry can be torn down, once the entry counts as a hole. */
  lemma DescendReady(s: State, holes: Holes, orphans: set<Role>, o: Role, i: nat)
    requires Tearable(s, holes, orphans, o) && i < TABLE && Entry(But(s, holes), o, i).v
    ensures (o.Top? || o.Mid?) && Child(o, i) in s.at && Entry(But(s, holes), o, i) == TablePte(s.at[Child(o, i)])
    ensures Tearable(s, holes[s.at[o] := i], orphans + {Child(o, i)}, Child(o, i))
  {
    NotLow(s, holes, orphans, o, i);
    var holes' := holes[s.at[o] := i];
    HoleMade(s, holes, orphans, o, i, holes');
    ChildCutOff(s, holes, orphans, o, i, holes', But(s, holes), But(s, holes'));
  }

  lemma NoLeavesBelow(b: State, b': State, o: Role, i: nat)
    requires (o.Top? || o.Mid?) && i < TABLE && NoLeaves(b, o) && EntrySet(b, b', o, i, EMPTY)
    ensures NoLeaves(b', Child(o, i))
  {
    forall q: Role, k: nat | q.Low? && InSubtree(q, Child(o, i)) ensures !Entry(b', q, k).v {
      SubtreeOfChild(q, o, i);
    }
  }

  /** An entry that is not valid has nothing below it. */
  lemma SkipEmpty(was: State, s: State, holes: Holes, orphans: set<Role>, o: Role, i: nat, i': nat)
    requires Walking(was, s, holes, orphans, o, i) && i < TABLE && i' == i + 1
    requires !Entry(But(s, holes), o, i).v
    ensures Walking(was, s, holes, orphans, o, i')
  {
    var b := But(s, holes);
    forall q | q in s.at && Below(q, o, i') ensures Below(q, o, i) {
      NothingBelow(b, orphans, o, i, q);
    }
    FreedSame(was, s, o, i, i');
  }

  lemma NothingBelow(b: State, orphans: set<Role>, o: Role, i: nat, q: Role)
    requires InvBut(b, orphans) && IsTable(o) && q in b.at && !Entry(b, o, i).v
    requires forall x {:trigger x in orphans} :: x in orphans ==> IsTable(x) && Rank(x) >= Rank(o)
    requires Below(q, o, i + 1)
    ensures Below(q, o, i)
  {
    assert q !in orphans && Parent(q) in b.at;
    if o.Top? && q.Low? {
      assert Parent(q) !in orphans && Parent(Parent(q)) == o;
    }
  }

  lemma FreedSame(was: State, s: State, o: Role, i: nat, i': nat)
    requires FreedBelow(was, s, o, i) && i <= i' && RolesOk(s)
    requires forall q {:trigger q in s.at} :: q in s.at && Below(q, o, i') ==> Below(q, o, i)
    ensures FreedBelow(was, s, o, i')
  {
    forall p | p in was.role && Below(was.role[p], o, i') ensures Below(was.role[p], o, i) {
      assert s.role[p] == was.role[p] || Below(was.role[p], o, i);
    }
    forall q | q in was.at && Below(q, o, i') ensures Below(q, o, i) {
      assert q in s.at || Below(q, o, i);
    }
  }

  /** The torn-down child leaves the table above it alone. */
  lemma ClimbMem(s: State, s1: State, holes: Holes, o: Role, i: nat)
    requires RolesOk(But(s, holes)) && TablesOk(But(s, holes)) && o in s.at && s.at[o] !in holes && i < TABLE
    requires (o.Top? || o.Mid?) && FreedTree(s, s1, Child(o, i))
    ensures var t := s.at[o];
            && o in s1.at && s1.at[o] == t && t in s.mem && t in s1.mem && s1.mem[t] == s.mem[t] && s1.mem[t].Table?
            && But(s1.(mem := SetSlot(s1.mem, t, i, EMPTY)), holes) == But(s1, holes[t := i])
  {
    var t := s.at[o];
    ReadsOwn(s, holes, o, i);
    assert But(s, holes).role[t] == o;
    assert s1.role[t] == o && s1.mem[t] == s.mem[t];
    HoleIsClearedSlot(s1.mem, holes, t, i);
  }

  lemma ClimbOther(s: State, s1: State, s2: State, holes: Holes, o: Role, i: nat, q: Role)
    requires RolesOk(But(s, holes)) && o in s.at && (o.Top? || o.Mid?) && FreedTree(s, s1, Child(o, i))
    requires s2 == s1.(mem := SetSlot(s1.mem, s.at[o], i, EMPTY)) && q in s2.at && q != o
    ensures q in s.at && Ptes(But(s2, holes), q) == Ptes(But(s, holes), q)
  {
    var b := But(s, holes);
    assert q in s.at && s1.at[q] == s.at[q];
    assert b.role[b.at[q]] == q && b.role[b.at[o]] == o;
    assert s1.role[s.at[q]] == q && s1.mem[s.at[q]] == s.mem[s.at[q]];
  }

  /** Entry `i` of table `o` was cleared; the tables that are left are otherwise as before. */
  ghost predicate Cleared(b: State, b2: State, o: Role, i: nat) {
    forall q: Role, k: nat {:trigger Entry(b2, q, k)} :: q in b2.at ==>
      q in b.at && Entry(b2, q, k) == if q == o && k == i then EMPTY else Entry(b, q, k)
  }

  lemma ClimbEntries(s: State, s1: State, s2: State, holes: Holes, o: Role, i: nat)
    requires RolesOk(But(s, holes)) && TablesOk(But(s, holes)) && o in s.at && s.at[o] !in holes && i < TABLE
    requires (o.Top? || o.Mid?) && FreedTree(s, s1, Child(o, i))
    requires s2 == s1.(mem := SetSlot(s1.mem, s.at[o], i, EMPTY))
    ensures Cleared(But(s, holes), But(s2, holes), o, i)
  {
    ClimbMem(s, s1, holes, o, i);
    ReadsOwn(s, holes, o, i);
    var t := s.at[o];
    assert Ptes(But(s, holes), o) == s.mem[t].ptes;
    assert Ptes(But(s2, holes), o) == s.mem[t].ptes[i := EMPTY];
    forall q: Role, k: nat | q in s2.at
      ensures q in s.at && Entry(But(s2, holes), q, k) == if q == o && k == i then EMPTY else Entry(But(s, holes), q, k)
    {
      if q != o {
        ClimbOther(s, s1, s2, holes, o, i, q);
      }
    }
  }

  lemma ClimbFreed(was: State, s: State, s1: State, s2: State, o: Role, i: nat, i': nat)
    requires (o.Top? || o.Mid?) && i < TABLE && i' == i + 1
    requires FreedBelow(was, s, o, i) && FreedTree(s, s1, Child(o, i))
    requires o in s.at && s.at[o] in s.role && s.role[s.at[o]] == o
    requires s2 == s1.(mem := SetSlot(s1.mem, s.at[o], i, EMPTY))
    ensures FreedBelow(was, s2, o, i')
  {
    forall q ensures q in s2.at <==> q in was.at && !Below(q, o, i') {
      BelowStep(q, o, i);
      assert q in s.at <==> q in was.at && !Below(q, o, i);
    }
    forall p | p in was.role ensures
        && s2.role[p] == (if Below(was.role[p], o, i') then Free else was.role[p])
        && (!was.role[p].Free? && !Below(was.role[p], o, i') && was.role[p] != o ==>
              p in was.mem && p in s2.mem && s2.mem[p] == was.mem[p])
    {
      BelowStep(was.role[p], o, i);
      assert s.role[p] == if Below(was.role[p], o, i) then Free else was.role[p];
      assert s1.role[p] == if InSubtree(s.role[p], Child(o, i)) then Free else s.role[p];
    }
  }

  lemma ClimbCut(s: State, s1: State, s2: State, holes: Holes, orphans: set<Role>, o: Role, i: nat)
    requires CutOff(s, holes, orphans, o) && i < TABLE && (o.Top? || o.Mid?) && FreedTree(s, s1, Child(o, i))
    requires o in s2.at && s2.at[o] == s.at[o] && s2 == s1.(mem := SetSlot(s1.mem, s.at[o], i, EMPTY))
    requires Cleared(But(s, holes), But(s2, holes), o, i)
    ensures CutOff(s2, holes, orphans, o)
  {
    forall h | h in holes ensures h in s2.role && IsTable(s2.role[h]) && Rank(s2.role[h]) > Rank(o) {
      assert s1.role[h] == if InSubtree(s.role[h], Child(o, i)) then Free else s.role[h];
    }
    forall q: Role, k: nat | q.Low? && InSubtree(q, o) ensures !Entry(But(s2, holes), q, k).v {
      assert q in s2.at ==> !Entry(But(s, holes), q, k).v;
    }
  }

  /** After the child of entry `i` has been torn down and the entry cleared. */
  lemma ClimbBack(was: State, s: State, s1: State, s2: State, holes: Holes, orphans: set<Role>, o: Role, i: nat,
                  i': nat)
    requires Walking(was, s, holes, orphans, o, i) && i < TABLE && i' == i + 1
    requires (o.Top? || o.Mid?) && FreedTree(s, s1, Child(o, i))
    requires InvBut(But(s1, holes[s.at[o] := i]), orphans)
    requires s2 == s1.(mem := SetSlot(s1.mem, s.at[o], i, EMPTY))
    ensures Walking(was, s2, holes, orphans, o, i')
    ensures var t := s.at[o]; o in s1.at && s1.at[o] == t && t in s1.mem && s1.mem[t].Table? && i < |s1.mem[t].ptes|
  {
    ReadsOwn(s, holes, o, i);
    ClimbMem(s, s1, holes, o, i);
    assert But(s2, holes) == But(s1, holes[s.at[o] := i]) && o in s2.at && s2.at[o] == s.at[o] by {
      ClimbMem(s, s1, holes, o, i);
    }
    assert Cleared(But(s, holes), But(s2, holes), o, i) by {
      ClimbEntries(s, s1, s2, holes, o, i);
    }
    assert CutOff(s2, holes, orphans, o) by {
      ClimbCut(s, s1, s2, holes, orphans, o, i);
    }
    assert FreedBelow(was, s2, o, i') by {
      assert But(s, holes).role[s.at[o]] == o;
      ClimbFreed(was, s, s1, s2, o, i, i');
    }
    ClimbEmpty(But(s, holes), But(s2, holes), o, i, i');
  }

  lemma ClimbEmpty(b: State, b2: State, o: Role, i: nat, i': nat)
    requires Cleared(b, b2, o, i) && o in b2.at && i' == i + 1
    requires forall k {:trigger Entry(b, o, k)} :: 0 <= k < i ==> !Entry(b, o, k).v
    ensures forall k {:trigger Entry(b2, o, k)} :: 0 <= k < i' ==> !Entry(b2, o, k).v
  {
  }

  /** The last step: the emptied table itself goes back to the free list. */
  lemma FinishTable(was: State, s: State, holes: Holes, orphans: set<Role>, o: Role)
    requires Walking(was, s, holes, orphans, o, TABLE)
    ensures s.at[o] in s.role
    ensures var u := Given(NodeRemoved(s, o), s.at[o]);
            InvBut(But(u, holes), orphans - {o}) && FreedTree(was, u, o)
  {
    var b, t := But(s, holes), s.at[o];
    assert b.role[t] == o;
    NodeRemovedKeepsInv(b, orphans, o);
    GivenKeepsInv(NodeRemoved(b, o), t, orphans - {o});
    var u := Given(NodeRemoved(s, o), t);
    PatchedOutside(s.mem, holes, t, Junk);
    assert But(u, holes) == Given(NodeRemoved(b, o), t);
    FinishFreed(was, s, u, o);
  }

  lemma FinishFreed(was: State, s: State, u: State, o: Role)
    requires FreedBelow(was, s, o, TABLE) && o in s.at && s.at[o] in s.role && s.role[s.at[o]] == o
    requires u == Given(NodeRemoved(s, o), s.at[o]) && RolesOk(s)
    ensures FreedTree(was, u, o)
  {
    forall p | p in was.role ensures
        && u.role[p] == (if InSubtree(was.role[p], o) then Free else was.role[p])
        && (!was.role[p].Free? && !InSubtree(was.role[p], o) ==> p in was.mem && p in u.mem && u.mem[p] == was.mem[p])
    {
      assert s.role[p] == if Below(was.role[p], o, TABLE) then Free else was.role[p];
      assert p != s.at[o] ==> s.role[p] != o;
    }
  }

  // ----- A whole page table -----

  /** Every page of the tree under `root`, tables and user memory, is free; no other page changed. */
  ghost predicate RootGone(s: State, s': State, root: nat) {
    && (forall q {:trigger q in s'.at} :: q in s'.at <==> q in s.at && !OfRoot(q, root))
    && (forall q {:trigger q in s'.at} :: q in s'.at ==> s'.at[q] == s.at[q])
    && s'.role.Keys == s.role.Keys
    && (forall p {:trigger s'.role[p]} :: p in s.role ==>
          && s'.role[p] == (if OfRoot(s.role[p], root) then Free else s.role[p])
          && (!s.role[p].Free? && !OfRoot(s.role[p], root) && !IsTable(s.role[p]) ==>
                p in s.mem && p in s'.mem && s'.mem[p] == s.mem[p]))
  }

  predicate OfRoot(q: Role, root: nat) {
    Placed(q) && q.root == root
  }

  lemma NoHoles(s: State)
    ensures But(s, map[]) == s
  {
    assert Patched(s.mem, map[]) == s.mem;
  }

  /** With nothing mapped under it, a page table can be torn down from the root. */
  lemma RootTearable(s: State, root: nat)
    requires Inv(s) && Top(root) in s.at && forall v :: 0 <= v ==> !PteAt(s, root, v).v
    ensures Tearable(s, map[], {}, Top(root))
  {
    NoHoles(s);
    forall q: Role, k: nat | q.Low? && InSubtree(q, Top(root)) ensures !Entry(s, q, k).v {
      if k < TABLE {
        IndicesUnique(Vpn(q.i, q.j, k), q.i, q.j, k);
        assert PteAt(s, root, Vpn(q.i, q.j, k)) == Entry(s, q, k);
      } else if q in s.at {
        assert |Ptes(s, q)| == TABLE;
      }
    }
  }

  /** A page in a leaf role is mapped where its role says. */
  lemma LeafMapped(s: State, q: Role)
    requires UpOk(s, {}) && q in s.at && q.Leaf?
    ensures PteAt(s, q.root, Vpn(q.i, q.j, q.k)).v
  {
    assert Parent(q) in s.at && Index(q) < TABLE && Index(Parent(q)) < TABLE;
    IndicesUnique(Vpn(q.i, q.j, q.k), q.i, q.j, q.k);
    assert PteAt(s, q.root, Vpn(q.i, q.j, q.k)) == Entry(s, Parent(q), Index(q));
  }

  lemma TreeIsRoot(s: State, root: nat, q: Role)
    requires Inv(s) && q in s.at && OfRoot(q, root) && forall v :: 0 <= v ==> !PteAt(s, root, v).v
    ensures InSubtree(q, Top(root))
  {
    if q.Leaf? {
      LeafMapped(s, q);
    } else if q.Low? {
      assert Parent(q) in s.at && Index(q) < TABLE && Index(Parent(q)) < TABLE;
    }
  }
}

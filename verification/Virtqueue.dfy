/** The descriptors of the virtio disk's queue: finding three free ones, linking them into a chain and
    freeing the chain. */
module Virtqueue {

  const NUM := 8

  /** `next` counts only if `more`, the flag VRING_DESC_F_NEXT, is set. */
  datatype Desc = Desc(next: nat, more: bool)

  function Count(free: seq<bool>): nat {
    if free == [] then 0 else Count(free[..|free| - 1]) + if free[|free| - 1] then 1 else 0
  }

  lemma {:induction false} CountChange(free: seq<bool>, i: nat, v: bool)
    requires i < |free|
    ensures Count(free[i := v]) == Count(free) - (if free[i] then 1 else 0) + if v then 1 else 0
  {
    var n := |free| - 1;
    if i == n {
      assert free[i := v][..n] == free[..n];
    } else {
      assert free[i := v][..n] == free[..n][i := v];
      CountChange(free[..n], i, v);
    }
  }

  lemma {:induction false} CountNone(free: seq<bool>)
    requires forall i :: 0 <= i < |free| ==> !free[i]
    ensures Count(free) == 0
  {
    if free != [] {
      CountNone(free[..|free| - 1]);
    }
  }

  lemma {:induction false} CountSome(free: seq<bool>, i: nat)
    requires i < |free| && free[i]
    ensures Count(free) > 0
  {
    if i < |free| - 1 {
      CountSome(free[..|free| - 1], i);
    }
  }

  /** The three descriptors are different and were all free. */
  predicate ThreeFree(free: seq<bool>, a: nat, b: nat, c: nat) {
    a < |free| && b < |free| && c < |free| && a != b && a != c && b != c && free[a] && free[b] && free[c]
  }

  /** The chain from `a` leads over `b` to `c` and ends there. */
  predicate Chain(desc: seq<Desc>, a: nat, b: nat, c: nat) {
    a < |desc| && b < |desc| && c < |desc| && desc[a] == Desc(b, true) && desc[b] == Desc(c, true) && !desc[c].more
  }

  lemma CountThree(free: seq<bool>, a: nat, b: nat, c: nat)
    requires ThreeFree(free, a, b, c)
    ensures Count(free[a := false][b := false][c := false]) + 3 == Count(free)
  {
    CountChange(free, a, false);
    CountChange(free[a := false], b, false);
    CountChange(free[a := false][b := false], c, false);
  }

  lemma CountFreed(free: seq<bool>, a: nat, b: nat, c: nat)
    requires a < |free| && b < |free| && c < |free| && a != b && a != c && b != c && !free[a] && !free[b] && !free[c]
    ensures Count(free[a := true][b := true][c := true]) == Count(free) + 3
  {
    CountChange(free, a, true);
    CountChange(free[a := true], b, true);
    CountChange(free[a := true][b := true], c, true);
  }

  class Descriptors {
    var free: seq<bool>
    var desc: seq<Desc>

    ghost predicate Valid()
      reads this
    {
      |free| == |desc| == NUM
    }

    constructor ()
      ensures Valid() && free == seq(NUM, _ => true)
    {
      free, desc := seq(NUM, _ => true), seq(NUM, _ => Desc(0, false));
    }

    /** The lowest free descriptor, or -1. */
    method AllocDesc() returns (r: int)
      requires Valid()
      modifies this`free
      ensures Valid() && -1 <= r < NUM
      ensures r < 0 ==> free == old(free) && Count(free) == 0
      ensures r >= 0 ==> old(free)[r] && (forall j :: 0 <= j < r ==> !old(free)[j]) && free == old(free)[r := false]
    {
      var i := 0;
      while i < NUM
        invariant 0 <= i <= NUM && free == old(free) && forall j :: 0 <= j < i ==> !free[j]
      {
        if free[i] {
          free := free[i := false];
          return i;
        }
        i := i + 1;
      }
      CountNone(free);
      return -1;
    }

    /** Its two panics are excluded by its precondition. */
    method FreeDesc(i: nat)
      requires Valid() && i < NUM && !free[i]
      modifies this
      ensures Valid() && free == old(free)[i := true] && desc == old(desc)[i := Desc(0, false)]
    {
      desc := desc[i := Desc(0, false)];
      free := free[i := true];
    }

    /** All of a chain becomes free, and nothing else. */
    method FreeChain(a: nat, ghost b: nat, ghost c: nat)
      requires Valid() && Chain(desc, a, b, c) && a != b && a != c && b != c && !free[a] && !free[b] && !free[c]
      modifies this
      ensures Valid() && free == old(free)[a := true][b := true][c := true]
      ensures forall i :: 0 <= i < NUM && i != a && i != b && i != c ==> desc[i] == old(desc)[i]
    {
      var i := a;
      while true
        invariant Valid() && (i == a || i == b || i == c)
        invariant i == a ==> free == old(free) && desc == old(desc)
        invariant i == b ==> free == old(free)[a := true] && desc == old(desc)[a := Desc(0, false)]
        invariant i == c ==>
                    free == old(free)[a := true][b := true] &&
                    desc == old(desc)[a := Desc(0, false)][b := Desc(0, false)]
        decreases if i == a then 2 else if i == b then 1 else 0
      {
        var more, next := desc[i].more, desc[i].next;
        FreeDesc(i);
        if !more {
          break;
        }
        i := next;
      }
    }

    /** Three descriptors; or none if fewer than three are free, and then the flags are as before and at most
        free descriptors have been cleared. */
    method Alloc3Desc() returns (ok: bool, idx: seq<nat>)
      requires Valid()
      modifies this
      ensures Valid() && (ok <==> Count(old(free)) >= 3)
      ensures ok ==> |idx| == 3 && ThreeFree(old(free), idx[0], idx[1], idx[2]) && desc == old(desc)
      ensures ok ==> free == old(free)[idx[0] := false][idx[1] := false][idx[2] := false]
      ensures !ok ==> free == old(free) && OnlyCleared(old(free), old(desc), desc)
    {
      idx := [];
      for i := 0 to 3
        invariant Valid() && |idx| == i && desc == old(desc) && Count(free) + i == Count(old(free))
        invariant Allocated(old(free), free, idx)
      {
        ghost var before := free;
        var d := AllocDesc();
        if d < 0 {
          FreeFirst(idx, i, old(free));
          return false, idx;
        }
        CountChange(before, d, false);
        idx := idx + [d];
      }
      return true, idx;
    }

    /** The inner loop: what has been allocated is freed again. */
    method FreeFirst(idx: seq<nat>, i: nat, ghost was: seq<bool>)
      requires Valid() && |idx| == i && Allocated(was, free, idx)
      modifies this
      ensures Valid() && free == was && OnlyCleared(was, old(desc), desc)
    {
      for j := 0 to i
        invariant Valid() && Allocated(was, free, idx[j..]) && OnlyCleared(was, old(desc), desc)
      {
        FreeDesc(idx[j]);
      }
    }
  }

  /** Descriptors have changed only where `was` says free, and only by being cleared. */
  ghost predicate OnlyCleared(was: seq<bool>, before: seq<Desc>, after: seq<Desc>) {
    |was| == |before| == |after| &&
    forall d :: 0 <= d < |was| ==> after[d] == before[d] || (was[d] && after[d] == Desc(0, false))
  }

  /** Compared with `was`, the different descriptors in `idx` are no longer free. */
  ghost predicate Allocated(was: seq<bool>, free: seq<bool>, idx: seq<nat>) {
    |was| == |free| && (forall j :: 0 <= j < |idx| ==> idx[j] < |free| && was[idx[j]]) &&
    (forall j, k :: 0 <= j < k < |idx| ==> idx[j] != idx[k]) &&
    forall d :: 0 <= d < |free| ==> free[d] == (was[d] && d !in idx)
  }
}

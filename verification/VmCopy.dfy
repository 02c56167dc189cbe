/** User memory as bytes: what `copyin` and `copyout` read and write through a page table. */
module VmCopy {
  import opened Sv39
  import opened VmSteps
  import opened Seqs

  /** Virtual page `v` is mapped for user access. */
  predicate UserPage(s: State, root: nat, v: nat) {
    v < MAXVPN && PteAt(s, root, v).v && PteAt(s, root, v).u
  }

  function FrameOf(s: State, root: nat, v: nat): Frame {
    var p := PteAt(s, root, v).page;
    if p in s.mem then s.mem[p] else Junk
  }

  predicate IsBytes(f: Frame) {
    f.Data? && |f.bytes| == PGSIZE
  }

  /** Only pages of process memory are mapped for user access, */
  ghost predicate UserOwned(s: State) {
    forall r: nat, v: nat {:trigger Owned(s, r, v)} :: UserPage(s, r, v) ==> Owned(s, r, v)
  }

  /** and they are filled before. */
  ghost predicate UserData(s: State) {
    forall r: nat, v: nat :: UserPage(s, r, v) ==> IsBytes(FrameOf(s, r, v))
  }

  /** User memory: for each address space and each address that its user may access, the byte there. */
  type UserMem = imap<Addr, nat>

  datatype Addr = Addr(root: nat, a: nat)

  predicate UserAt(s: State, root: nat, a: nat) {
    UserPage(s, root, a / PGSIZE)
  }

  function FrameByte(f: Frame, o: nat): nat {
    if f.Data? && o < |f.bytes| then f.bytes[o] else 0
  }

  /** `m` is the user memory that the page tables and pages of `s` make up. */
  ghost predicate Sees(s: State, m: UserMem) {
    forall r: nat, a: nat {:trigger UserAt(s, r, a)} ::
      (UserAt(s, r, a) <==> Addr(r, a) in m) &&
      (UserAt(s, r, a) ==> m[Addr(r, a)] == FrameByte(FrameOf(s, r, a / PGSIZE), a % PGSIZE))
  }

  ghost function MemOf(s: State): UserMem {
    imap k: Addr | UserAt(s, k.root, k.a) :: FrameByte(FrameOf(s, k.root, k.a / PGSIZE), k.a % PGSIZE)
  }

  /** Every state makes up a user memory. */
  lemma SeesMemOf(s: State)
    ensures Sees(s, MemOf(s))
  {
  }

  /** All of [a, a + n) is accessible to the user of `root`. */
  ghost predicate AllUser(m: UserMem, root: nat, a: nat, n: nat) {
    forall b: nat :: a <= b < a + n ==> Addr(root, b) in m
  }

  /** `data` is what the user of `root` sees from `a` on. */
  ghost predicate Reads(m: UserMem, root: nat, a: nat, data: seq<nat>) {
    AllUser(m, root, a, |data|) && forall b: nat :: a <= b < a + |data| ==> m[Addr(root, b)] == data[b - a]
  }

  /** User memory with `bytes` at address `a` of `root` and everything else as it was. */
  ghost function Stored(m: UserMem, root: nat, a: nat, bytes: seq<nat>): UserMem {
    imap k: Addr | k in m :: if k.root == root && a <= k.a < a + |bytes| then bytes[k.a - a] else m[k]
  }

  /** Between `s` and `t` only the contents of pages have changed, and no translation. */
  ghost predicate OnlyBytes(s: State, t: State) {
    t.free == s.free && t.role == s.role && t.at == s.at && SameMap(s, t)
  }

  /** Address `b` of `root` lies in page `p`. */
  predicate Behind(s: State, root: nat, b: nat, p: nat) {
    PteAt(s, root, b / PGSIZE).page == p
  }

  /** A page whose contents have changed has an address of [a, a + n) of `root` in it. */
  ghost predicate PagesKept(s: State, t: State, root: nat, a: nat, n: nat) {
    t.mem.Keys == s.mem.Keys &&
    forall p {:trigger t.mem[p]} :: p in s.mem && t.mem[p] != s.mem[p] ==>
      exists b: nat :: a <= b < a + n && Behind(s, root, b, p)
  }

  lemma PagesKeptTwice(s: State, t: State, u: State, root: nat, a: nat, n: nat, va: nat, k: nat)
    requires PagesKept(s, t, root, a, n) && PagesKept(t, u, root, va, k) && va == a + n && SameMap(s, t)
    ensures PagesKept(s, u, root, a, n + k)
  {
    forall p | p in s.mem && u.mem[p] != s.mem[p] ensures exists b: nat :: a <= b < a + n + k && Behind(s, root, b, p) {
      if t.mem[p] == s.mem[p] {
        var b: nat :| va <= b < va + k && Behind(t, root, b, p);
        assert Behind(s, root, b, p);
      }
    }
  }

  lemma StillOwned(s: State, t: State)
    requires OnlyBytes(s, t) && UserOwned(s)
    ensures UserOwned(t)
  {
    forall r: nat, v: nat | UserPage(t, r, v) ensures Owned(t, r, v) {
      SameUserPage(s, t, r, v);
      assert Owned(s, r, v);
    }
  }

  lemma OnlyBytesTwice(s: State, t: State, u: State)
    requires OnlyBytes(s, t) && OnlyBytes(t, u)
    ensures OnlyBytes(s, u)
  {
  }

  /** What the copy functions rely on: address space `root` exists, and `m` is user memory. */
  ghost predicate Copyable(s: State, root: nat, m: UserMem) {
    Inv(s) && Top(root) in s.at && UserData(s) && Sees(s, m)
  }

  lemma StoredTwice(m: UserMem, root: nat, a: nat, x: seq<nat>, va: nat, y: seq<nat>)
    requires va == a + |x|
    ensures Stored(Stored(m, root, a, x), root, va, y) == Stored(m, root, a, x + y)
    ensures AllUser(m, root, a, |x|) && AllUser(Stored(m, root, a, x), root, va, |y|) ==> AllUser(m, root, a, |x + y|)
  {
  }

  /** What has been stored is what is read. */
  lemma StoredReads(m: UserMem, root: nat, a: nat, bytes: seq<nat>)
    requires AllUser(m, root, a, |bytes|)
    ensures Reads(Stored(m, root, a, bytes), root, a, bytes)
  {
  }

  lemma ReadsMore(m: UserMem, root: nat, a: nat, x: seq<nat>, y: seq<nat>)
    requires Reads(m, root, a, x) && Reads(m, root, a + |x|, y)
    ensures Reads(m, root, a, x + y)
  {
  }

  /** `bytes` have been copied out to `a`, and nothing else has changed. */
  ghost predicate CopiedOut(s: State, t: State, root: nat, m: UserMem, a: nat, bytes: seq<nat>) {
    && Copyable(t, root, Stored(m, root, a, bytes)) && AllUser(m, root, a, |bytes|)
    && OnlyBytes(s, t) && PagesKept(s, t, root, a, |bytes|)
  }

  lemma CopiedNothing(s: State, root: nat, m: UserMem, a: nat)
    requires Copyable(s, root, m)
    ensures CopiedOut(s, s, root, m, a, [])
  {
    assert Stored(m, root, a, []) == m;
  }

  /** Another piece stored after the first `x` bytes. */
  lemma CopiedOutMore(s: State, t: State, u: State, root: nat, m: UserMem, a: nat, x: seq<nat>,
                      va: nat, piece: seq<nat>)
    requires CopiedOut(s, t, root, m, a, x) && va == a + |x| && CopiedOut(t, u, root, Stored(m, root, a, x), va, piece)
    ensures CopiedOut(s, u, root, m, a, x + piece)
  {
    StoredTwice(m, root, a, x, va, piece);
    OnlyBytesTwice(s, t, u);
    PagesKeptTwice(s, t, u, root, a, |x|, va, |piece|);
  }

  /** A `copyin` of what `copyout` has stored reads it back: it is in the user memory that the pages now make up. */
  lemma OutThenIn(s: State, t: State, root: nat, m: UserMem, a: nat, src: seq<nat>, n: UserMem)
    requires CopiedOut(s, t, root, m, a, src) && Sees(t, n)
    ensures Reads(n, root, a, src)
  {
    StoredReads(m, root, a, src);
    forall b: nat | a <= b < a + |src| ensures Addr(root, b) in n && n[Addr(root, b)] == src[b - a] {
      assert UserAt(t, root, b);
    }
  }

  // ----- One page -----

  predicate InOnePage(a: nat, n: nat) {
    a % PGSIZE + n <= PGSIZE
  }

  lemma InPage(a: nat, b: nat, n: nat)
    requires InOnePage(a, n)
    ensures a <= b < a + n ==> b / PGSIZE == a / PGSIZE && b % PGSIZE == a % PGSIZE + (b - a)
    ensures b / PGSIZE == a / PGSIZE ==> b - a == b % PGSIZE - a % PGSIZE
  {
  }

  lemma PageUser(s: State, m: UserMem, root: nat, a: nat, n: nat)
    requires Sees(s, m) && UserAt(s, root, a) && InOnePage(a, n)
    ensures AllUser(m, root, a, n)
  {
    forall b: nat | a <= b < a + n ensures Addr(root, b) in m {
      InPage(a, b, n);
      assert UserAt(s, root, b);
    }
  }

  lemma PageReads(s: State, m: UserMem, root: nat, a: nat, n: nat)
    requires Sees(s, m) && UserAt(s, root, a) && InOnePage(a, n) && IsBytes(FrameOf(s, root, a / PGSIZE))
    ensures Reads(m, root, a, FrameOf(s, root, a / PGSIZE).bytes[a % PGSIZE..a % PGSIZE + n])
  {
    PageUser(s, m, root, a, n);
    var data := FrameOf(s, root, a / PGSIZE).bytes[a % PGSIZE..a % PGSIZE + n];
    forall b: nat | a <= b < a + n ensures m[Addr(root, b)] == data[b - a] {
      InPage(a, b, n);
      assert UserAt(s, root, b);
    }
  }

  /** `memmove` into the page that holds address `a`. */
  function Poke(s: State, root: nat, a: nat, piece: seq<nat>): State
    requires IsBytes(FrameOf(s, root, a / PGSIZE)) && InOnePage(a, |piece|)
  {
    var p := PteAt(s, root, a / PGSIZE).page;
    s.(mem := s.mem[p := Data(Spliced(s.mem[p].bytes, a % PGSIZE, piece))])
  }

  lemma PokeInv(s: State, root: nat, a: nat, piece: seq<nat>)
    requires Inv(s) && Owned(s, root, a / PGSIZE) && IsBytes(FrameOf(s, root, a / PGSIZE)) && InOnePage(a, |piece|)
    ensures Inv(Poke(s, root, a, piece)) && SameMap(s, Poke(s, root, a, piece))
  {
    var p := PteAt(s, root, a / PGSIZE).page;
    MappedPage(s, root, a / PGSIZE);
    FrameKeepsInv(s, p, Poke(s, root, a, piece).mem[p]);
  }

  lemma PokeKeeps(s: State, root: nat, a: nat, piece: seq<nat>)
    requires IsBytes(FrameOf(s, root, a / PGSIZE)) && InOnePage(a, |piece|)
    ensures PagesKept(s, Poke(s, root, a, piece), root, a, |piece|)
  {
    var t, p := Poke(s, root, a, piece), PteAt(s, root, a / PGSIZE).page;
    if piece == [] {
      assert Spliced(s.mem[p].bytes, a % PGSIZE, piece) == s.mem[p].bytes;
    } else {
      assert Behind(s, root, a, p);
    }
  }

  /** The frame that page `v` of address space `r` is to have after the `memmove`. */
  function PokedFrame(s: State, root: nat, a: nat, piece: seq<nat>, r: nat, v: nat): Frame
    requires IsBytes(FrameOf(s, root, a / PGSIZE)) && InOnePage(a, |piece|)
  {
    if r == root && v == a / PGSIZE then Data(Spliced(FrameOf(s, root, v).bytes, a % PGSIZE, piece))
      else FrameOf(s, r, v)
  }

  /** It has it, and no other page changes: pages are not shared. */
  lemma PokeFrame(s: State, root: nat, a: nat, piece: seq<nat>, r: nat, v: nat)
    requires Inv(s) && Owned(s, root, a / PGSIZE) && IsBytes(FrameOf(s, root, a / PGSIZE)) && InOnePage(a, |piece|)
    requires Owned(s, r, v) && SameMap(s, Poke(s, root, a, piece))
    ensures FrameOf(Poke(s, root, a, piece), r, v) == PokedFrame(s, root, a, piece, r, v)
  {
    assert PteAt(Poke(s, root, a, piece), r, v) == PteAt(s, r, v);
    if PteAt(s, r, v).page == PteAt(s, root, a / PGSIZE).page {
      NoSharedPages(s, root, a / PGSIZE, r, v);
    }
  }

  lemma SpliceByte(f: Frame, a: nat, piece: seq<nat>, b: nat)
    requires IsBytes(f) && InOnePage(a, |piece|) && b / PGSIZE == a / PGSIZE
    ensures FrameByte(Data(Spliced(f.bytes, a % PGSIZE, piece)), b % PGSIZE) ==
            if a <= b < a + |piece| then piece[b - a] else FrameByte(f, b % PGSIZE)
  {
    InPage(a, b, |piece|);
  }

  lemma SameUserPage(s: State, t: State, root: nat, v: nat)
    requires SameMap(s, t)
    ensures PteAt(t, root, v) == PteAt(s, root, v) && (UserPage(t, root, v) <==> UserPage(s, root, v))
  {
  }

  /** `t` has the translations of `s` and the pages that the `memmove` leaves. */
  ghost predicate IsPoked(s: State, t: State, root: nat, a: nat, piece: seq<nat>) {
    SameMap(s, t) && IsBytes(FrameOf(s, root, a / PGSIZE)) && InOnePage(a, |piece|) &&
    forall r: nat, v: nat {:trigger FrameOf(t, r, v)} :: UserPage(s, r, v) ==>
      FrameOf(t, r, v) == PokedFrame(s, root, a, piece, r, v)
  }

  lemma PokedData(s: State, t: State, root: nat, a: nat, piece: seq<nat>)
    requires UserData(s) && IsPoked(s, t, root, a, piece)
    ensures UserData(t)
  {
    forall r: nat, v: nat | UserPage(t, r, v) ensures IsBytes(FrameOf(t, r, v)) {
      SameUserPage(s, t, r, v);
      assert IsBytes(FrameOf(s, r, v));
    }
  }

  lemma PokedByte(s: State, t: State, m: UserMem, root: nat, a: nat, piece: seq<nat>, r: nat, b: nat)
    requires UserData(s) && Sees(s, m) && IsPoked(s, t, root, a, piece)
    ensures var n := Stored(m, root, a, piece);
            (UserAt(t, r, b) <==> Addr(r, b) in n) && (UserAt(t, r, b) ==>
              n[Addr(r, b)] == FrameByte(FrameOf(t, r, b / PGSIZE), b % PGSIZE))
  {
    SameUserPage(s, t, r, b / PGSIZE);
    assert UserAt(s, r, b) <==> Addr(r, b) in m;
    if r == root && b / PGSIZE == a / PGSIZE {
      SpliceByte(FrameOf(s, root, a / PGSIZE), a, piece, b);
    } else {
      InPage(a, b, |piece|);
    }
  }

  /** Writing through one mapping changes those bytes of that address space alone. */
  lemma PokeStores(s: State, m: UserMem, root: nat, a: nat, piece: seq<nat>)
    requires Inv(s) && UserOwned(s) && UserData(s) && Sees(s, m) && UserAt(s, root, a) && InOnePage(a, |piece|)
    ensures var t := Poke(s, root, a, piece);
            Inv(t) && SameMap(s, t) && UserData(t) && Sees(t, Stored(m, root, a, piece))
  {
    var t := Poke(s, root, a, piece);
    assert Owned(s, root, a / PGSIZE);
    PokeInv(s, root, a, piece);
    assert IsPoked(s, t, root, a, piece) by {
      forall r: nat, v: nat | UserPage(s, r, v) ensures FrameOf(t, r, v) == PokedFrame(s, root, a, piece, r, v) {
        assert Owned(s, r, v);
        PokeFrame(s, root, a, piece, r, v);
      }
    }
    PokedData(s, t, root, a, piece);
    PokedSees(s, t, m, root, a, piece);
  }

  lemma PokedSees(s: State, t: State, m: UserMem, root: nat, a: nat, piece: seq<nat>)
    requires UserData(s) && Sees(s, m) && IsPoked(s, t, root, a, piece)
    ensures Sees(t, Stored(m, root, a, piece))
  {
    forall r: nat, b: nat
      ensures UserAt(t, r, b) <==> Addr(r, b) in Stored(m, root, a, piece)
      ensures UserAt(t, r, b) ==>
                Stored(m, root, a, piece)[Addr(r, b)] == FrameByte(FrameOf(t, r, b / PGSIZE), b % PGSIZE)
    {
      PokedByte(s, t, m, root, a, piece, r, b);
    }
  }
}

/** What every reachable state of the process machine satisfies: who holds which lock, which CPU runs
    which process, who is whose parent, and that no exit is missed by a sleeping parent. */
module ProcSafety {
  import opened Procs

  // ----- The invariant -----

  predicate Live(st: PState) {
    st.SLEEPING? || st.RUNNABLE? || st.RUNNING?
  }

  /** How the state of process `p` goes with where its code is, the CPU that executes it and what it
      sleeps on. */
  predicate Fits(p: nat, st: PState, pc: Pc, cpu: int, chan: Chan) {
    match pc
    case Suspended(k) =>
      cpu == -1 &&
      (match k
       case KFork => st.UNUSED? || st.USED? || st.RUNNABLE?
       case KYield(at) => st.RUNNABLE? && Interruptible(at)
       case KOther => st.SLEEPING? || st.RUNNABLE?
       case KWait => (st.SLEEPING? && chan == ChildOf(p)) || st.RUNNABLE?
       case KExit => st.ZOMBIE? || st.UNUSED?)
    case InSched(k) =>
      cpu >= 0 &&
      (match k
       case KFork => false
       case KYield(at) => st.RUNNABLE? && Interruptible(at)
       case KOther => st.SLEEPING?
       case KWait => st.SLEEPING? && chan == ChildOf(p)
       case KExit => st.ZOMBIE?)
    case XRelease => cpu >= 0 && st.ZOMBIE?
    case Back(k) => cpu >= 0 && st.RUNNING? && !k.KExit? && (k.KYield? ==> Interruptible(k.at))
    case YieldLocked(at) => cpu >= 0 && st.RUNNING? && Interruptible(at)
    case _ => cpu >= 0 && st.RUNNING?
  }

  predicate Counted(st: PState, exits: nat, frees: nat) {
    exits == frees + if st.ZOMBIE? then 1 else 0
  }

  predicate LocalOk(s: State, p: nat) {
    p < |s.procs| &&
    var P := s.procs[p];
    Fits(p, P.state, P.pc, P.cpu, P.chan) && Counted(P.state, P.exits, P.frees)
  }

  predicate Table(s: State) {
    forall p: nat :: p < |s.procs| ==> LocalOk(s, p)
  }

  predicate CpuOk(s: State, c: nat) {
    c < |s.cpus| &&
    var C := s.cpus[c];
    if C.on == -1 then
      match C.sched
      case Scan => C.proc == -1
      case Locked(q) => C.proc == -1 && q < |s.procs|
      case Return(q) => C.proc == q && q < |s.procs| && s.procs[q].cpu == -1
      case Release(q) => C.proc == -1 && q < |s.procs|
    else
      0 <= C.on < |s.procs| && C.proc == C.on && C.sched == Return(C.on) && s.procs[C.on].cpu == c
  }

  predicate StackOk(s: State, p: nat) {
    p < |s.procs| &&
    var c := s.procs[p].cpu;
    c == -1 || (0 <= c < |s.cpus| && s.cpus[c].on == p)
  }

  /** Every CPU executes on the stack of at most one process, and every process on at most one CPU. */
  predicate Hands(s: State) {
    (forall c: nat :: c < |s.cpus| ==> CpuOk(s, c)) &&
    forall p: nat :: p < |s.procs| ==> StackOk(s, p)
  }

  predicate HolderOk(s: State, c: nat) {
    c < |s.cpus| &&
    var p := Held(s, c);
    p == -1 || (0 <= p < |s.procs| && s.procs[p].lock == c)
  }

  predicate LockOk(s: State, p: nat) {
    p < |s.procs| &&
    var c := s.procs[p].lock;
    c == -1 || (0 <= c < |s.cpus| && Held(s, c) == p)
  }

  predicate Locks(s: State) {
    (forall c: nat :: c < |s.cpus| ==> HolderOk(s, c)) &&
    forall p: nat :: p < |s.procs| ==> LockOk(s, p)
  }

  predicate WaitOwner(s: State) {
    (s.waitLock == -1 || (s.waitLock >= 0 && HoldsWait(s, s.waitLock))) &&
    forall c: nat :: c < |s.cpus| && HoldsWait(s, c) ==> s.waitLock == c
  }

  predicate ForkOk(s: State, p: nat) {
    p < |s.procs| &&
    var pc := Place(s.procs[p].pc);
    InFork(pc) ==>
      pc.child < |s.procs| && pc.child != p && s.procs[pc.child].state.USED? &&
      s.procs[pc.child].parent == if pc.Fork3? then p else -1
  }

  predicate ForksApart(s: State, p: nat, q: nat)
    requires p < |s.procs| && q < |s.procs|
  {
    var pc, pc' := Place(s.procs[p].pc), Place(s.procs[q].pc);
    InFork(pc) && InFork(pc') ==> pc.child != pc'.child
  }

  /** A process under construction belongs to one `fork`. */
  predicate Forks(s: State) {
    (forall p: nat :: p < |s.procs| ==> ForkOk(s, p)) &&
    forall p: nat, q: nat :: p < |s.procs| && q < |s.procs| && p != q ==> ForksApart(s, p, q)
  }

  /** A process whose code is at `pc` in `exit` no longer has `q` as a child. */
  predicate Disowned(pc: Pc, q: nat) {
    match pc
    case XReparent(i) => q < i
    case XWakeInit(i, _) => q <= i
    case XWakeParent(_) => true
    case XLockSelf => true
    case XZombie => true
    case XRelease => true
    case InSched(k) => k.KExit?
    case _ => false
  }

  /** Every process that exists, except the first, has a living parent that has not disowned it. */
  predicate ParentOk(s: State, q: nat) {
    q < |s.procs| &&
    var par := s.procs[q].parent;
    if par == -1 then s.procs[q].state.UNUSED? || s.procs[q].state.USED? || q == s.init
    else
      0 <= par < |s.procs| && par != q && !s.procs[q].state.UNUSED? &&
      Live(s.procs[par].state) && !Disowned(s.procs[par].pc, q) &&
      (s.procs[q].state.USED? ==> Place(s.procs[par].pc) == Fork3(q))
  }

  /** The first process has no parent and never exits. */
  predicate FirstOk(s: State) {
    s.init < |s.procs| && s.procs[s.init].parent == -1 && Live(s.procs[s.init].state) &&
    !InExit(Place(s.procs[s.init].pc)) && s.procs[s.init].pc != InSched(KExit)
  }

  predicate Kin(s: State) {
    FirstOk(s) && forall q: nat :: q < |s.procs| ==> ParentOk(s, q)
  }

  /** The process has seen that no child has exited and will not look again until it is woken. */
  predicate Asleep(pc: Pc, st: PState) {
    pc.WSleep1? || pc.WSleep2? || pc.WSleep3? || pc == InSched(KWait) || (pc == Suspended(KWait) && st.SLEEPING?)
  }

  /** Some process has given a child to `init` and has not yet reached `init` in its wakeup loop. */
  predicate Waking(s: State) {
    0 <= s.waitLock < |s.cpus| && Runs(s, s.waitLock) &&
    var pc := s.procs[s.cpus[s.waitLock].on].pc;
    pc.XWakeInit? && pc.j <= s.init
  }

  /** `wait` has looked at child `q`. */
  predicate Passed(pc: Pc, q: nat) {
    match pc
    case WScan(i, _) => q < i
    case WLocked(i) => q < i
    case _ => false
  }

  /** The process has woken its parent and not yet become a zombie. */
  predicate Announced(pc: Pc, parent: int) {
    (pc.XWakeParent? && pc.j > parent) || pc.XLockSelf? || pc.XZombie?
  }

  /** The exit of `q` is not missed by its parent. */
  predicate NoticeOk(s: State, q: nat) {
    q < |s.procs| &&
    var Q := s.procs[q];
    0 <= Q.parent < |s.procs| ==>
      var P := s.procs[Q.parent];
      (Q.state.ZOMBIE? ==> !Passed(P.pc, q) && (Asleep(P.pc, P.state) ==> Q.parent == s.init && Waking(s))) &&
      (P.pc.WScan? && !P.pc.kids ==> !Passed(P.pc, q)) &&
      (Announced(Q.pc, Q.parent) ==> !Asleep(P.pc, P.state))
  }

  predicate LookingOk(s: State, p: nat) {
    p < |s.procs| &&
    var pc := s.procs[p].pc;
    (pc.WLocked? ==> pc.i < |s.procs| && s.procs[pc.i].parent == p) && (pc.WFreed? ==> pc.i < |s.procs| && pc.i != p)
  }

  predicate Reap(s: State) {
    (forall q: nat :: q < |s.procs| ==> NoticeOk(s, q)) &&
    forall p: nat :: p < |s.procs| ==> LookingOk(s, p)
  }

  predicate Inv(s: State) {
    Table(s) && Hands(s) && Locks(s) && WaitOwner(s) && Forks(s) && Kin(s) && Reap(s)
  }

  lemma BootInv(s: State)
    requires Boot(s)
    ensures Inv(s)
  {
  }

  // ----- What a step can change -----

  /** From `s` to `t` only CPU `c` and the processes `a` and `b` have changed. */
  predicate Touches(s: State, t: State, c: nat, a: nat, b: nat) {
    |t.procs| == |s.procs| && |t.cpus| == |s.cpus| && t.init == s.init &&
    c < |s.cpus| && a < |s.procs| && b < |s.procs| &&
    (forall p: nat :: p < |s.procs| && p != a && p != b ==> t.procs[p] == s.procs[p]) &&
    forall d: nat :: d < |s.cpus| && d != c ==> t.cpus[d] == s.cpus[d]
  }

  /** CPU `c` moves the code of process `x` only if no other CPU executes it, and takes its lock only if
      it is free or its own. */
  predicate Polite(s: State, t: State, c: nat, x: nat)
    requires |t.procs| == |s.procs| && c < |t.cpus| && x < |s.procs|
  {
    var X, Y := s.procs[x], t.procs[x];
    (Y.pc == X.pc || X.cpu == -1 || X.cpu == c) &&
    (Y.lock == X.lock || ((X.lock == -1 || X.lock == c) && (Y.lock == -1 || Y.lock == c))) &&
    (Y.lock == c ==> Held(t, c) == x)
  }

  lemma OthersHold(s: State, t: State, c: nat, a: nat, b: nat, d: nat)
    requires Hands(s) && Touches(s, t, c, a, b) && Polite(s, t, c, a) && Polite(s, t, c, b)
    requires d < |s.cpus| && d != c
    ensures Held(t, d) == Held(s, d) && HoldsWait(t, d) == HoldsWait(s, d)
  {
    assert CpuOk(s, d);
  }

  lemma LocksStep(s: State, t: State, c: nat, a: nat, b: nat)
    requires Hands(s) && Locks(s) && Touches(s, t, c, a, b) && Polite(s, t, c, a) && Polite(s, t, c, b)
    requires HolderOk(t, c)
    requires Held(s, c) == Held(t, c) || Held(s, c) == -1 || Held(s, c) == a || Held(s, c) == b
    ensures Locks(t)
  {
    forall d: nat | d < |t.cpus| ensures HolderOk(t, d) {
      if d != c {
        OthersHold(s, t, c, a, b, d);
        assert HolderOk(s, d);
      }
    }
    forall p: nat | p < |t.procs| ensures LockOk(t, p) {
      assert LockOk(s, p);
      var d := t.procs[p].lock;
      if d != -1 && d != c {
        OthersHold(s, t, c, a, b, d);
      } else if d == c && p != a && p != b {
        assert Held(s, c) == p;
      }
    }
  }

  lemma WaitOwnerStep(s: State, t: State, c: nat, a: nat, b: nat)
    requires Hands(s) && WaitOwner(s) && Touches(s, t, c, a, b) && Polite(s, t, c, a) && Polite(s, t, c, b)
    requires t.waitLock == s.waitLock || ((s.waitLock == -1 || s.waitLock == c) &&
               (t.waitLock == -1 || t.waitLock == c))
    requires HoldsWait(t, c) <==> t.waitLock == c
    ensures WaitOwner(t)
  {
    forall d: nat | d < |t.cpus| && HoldsWait(t, d) ensures t.waitLock == d {
      if d != c {
        OthersHold(s, t, c, a, b, d);
      }
    }
    if t.waitLock != -1 && t.waitLock != c {
      OthersHold(s, t, c, a, b, t.waitLock);
    }
  }

  lemma TableStep(s: State, t: State, c: nat, a: nat, b: nat)
    requires Table(s) && Touches(s, t, c, a, b) && LocalOk(t, a) && LocalOk(t, b)
    ensures Table(t)
  {
    forall p: nat | p < |t.procs| ensures LocalOk(t, p) {
      assert LocalOk(s, p);
    }
  }

  /** Process `x` gets onto a stack or off it only by the hand of CPU `c`, which then has its lock. */
  predicate Handed(s: State, t: State, c: nat, x: nat)
    requires |t.procs| == |s.procs| && x < |s.procs|
  {
    var X, Y := s.procs[x], t.procs[x];
    Y.cpu == X.cpu || (X.lock == c && ((X.cpu == c && Y.cpu == -1) || (X.cpu == -1 && Y.cpu == c)))
  }

  lemma HandsStep(s: State, t: State, c: nat, a: nat, b: nat)
    requires Hands(s) && Locks(s) && Touches(s, t, c, a, b) && Handed(s, t, c, a) && Handed(s, t, c, b)
    requires CpuOk(t, c) && StackOk(t, a) && StackOk(t, b)
    requires s.cpus[c].on == t.cpus[c].on || s.cpus[c].on == -1 || s.cpus[c].on == a
    ensures Hands(t)
  {
    forall d: nat | d < |t.cpus| ensures CpuOk(t, d) {
      if d != c {
        assert CpuOk(s, d) && HolderOk(s, d);
      }
    }
    forall p: nat | p < |t.procs| ensures StackOk(t, p) {
      assert StackOk(s, p);
    }
  }

  /** A process under construction is changed only by the `fork` that builds it, run by process `a`. */
  predicate Spared(s: State, t: State, a: nat, x: nat)
    requires |t.procs| == |s.procs| && a < |s.procs| && x < |s.procs|
  {
    var X, Y := s.procs[x], t.procs[x];
    var pc := Place(s.procs[a].pc);
    X.state.USED? ==> (Y.state == X.state && Y.parent == X.parent) || (InFork(pc) && pc.child == x)
  }

  lemma ForksStep(s: State, t: State, c: nat, a: nat, b: nat)
    requires Forks(s) && Touches(s, t, c, a, b) && Spared(s, t, a, a) && Spared(s, t, a, b)
    requires ForkOk(t, a)
    requires b == a || (InFork(Place(t.procs[b].pc)) ==> Place(t.procs[b].pc) == Place(s.procs[b].pc))
    requires var pc, pc' := Place(s.procs[a].pc), Place(t.procs[a].pc);
             InFork(pc') ==>
               (InFork(pc) && pc.child == pc'.child) || (pc'.child < |s.procs| && !s.procs[pc'.child].state.USED?)
    ensures Forks(t)
  {
    forall p: nat | p < |t.procs| ensures ForkOk(t, p) {
      assert ForkOk(s, p);
      if p != a {
        assert ForksApart(s, p, a);
      }
    }
    forall p: nat, q: nat | p < |t.procs| && q < |t.procs| && p != q ensures ForksApart(t, p, q) {
      assert ForksApart(s, p, q) && ForkOk(s, p) && ForkOk(s, q);
    }
  }

  lemma WaitHolder(s: State, p: nat)
    requires Table(s) && Hands(s) && WaitOwner(s) && p < |s.procs| && WaitLockAt(s.procs[p].pc)
    ensures s.waitLock == s.procs[p].cpu >= 0
  {
    assert LocalOk(s, p) && StackOk(s, p);
    assert HoldsWait(s, s.procs[p].cpu);
  }

  /** A runnable process whose lock CPU `c` holds from its scheduler is not executing anywhere. */
  lemma RunnableIsOff(s: State, c: nat, q: nat)
    requires Inv(s) && c < |s.cpus| && s.cpus[c].on == -1 && q < |s.procs| && s.procs[q].lock == c &&
             s.procs[q].state.RUNNABLE?
    ensures s.procs[q].pc.Suspended? && s.procs[q].cpu == -1 && !s.procs[q].pc.k.KExit?
  {
    assert LocalOk(s, q) && StackOk(s, q);
    assert s.procs[q].cpu >= 0 ==> HolderOk(s, s.procs[q].cpu);
  }

  /** What the invariant says about CPU `c` and process `x`. */
  predicate Known(s: State, c: nat, x: nat) {
    CpuOk(s, c) && HolderOk(s, c) && StackOk(s, x) && LockOk(s, x)
  }

  /** A step of CPU `c` that keeps tables, stacks and locks in order. */
  predicate Orderly(s: State, t: State, c: nat, a: nat, b: nat) {
    Touches(s, t, c, a, b) && CpuOk(t, c) && HolderOk(t, c) && StackOk(t, a) && StackOk(t, b) &&
    Handed(s, t, c, a) && Handed(s, t, c, b) && Polite(s, t, c, a) && Polite(s, t, c, b) &&
    (s.cpus[c].on == t.cpus[c].on || s.cpus[c].on == -1 || s.cpus[c].on == a) &&
    (Held(s, c) == Held(t, c) || Held(s, c) == -1 || Held(s, c) == a || Held(s, c) == b) &&
    (t.waitLock == s.waitLock || ((s.waitLock == -1 || s.waitLock == c) && (t.waitLock == -1 || t.waitLock == c))) &&
    (HoldsWait(t, c) <==> t.waitLock == c)
  }

  lemma OrderlyStep(s: State, t: State, c: nat, a: nat, b: nat)
    requires Inv(s) && Orderly(s, t, c, a, b) && LocalOk(t, a) && LocalOk(t, b)
    ensures Table(t) && Hands(t) && Locks(t) && WaitOwner(t)
  {
    TableStep(s, t, c, a, b);
    HandsStep(s, t, c, a, b);
    LocksStep(s, t, c, a, b);
    WaitOwnerStep(s, t, c, a, b);
  }

  // ----- Steps that do not concern families or exits -----

  /** As a child and as a parent, the process stays what it is. */
  predicate KinQuiet(X: Proc, Y: Proc) {
    Y.parent == X.parent && (Y.state == X.state || (Live(X.state) && Live(Y.state))) &&
    (Y.pc == X.pc ||
     ((Y.pc.XAcquire? || !InExit(Y.pc)) && Y.pc != InSched(KExit) &&
      (Place(Y.pc) == Place(X.pc) || (!Place(X.pc).Fork3? && !InExit(Place(Y.pc))))))
  }

  predicate ForkQuiet(X: Proc, Y: Proc) {
    (X.state.USED? ==> Y.state.USED? && Y.parent == X.parent) && (InFork(Place(Y.pc)) ==> Place(Y.pc) == Place(X.pc))
  }

  /** The process hides nothing from its parent and misses nothing of its children. */
  predicate ReapQuiet(X: Proc, Y: Proc) {
    Y.parent == X.parent && (Y.state.ZOMBIE? ==> X.state.ZOMBIE?) &&
    (Announced(Y.pc, Y.parent) ==> Announced(X.pc, X.parent)) &&
    (Asleep(Y.pc, Y.state) ==> Asleep(X.pc, X.state)) && (Y.pc.WScan? || Y.pc.WLocked? ==> Y.pc == X.pc)
  }

  lemma QuietForks(s: State, t: State, c: nat, a: nat, b: nat)
    requires Forks(s) && Touches(s, t, c, a, b) && ForkQuiet(s.procs[a], t.procs[a]) &&
             ForkQuiet(s.procs[b], t.procs[b])
    ensures Forks(t)
  {
    assert ForkOk(s, a);
    ForksStep(s, t, c, a, b);
  }

  lemma QuietParent(s: State, t: State, c: nat, a: nat, b: nat, q: nat)
    requires Touches(s, t, c, a, b) && KinQuiet(s.procs[a], t.procs[a]) && KinQuiet(s.procs[b], t.procs[b])
    requires ParentOk(s, q)
    ensures ParentOk(t, q)
  {
  }

  lemma QuietKin(s: State, t: State, c: nat, a: nat, b: nat)
    requires Kin(s) && Touches(s, t, c, a, b) && KinQuiet(s.procs[a], t.procs[a]) && KinQuiet(s.procs[b], t.procs[b])
    ensures Kin(t)
  {
    forall q: nat | q < |t.procs| ensures ParentOk(t, q) {
      assert ParentOk(s, q);
      QuietParent(s, t, c, a, b, q);
    }
  }

  /** The wakeup of `init` is still to come, or is not needed. */
  predicate StillWaking(s: State, t: State)
    requires s.init < |t.procs|
  {
    Waking(s) && Asleep(t.procs[s.init].pc, t.procs[s.init].state) ==> Waking(t)
  }

  lemma QuietNotice(s: State, t: State, c: nat, a: nat, b: nat, q: nat)
    requires Touches(s, t, c, a, b) && ReapQuiet(s.procs[a], t.procs[a]) && ReapQuiet(s.procs[b], t.procs[b])
    requires s.init < |t.procs| && StillWaking(s, t)
    requires NoticeOk(s, q)
    ensures NoticeOk(t, q)
  {
  }

  /** The parent of `b` changes only while process `a`, on CPU `c`, holds `wait_lock` or could take it. */
  lemma LookingStep(s: State, t: State, c: nat, a: nat, b: nat)
    requires Table(s) && Hands(s) && WaitOwner(s) && Reap(s) && Touches(s, t, c, a, b)
    requires LookingOk(t, a) && (t.procs[b].pc.WLocked? || t.procs[b].pc.WFreed? ==> t.procs[b].pc == s.procs[b].pc)
    requires t.procs[a].parent == s.procs[a].parent
    requires t.procs[b].parent == s.procs[b].parent || (s.cpus[c].on == a && (s.waitLock == c || s.waitLock == -1))
    ensures forall q: nat :: q < |t.procs| ==> LookingOk(t, q)
  {
    forall p: nat | p < |t.procs| ensures LookingOk(t, p) {
      if p != a {
        assert LookingOk(s, p);
        if s.procs[p].pc.WLocked? {
          WaitHolder(s, p);
          assert StackOk(s, p);
        }
      }
    }
  }

  lemma QuietReap(s: State, t: State, c: nat, a: nat, b: nat)
    requires Inv(s) && Touches(s, t, c, a, b) && ReapQuiet(s.procs[a], t.procs[a]) && ReapQuiet(s.procs[b], t.procs[b])
    requires StillWaking(s, t)
    requires LookingOk(t, a) && (t.procs[b].pc.WLocked? || t.procs[b].pc.WFreed? ==> t.procs[b].pc == s.procs[b].pc)
    ensures Reap(t)
  {
    LookingStep(s, t, c, a, b);
    forall q: nat | q < |t.procs| ensures NoticeOk(t, q) {
      assert NoticeOk(s, q);
      QuietNotice(s, t, c, a, b, q);
    }
  }

  /** The process that is waking `init` is not disturbed by another CPU. */
  lemma WakingElsewhere(s: State, t: State, c: nat, a: nat, b: nat)
    requires Inv(s) && Orderly(s, t, c, a, b) && s.waitLock != c && t.waitLock == s.waitLock
    ensures StillWaking(s, t)
  {
    if Waking(s) {
      assert CpuOk(s, s.waitLock);
    }
  }

  predicate Quiet(X: Proc, Y: Proc) {
    KinQuiet(X, Y) && ForkQuiet(X, Y) && ReapQuiet(X, Y) && (Y.pc.WLocked? || Y.pc.WFreed? ==> Y.pc == X.pc)
  }

  lemma QuietStep(s: State, t: State, c: nat, a: nat, b: nat)
    requires Inv(s) && Orderly(s, t, c, a, b) && LocalOk(t, a) && LocalOk(t, b)
    requires Quiet(s.procs[a], t.procs[a]) && Quiet(s.procs[b], t.procs[b]) && StillWaking(s, t)
    ensures Inv(t)
  {
    OrderlyStep(s, t, c, a, b);
    QuietForks(s, t, c, a, b);
    QuietKin(s, t, c, a, b);
    assert LookingOk(s, a);
    QuietReap(s, t, c, a, b);
  }

  // ----- The scheduler -----

  lemma SchedOrderly(s: State, c: nat, p: nat, q: nat)
    requires SchedEnabled(s, c, p) && q == (if s.cpus[c].sched.Scan? then p else s.cpus[c].sched.p)
    requires Known(s, c, q) && s.waitLock != c
    requires s.cpus[c].sched.Locked? && s.procs[q].state.RUNNABLE? ==>
               s.procs[q].pc.Suspended? && s.procs[q].cpu == -1 && !s.procs[q].pc.k.KExit?
    ensures Orderly(s, SchedStep(s, c, p), c, q, q)
  {
  }

  lemma SchedQuiet(s: State, c: nat, p: nat, q: nat)
    requires SchedEnabled(s, c, p) && q == (if s.cpus[c].sched.Scan? then p else s.cpus[c].sched.p) && LocalOk(s, q)
    requires s.cpus[c].sched.Locked? && s.procs[q].state.RUNNABLE? ==>
               s.procs[q].pc.Suspended? && !s.procs[q].pc.k.KExit?
    ensures LocalOk(SchedStep(s, c, p), q) && Quiet(s.procs[q], SchedStep(s, c, p).procs[q])
  {
  }

  lemma SchedKeepsInv(s: State, c: nat, p: nat)
    requires Inv(s) && SchedEnabled(s, c, p)
    ensures Inv(SchedStep(s, c, p))
  {
    var t := SchedStep(s, c, p);
    assert CpuOk(s, c) && HolderOk(s, c);
    var q := if s.cpus[c].sched.Scan? then p else s.cpus[c].sched.p;
    assert Known(s, c, q);
    if s.cpus[c].sched.Locked? && s.procs[q].state.RUNNABLE? {
      RunnableIsOff(s, c, q);
    }
    SchedOrderly(s, c, p, q);
    SchedQuiet(s, c, p, q);
    WakingElsewhere(s, t, c, q, q);
    QuietStep(s, t, c, q, q);
  }

  // ----- Process code -----

  /** What process `p`, about to take a step on CPU `c`, holds. */
  predicate Acting(s: State, c: nat, p: nat, b: nat) {
    p < |s.procs| && b < |s.procs| &&
    var X, pc := s.procs[p], s.procs[p].pc;
    X.cpu == c && (X.lock == c <==> LockAt(p, pc) == p) && (s.procs[b].lock == c <==> LockAt(p, pc) == b) &&
    (WaitLockAt(pc) <==> s.waitLock == c)
  }

  lemma ActingFacts(s: State, c: nat, b: nat)
    requires Inv(s) && Runs(s, c) && b < |s.procs|
    ensures Acting(s, c, s.cpus[c].on, b)
  {
    assert CpuOk(s, c) && HolderOk(s, c);
    var p := s.cpus[c].on;
    assert LockOk(s, p) && LockOk(s, b);
    assert HoldsWait(s, c) <==> WaitLockAt(s.procs[p].pc);
  }

  /** Stacks stay, and locks go from free or held by `c` to free or held by `c`. */
  predicate Moved(X: Proc, Y: Proc, c: nat) {
    Y.cpu == X.cpu && (Y.lock == X.lock || ((X.lock == -1 || X.lock == c) && (Y.lock == -1 || Y.lock == c)))
  }

  /** The step leaves process `p` holding exactly the locks that its new place in the code says. */
  predicate Tidy(s: State, c: nat, p: nat, ch: Change) {
    p < |s.procs| && ch.other < |s.procs| &&
    var X, Q, at := s.procs[p], s.procs[ch.other], LockAt(p, ch.mine.pc);
    Moved(X, ch.mine, c) && (ch.mine.lock == c <==> at == p) && (at == -1 || at == p || at == ch.other) &&
    (LockAt(p, X.pc) == -1 || LockAt(p, X.pc) == p || LockAt(p, X.pc) == ch.other) &&
    (if ch.other == p then ch.its == ch.mine
     else Moved(Q, ch.its, c) && (ch.its.lock == c <==> at == ch.other) && (ch.its.pc == Q.pc || Q.cpu == -1)) &&
    (ch.waitLock == s.waitLock || ((s.waitLock == -1 || s.waitLock == c) && (ch.waitLock == -1 || ch.waitLock == c))) &&
    (WaitLockAt(ch.mine.pc) <==> ch.waitLock == c)
  }

  lemma TidyIsOrderly(s: State, c: nat, p: nat, ch: Change)
    requires Inv(s) && Runs(s, c) && s.cpus[c].on == p && Tidy(s, c, p, ch)
    ensures Orderly(s, Apply(s, p, ch), c, p, ch.other)
  {
    assert CpuOk(s, c) && HolderOk(s, c) && StackOk(s, p) && StackOk(s, ch.other) && LockOk(s, p) &&
           LockOk(s, ch.other);
  }

  predicate Sleeps(Q: Proc) {
    Q.lock == -1 && Q.state.SLEEPING? ==> Q.pc.Suspended?
  }

  lemma SleeperIsOff(s: State, x: nat)
    requires Inv(s) && x < |s.procs|
    ensures Sleeps(s.procs[x])
  {
    assert LocalOk(s, x) && StackOk(s, x);
    assert s.procs[x].cpu >= 0 ==> HolderOk(s, s.procs[x].cpu);
  }

  lemma CallTidy(s: State, c: nat, p: nat, call: Call)
    requires p < |s.procs| && CallEnabled(s, p, call) && Acting(s, c, p, CallStep(s, c, p, call).other)
    requires call.Fork? ==> s.procs[call.np].cpu == -1 && call.np != p
    ensures Tidy(s, c, p, CallStep(s, c, p, call))
  {
  }

  lemma SwitchTidy(s: State, c: nat, p: nat)
    requires Acting(s, c, p, p) && InSwitch(s.procs[p].pc) && FitsIn(p, s.procs[p])
    ensures Tidy(s, c, p, SwitchStep(s, p))
  {
  }

  predicate InWait(pc: Pc) {
    !InSwitch(pc) && !InExit(pc) && !InFork(pc) && !pc.InSched?
  }

  lemma WaitTidy(s: State, c: nat, p: nat, ok: bool)
    requires p < |s.procs| && GoEnabled(s, p) && Acting(s, c, p, WaitStep(s, c, p, ok).other) && InWait(s.procs[p].pc)
    requires s.procs[p].pc.WLocked? || s.procs[p].pc.WFreed? ==> s.procs[p].pc.i != p
    requires s.procs[p].parent != p
    ensures Tidy(s, c, p, WaitStep(s, c, p, ok))
  {
  }

  lemma ExitTidy(s: State, c: nat, p: nat)
    requires p < |s.procs| && GoEnabled(s, p) && Acting(s, c, p, ExitStep(s, c, p).other) && InExit(s.procs[p].pc)
    requires s.procs[p].parent != p
    ensures Tidy(s, c, p, ExitStep(s, c, p))
  {
  }

  lemma ForkTidy(s: State, c: nat, p: nat, ok: bool)
    requires p < |s.procs| && GoEnabled(s, p) && Acting(s, c, p, ForkStep(s, p, ok).other) && InFork(s.procs[p].pc)
    requires s.procs[p].pc.child != p
    ensures Tidy(s, c, p, ForkStep(s, p, ok))
  {
  }

  // ----- State and code stay in step -----

  predicate FitsIn(p: nat, P: Proc) {
    Fits(p, P.state, P.pc, P.cpu, P.chan) && Counted(P.state, P.exits, P.frees)
  }

  predicate Fitted(p: nat, ch: Change) {
    FitsIn(p, ch.mine) && FitsIn(ch.other, ch.its)
  }

  lemma CallFits(s: State, c: nat, p: nat, call: Call)
    requires p < |s.procs| && CallEnabled(s, p, call) && FitsIn(p, s.procs[p])
    requires var b := CallStep(s, c, p, call).other; FitsIn(b, s.procs[b]) && Sleeps(s.procs[b])
    ensures Fitted(p, CallStep(s, c, p, call))
  {
  }

  lemma SwitchFits(s: State, p: nat)
    requires p < |s.procs| && InSwitch(s.procs[p].pc) && FitsIn(p, s.procs[p])
    ensures Fitted(p, SwitchStep(s, p))
  {
  }

  lemma WaitFits(s: State, c: nat, p: nat, ok: bool)
    requires p < |s.procs| && GoEnabled(s, p) && InWait(s.procs[p].pc) && FitsIn(p, s.procs[p])
    requires var b := WaitStep(s, c, p, ok).other;
             FitsIn(b, s.procs[b]) && (s.procs[p].pc.WLocked? && s.procs[b].state.ZOMBIE? ==> s.procs[b].pc.Suspended?)
    ensures Fitted(p, WaitStep(s, c, p, ok))
  {
  }

  lemma ExitFits(s: State, c: nat, p: nat)
    requires p < |s.procs| && GoEnabled(s, p) && InExit(s.procs[p].pc) && FitsIn(p, s.procs[p])
    requires var b := ExitStep(s, c, p).other; FitsIn(b, s.procs[b]) && Sleeps(s.procs[b])
    ensures Fitted(p, ExitStep(s, c, p))
  {
  }

  lemma ForkFits(s: State, p: nat, ok: bool)
    requires p < |s.procs| && GoEnabled(s, p) && InFork(s.procs[p].pc) && FitsIn(p, s.procs[p])
    requires var b := s.procs[p].pc.child; FitsIn(b, s.procs[b]) && s.procs[b].state.USED?
    ensures Fitted(p, ForkStep(s, p, ok))
  {
  }

  lemma StepBasics(s: State, c: nat, p: nat, ch: Change)
    requires Inv(s) && Runs(s, c) && s.cpus[c].on == p && Tidy(s, c, p, ch) && Fitted(p, ch)
    ensures var t := Apply(s, p, ch);
            Orderly(s, t, c, p, ch.other) && LocalOk(t, p) && LocalOk(t, ch.other) &&
            Table(t) && Hands(t) && Locks(t) && WaitOwner(t)
  {
    TidyIsOrderly(s, c, p, ch);
    OrderlyStep(s, Apply(s, p, ch), c, p, ch.other);
  }

  // ----- Calls and context switches -----

  lemma CallQuiet(s: State, c: nat, p: nat, call: Call)
    requires p < |s.procs| && CallEnabled(s, p, call) && !call.Fork? && !call.Exit?
    ensures var ch := CallStep(s, c, p, call);
            Quiet(s.procs[p], ch.mine) && (if ch.other == p then ch.its == ch.mine
              else Quiet(s.procs[ch.other], ch.its)) &&
            ch.waitLock == s.waitLock
  {
  }

  lemma SwitchQuiet(s: State, p: nat)
    requires p < |s.procs| && InSwitch(s.procs[p].pc) && FitsIn(p, s.procs[p])
    ensures Quiet(s.procs[p], SwitchStep(s, p).mine) && SwitchStep(s, p) == Alone(s, p, SwitchStep(s, p).mine)
  {
  }

  lemma CallKeepsInv(s: State, c: nat, call: Call)
    requires Inv(s) && Enabled(s, Trap(c, call)) && !call.Fork? && !call.Exit?
    ensures Inv(Next(s, Trap(c, call)))
  {
    var p := s.cpus[c].on;
    var ch := CallStep(s, c, p, call);
    ActingFacts(s, c, ch.other);
    SleeperIsOff(s, ch.other);
    assert LocalOk(s, p) && LocalOk(s, ch.other);
    CallTidy(s, c, p, call);
    CallFits(s, c, p, call);
    CallQuiet(s, c, p, call);
    StepBasics(s, c, p, ch);
    WakingElsewhere(s, Apply(s, p, ch), c, p, ch.other);
    QuietStep(s, Apply(s, p, ch), c, p, ch.other);
  }

  lemma SwitchKeepsInv(s: State, c: nat)
    requires Inv(s) && Runs(s, c) && InSwitch(s.procs[s.cpus[c].on].pc)
    ensures Inv(Apply(s, s.cpus[c].on, SwitchStep(s, s.cpus[c].on)))
  {
    var p := s.cpus[c].on;
    var ch := SwitchStep(s, p);
    assert LocalOk(s, p);
    SwitchQuiet(s, p);
    ActingFacts(s, c, p);
    SwitchTidy(s, c, p);
    SwitchFits(s, p);
    StepBasics(s, c, p, ch);
    WakingElsewhere(s, Apply(s, p, ch), c, p, p);
    QuietStep(s, Apply(s, p, ch), c, p, p);
  }

  lemma SwtchOrderly(s: State, c: nat, p: nat)
    requires Known(s, c, p) && s.cpus[c].on == p && s.procs[p].pc.InSched? && s.waitLock != c
    ensures Orderly(s, SwtchStep(s, c, p), c, p, p)
  {
  }

  lemma SwtchKeepsInv(s: State, c: nat)
    requires Inv(s) && Runs(s, c) && s.procs[s.cpus[c].on].pc.InSched?
    ensures Inv(SwtchStep(s, c, s.cpus[c].on))
  {
    var p := s.cpus[c].on;
    var t := SwtchStep(s, c, p);
    ActingFacts(s, c, p);
    assert LocalOk(s, p) && Known(s, c, p);
    SwtchOrderly(s, c, p);
    WakingElsewhere(s, t, c, p, p);
    QuietStep(s, t, c, p, p);
  }

  // ----- `wait` -----

  /** Nobody but process `p` is between taking and releasing `wait_lock`. */
  predicate Excluded(s: State, p: nat, q: nat)
    requires q < |s.procs|
  {
    q != p ==> !WaitLockAt(s.procs[q].pc)
  }

  lemma Exclusion(s: State, c: nat, p: nat, q: nat)
    requires Inv(s) && Runs(s, c) && s.cpus[c].on == p && q < |s.procs| && (s.waitLock == c || s.waitLock == -1)
    ensures Excluded(s, p, q)
  {
    if WaitLockAt(s.procs[q].pc) {
      WaitHolder(s, q);
      assert StackOk(s, q);
    }
  }

  predicate Scanning(pc: Pc) {
    pc.WAcquire? || pc.WScan? || pc.WLocked?
  }

  lemma WaitQuiet(s: State, c: nat, p: nat, ok: bool)
    requires p < |s.procs| && GoEnabled(s, p) && InWait(s.procs[p].pc) && !Scanning(s.procs[p].pc) &&
             s.procs[p].state.RUNNING?
    requires LookingOk(s, p)
    ensures var ch := WaitStep(s, c, p, ok);
            Quiet(s.procs[p], ch.mine) && (if ch.other == p then ch.its == ch.mine
              else Quiet(s.procs[ch.other], ch.its))
  {
  }

  lemma ScanQuiet(s: State, c: nat, p: nat, ok: bool)
    requires p < |s.procs| && GoEnabled(s, p) && Scanning(s.procs[p].pc) && s.procs[p].state.RUNNING?
    ensures var ch := WaitStep(s, c, p, ok);
            KinQuiet(s.procs[p], ch.mine) && ForkQuiet(s.procs[p], ch.mine) &&
            (ch.other != p ==> ForkQuiet(s.procs[ch.other], ch.its) && ch.its.pc == s.procs[ch.other].pc)
  {
  }

  /** Freeing a zombie child orphans nobody. */
  lemma ScanParent(s: State, p: nat, ch: Change, q: nat)
    requires p < |s.procs| && ch.other < |s.procs| && ParentOk(s, q) && KinQuiet(s.procs[p], ch.mine)
    requires ch.other == p || ch.its.pc == s.procs[ch.other].pc
    requires ch.other == p || KinQuiet(s.procs[ch.other], ch.its) ||
             (!Live(s.procs[ch.other].state) && ch.its.state.UNUSED? && ch.its.parent == -1)
    ensures ParentOk(Apply(s, p, ch), q)
  {
  }

  lemma ScanNotice(s: State, c: nat, p: nat, i: nat, kids: bool, q: nat)
    requires p < |s.procs| && s.procs[p].pc == WScan(i, kids)
    requires NoticeOk(s, q) && s.procs[q].parent != q && Excluded(s, p, q)
    requires s.init < |s.procs| && StillWaking(s, Apply(s, p, ScanStep(s, c, p, i, kids)))
    ensures NoticeOk(Apply(s, p, ScanStep(s, c, p, i, kids)), q)
  {
  }

  lemma ChildNotice(s: State, p: nat, i: nat, ok: bool, q: nat)
    requires p < |s.procs| && i < |s.procs| && i != p && s.procs[p].pc == WLocked(i) && FitsIn(i, s.procs[i])
    requires NoticeOk(s, q) && Excluded(s, p, q)
    requires s.init < |s.procs| && StillWaking(s, Apply(s, p, ChildStep(s, p, i, ok)))
    ensures NoticeOk(Apply(s, p, ChildStep(s, p, i, ok)), q)
  {
  }

  lemma FirstLook(s: State, c: nat, p: nat, q: nat)
    requires p < |s.procs| && s.procs[p].pc == WAcquire && NoticeOk(s, q) && s.init < |s.procs| && s.waitLock == -1
    ensures NoticeOk(Apply(s, p, Alone(s, p, s.procs[p].(pc := WScan(0, false))).(waitLock := c)), q)
  {
  }

  /** `wait` has the lock of a child that is a zombie only once that child has left its stack. */
  lemma ZombieIsOff(s: State, c: nat, i: nat)
    requires Inv(s) && Runs(s, c) && i < |s.procs| && s.procs[s.cpus[c].on].pc == WLocked(i) && s.procs[i].state.ZOMBIE?
    ensures s.procs[i].pc == Suspended(KExit) && s.procs[i].cpu == -1
  {
    var p := s.cpus[c].on;
    assert CpuOk(s, c) && HolderOk(s, c) && LocalOk(s, i) && StackOk(s, i) && LookingOk(s, p) && ParentOk(s, i);
    assert s.procs[i].cpu >= 0 ==> HolderOk(s, s.procs[i].cpu);
  }

  lemma WaitBasics(s: State, c: nat, ok: bool)
    requires Inv(s) && Runs(s, c) && GoEnabled(s, s.cpus[c].on) && InWait(s.procs[s.cpus[c].on].pc)
    ensures var p := s.cpus[c].on;
            Tidy(s, c, p, WaitStep(s, c, p, ok)) && Fitted(p, WaitStep(s, c, p, ok)) && s.procs[p].state.RUNNING? &&
            LookingOk(s, p)
  {
    var p := s.cpus[c].on;
    var b := WaitStep(s, c, p, ok).other;
    ActingFacts(s, c, b);
    assert LocalOk(s, p) && LocalOk(s, b) && LookingOk(s, p) && ParentOk(s, p) && ParentOk(s, b);
    if s.procs[p].pc.WLocked? && s.procs[b].state.ZOMBIE? {
      ZombieIsOff(s, c, b);
    }
    WaitTidy(s, c, p, ok);
    WaitFits(s, c, p, ok);
  }

  /** Where `wait` is, nobody is waking `init`. */
  lemma WaitStillWaking(s: State, c: nat, ok: bool)
    requires Inv(s) && Runs(s, c) && GoEnabled(s, s.cpus[c].on) && InWait(s.procs[s.cpus[c].on].pc)
    requires var p := s.cpus[c].on; Orderly(s, Apply(s, p, WaitStep(s, c, p, ok)), c, p, WaitStep(s, c, p, ok).other)
    ensures StillWaking(s, Apply(s, s.cpus[c].on, WaitStep(s, c, s.cpus[c].on, ok)))
  {
    var p := s.cpus[c].on;
    if Waking(s) {
      WakingElsewhere(s, Apply(s, p, WaitStep(s, c, p, ok)), c, p, WaitStep(s, c, p, ok).other);
    }
  }

  lemma RestKeepsInv(s: State, c: nat, ok: bool)
    requires Inv(s) && Runs(s, c) && GoEnabled(s, s.cpus[c].on)
    requires InWait(s.procs[s.cpus[c].on].pc) && !Scanning(s.procs[s.cpus[c].on].pc)
    ensures Inv(Apply(s, s.cpus[c].on, WaitStep(s, c, s.cpus[c].on, ok)))
  {
    var p := s.cpus[c].on;
    var ch := WaitStep(s, c, p, ok);
    WaitBasics(s, c, ok);
    WaitQuiet(s, c, p, ok);
    StepBasics(s, c, p, ch);
    WaitStillWaking(s, c, ok);
    QuietStep(s, Apply(s, p, ch), c, p, ch.other);
  }

  lemma ScanSees(s: State, c: nat, ok: bool, q: nat)
    requires Inv(s) && Runs(s, c) && GoEnabled(s, s.cpus[c].on) && Scanning(s.procs[s.cpus[c].on].pc) && q < |s.procs|
    requires StillWaking(s, Apply(s, s.cpus[c].on, WaitStep(s, c, s.cpus[c].on, ok)))
    ensures NoticeOk(Apply(s, s.cpus[c].on, WaitStep(s, c, s.cpus[c].on, ok)), q)
  {
    var p := s.cpus[c].on;
    ActingFacts(s, c, p);
    assert ParentOk(s, q) && NoticeOk(s, q) && LookingOk(s, p);
    Exclusion(s, c, p, q);
    match s.procs[p].pc
    case WAcquire => FirstLook(s, c, p, q);
    case WScan(i, kids) => ScanNotice(s, c, p, i, kids, q);
    case WLocked(i) =>
      assert LocalOk(s, i) && ParentOk(s, i);
      ChildNotice(s, p, i, ok, q);
  }

  lemma ScanKin(s: State, c: nat, p: nat, ok: bool)
    requires Kin(s) && p < |s.procs| && GoEnabled(s, p) && Scanning(s.procs[p].pc) && s.procs[p].state.RUNNING?
    ensures Kin(Apply(s, p, WaitStep(s, c, p, ok)))
  {
    var ch := WaitStep(s, c, p, ok);
    ScanQuiet(s, c, p, ok);
    forall q: nat | q < |s.procs| ensures ParentOk(Apply(s, p, ch), q) {
      assert ParentOk(s, q);
      ScanParent(s, p, ch, q);
    }
  }

  lemma ScanLooks(s: State, c: nat, p: nat, ok: bool)
    requires p < |s.procs| && GoEnabled(s, p) && Scanning(s.procs[p].pc) && LookingOk(s, p)
    requires s.procs[p].parent != p
    ensures var ch := WaitStep(s, c, p, ok);
            LookingOk(Apply(s, p, ch), p) && ch.mine.parent == s.procs[p].parent &&
            (ch.other != p ==> ch.its.parent == s.procs[ch.other].parent || s.procs[p].pc.WLocked?)
  {
  }

  lemma ScanReap(s: State, c: nat, ok: bool)
    requires Inv(s) && Runs(s, c) && GoEnabled(s, s.cpus[c].on) && Scanning(s.procs[s.cpus[c].on].pc)
    requires s.procs[s.cpus[c].on].state.RUNNING?
    requires var p := s.cpus[c].on; Orderly(s, Apply(s, p, WaitStep(s, c, p, ok)), c, p, WaitStep(s, c, p, ok).other)
    ensures Reap(Apply(s, s.cpus[c].on, WaitStep(s, c, s.cpus[c].on, ok)))
  {
    var p := s.cpus[c].on;
    var ch := WaitStep(s, c, p, ok);
    var t := Apply(s, p, ch);
    WaitStillWaking(s, c, ok);
    forall q: nat | q < |t.procs| ensures NoticeOk(t, q) {
      ScanSees(s, c, ok, q);
    }
    ActingFacts(s, c, p);
    assert LookingOk(s, p) && ParentOk(s, p);
    ScanLooks(s, c, p, ok);
    ScanQuiet(s, c, p, ok);
    LookingStep(s, t, c, p, ch.other);
  }

  lemma ScanKeepsInv(s: State, c: nat, ok: bool)
    requires Inv(s) && Runs(s, c) && GoEnabled(s, s.cpus[c].on) && Scanning(s.procs[s.cpus[c].on].pc)
    ensures Inv(Apply(s, s.cpus[c].on, WaitStep(s, c, s.cpus[c].on, ok)))
  {
    var p := s.cpus[c].on;
    var ch := WaitStep(s, c, p, ok);
    WaitBasics(s, c, ok);
    StepBasics(s, c, p, ch);
    ScanKin(s, c, p, ok);
    ScanReap(s, c, ok);
    ScanQuiet(s, c, p, ok);
    QuietForks(s, Apply(s, p, ch), c, p, ch.other);
  }

  // ----- `exit` -----

  lemma ExitForks(s: State, c: nat, p: nat)
    requires p < |s.procs| && GoEnabled(s, p) && InExit(s.procs[p].pc) && FitsIn(p, s.procs[p])
    requires ParentOk(s, ExitStep(s, c, p).other)
    ensures var ch := ExitStep(s, c, p);
            ForkQuiet(s.procs[p], ch.mine) && (ch.other != p ==> ForkQuiet(s.procs[ch.other], ch.its))
  {
  }

  lemma ReparentParent(s: State, p: nat, i: nat, q: nat)
    requires p < |s.procs| && s.procs[p].pc == XReparent(i) && FirstOk(s) && ParentOk(s, q)
    requires s.procs[p].parent != p
    ensures ParentOk(Apply(s, p, ReparentStep(s, p, i)), q)
  {
  }

  /** A process goes on in `exit` without giving up a child; one that becomes a zombie has none. */
  lemma OnwardParent(s: State, p: nat, ch: Change, q: nat)
    requires p < |s.procs| && ch.other < |s.procs| && ParentOk(s, q) && InExit(s.procs[p].pc)
    requires Disowned(ch.mine.pc, q) ==> Disowned(s.procs[p].pc, q)
    requires ch.mine.parent == s.procs[p].parent >= 0
    requires ch.mine.state == s.procs[p].state || (ch.mine.state.ZOMBIE? && Disowned(s.procs[p].pc, q))
    requires ch.other == p || KinQuiet(s.procs[ch.other], ch.its)
    ensures ParentOk(Apply(s, p, ch), q)
  {
  }

  lemma ExitParent(s: State, c: nat, p: nat, q: nat)
    requires p < |s.procs| && GoEnabled(s, p) && InExit(s.procs[p].pc) && FirstOk(s) && ParentOk(s, q)
    requires s.procs[p].parent != p && s.procs[p].parent >= 0
    ensures ParentOk(Apply(s, p, ExitStep(s, c, p)), q)
  {
    if s.procs[p].pc.XReparent? {
      ReparentParent(s, p, s.procs[p].pc.i, q);
    } else {
      OnwardParent(s, p, ExitStep(s, c, p), q);
    }
  }

  /** Process `j` is not asleep in `wait` once the loop of a `wakeup` on its channel has been past it. */
  predicate Roused(s: State, j: nat)
    requires j < |s.procs|
  {
    var Q := Woken(s.procs[j], ChildOf(j)); !Asleep(Q.pc, Q.state)
  }

  lemma Rouses(s: State, p: nat, j: nat)
    requires Inv(s) && j < |s.procs| && j != p && Unlocked(s, j) && Excluded(s, p, j)
    ensures Roused(s, j)
  {
    assert LocalOk(s, j) && StackOk(s, j);
    assert s.procs[j].cpu >= 0 ==> HolderOk(s, s.procs[j].cpu);
  }

  /** Giving a zombie to `init` is noticed, because `init` is woken next. */
  lemma ReparentNotice(s: State, c: nat, p: nat, i: nat, q: nat)
    requires Runs(s, c) && s.cpus[c].on == p && s.waitLock == c && s.procs[p].pc == XReparent(i) && FirstOk(s)
    requires NoticeOk(s, q) && ParentOk(s, p) && s.procs[q].parent != q && Excluded(s, p, q) && Excluded(s, p, s.init)
    ensures NoticeOk(Apply(s, p, ExitStep(s, c, p)), q)
  {
  }

  lemma WakeInitNotice(s: State, c: nat, p: nat, i: nat, j: nat, q: nat)
    requires Runs(s, c) && s.cpus[c].on == p && s.waitLock == c && s.procs[p].pc == XWakeInit(i, j) && j < |s.procs| &&
             FirstOk(s)
    requires GoEnabled(s, p)
    requires NoticeOk(s, q) && (j == s.init ==> Roused(s, j))
    ensures NoticeOk(Apply(s, p, ExitStep(s, c, p)), q)
  {
  }

  lemma WakeParentNotice(s: State, c: nat, p: nat, j: nat, q: nat)
    requires Runs(s, c) && s.cpus[c].on == p && s.waitLock == c && s.procs[p].pc == XWakeParent(j) && j < |s.procs| &&
             FirstOk(s)
    requires GoEnabled(s, p)
    requires s.procs[p].parent >= 0 && s.procs[p].parent != p
    requires NoticeOk(s, q) && (j == s.procs[p].parent ==> Roused(s, j))
    ensures NoticeOk(Apply(s, p, ExitStep(s, c, p)), q)
  {
  }

  /** A process becomes a zombie only when its parent is neither asleep nor in the middle of a scan. */
  lemma ZombieNotice(s: State, c: nat, p: nat, q: nat)
    requires p < |s.procs| && s.procs[p].pc.XZombie? && NoticeOk(s, p) && NoticeOk(s, q) && !Waking(s)
    requires 0 <= s.procs[p].parent < |s.procs| && s.procs[p].parent != p && Excluded(s, p, s.procs[p].parent)
    ensures NoticeOk(Apply(s, p, ExitStep(s, c, p)), q)
  {
  }

  predicate Leaving(s: State, pc: Pc) {
    pc.XAcquire? || pc.XLockSelf? || pc.XRelease? || (pc.XWakeInit? && pc.j >= |s.procs|) ||
    (pc.XWakeParent? && pc.j >= |s.procs|)
  }

  lemma LeavingNotice(s: State, c: nat, p: nat, q: nat)
    requires p < |s.procs| && GoEnabled(s, p) && Leaving(s, s.procs[p].pc) && NoticeOk(s, q) && !Waking(s)
    requires 0 <= s.procs[p].parent < |s.procs|
    ensures NoticeOk(Apply(s, p, ExitStep(s, c, p)), q)
  {
  }

  /** Whom the next turn of the wakeup loops in `exit` wakes for good. */
  predicate Rousing(s: State, p: nat)
    requires p < |s.procs|
  {
    match s.procs[p].pc
    case XWakeInit(_, j) => j == s.init && j < |s.procs| ==> Roused(s, j)
    case XWakeParent(j) => j == s.procs[p].parent && j < |s.procs| ==> Roused(s, j)
    case _ => true
  }

  lemma ExitNotice(s: State, c: nat, p: nat, q: nat)
    requires Runs(s, c) && s.cpus[c].on == p && GoEnabled(s, p) && InExit(s.procs[p].pc) && FirstOk(s) && Rousing(s, p)
    requires s.waitLock == if s.procs[p].pc.XAcquire? then -1 else c
    requires ParentOk(s, p) && ParentOk(s, q) && NoticeOk(s, p) && NoticeOk(s, q) && s.procs[p].parent >= 0
    requires Excluded(s, p, q) && Excluded(s, p, s.procs[p].parent) && Excluded(s, p, s.init)
    ensures NoticeOk(Apply(s, p, ExitStep(s, c, p)), q)
  {
    match s.procs[p].pc {
      case XReparent(i) => ReparentNotice(s, c, p, i, q);
      case XWakeInit(i, j) =>
        if j < |s.procs| {
          WakeInitNotice(s, c, p, i, j, q);
        } else {
          LeavingNotice(s, c, p, q);
        }
      case XWakeParent(j) =>
        if j < |s.procs| {
          WakeParentNotice(s, c, p, j, q);
        } else {
          LeavingNotice(s, c, p, q);
        }
      case XZombie => ZombieNotice(s, c, p, q);
      case _ => LeavingNotice(s, c, p, q);
    }
  }

  lemma ExitSees(s: State, c: nat, q: nat)
    requires Inv(s) && Runs(s, c) && GoEnabled(s, s.cpus[c].on) && InExit(s.procs[s.cpus[c].on].pc) && q < |s.procs|
    ensures NoticeOk(Apply(s, s.cpus[c].on, ExitStep(s, c, s.cpus[c].on)), q)
  {
    var p := s.cpus[c].on;
    ActingFacts(s, c, p);
    assert ParentOk(s, p) && ParentOk(s, q) && NoticeOk(s, p) && NoticeOk(s, q);
    assert s.procs[p].parent >= 0 by { assert LocalOk(s, p); }
    Exclusion(s, c, p, q);
    Exclusion(s, c, p, s.procs[p].parent);
    Exclusion(s, c, p, s.init);
    assert Rousing(s, p) by {
      if s.procs[p].pc.XWakeInit? && s.procs[p].pc.j == s.init {
        Rouses(s, p, s.init);
      } else if s.procs[p].pc.XWakeParent? && s.procs[p].pc.j == s.procs[p].parent {
        Rouses(s, p, s.procs[p].parent);
      }
    }
    ExitNotice(s, c, p, q);
  }

  lemma ExitLooks(s: State, c: nat, p: nat)
    requires p < |s.procs| && GoEnabled(s, p) && InExit(s.procs[p].pc) && s.procs[p].parent != p
    ensures var ch := ExitStep(s, c, p);
            !ch.mine.pc.WLocked? && !ch.mine.pc.WFreed? && ch.mine.parent == s.procs[p].parent &&
            (ch.other == p || (ch.its.pc == s.procs[ch.other].pc &&
                               (ch.its.parent == s.procs[ch.other].parent || s.procs[p].pc.XReparent?)))
  {
  }

  lemma ExitBasics(s: State, c: nat)
    requires Inv(s) && Runs(s, c) && GoEnabled(s, s.cpus[c].on) && InExit(s.procs[s.cpus[c].on].pc)
    ensures var p := s.cpus[c].on; Tidy(s, c, p, ExitStep(s, c, p)) && Fitted(p, ExitStep(s, c, p))
    ensures var p := s.cpus[c].on; s.procs[p].parent != p && s.procs[p].parent >= 0
  {
    var p := s.cpus[c].on;
    var b := ExitStep(s, c, p).other;
    ActingFacts(s, c, b);
    SleeperIsOff(s, b);
    assert LocalOk(s, p) && LocalOk(s, b) && ParentOk(s, p);
    ExitTidy(s, c, p);
    ExitFits(s, c, p);
  }

  lemma ExitKeepsInv(s: State, c: nat)
    requires Inv(s) && Runs(s, c) && GoEnabled(s, s.cpus[c].on) && InExit(s.procs[s.cpus[c].on].pc)
    ensures Inv(Apply(s, s.cpus[c].on, ExitStep(s, c, s.cpus[c].on)))
  {
    var p := s.cpus[c].on;
    var ch := ExitStep(s, c, p);
    var t := Apply(s, p, ch);
    ExitBasics(s, c);
    StepBasics(s, c, p, ch);
    assert Forks(t) by {
      assert LocalOk(s, p) && ParentOk(s, ch.other);
      ExitForks(s, c, p);
      QuietForks(s, t, c, p, ch.other);
    }
    forall q: nat | q < |t.procs| ensures ParentOk(t, q) && NoticeOk(t, q) {
      assert ParentOk(s, q);
      ExitParent(s, c, p, q);
      ExitSees(s, c, q);
    }
    ExitFirst(s, c, p);
    assert Reap(t) by {
      ActingFacts(s, c, p);
      ExitLooks(s, c, p);
      LookingStep(s, t, c, p, ch.other);
    }
  }

  lemma ExitFirst(s: State, c: nat, p: nat)
    requires p < |s.procs| && GoEnabled(s, p) && InExit(s.procs[p].pc) && FirstOk(s)
    ensures FirstOk(Apply(s, p, ExitStep(s, c, p)))
  {
  }

  // ----- `fork` -----

  lemma ForkKinds(s: State, p: nat, ok: bool)
    requires p < |s.procs| && GoEnabled(s, p) && InFork(s.procs[p].pc) && ForkOk(s, p)
    requires FitsIn(p, s.procs[p]) && FitsIn(s.procs[p].pc.child, s.procs[s.procs[p].pc.child])
    ensures var ch := ForkStep(s, p, ok);
            ForkOk(Apply(s, p, ch), p) && ReapQuiet(s.procs[p], ch.mine) && !ch.mine.pc.WLocked? &&
            !ch.mine.pc.WFreed? &&
            ch.its.pc == s.procs[ch.other].pc && !InFork(ch.its.pc) && !Asleep(ch.its.pc, ch.its.state) &&
            !ch.its.state.ZOMBIE? &&
            (InFork(ch.mine.pc) ==> ch.mine.pc.child == s.procs[p].pc.child)
  {
  }

  lemma ForkParent(s: State, p: nat, ok: bool, q: nat)
    requires p < |s.procs| && GoEnabled(s, p) && InFork(s.procs[p].pc) && ForkOk(s, p) && ParentOk(s, q)
    requires s.procs[p].state.RUNNING?
    ensures ParentOk(Apply(s, p, ForkStep(s, p, ok)), q)
  {
  }

  lemma ForkNotice(s: State, p: nat, ok: bool, q: nat)
    requires p < |s.procs| && GoEnabled(s, p) && InFork(s.procs[p].pc) && ForkOk(s, p) && NoticeOk(s, q)
    requires var b := s.procs[p].pc.child; FitsIn(b, s.procs[b])
    requires s.init < |s.procs| && StillWaking(s, Apply(s, p, ForkStep(s, p, ok)))
    ensures NoticeOk(Apply(s, p, ForkStep(s, p, ok)), q)
  {
  }

  lemma ForkBasics(s: State, c: nat, ok: bool)
    requires Inv(s) && Runs(s, c) && GoEnabled(s, s.cpus[c].on) && InFork(s.procs[s.cpus[c].on].pc)
    ensures var p := s.cpus[c].on;
            Tidy(s, c, p, ForkStep(s, p, ok)) && Fitted(p, ForkStep(s, p, ok)) && ForkOk(s, p) &&
            s.procs[p].state.RUNNING? &&
            FitsIn(p, s.procs[p]) && FitsIn(s.procs[p].pc.child, s.procs[s.procs[p].pc.child]) && s.waitLock != c
  {
    var p := s.cpus[c].on;
    var b := s.procs[p].pc.child;
    ActingFacts(s, c, b);
    assert ForkOk(s, p) && LocalOk(s, p) && LocalOk(s, b);
    ForkTidy(s, c, p, ok);
    ForkFits(s, p, ok);
  }

  lemma ForkKin(s: State, p: nat, ok: bool)
    requires Kin(s) && p < |s.procs| && GoEnabled(s, p) && InFork(s.procs[p].pc) && ForkOk(s, p) &&
             s.procs[p].state.RUNNING?
    ensures Kin(Apply(s, p, ForkStep(s, p, ok)))
  {
    forall q: nat | q < |s.procs| ensures ParentOk(Apply(s, p, ForkStep(s, p, ok)), q) {
      assert ParentOk(s, q);
      ForkParent(s, p, ok, q);
    }
  }

  lemma ForkReap(s: State, c: nat, p: nat, ok: bool)
    requires Inv(s) && p < |s.procs| && GoEnabled(s, p) && InFork(s.procs[p].pc) && ForkOk(s, p) && c < |s.cpus| &&
             s.cpus[c].on == p
    requires FitsIn(p, s.procs[p]) && FitsIn(s.procs[p].pc.child, s.procs[s.procs[p].pc.child]) && s.waitLock != c
    requires Orderly(s, Apply(s, p, ForkStep(s, p, ok)), c, p, ForkStep(s, p, ok).other)
    ensures Reap(Apply(s, p, ForkStep(s, p, ok)))
  {
    var t := Apply(s, p, ForkStep(s, p, ok));
    ForkKinds(s, p, ok);
    WakingElsewhere(s, t, c, p, ForkStep(s, p, ok).other);
    LookingStep(s, t, c, p, ForkStep(s, p, ok).other);
    forall q: nat | q < |t.procs| ensures NoticeOk(t, q) {
      assert NoticeOk(s, q);
      ForkNotice(s, p, ok, q);
    }
  }

  lemma ForkKeepsInv(s: State, c: nat, ok: bool)
    requires Inv(s) && Runs(s, c) && GoEnabled(s, s.cpus[c].on) && InFork(s.procs[s.cpus[c].on].pc)
    ensures Inv(Apply(s, s.cpus[c].on, ForkStep(s, s.cpus[c].on, ok)))
  {
    var p := s.cpus[c].on;
    var ch := ForkStep(s, p, ok);
    ForkBasics(s, c, ok);
    StepBasics(s, c, p, ch);
    ForkKin(s, p, ok);
    ForkReap(s, c, p, ok);
    ForkKinds(s, p, ok);
    ForksStep(s, Apply(s, p, ch), c, p, ch.other);
  }

  lemma ForkCallParent(s: State, c: nat, p: nat, np: nat, q: nat)
    requires p < |s.procs| && CallEnabled(s, p, Fork(np)) && ParentOk(s, q) && s.procs[p].state.RUNNING?
    ensures ParentOk(Apply(s, p, CallStep(s, c, p, Fork(np))), q)
  {
  }

  lemma ForkCallBasics(s: State, c: nat, p: nat, np: nat)
    requires Inv(s) && Runs(s, c) && p == s.cpus[c].on && CallEnabled(s, p, Fork(np))
    ensures var ch := CallStep(s, c, p, Fork(np));
            Tidy(s, c, p, ch) && Fitted(p, ch) && s.procs[p].state.RUNNING? && s.waitLock != c && np != p &&
            ReapQuiet(s.procs[np], ch.its) && ForkOk(Apply(s, p, ch), p)
  {
    ActingFacts(s, c, np);
    SleeperIsOff(s, np);
    assert LocalOk(s, p) && LocalOk(s, np) && ParentOk(s, np);
    CallTidy(s, c, p, Fork(np));
    CallFits(s, c, p, Fork(np));
  }

  lemma ForkCallKeepsInv(s: State, c: nat, np: nat)
    requires Inv(s) && Enabled(s, Trap(c, Fork(np)))
    ensures Inv(Next(s, Trap(c, Fork(np))))
  {
    var p := s.cpus[c].on;
    var ch := CallStep(s, c, p, Fork(np));
    var t := Apply(s, p, ch);
    ForkCallBasics(s, c, p, np);
    StepBasics(s, c, p, ch);
    assert Forks(t) by { ForksStep(s, t, c, p, np); }
    assert Reap(t) by {
      WakingElsewhere(s, t, c, p, np);
      QuietReap(s, t, c, p, np);
    }
    forall q: nat | q < |t.procs| ensures ParentOk(t, q) {
      assert ParentOk(s, q);
      ForkCallParent(s, c, p, np, q);
    }
  }

  lemma ExitCallParent(s: State, p: nat, q: nat)
    requires p < |s.procs| && s.procs[p].pc.Run? && ParentOk(s, q)
    ensures ParentOk(Apply(s, p, Alone(s, p, s.procs[p].(pc := XAcquire))), q)
  {
  }

  lemma ExitCallKeepsInv(s: State, c: nat)
    requires Inv(s) && Enabled(s, Trap(c, Exit))
    ensures Inv(Next(s, Trap(c, Exit)))
  {
    var p := s.cpus[c].on;
    var ch := CallStep(s, c, p, Exit);
    var t := Apply(s, p, ch);
    ActingFacts(s, c, p);
    SleeperIsOff(s, p);
    assert LocalOk(s, p);
    CallTidy(s, c, p, Exit);
    CallFits(s, c, p, Exit);
    StepBasics(s, c, p, ch);
    QuietForks(s, t, c, p, p);
    WakingElsewhere(s, t, c, p, p);
    forall q: nat | q < |t.procs| ensures ParentOk(t, q) {
      assert ParentOk(s, q);
      ExitCallParent(s, p, q);
    }
    QuietReap(s, t, c, p, p);
  }

  // ----- Wakeups by interrupt handlers and other code -----

  lemma WakeOrderly(s: State, c: nat, q: nat)
    requires Enabled(s, Wake(c, q)) && Known(s, c, q) && (HoldsWait(s, c) <==> s.waitLock == c)
    ensures Orderly(s, Next(s, Wake(c, q)), c, q, q)
  {
  }

  lemma WakeQuiet(s: State, c: nat, q: nat)
    requires Enabled(s, Wake(c, q)) && LocalOk(s, q) && Sleeps(s.procs[q])
    ensures LocalOk(Next(s, Wake(c, q)), q) && Quiet(s.procs[q], Next(s, Wake(c, q)).procs[q])
  {
  }

  lemma WakeKeepsInv(s: State, c: nat, q: nat)
    requires Inv(s) && Enabled(s, Wake(c, q))
    ensures Inv(Next(s, Wake(c, q)))
  {
    var t := Next(s, Wake(c, q));
    assert CpuOk(s, c) && HolderOk(s, c) && StackOk(s, q) && LockOk(s, q) && LocalOk(s, q);
    SleeperIsOff(s, q);
    WakeOrderly(s, c, q);
    WakeQuiet(s, c, q);
    WakingElsewhere(s, t, c, q, q);
    QuietStep(s, t, c, q, q);
  }

  // ----- Every reachable state -----

  lemma GoKeepsInv(s: State, c: nat, ok: bool)
    requires Inv(s) && Enabled(s, Go(c, ok))
    ensures Inv(Next(s, Go(c, ok)))
  {
    var pc := s.procs[s.cpus[c].on].pc;
    if pc.InSched? {
      SwtchKeepsInv(s, c);
    } else if InSwitch(pc) {
      SwitchKeepsInv(s, c);
    } else if InExit(pc) {
      ExitKeepsInv(s, c);
    } else if InFork(pc) {
      ForkKeepsInv(s, c, ok);
    } else if Scanning(pc) {
      ScanKeepsInv(s, c, ok);
    } else {
      RestKeepsInv(s, c, ok);
    }
  }

  lemma NextKeepsInv(s: State, e: Event)
    requires Inv(s) && Enabled(s, e)
    ensures Inv(Next(s, e))
  {
    match e
    case Sched(c, p) => SchedKeepsInv(s, c, p);
    case Go(c, ok) => GoKeepsInv(s, c, ok);
    case Wake(c, q) => WakeKeepsInv(s, c, q);
    case Trap(c, call) =>
      if call.Fork? {
        ForkCallKeepsInv(s, c, call.np);
      } else if call.Exit? {
        ExitCallKeepsInv(s, c);
      } else {
        CallKeepsInv(s, c, call);
      }
  }

  lemma {:induction false} RunKeepsInv(s: State, es: seq<Event>)
    requires Inv(s) && IsRun(s, es)
    ensures Inv(After(s, es))
    decreases |es|
  {
    if es != [] {
      NextKeepsInv(s, es[0]);
      RunKeepsInv(Next(s, es[0]), es[1..]);
    }
  }

  /** Mutual exclusion: after any run, a CPU holds exactly the locks its code says it holds. In
      particular no code takes a lock it has already and none releases a lock it has not. */
  lemma LocksExact(s0: State, es: seq<Event>, c: nat)
    requires Boot(s0) && IsRun(s0, es) && c < |s0.cpus|
    ensures var s := After(s0, es);
            c < |s.cpus| && (s.waitLock == c <==> HoldsWait(s, c)) &&
            forall p: nat :: p < |s.procs| ==> (s.procs[p].lock == c <==> Held(s, c) == p)
  {
    BootInv(s0);
    RunKeepsInv(s0, es);
    SameSize(s0, es);
    var s := After(s0, es);
    assert HolderOk(s, c);
    forall p: nat | p < |s.procs| ensures s.procs[p].lock == c <==> Held(s, c) == p {
      assert LockOk(s, p);
    }
  }

  lemma {:induction false} SameSize(s: State, es: seq<Event>)
    requires IsRun(s, es)
    ensures var t := After(s, es); |t.procs| == |s.procs| && |t.cpus| == |s.cpus| && t.init == s.init
    decreases |es|
  {
    if es != [] {
      SameSize(Next(s, es[0]), es[1..]);
    }
  }

  /** The scheduler's hand-off: whenever nobody holds the lock of `p`, it is RUNNING exactly when it is the
      current process of some CPU, that CPU is the only one and executes on its stack, and no CPU executes
      on the stack of a process that is not RUNNING. */
  lemma HandOff(s0: State, es: seq<Event>, p: nat)
    requires Boot(s0) && IsRun(s0, es) && p < |After(s0, es).procs|
    ensures var s := After(s0, es);
            Unlocked(s, p) ==>
              (s.procs[p].state.RUNNING? <==> exists c: nat :: c < |s.cpus| && s.cpus[c].proc == p) &&
              (forall c: nat, d: nat :: c < |s.cpus| && d < |s.cpus| && s.cpus[c].proc == p && s.cpus[d].proc == p ==>
                c == d) &&
              (forall c: nat :: c < |s.cpus| ==> (s.cpus[c].proc == p <==> s.cpus[c].on == p))
  {
    BootInv(s0);
    RunKeepsInv(s0, es);
    var s := After(s0, es);
    if Unlocked(s, p) {
      assert LocalOk(s, p) && StackOk(s, p);
      forall c: nat | c < |s.cpus| ensures s.cpus[c].proc == p <==> s.cpus[c].on == p {
        assert CpuOk(s, c) && HolderOk(s, c);
      }
      forall c: nat | c < |s.cpus| && s.cpus[c].proc == p ensures s.procs[p].cpu == c && s.procs[p].state.RUNNING? {
        assert CpuOk(s, c) && HolderOk(s, c);
      }
    }
  }

  /** The panics in `sched` and after it in `exit` cannot happen: the caller holds its own process lock and
      no other lock, has left state RUNNING, and a zombie is never resumed. */
  lemma SchedNeverPanics(s0: State, es: seq<Event>, c: nat)
    requires Boot(s0) && IsRun(s0, es) && Runs(After(s0, es), c)
    ensures var s := After(s0, es);
            var p := s.cpus[c].on;
            s.procs[p].pc != Back(KExit) &&
            (s.procs[p].pc.InSched? ==>
               s.procs[p].lock == c && s.waitLock != c && !s.procs[p].state.RUNNING? &&
               forall q: nat :: q < |s.procs| && s.procs[q].lock == c ==> q == p)
  {
    BootInv(s0);
    RunKeepsInv(s0, es);
    var s := After(s0, es);
    var p := s.cpus[c].on;
    ActingFacts(s, c, p);
    assert LocalOk(s, p);
    forall q: nat | q < |s.procs| && s.procs[q].lock == c ensures Held(s, c) == q {
      assert LockOk(s, q);
    }
  }

  /** No child exit is missed: after any run, a process that sleeps in `wait`, or is about to, has a zombie
      child only if it is the first process, it has just been given that child, and the process that gave
      it is still about to wake it. In particular, never while `wait_lock` is free. */
  lemma NoLostExit(s0: State, es: seq<Event>, p: nat, q: nat)
    requires Boot(s0) && IsRun(s0, es)
    requires var s := After(s0, es);
             p < |s.procs| && q < |s.procs| && s.procs[q].parent == p && s.procs[q].state.ZOMBIE?
    ensures var s := After(s0, es); Asleep(s.procs[p].pc, s.procs[p].state) ==>
              p == s.init && Waking(s) && s.waitLock != -1
  {
    BootInv(s0);
    RunKeepsInv(s0, es);
    assert NoticeOk(After(s0, es), q);
  }

  /** `wait` gives up for want of children only if there are none. */
  lemma NoChildrenIsTrue(s0: State, es: seq<Event>, p: nat)
    requires Boot(s0) && IsRun(s0, es)
    requires var s := After(s0, es);
             p < |s.procs| && s.procs[p].pc.WScan? && s.procs[p].pc.i >= |s.procs| && !s.procs[p].pc.kids
    ensures var s := After(s0, es); forall q: nat :: q < |s.procs| ==> s.procs[q].parent != p
  {
    BootInv(s0);
    RunKeepsInv(s0, es);
    var s := After(s0, es);
    forall q: nat | q < |s.procs| ensures s.procs[q].parent != p {
      assert NoticeOk(s, q);
    }
  }

  /** Families: after any run every process other than the first has a living parent, which is another
      process, so every zombie can be waited for; and a zombie or unused process has no children. */
  lemma NoOrphans(s0: State, es: seq<Event>, q: nat)
    requires Boot(s0) && IsRun(s0, es)
    requires var s := After(s0, es); q < |s.procs|
    ensures var s := After(s0, es);
            var par := s.procs[q].parent;
            (q != s.init && !s.procs[q].state.UNUSED? && !s.procs[q].state.USED? ==> 0 <= par < |s.procs|) &&
            (0 <= par < |s.procs| ==> par != q && Live(s.procs[par].state)) &&
            s.init < |s.procs| && Live(s.procs[s.init].state)
  {
    BootInv(s0);
    RunKeepsInv(s0, es);
    assert ParentOk(After(s0, es), q);
  }

  /** Every exit is collected at most once, and every zombie is one not yet collected. */
  lemma CollectedOnce(s0: State, es: seq<Event>, q: nat)
    requires Boot(s0) && IsRun(s0, es)
    requires var s := After(s0, es); q < |s.procs|
    ensures var s := After(s0, es); s.procs[q].exits == s.procs[q].frees + if s.procs[q].state.ZOMBIE? then 1 else 0
  {
    BootInv(s0);
    RunKeepsInv(s0, es);
    assert LocalOk(After(s0, es), q);
  }

  /** `wait` frees a process only when that process is a zombie that no CPU executes or will resume. */
  lemma FreedWhenOff(s0: State, es: seq<Event>, c: nat, i: nat)
    requires Boot(s0) && IsRun(s0, es)
    requires var s := After(s0, es);
             Runs(s, c) && i < |s.procs| && s.procs[s.cpus[c].on].pc == WLocked(i) && s.procs[i].state.ZOMBIE?
    ensures var s := After(s0, es); s.procs[i].pc == Suspended(KExit) && forall d: nat :: d < |s.cpus| ==>
            s.cpus[d].on != i
  {
    BootInv(s0);
    RunKeepsInv(s0, es);
    var s := After(s0, es);
    ZombieIsOff(s, c, i);
    forall d: nat | d < |s.cpus| ensures s.cpus[d].on != i {
      assert CpuOk(s, d);
    }
  }
}

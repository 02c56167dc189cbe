/** Processes, CPUs and their locks as a state machine: the scheduler's hand-off through `swtch`,
    `sleep` and `wakeup`, `fork`, `exit`, `wait` and `kill`, interleaved over any number of CPUs.
    A process lock is held by a CPU, because it is taken on one side of a context switch and released
    on the other. Between two steps other CPUs may run; a critical section that holds one process lock
    and nothing else is a single step. Wherever a CPU holds none of these locks a timer may make its
    process yield and a device may wake sleepers, in system calls and in the scheduler as well. */
module Procs {

  datatype PState = UNUSED | USED | SLEEPING | RUNNABLE | RUNNING | ZOMBIE

  /** From where a process entered `sched`, or that it has never run; one that yielded goes on at `at`. */
  datatype Kont = KFork | KYield(at: Pc) | KOther | KWait | KExit

  /** Where the kernel code of a process is. `W` is `wait`, `X` is `exit`. */
  datatype Pc =
    | Run
    | YieldLocked(at: Pc)
    | OtherLocked
    | InSched(k: Kont)
    | Suspended(k: Kont)
    | Back(k: Kont)
    | WAcquire
    | WScan(i: nat, kids: bool)
    | WLocked(i: nat)
    | WFreed(i: nat)
    | WUnlock
    | WSleep1
    | WSleep2
    | WSleep3
    | XAcquire
    | XReparent(i: nat)
    | XWakeInit(i: nat, j: nat)
    | XWakeParent(j: nat)
    | XLockSelf
    | XZombie
    | XRelease
    | Fork1(child: nat)
    | Fork2(child: nat)
    | Fork3(child: nat)

  /** What a sleeping process waits for: the exit of a child of process `p`, or something else. */
  datatype Chan = NoChan | ChildOf(p: nat) | Other

  /** `lock` is the CPU that holds the process lock and `cpu` the CPU that executes on the process's
      kernel stack, -1 for none; `parent` is -1 for none. `exits` counts how often this slot became a
      zombie and `frees` how often `wait` freed it. */
  datatype Proc = Proc(
    state: PState,
    chan: Chan,
    parent: int,
    killed: bool,
    lock: int,
    cpu: int,
    pc: Pc,
    exits: nat,
    frees: nat
  )

  /** Where a CPU's scheduler loop is; `Return(p)` is at its `swtch` to `p`. */
  datatype SchedPc = Scan | Locked(p: nat) | Return(p: nat) | Release(p: nat)

  /** `proc` is `c->proc`; `on` is the process on whose stack the CPU executes, -1 while it runs the
      scheduler. */
  datatype Cpu = Cpu(proc: int, on: int, sched: SchedPc)

  datatype State = State(procs: seq<Proc>, cpus: seq<Cpu>, waitLock: int, init: nat)

  /** No lock is held here, so interrupts are on. */
  predicate Interruptible(pc: Pc) {
    pc.Run? || pc.WAcquire? || pc.XAcquire? || pc.Fork2? || pc.Fork3?
  }

  /** Where the process is in its own code, seen through a yield. */
  function Place(pc: Pc): Pc {
    match pc
    case YieldLocked(at) => at
    case InSched(KYield(at)) => at
    case Suspended(KYield(at)) => at
    case Back(KYield(at)) => at
    case _ => pc
  }

  // ----- Locks -----

  /** The process lock held by code running as process `p` at `pc`; -1 for none. */
  function LockAt(p: nat, pc: Pc): int {
    match pc
    case YieldLocked(_) => p
    case OtherLocked => p
    case InSched(_) => p
    case Back(_) => p
    case WSleep2 => p
    case WSleep3 => p
    case XZombie => p
    case XRelease => p
    case WLocked(i) => i
    case WFreed(i) => i
    case Fork1(np) => np
    case _ => -1
  }

  function SchedLock(pc: SchedPc): int {
    match pc
    case Scan => -1
    case Locked(p) => p
    case Return(p) => p
    case Release(p) => p
  }

  predicate WaitLockAt(pc: Pc) {
    pc.WScan? || pc.WLocked? || pc.WFreed? || pc.WUnlock? || pc.WSleep1? || pc.WSleep2? || pc.XReparent? ||
    pc.XWakeInit? || pc.XWakeParent? || pc.XLockSelf? || pc.XZombie? || pc.XRelease?
  }

  predicate Runs(s: State, c: nat) {
    c < |s.cpus| && 0 <= s.cpus[c].on < |s.procs|
  }

  /** The process lock that CPU `c` holds; -1 for none. */
  function Held(s: State, c: nat): int
    requires c < |s.cpus|
  {
    if Runs(s, c) then LockAt(s.cpus[c].on, s.procs[s.cpus[c].on].pc) else SchedLock(s.cpus[c].sched)
  }

  predicate HoldsWait(s: State, c: nat) {
    Runs(s, c) && WaitLockAt(s.procs[s.cpus[c].on].pc)
  }

  // ----- Steps -----

  /** What user code or a timer makes a running process do next. */
  datatype Call = Yield | SleepOther | Wait | Exit | Fork(np: nat) | Kill(q: nat)

  /** CPU `c` makes its next step: in its scheduler loop (looking at `p` if it is scanning), in process
      code that has just been asked for `call`, or further on in a system call, where `ok` is the outcome
      of a memory operation; or code on it, perhaps an interrupt handler, wakes `q` from a sleep on some
      channel. */
  datatype Event = Sched(c: nat, p: nat) | Trap(c: nat, call: Call) | Go(c: nat, ok: bool) | Wake(c: nat, q: nat)

  predicate Unlocked(s: State, p: int) {
    0 <= p < |s.procs| && s.procs[p].lock == -1
  }

  /** The body of `wakeup`'s loop for process `j`, by process `p`, can run. */
  predicate CanWake(s: State, p: nat, j: nat) {
    j < |s.procs| && j != p ==> Unlocked(s, j)
  }

  predicate SchedEnabled(s: State, c: nat, p: nat) {
    c < |s.cpus| && s.cpus[c].on == -1 &&
    match s.cpus[c].sched
    case Scan => Unlocked(s, p)
    case Locked(q) => q < |s.procs|
    case Return(q) => true
    case Release(q) => q < |s.procs|
  }

  predicate CallEnabled(s: State, p: nat, call: Call)
    requires p < |s.procs|
  {
    (if call.Yield? then Interruptible(s.procs[p].pc) else s.procs[p].pc.Run?) &&
    match call
    case Yield => Unlocked(s, p)
    case SleepOther => Unlocked(s, p)
    case Wait => true
    case Exit => p != s.init
    case Fork(np) => Unlocked(s, np) && s.procs[np].state.UNUSED?
    case Kill(q) => Unlocked(s, q)
  }

  predicate GoEnabled(s: State, p: nat)
    requires p < |s.procs|
  {
    match s.procs[p].pc
    case Run => false
    case Suspended(_) => false
    case WAcquire => s.waitLock == -1
    case WScan(i, kids) => if i < |s.procs| then s.procs[i].parent == p ==> Unlocked(s, i) else kids ==> Unlocked(s, p)
    case WLocked(i) => i < |s.procs|
    case WFreed(i) => i < |s.procs|
    case WSleep1 => Unlocked(s, p)
    case XAcquire => s.waitLock == -1
    case XWakeInit(_, j) => CanWake(s, p, j)
    case XWakeParent(j) => CanWake(s, p, j)
    case XLockSelf => Unlocked(s, p)
    case Fork1(np) => np < |s.procs|
    case Fork2(np) => np < |s.procs| && s.waitLock == -1
    case Fork3(np) => Unlocked(s, np)
    case _ => true
  }

  predicate Enabled(s: State, e: Event) {
    match e
    case Sched(c, p) => SchedEnabled(s, c, p)
    case Trap(c, call) => Runs(s, c) && CallEnabled(s, s.cpus[c].on, call)
    case Go(c, ok) => Runs(s, c) && GoEnabled(s, s.cpus[c].on)
    case Wake(c, q) => c < |s.cpus| && Held(s, c) == -1 && !HoldsWait(s, c) && Unlocked(s, q)
  }

  function PutCpu(s: State, c: nat, C: Cpu): State
    requires c < |s.cpus|
  {
    s.(cpus := s.cpus[c := C])
  }

  function Put(s: State, p: nat, P: Proc): State
    requires p < |s.procs|
  {
    s.(procs := s.procs[p := P])
  }

  /** One step of `scheduler`. */
  function SchedStep(s: State, c: nat, p: nat): State
    requires SchedEnabled(s, c, p)
  {
    var C := s.cpus[c];
    match C.sched
    case Scan => PutCpu(Put(s, p, s.procs[p].(lock := c)), c, C.(sched := Locked(p)))
    case Locked(q) =>
      var P := s.procs[q];
      if P.state.RUNNABLE? then
        var pc := if P.pc.Suspended? then Back(P.pc.k) else P.pc;
        PutCpu(Put(s, q, P.(state := RUNNING, cpu := c, pc := pc)), c, Cpu(q, q, Return(q)))
      else PutCpu(s, c, C.(sched := Release(q)))
    case Return(q) => PutCpu(s, c, Cpu(-1, -1, Release(q)))
    case Release(q) => PutCpu(Put(s, q, s.procs[q].(lock := -1)), c, C.(sched := Scan))
  }

  /** What a step of process code does: the new record of the process itself, that of one other process,
      and the new holder of `wait_lock`. */
  datatype Change = Change(mine: Proc, other: nat, its: Proc, waitLock: int)

  function Apply(s: State, p: nat, ch: Change): State
    requires p < |s.procs| && ch.other < |s.procs|
  {
    s.(procs := s.procs[ch.other := ch.its][p := ch.mine], waitLock := ch.waitLock)
  }

  function Alone(s: State, p: nat, P: Proc): Change {
    Change(P, p, P, s.waitLock)
  }

  function Both(s: State, P: Proc, q: nat, Q: Proc): Change {
    Change(P, q, Q, s.waitLock)
  }

  /** The body of `wakeup`'s loop for a process. */
  function Woken(Q: Proc, chan: Chan): Proc {
    if Q.state.SLEEPING? && Q.chan == chan then Q.(state := RUNNABLE) else Q
  }

  function Killed(Q: Proc): Proc {
    Q.(killed := true, state := if Q.state.SLEEPING? then RUNNABLE else Q.state)
  }

  /** `freeproc`, as far as this model goes. */
  function Freed(P: Proc): Proc {
    P.(state := UNUSED, chan := NoChan, parent := -1, killed := false)
  }

  /** The first step of a system call or trap of process `p` on CPU `c`. */
  function CallStep(s: State, c: nat, p: nat, call: Call): (ch: Change)
    requires p < |s.procs| && CallEnabled(s, p, call)
    ensures ch.other < |s.procs|
  {
    var P := s.procs[p];
    match call
    case Yield => Alone(s, p, P.(lock := c, pc := YieldLocked(P.pc)))
    case SleepOther => Alone(s, p, P.(lock := c, pc := OtherLocked))
    case Wait => Alone(s, p, P.(pc := WAcquire))
    case Exit => Alone(s, p, P.(pc := XAcquire))
    case Fork(np) => Both(s, P.(pc := Fork1(np)), np, s.procs[np].(state := USED, lock := c, pc := Suspended(KFork)))
    case Kill(q) => if q == p then Alone(s, p, Killed(P)) else Both(s, P, q, Killed(s.procs[q]))
  }

  /** The way into `sched`, and what follows it in `yield`, `forkret` and `sleep`; the `sleep` in `wait`
      goes on to take `wait_lock` again. */
  function SwitchStep(s: State, p: nat): (ch: Change)
    requires p < |s.procs|
    ensures ch.other < |s.procs|
  {
    var P := s.procs[p];
    match P.pc
    case YieldLocked(at) => Alone(s, p, P.(state := RUNNABLE, pc := InSched(KYield(at))))
    case OtherLocked => Alone(s, p, P.(state := SLEEPING, chan := Other, pc := InSched(KOther)))
    case Back(k) =>
      if k.KWait? then Alone(s, p, P.(chan := NoChan, lock := -1, pc := WAcquire))
      else if k.KOther? then Alone(s, p, P.(chan := NoChan, lock := -1, pc := Run))
      else if k.KYield? then Alone(s, p, P.(lock := -1, pc := k.at))
      else Alone(s, p, P.(lock := -1, pc := Run))
    case _ => Alone(s, p, P)
  }

  /** The `swtch` in `sched`: CPU `c` leaves the stack of process `p` and goes on in its scheduler. */
  function SwtchStep(s: State, c: nat, p: nat): State
    requires c < |s.cpus| && p < |s.procs| && s.procs[p].pc.InSched?
  {
    var P := s.procs[p];
    PutCpu(Put(s, p, P.(cpu := -1, pc := Suspended(P.pc.k))), c, s.cpus[c].(on := -1))
  }

  /** One turn of the scan in `wait`, up to where it takes a child's lock. */
  function ScanStep(s: State, c: nat, p: nat, i: nat, kids: bool): (ch: Change)
    requires p < |s.procs|
    ensures ch.other < |s.procs|
  {
    var P := s.procs[p];
    if i < |s.procs| then
      if s.procs[i].parent == p then Both(s, P.(pc := WLocked(i)), i, s.procs[i].(lock := c))
      else Alone(s, p, P.(pc := WScan(i + 1, kids)))
    else if !kids || P.killed then Alone(s, p, P.(pc := WUnlock))
    else Alone(s, p, P.(pc := WSleep1))
  }

  /** What `wait` does with the child it has locked; `ok` says whether `copyout` succeeds. */
  function ChildStep(s: State, p: nat, i: nat, ok: bool): (ch: Change)
    requires p < |s.procs| && i < |s.procs|
    ensures ch.other < |s.procs|
  {
    var P, Q := s.procs[p], s.procs[i];
    if Q.state.ZOMBIE? then Both(s, P.(pc := WFreed(i)), i, if ok then Freed(Q).(frees := Q.frees + 1) else Q)
    else Both(s, P.(pc := WScan(i + 1, true)), i, Q.(lock := -1))
  }

  function WaitStep(s: State, c: nat, p: nat, ok: bool): (ch: Change)
    requires p < |s.procs| && GoEnabled(s, p)
    ensures ch.other < |s.procs|
  {
    var P := s.procs[p];
    match P.pc
    case WAcquire => Alone(s, p, P.(pc := WScan(0, false))).(waitLock := c)
    case WScan(i, kids) => ScanStep(s, c, p, i, kids)
    case WLocked(i) => ChildStep(s, p, i, ok)
    case WFreed(i) => Both(s, P.(pc := WUnlock), i, s.procs[i].(lock := -1))
    case WUnlock => Alone(s, p, P.(pc := Run)).(waitLock := -1)
    case WSleep1 => Alone(s, p, P.(lock := c, pc := WSleep2))
    case WSleep2 => Alone(s, p, P.(pc := WSleep3)).(waitLock := -1)
    case WSleep3 => Alone(s, p, P.(state := SLEEPING, chan := ChildOf(p), pc := InSched(KWait)))
    case _ => Alone(s, p, P)
  }

  /** One turn of the loop in `reparent`. */
  function ReparentStep(s: State, p: nat, i: nat): (ch: Change)
    requires p < |s.procs|
    ensures ch.other < |s.procs|
  {
    var P := s.procs[p];
    if i < |s.procs| then
      if s.procs[i].parent == p then Both(s, P.(pc := XWakeInit(i, 0)), i, s.procs[i].(parent := s.init))
      else Alone(s, p, P.(pc := XReparent(i + 1)))
    else Alone(s, p, P.(pc := XWakeParent(0)))
  }

  /** One turn of the loop in `wakeup`, which skips the caller: process `p` goes on to `pc`. */
  function WakeupStep(s: State, p: nat, pc: Pc, j: nat, chan: Chan): (ch: Change)
    requires p < |s.procs| && j < |s.procs|
    ensures ch.other < |s.procs|
  {
    if j == p then Alone(s, p, s.procs[p].(pc := pc)) else Both(s, s.procs[p].(pc := pc), j, Woken(s.procs[j], chan))
  }

  function ExitStep(s: State, c: nat, p: nat): (ch: Change)
    requires p < |s.procs| && GoEnabled(s, p)
    ensures ch.other < |s.procs|
  {
    var P := s.procs[p];
    match P.pc
    case XAcquire => Alone(s, p, P.(pc := XReparent(0))).(waitLock := c)
    case XReparent(i) => ReparentStep(s, p, i)
    case XWakeInit(i, j) =>
      if j < |s.procs| then WakeupStep(s, p, XWakeInit(i, j + 1), j, ChildOf(s.init))
      else Alone(s, p, P.(pc := XReparent(i + 1)))
    case XWakeParent(j) =>
      if j < |s.procs| then WakeupStep(s, p, XWakeParent(j + 1), j, if P.parent < 0 then NoChan else ChildOf(P.parent))
      else Alone(s, p, P.(pc := XLockSelf))
    case XLockSelf => Alone(s, p, P.(lock := c, pc := XZombie))
    case XZombie => Alone(s, p, P.(state := ZOMBIE, exits := P.exits + 1, pc := XRelease))
    case XRelease => Alone(s, p, P.(pc := InSched(KExit))).(waitLock := -1)
    case _ => Alone(s, p, P)
  }

  /** `ok` says whether the memory of the parent could be copied. Taking `wait_lock` to set the parent is
      one step. */
  function ForkStep(s: State, p: nat, ok: bool): (ch: Change)
    requires p < |s.procs| && GoEnabled(s, p)
    ensures ch.other < |s.procs|
  {
    var P := s.procs[p];
    match P.pc
    case Fork1(np) =>
      if ok then Both(s, P.(pc := Fork2(np)), np, s.procs[np].(lock := -1))
      else Both(s, P.(pc := Run), np, Freed(s.procs[np]).(lock := -1))
    case Fork2(np) => Both(s, P.(pc := Fork3(np)), np, s.procs[np].(parent := p))
    case Fork3(np) => Both(s, P.(pc := Run), np, s.procs[np].(state := RUNNABLE))
    case _ => Alone(s, p, P)
  }

  predicate InFork(pc: Pc) {
    pc.Fork1? || pc.Fork2? || pc.Fork3?
  }

  predicate InExit(pc: Pc) {
    pc.XAcquire? || pc.XReparent? || pc.XWakeInit? || pc.XWakeParent? || pc.XLockSelf? || pc.XZombie? || pc.XRelease?
  }

  predicate InSwitch(pc: Pc) {
    pc.YieldLocked? || pc.OtherLocked? || pc.Back?
  }

  function GoStep(s: State, c: nat, p: nat, ok: bool): (ch: Change)
    requires p < |s.procs| && GoEnabled(s, p)
    ensures ch.other < |s.procs|
  {
    var pc := s.procs[p].pc;
    if InSwitch(pc) then SwitchStep(s, p)
    else if InExit(pc) then ExitStep(s, c, p)
    else if InFork(pc) then ForkStep(s, p, ok)
    else WaitStep(s, c, p, ok)
  }

  function Next(s: State, e: Event): State
    requires Enabled(s, e)
  {
    match e
    case Sched(c, p) => SchedStep(s, c, p)
    case Trap(c, call) => Apply(s, s.cpus[c].on, CallStep(s, c, s.cpus[c].on, call))
    case Go(c, ok) =>
      var p := s.cpus[c].on;
      if s.procs[p].pc.InSched? then SwtchStep(s, c, p) else Apply(s, p, GoStep(s, c, p, ok))
    case Wake(c, q) => Put(s, q, Woken(s.procs[q], Other))
  }

  // ----- Runs -----

  predicate IsRun(s: State, es: seq<Event>)
    decreases |es|
  {
    es == [] || (Enabled(s, es[0]) && IsRun(Next(s, es[0]), es[1..]))
  }

  function After(s: State, es: seq<Event>): State
    requires IsRun(s, es)
    decreases |es|
  {
    if es == [] then s else After(Next(s, es[0]), es[1..])
  }

  /** After `procinit` and `userinit`: only the first process exists, and every CPU is at the top of its
      scheduler loop. */
  ghost predicate Boot(s: State) {
    s.init < |s.procs| && s.waitLock == -1 &&
    (forall c :: 0 <= c < |s.cpus| ==> s.cpus[c] == Cpu(-1, -1, Scan)) &&
    forall p :: 0 <= p < |s.procs| ==>
                  var st := if p == s.init then RUNNABLE else UNUSED;
                  s.procs[p] == Proc(st, NoChan, -1, false, -1, -1, Suspended(KFork), 0, 0)
  }
}

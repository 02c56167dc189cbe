/** Log space: what the reservation in `begin_op` guarantees, and exactly when it keeps the panic in
    `log_write` out of reach. Nothing in the code holds an operation to its reservation; `budget` is the
    number of distinct blocks that the operations of a run are taken to keep to. */
module LogSpace {
  import opened Disk
  import opened LogProtocol
  import opened Params

  ghost predicate WithinBudget(budget: nat, ops: map<nat, set<nat>>) {
    forall p :: p in ops ==> |ops[p]| <= budget
  }

  /** A run in which no operation ever logs more than `budget` distinct blocks. */
  ghost predicate ThriftyRun(c: Config, s: State, es: seq<Event>, budget: nat)
    decreases |es|
  {
    && WithinBudget(budget, s.ops)
    && (es == [] || (Enabled(c, s, es[0]) && ThriftyRun(c, Next(c, s, es[0]), es[1..], budget)))
  }

  lemma {:induction false} ThriftyIsRun(c: Config, s: State, es: seq<Event>, budget: nat)
    requires ThriftyRun(c, s, es, budget)
    ensures IsRun(c, s, es) && WithinBudget(budget, After(c, s, es).ops)
    decreases |es|
  {
    if es != [] {
      ThriftyIsRun(c, Next(c, s, es[0]), es[1..], budget);
    }
  }

  /** Blocks that the outstanding operations may still add. */
  ghost function Unused(budget: nat, ops: map<nat, set<nat>>): int {
    if ops == map[] then 0
    else
      var p :| p in ops;
      budget - |ops[p]| + Unused(budget, ops - {p})
  }

  lemma {:induction false} UnusedAt(budget: nat, ops: map<nat, set<nat>>, p: nat)
    requires p in ops
    ensures Unused(budget, ops) == budget - |ops[p]| + Unused(budget, ops - {p})
    decreases |ops|
  {
    var q :| q in ops && Unused(budget, ops) == budget - |ops[q]| + Unused(budget, ops - {q});
    if q != p {
      UnusedAt(budget, ops - {q}, p);
      UnusedAt(budget, ops - {p}, q);
      assert ops - {q} - {p} == ops - {p} - {q};
    }
  }

  lemma {:induction false} UnusedBound(budget: nat, ops: map<nat, set<nat>>)
    requires WithinBudget(budget, ops)
    ensures 0 <= Unused(budget, ops) <= |ops| * budget
    decreases |ops|
  {
    if ops != map[] {
      var p :| p in ops;
      UnusedAt(budget, ops, p);
      OneLess(ops, p);
      UnusedBound(budget, ops - {p});
      OneTimesMore(|ops - {p}|, budget);
    }
  }

  lemma OneLess(ops: map<nat, set<nat>>, p: nat)
    requires p in ops
    ensures |ops - {p}| + 1 == |ops|
  {
    assert (ops - {p}).Keys == ops.Keys - {p};
  }

  lemma OneTimesMore(n: nat, b: nat)
    ensures (n + 1) * b == n * b + b
  {
  }

  /** The most blocks that can be logged at once when each operation keeps to the budget. Three whole
      budgets fit beside each other on an empty log, two beside a reservation's worth of blocks left
      by operations that have ended. */
  function Peak(budget: nat): nat {
    if budget <= MAXOPBLOCKS then MAXOPBLOCKS + 2 * budget else 3 * budget
  }

  ghost predicate SpaceInv(budget: nat, s: State) {
    && (forall p, b :: p in s.ops && b in s.ops[p] ==> b in s.lh)
    && (Mounted(s) ==> |s.lh| + Unused(budget, s.ops) <= Peak(budget))
  }

  /** With `k` operations outstanding, admission leaves room for `k + 1` whole reservations. */
  lemma AdmissionArithmetic(budget: nat, n: nat, k: nat, unused: int)
    requires n + (k + 1) * MAXOPBLOCKS <= LOGSIZE
    requires unused <= k * budget && (k == 0 ==> n == 0)
    ensures n + unused + budget <= Peak(budget)
  {
    if k == 1 {
      assert unused <= budget;
    } else if k == 2 {
      assert unused <= 2 * budget;
    }
  }

  lemma BeginKeepsSpace(c: Config, budget: nat, s: State, p: nat)
    requires Inv(c, s) && SpaceInv(budget, s) && WithinBudget(budget, s.ops) && Enabled(c, s, Begin(p))
    ensures SpaceInv(budget, Next(c, s, Begin(p)))
  {
    UnusedAt(budget, s.ops[p := {}], p);
    assert s.ops[p := {}] - {p} == s.ops;
    UnusedBound(budget, s.ops);
    AdmissionArithmetic(budget, |s.lh|, |s.ops|, Unused(budget, s.ops));
  }

  lemma LogWriteKeepsSpace(c: Config, budget: nat, s: State, p: nat, b: nat, data: Block)
    requires SpaceInv(budget, s) && Enabled(c, s, LogWrite(p, b, data))
    ensures SpaceInv(budget, Next(c, s, LogWrite(p, b, data)))
  {
    var s' := LogWriteStep(s, p, b, data);
    UnusedAt(budget, s.ops, p);
    UnusedAt(budget, s'.ops, p);
    assert s'.ops - {p} == s.ops - {p};
    if b in s.ops[p] {
      assert s.ops[p] + {b} == s.ops[p];
    }
  }

  lemma NextKeepsSpace(c: Config, budget: nat, s: State, e: Event)
    requires Inv(c, s) && SpaceInv(budget, s) && WithinBudget(budget, s.ops) && Enabled(c, s, e)
    ensures SpaceInv(budget, Next(c, s, e))
  {
    match e
    case Begin(p) => BeginKeepsSpace(c, budget, s, p);
    case LogWrite(p, b, data) => LogWriteKeepsSpace(c, budget, s, p, b, data);
    case End(p) => UnusedAt(budget, s.ops, p);
    case Commit =>
    case Recover =>
    case Evict(b) =>
    case Crash =>
  }

  lemma {:induction false} RunKeepsSpace(c: Config, budget: nat, s: State, es: seq<Event>)
    requires ConfigOk(c) && Inv(c, s) && SpaceInv(budget, s) && ThriftyRun(c, s, es, budget) && IsRun(c, s, es)
    ensures SpaceInv(budget, After(c, s, es))
    decreases |es|
  {
    if es != [] {
      NextKeepsInv(c, s, es[0]);
      NextKeepsSpace(c, budget, s, es[0]);
      RunKeepsSpace(c, budget, Next(c, s, es[0]), es[1..]);
    }
  }

  /** In every run that keeps to the budget, logged blocks plus unused reservations stay below the peak; with
      MAXOPBLOCKS as the budget they fit in the log header. */
  lemma ReservationsFit(c: Config, budget: nat, s0: State, es: seq<Event>)
    requires ConfigOk(c) && Init(c, s0) && ThriftyRun(c, s0, es, budget)
    ensures IsRun(c, s0, es)
    ensures var s := After(c, s0, es);
            Mounted(s) ==> 0 <= Unused(budget, s.ops) && |s.lh| + Unused(budget, s.ops) <= Peak(budget)
    ensures budget <= MAXOPBLOCKS ==> Peak(budget) <= LOGSIZE
  {
    InitInv(c, s0);
    ThriftyIsRun(c, s0, es, budget);
    RunKeepsSpace(c, budget, s0, es);
    UnusedBound(budget, After(c, s0, es).ops);
  }

  // ----- The panic -----

  /** `log_write` refuses as soon as this many blocks are logged. */
  function Limit(c: Config): int {
    if LOGSIZE <= c.size - 1 then LOGSIZE else c.size - 1
  }

  /** In this state some outstanding operation's next `log_write` panics. */
  predicate AnOpWouldPanic(c: Config, s: State) {
    s.ops != map[] && LogWritePanics(c, s)
  }

  /** While no operation logs more than `budget` distinct blocks, none meets the panic. */
  ghost predicate NeverPanics(c: Config, budget: nat) {
    forall s0, es :: Init(c, s0) && IsRun(c, s0, es) && ThriftyRun(c, s0, es, budget) ==>
      !AnOpWouldPanic(c, After(c, s0, es))
  }

  lemma RoomyLogNeverPanics(c: Config, budget: nat)
    requires ConfigOk(c) && Peak(budget) < Limit(c)
    ensures NeverPanics(c, budget)
  {
    forall s0, es | Init(c, s0) && IsRun(c, s0, es) && ThriftyRun(c, s0, es, budget)
      ensures !AnOpWouldPanic(c, After(c, s0, es))
    {
      InitInv(c, s0);
      RunKeepsInv(c, s0, es);
      ReservationsFit(c, budget, s0, es);
    }
  }

  function HomeBlock(c: Config, n: nat): nat {
    c.start + c.size + n
  }

  /** A state with `n` distinct home blocks logged and the operations `ops` outstanding. */
  ghost predicate At(c: Config, s: State, n: nat, ops: map<nat, set<nat>>) {
    && s.phase.Idle? && !s.committing && s.ops == ops && s.outstanding == |ops|
    && |s.lh| == n && (forall i :: 0 <= i < n ==> s.lh[i] == HomeBlock(c, i))
  }

  lemma BeginAt(c: Config, s: State, n: nat, ops: map<nat, set<nat>>, p: nat)
    requires At(c, s, n, ops) && p !in ops && n + (|ops| + 1) * MAXOPBLOCKS <= LOGSIZE
    ensures Enabled(c, s, Begin(p)) && At(c, Next(c, s, Begin(p)), n, ops[p := {}])
  {
    assert ops[p := {}].Keys == ops.Keys + {p};
  }

  lemma LogAt(c: Config, s: State, n: nat, ops: map<nat, set<nat>>, p: nat)
    requires At(c, s, n, ops) && n < Limit(c) && p in ops
    ensures var e := LogWrite(p, HomeBlock(c, n), ZERO);
            && Enabled(c, s, e)
            && At(c, Next(c, s, e), n + 1, ops[p := ops[p] + {HomeBlock(c, n)}])
  {
    assert ops[p := ops[p] + {HomeBlock(c, n)}].Keys == ops.Keys;
    assert ops.Keys != {};
  }

  lemma EndAt(c: Config, s: State, n: nat, ops: map<nat, set<nat>>, p: nat)
    requires At(c, s, n, ops) && p in ops && |ops| >= 2
    ensures Enabled(c, s, End(p)) && At(c, Next(c, s, End(p)), n, ops - {p})
  {
    assert (ops - {p}).Keys == ops.Keys - {p};
  }

  /** The run `es` leads from `s` to `s'` and keeps to the budget. */
  ghost predicate Leads(c: Config, budget: nat, s: State, es: seq<Event>, s': State) {
    ThriftyRun(c, s, es, budget) && IsRun(c, s, es) && After(c, s, es) == s'
  }

  lemma LeadsOn(c: Config, budget: nat, s: State, e: Event)
    requires Enabled(c, s, e) && WithinBudget(budget, s.ops) && WithinBudget(budget, Next(c, s, e).ops)
    ensures Leads(c, budget, s, [e], Next(c, s, e))
  {
    assert [e][1..] == [];
  }

  lemma {:induction false} LeadsTo(c: Config, budget: nat, s: State, xs: seq<Event>, s1: State, ys: seq<Event>,
                                   s2: State)
    requires Leads(c, budget, s, xs, s1) && Leads(c, budget, s1, ys, s2)
    ensures Leads(c, budget, s, xs + ys, s2)
    decreases |xs|
  {
    if xs == [] {
      assert xs + ys == ys;
    } else {
      assert (xs + ys)[0] == xs[0] && (xs + ys)[1..] == xs[1..] + ys;
      LeadsTo(c, budget, Next(c, s, xs[0]), xs[1..], s1, ys, s2);
    }
  }

  /** One operation logs `k` fresh blocks. */
  lemma {:induction false} FillBy(c: Config, budget: nat, s: State, n: nat, ops: map<nat, set<nat>>, p: nat, k: nat)
    returns (es: seq<Event>, s': State, ops': map<nat, set<nat>>)
    requires At(c, s, n, ops) && WithinBudget(budget, ops) && n + k <= Limit(c)
    requires p in ops && |ops[p]| + k <= budget
    ensures Leads(c, budget, s, es, s') && At(c, s', n + k, ops') && WithinBudget(budget, ops')
    ensures ops'.Keys == ops.Keys && (forall q :: q in ops && q != p ==> ops'[q] == ops[q])
    decreases k
  {
    if k == 0 {
      es, s', ops' := [], s, ops;
    } else {
      LogAt(c, s, n, ops, p);
      var e := LogWrite(p, HomeBlock(c, n), ZERO);
      var s1, ops1 := Next(c, s, e), ops[p := ops[p] + {HomeBlock(c, n)}];
      assert |ops1[p]| <= |ops[p]| + 1;
      assert WithinBudget(budget, ops1);
      LeadsOn(c, budget, s, e);
      var rest, s2, ops2 := FillBy(c, budget, s1, n + 1, ops1, p, k - 1);
      LeadsTo(c, budget, s, [e], s1, rest, s2);
      es, s', ops' := [e] + rest, s2, ops2;
    }
  }

  /** While operation 0 idles, a short operation logs one block and ends; no commit happens. */
  lemma ShortOp(c: Config, budget: nat, s: State, n: nat) returns (es: seq<Event>, s': State)
    requires 1 <= budget && At(c, s, n, map[0 := {}]) && n < MAXOPBLOCKS && n < Limit(c)
    ensures Leads(c, budget, s, es, s') && At(c, s', n + 1, map[0 := {}])
  {
    var one: map<nat, set<nat>> := map[0 := {}];
    BeginAt(c, s, n, one, 1);
    var s1, ops1 := Next(c, s, Begin(1)), one[1 := {}];
    LeadsOn(c, budget, s, Begin(1));
    var fill, s2, ops2 := FillBy(c, budget, s1, n, ops1, 1, 1);
    assert ops2.Keys == {0, 1};
    EndAt(c, s2, n + 1, ops2, 1);
    assert ops2 - {1} == one;
    LeadsOn(c, budget, s2, End(1));
    LeadsTo(c, budget, s, [Begin(1)], s1, fill, s2);
    s' := Next(c, s2, End(1));
    LeadsTo(c, budget, s, [Begin(1)] + fill, s2, [End(1)], s');
    es := [Begin(1)] + fill + [End(1)];
  }

  lemma {:induction false} PileUp(c: Config, budget: nat, s: State, n: nat, m: nat) returns (es: seq<Event>, s': State)
    requires 1 <= budget && At(c, s, n, map[0 := {}]) && n <= m <= MAXOPBLOCKS && m <= Limit(c)
    ensures Leads(c, budget, s, es, s') && At(c, s', m, map[0 := {}])
    decreases m - n
  {
    if n == m {
      es, s' := [], s;
    } else {
      var round, s1 := ShortOp(c, budget, s, n);
      var rest, s2 := PileUp(c, budget, s1, n + 1, m);
      LeadsTo(c, budget, s, round, s1, rest, s2);
      es, s' := round + rest, s2;
    }
  }

  /** A freshly made disk, booted, with one operation under way. */
  lemma BootRun(c: Config, budget: nat) returns (s0: State, es: seq<Event>, s': State)
    requires ConfigOk(c)
    ensures Init(c, s0) && Leads(c, budget, s0, es, s') && At(c, s', 0, map[0 := {}])
  {
    s0 := State(map[], map[], [], map[], 0, false, Boot, map[]);
    LeadsOn(c, budget, s0, Recover);
    var s1 := Next(c, s0, Recover);
    LeadsOn(c, budget, s1, Recover);
    var s2 := Next(c, s1, Recover);
    var none: map<nat, set<nat>> := map[];
    BeginAt(c, s2, 0, none, 0);
    LeadsOn(c, budget, s2, Begin(0));
    assert none[0 := {}] == map[0 := {}];
    s' := Next(c, s2, Begin(0));
    LeadsTo(c, budget, s0, [Recover], s1, [Recover], s2);
    LeadsTo(c, budget, s0, [Recover] + [Recover], s2, [Begin(0)], s');
    es := [Recover] + [Recover] + [Begin(0)];
  }

  /** A second operation begins, and both fill the log with `left` more blocks. */
  lemma FillUp(c: Config, budget: nat, s: State, n: nat, left: nat) returns (es: seq<Event>, s': State)
    requires At(c, s, n, map[0 := {}]) && n <= MAXOPBLOCKS && n + left == Limit(c) && left <= 2 * budget
    ensures Leads(c, budget, s, es, s') && s'.ops != map[] && |s'.lh| == Limit(c)
  {
    var one: map<nat, set<nat>> := map[0 := {}];
    BeginAt(c, s, n, one, 1);
    LeadsOn(c, budget, s, Begin(1));
    var s1, ops := Next(c, s, Begin(1)), one[1 := {}];
    var k := if left <= budget then left else budget;
    var fill1, s2, ops1 := FillBy(c, budget, s1, n, ops, 1, k);
    var fill0, s3, ops0 := FillBy(c, budget, s2, n + k, ops1, 0, left - k);
    LeadsTo(c, budget, s, [Begin(1)], s1, fill1, s2);
    LeadsTo(c, budget, s, [Begin(1)] + fill1, s2, fill0, s3);
    assert 0 in ops0;
    es, s' := [Begin(1)] + fill1 + fill0, s3;
  }

  /** Within the budget, the log can be driven up to its limit with an operation still active. */
  lemma TightLogPanics(c: Config, budget: nat) returns (s0: State, es: seq<Event>)
    requires ConfigOk(c) && 1 <= budget && Limit(c) <= Peak(budget)
    ensures Init(c, s0) && IsRun(c, s0, es) && ThriftyRun(c, s0, es, budget) && AnOpWouldPanic(c, After(c, s0, es))
  {
    var boot, s1;
    s0, boot, s1 := BootRun(c, budget);
    var m := if Limit(c) <= MAXOPBLOCKS then Limit(c) else MAXOPBLOCKS;
    var pile, s2 := PileUp(c, budget, s1, 0, m);
    LeadsTo(c, budget, s0, boot, s1, pile, s2);
    es := boot + pile;
    if m < Limit(c) {
      var fill, s3 := FillUp(c, budget, s2, m, Limit(c) - m);
      LeadsTo(c, budget, s0, es, s2, fill, s3);
      es := es + fill;
    }
  }

  /** The reservation keeps the panic away if and only if the log has a block to spare beyond the
      most that three reservations can fill. */
  lemma PanicFreeIff(c: Config, budget: nat)
    requires ConfigOk(c) && 1 <= budget
    ensures NeverPanics(c, budget) <==> Peak(budget) < Limit(c)
  {
    if Peak(budget) < Limit(c) {
      RoomyLogNeverPanics(c, budget);
    } else {
      var s0, es := TightLogPanics(c, budget);
    }
  }

  /** The image made by mkfs has a log of LOGSIZE blocks: operations that use all of their MAXOPBLOCKS can
      be made to panic, operations that stop short of that cannot. */
  lemma MkfsLogPanicFreeIff(start: nat, budget: nat)
    requires 1 <= budget
    ensures NeverPanics(Config(start, LOGSIZE), budget) <==> budget < MAXOPBLOCKS
  {
    PanicFreeIff(Config(start, LOGSIZE), budget);
  }
}

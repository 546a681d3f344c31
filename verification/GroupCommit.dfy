/** Group commit as a step machine: operations begin, log blocks and end in any interleaving, the
    last one out commits block write by block write, and a crash may come between any two steps. */
module GroupCommit {
  import opened Common
  import opened Blocks
  import opened RedoLog
  import opened Log

  /** One file-system operation: the blocks it has logged, and whether it is between the size test
      of `log_write` (made without the lock) and its critical section. */
  datatype Op = Op(logged: set<nat>, checked: bool)

  datatype Phase =
    | Running
    | Committing(base: Disk, k: nat)
    | Recovering(base: Disk, k: nat)
    | Panicked

  datatype State = State(disk: Disk, view: Disk, lh: seq<nat>, ops: seq<Op>, outstanding: nat, committing: bool,
                         phase: Phase)

  datatype Action =
    | Begin
    | Check(i: nat)
    | Append(i: nat, b: nat, x: Block)
    | End(i: nat)
    | CommitWrite
    | CommitDone
    | Crash
    | RecoverWrite
    | RecoverDone

  function Start(d: Disk): State {
    State(d, d, [], [], 0, false, Running)
  }

  /** The steps open to state s when no operation may log more than `budget` distinct blocks. */
  ghost predicate Enabled(L: Layout, budget: nat, s: State, a: Action) {
    match a
    case Begin => s.phase.Running? && !s.committing && HasRoom(|s.lh|, s.outstanding)
    case Check(i) => s.phase.Running? && i < |s.ops| && !s.ops[i].checked
    case Append(i, b, x) =>
      && s.phase.Running? && i < |s.ops| && s.ops[i].checked
      && Home(L, |s.disk|, b) && |s.ops[i].logged + {b}| <= budget
    case End(i) => s.phase.Running? && i < |s.ops| && !s.ops[i].checked
    case CommitWrite =>
      && s.phase.Committing? && ValidLog(L, |s.phase.base|, s.lh)
      && s.phase.k < |CommitWrites(L, s.phase.base, s.view, s.lh)|
    case CommitDone =>
      && s.phase.Committing? && ValidLog(L, |s.phase.base|, s.lh)
      && s.phase.k == |CommitWrites(L, s.phase.base, s.view, s.lh)|
    case Crash => true
    case RecoverWrite => s.phase.Recovering? && s.phase.k < |RecoveryWrites(L, s.phase.base)|
    case RecoverDone => s.phase.Recovering? && s.phase.k == |RecoveryWrites(L, s.phase.base)|
  }

  ghost function DoEnd(s: State, i: nat): State
    requires i < |s.ops|
  {
    var left := if s.outstanding > 0 then s.outstanding - 1 else 0;
    var t := s.(outstanding := left, ops := Cut(s.ops, i));
    if s.committing then t.(phase := Panicked)
    else if left == 0 then t.(committing := true, phase := Committing(s.disk, 0))
    else t
  }

  /** The state after an enabled step. */
  ghost function Do(L: Layout, budget: nat, s: State, a: Action): State
    requires Enabled(L, budget, s, a)
  {
    match a
    case Begin => s.(outstanding := s.outstanding + 1, ops := s.ops + [Op({}, false)])
    case Check(i) =>
      if Full(|s.lh|, L) then s.(phase := Panicked)
      else s.(ops := s.ops[i := s.ops[i].(checked := true)])
    case Append(i, b, x) =>
      s.(lh := Absorb(s.lh, b), ops := s.ops[i := Op(s.ops[i].logged + {b}, false)],
         view := if b < |s.view| then s.view[b := x] else s.view)
    case End(i) => DoEnd(s, i)
    case CommitWrite =>
      var w := CommitWrites(L, s.phase.base, s.view, s.lh)[s.phase.k];
      s.(disk := Put(s.disk, w), phase := Committing(s.phase.base, s.phase.k + 1))
    case CommitDone => s.(lh := [], committing := false, phase := Running)
    case Crash => State(s.disk, s.disk, [], [], 0, false, Recovering(s.disk, 0))
    case RecoverWrite =>
      var w := RecoveryWrites(L, s.phase.base)[s.phase.k];
      s.(disk := Put(s.disk, w), phase := Recovering(s.phase.base, s.phase.k + 1))
    case RecoverDone => Start(s.disk)
  }

  /** Every action of the list is enabled when its turn comes. */
  ghost predicate Legal(L: Layout, budget: nat, s: State, acts: seq<Action>)
    decreases |acts|
  {
    acts == [] || (Enabled(L, budget, s, acts[0]) && Legal(L, budget, Do(L, budget, s, acts[0]), acts[1..]))
  }

  ghost function Exec(L: Layout, budget: nat, s: State, acts: seq<Action>): State
    requires Legal(L, budget, s, acts)
    decreases |acts|
  {
    if acts == [] then s else Exec(L, budget, Do(L, budget, s, acts[0]), acts[1..])
  }

  // ---------- invariants ----------

  /** The per-operation budget under which the reservation of `begin_op` is sound. */
  const SAFE: nat := MAXOPBLOCKS - 1

  /** Blocks that the running operations may still log. */
  ghost function Slack(ops: seq<Op>): int {
    if ops == [] then 0 else Slack(ops[..|ops| - 1]) + SAFE - |ops[|ops| - 1].logged|
  }

  ghost predicate GroupInv(L: Layout, s: State) {
    && L.size == LOGSIZE
    && ValidLog(L, |s.disk|, s.lh)
    && |s.view| == |s.disk|
    && s.outstanding == |s.ops|
    && (s.committing <==> s.phase.Committing?)
    && (s.committing || s.phase.Recovering? ==> s.outstanding == 0)
    && (s.outstanding == 0 && !s.committing ==> s.lh == [])
    && (forall i, b | 0 <= i < |s.ops| && b in s.ops[i].logged :: b in s.lh)
    && (forall i | 0 <= i < |s.ops| :: |s.ops[i].logged| <= SAFE)
  }

  /** What is logged and what may still be logged fit the data blocks of the log, with one to spare. */
  ghost predicate RoomInv(s: State) {
    |s.lh| + Slack(s.ops) <= LOGSIZE - 2
  }

  /** The home blocks that the transaction has not logged show what disk d holds. */
  ghost predicate RestOnDisk(L: Layout, s: State, d: Disk) {
    && |d| == |s.view|
    && forall b | 0 <= b < |d| && Home(L, |d|, b) && b !in s.lh :: s.view[b] == d[b]
  }

  ghost predicate DiskInv(L: Layout, s: State) {
    match s.phase
    case Running => Clean(L, s.disk) && RestOnDisk(L, s, s.disk)
    case Panicked => Clean(L, s.disk) && RestOnDisk(L, s, s.disk)
    case Committing(base, k) =>
      && Clean(L, base) && RestOnDisk(L, s, base) && ValidLog(L, |base|, s.lh)
      && k <= |CommitWrites(L, base, s.view, s.lh)|
      && s.disk == Apply(base, CommitWrites(L, base, s.view, s.lh)[..k])
    case Recovering(base, k) =>
      && RecoversTo(L, base, Recovered(L, base))
      && k <= |RecoveryWrites(L, base)|
      && s.disk == Apply(base, RecoveryWrites(L, base)[..k])
  }

  ghost predicate Inv(L: Layout, s: State) {
    GroupInv(L, s) && RoomInv(s) && DiskInv(L, s)
  }

  // ---------- the reservation ----------

  lemma {:induction false} SlackAppend(ops: seq<Op>, op: Op)
    ensures Slack(ops + [op]) == Slack(ops) + SAFE - |op.logged|
  {
    assert (ops + [op])[..|ops|] == ops;
  }

  lemma {:induction false} SlackConcat(a: seq<Op>, b: seq<Op>)
    ensures Slack(a + b) == Slack(a) + Slack(b)
    decreases |b|
  {
    if b == [] {
      assert a + b == a;
    } else {
      SlackConcat(a, b[..|b| - 1]);
      assert (a + b)[..|a + b| - 1] == a + b[..|b| - 1];
    }
  }

  lemma SlackAt(ops: seq<Op>, i: nat)
    requires i < |ops|
    ensures Slack(ops) == Slack(Cut(ops, i)) + SAFE - |ops[i].logged|
  {
    hide Slack;
    assert ops == ops[..i] + [ops[i]] + ops[i + 1..];
    SlackConcat(ops[..i] + [ops[i]], ops[i + 1..]);
    SlackAppend(ops[..i], ops[i]);
    SlackConcat(ops[..i], ops[i + 1..]);
  }

  lemma SlackUpdate(ops: seq<Op>, i: nat, op: Op)
    requires i < |ops|
    ensures Slack(ops[i := op]) == Slack(ops) + |ops[i].logged| - |op.logged|
  {
    hide Slack;
    SlackAt(ops, i);
    SlackAt(ops[i := op], i);
    assert Cut(ops, i) == Cut(ops[i := op], i);
  }

  lemma {:induction false} SlackBounds(ops: seq<Op>)
    requires forall i | 0 <= i < |ops| :: |ops[i].logged| <= SAFE
    ensures 0 <= Slack(ops) <= SAFE * |ops|
  {
    if ops != [] {
      SlackBounds(ops[..|ops| - 1]);
    }
  }

  // ---------- every step keeps the invariants ----------

  lemma BeginKeeps(L: Layout, budget: nat, s: State)
    requires Inv(L, s) && Enabled(L, budget, s, Begin)
    ensures Inv(L, Do(L, budget, s, Begin))
  {
    hide Slack, Clean, ValidLog;
    SlackAppend(s.ops, Op({}, false));
    SlackBounds(s.ops);
  }

  lemma CheckKeeps(L: Layout, budget: nat, s: State, i: nat)
    requires Inv(L, s) && Enabled(L, budget, s, Check(i))
    ensures Inv(L, Do(L, budget, s, Check(i)))
    ensures Do(L, budget, s, Check(i)).phase.Running?
  {
    hide Slack, Clean, ValidLog;
    SlackBounds(s.ops);
    SlackUpdate(s.ops, i, s.ops[i].(checked := true));
  }

  lemma AppendRoom(L: Layout, budget: nat, s: State, i: nat, b: nat, x: Block)
    requires Inv(L, s) && Enabled(L, budget, s, Append(i, b, x)) && budget <= SAFE
    ensures RoomInv(Do(L, budget, s, Append(i, b, x)))
  {
    hide Slack, Clean, ValidLog, DiskInv;
    SlackUpdate(s.ops, i, Op(s.ops[i].logged + {b}, false));
    AddOne(s.ops[i].logged, b);
    assert b in s.ops[i].logged ==> b in s.lh;
  }

  lemma AddOne(logged: set<nat>, b: nat)
    ensures b in logged ==> |logged + {b}| == |logged|
    ensures b !in logged ==> |logged + {b}| == |logged| + 1
  {
    if b in logged {
      assert logged + {b} == logged;
    }
  }

  lemma AppendKeeps(L: Layout, budget: nat, s: State, i: nat, b: nat, x: Block)
    requires Inv(L, s) && Enabled(L, budget, s, Append(i, b, x)) && budget <= SAFE
    ensures Inv(L, Do(L, budget, s, Append(i, b, x)))
  {
    hide Slack, Clean;
    AppendRoom(L, budget, s, i, b, x);
    var t := Do(L, budget, s, Append(i, b, x));
    SlackBounds(t.ops);
  }

  lemma EndKeeps(L: Layout, budget: nat, s: State, i: nat)
    requires Inv(L, s) && Enabled(L, budget, s, End(i))
    ensures Inv(L, Do(L, budget, s, End(i)))
    ensures !Do(L, budget, s, End(i)).phase.Panicked?
  {
    hide Slack, Clean, CommitWrites;
    SlackAt(s.ops, i);
    var t := DoEnd(s, i);
    assert forall j | 0 <= j < |t.ops| :: t.ops[j] == s.ops[if j < i then j else j + 1];
    assert t.phase.Committing? ==> CommitWrites(L, s.disk, t.view, t.lh)[..0] == [];
  }

  lemma CommitWriteKeeps(L: Layout, budget: nat, s: State)
    requires Inv(L, s) && Enabled(L, budget, s, CommitWrite)
    ensures Inv(L, Do(L, budget, s, CommitWrite))
  {
    hide Slack, Clean, CommitWrites, ValidLog;
    var ws, k := CommitWrites(L, s.phase.base, s.view, s.lh), s.phase.k;
    assert ws[..k + 1][..k] == ws[..k];
  }

  lemma CommitDoneKeeps(L: Layout, budget: nat, s: State)
    requires Inv(L, s) && Enabled(L, budget, s, CommitDone)
    ensures Inv(L, Do(L, budget, s, CommitDone))
  {
    hide Slack, Clean, CommitWrites, Apply;
    var base, ws := s.phase.base, CommitWrites(L, s.phase.base, s.view, s.lh);
    assert ws[..|ws|] == ws;
    CommitEnd(L, base, s.view, s.lh);
  }

  lemma SelfRecovers(L: Layout, d: Disk, t: Disk)
    requires RecoversTo(L, d, t)
    ensures RecoversTo(L, d, Recovered(L, d))
    ensures SameHome(L, Recovered(L, d), t) && Clean(L, Recovered(L, d))
  {
    hide Recovered, HeadBlocks, Clean, GetWord;
    ReplayEnd(L, d, t);
  }

  /** The contents that the home blocks would have after a crash at this point. */
  ghost function Target(L: Layout, s: State): Disk {
    match s.phase
    case Running => s.disk
    case Panicked => s.disk
    case Committing(base, k) => if k > |s.lh| then Committed(base, s.view, s.lh) else base
    case Recovering(base, _) => Recovered(L, base)
  }

  lemma StandsForTarget(L: Layout, s: State)
    requires Inv(L, s)
    ensures RecoversTo(L, s.disk, Target(L, s))
  {
    hide Apply, Clean, CommitWrites, Recovered, RecoveryWrites, RecoversTo, GroupInv, RoomInv;
    match s.phase
    case Running => CleanStandsForItself(L, s.disk, s.disk);
    case Panicked => CleanStandsForItself(L, s.disk, s.disk);
    case Committing(base, k) => CommitPrefix(L, base, s.view, s.lh, k);
    case Recovering(base, k) => RecoveryStep(L, base, Recovered(L, base), k);
  }

  lemma CrashKeeps(L: Layout, budget: nat, s: State)
    requires GroupInv(L, s) && RecoversTo(L, s.disk, Recovered(L, s.disk))
    ensures Inv(L, Do(L, budget, s, Crash))
  {
    hide RecoversTo, Recovered, RecoveryWrites, Clean, RestOnDisk, CommitWrites;
    assert RecoveryWrites(L, s.disk)[..0] == [];
  }

  lemma RecoverWriteKeeps(L: Layout, budget: nat, s: State)
    requires Inv(L, s) && Enabled(L, budget, s, RecoverWrite)
    ensures Inv(L, Do(L, budget, s, RecoverWrite))
  {
    hide Slack, RecoversTo, Recovered, RecoveryWrites;
    var ws, k := RecoveryWrites(L, s.phase.base), s.phase.k;
    assert ws[..k + 1][..k] == ws[..k];
  }

  lemma RecoverDoneKeeps(L: Layout, budget: nat, s: State)
    requires Inv(L, s) && Enabled(L, budget, s, RecoverDone)
    ensures Inv(L, Do(L, budget, s, RecoverDone))
  {
    hide RecoversTo, Recovered, RecoveryWrites, Apply, Clean;
    RecoveredInFull(L, s.phase.base);
    ReplayEnd(L, s.phase.base, Recovered(L, s.phase.base));
  }

  lemma StepNoPanic(L: Layout, budget: nat, s: State, a: Action)
    requires GroupInv(L, s) && RoomInv(s) && Enabled(L, budget, s, a)
    ensures Do(L, budget, s, a).phase.Panicked? ==> s.phase.Panicked?
  {
    hide Slack, ValidLog;
    SlackBounds(s.ops);
  }

  /** Every step of every run keeps the invariants, and none panics. */
  lemma {:induction false} RunKeeps(L: Layout, budget: nat, s: State, acts: seq<Action>)
    requires Inv(L, s) && Legal(L, budget, s, acts) && budget <= SAFE
    ensures Inv(L, Exec(L, budget, s, acts))
    ensures Exec(L, budget, s, acts).phase.Panicked? ==> s.phase.Panicked?
    decreases |acts|
  {
    hide GroupInv, RoomInv, DiskInv, Do, Enabled, Target, RecoversTo, Recovered, SameHome, Clean;
    if acts != [] {
      match acts[0] {
        case Begin => BeginKeeps(L, budget, s);
        case Check(i) => CheckKeeps(L, budget, s, i);
        case Append(i, b, x) => AppendKeeps(L, budget, s, i, b, x);
        case End(i) => EndKeeps(L, budget, s, i);
        case CommitWrite => CommitWriteKeeps(L, budget, s);
        case CommitDone => CommitDoneKeeps(L, budget, s);
        case Crash =>
          StandsForTarget(L, s);
          SelfRecovers(L, s.disk, Target(L, s));
          CrashKeeps(L, budget, s);
        case RecoverWrite => RecoverWriteKeeps(L, budget, s);
        case RecoverDone => RecoverDoneKeeps(L, budget, s);
      }
      StepNoPanic(L, budget, s, acts[0]);
      RunKeeps(L, budget, Do(L, budget, s, acts[0]), acts[1..]);
    }
  }

  lemma StartInv(L: Layout, d: Disk)
    requires Clean(L, d) && L.size == LOGSIZE
    ensures Inv(L, Start(d))
  {
    hide HeadBlocks, GetWord;
  }

  /** Group commit, over every interleaving and any crashes: when no operation logs more than
      MAXOPBLOCKS - 1 distinct blocks, `log_write` never panics, the transaction stays below the
      log's capacity without duplicates, a commit runs only when no operation is inside, and
      between transactions the in-memory header is empty. */
  lemma GroupCommitSafe(L: Layout, budget: nat, d: Disk, acts: seq<Action>)
    requires Clean(L, d) && L.size == LOGSIZE && budget <= MAXOPBLOCKS - 1
    requires Legal(L, budget, Start(d), acts)
    ensures var s := Exec(L, budget, Start(d), acts);
            && !s.phase.Panicked?
            && |s.lh| <= LOGSIZE - 2 && Distinct(s.lh)
            && (s.committing ==> s.outstanding == 0)
            && (s.outstanding == 0 && !s.committing ==> s.lh == [])
  {
    hide Exec, Slack, DiskInv;
    StartInv(L, d);
    RunKeeps(L, budget, Start(d), acts);
    SlackBounds(Exec(L, budget, Start(d), acts).ops);
  }

  // ---------- refinement ----------

  /** The header write of a commit. */
  ghost predicate IsCommitPoint(s: State, a: Action) {
    a.CommitWrite? && s.phase.Committing? && s.phase.k == |s.lh|
  }

  lemma SameHomeTrans(L: Layout, a: Disk, b: Disk, c: Disk)
    requires SameHome(L, a, b) && SameHome(L, b, c)
    ensures SameHome(L, a, c) && SameHome(L, b, a)
  {
  }

  lemma TargetCommitDone(L: Layout, budget: nat, s: State)
    requires Inv(L, s) && Enabled(L, budget, s, CommitDone)
    ensures SameHome(L, Target(L, Do(L, budget, s, CommitDone)), Target(L, s))
  {
    hide GroupInv, RoomInv, Clean, Apply, CommitWrites;
    var base, ws := s.phase.base, CommitWrites(L, s.phase.base, s.view, s.lh);
    assert ws[..|ws|] == ws;
    CommitEnd(L, base, s.view, s.lh);
    CommitLength(L, base, s.view, s.lh);
  }

  lemma CommitLength(L: Layout, d: Disk, v: Disk, lh: seq<nat>)
    requires ValidLog(L, |d|, lh)
    ensures |CommitWrites(L, d, v, lh)| == if lh == [] then 0 else 2 * |lh| + 2
  {
    hide CommitProgram;
  }

  lemma TargetCommitWrite(L: Layout, budget: nat, s: State)
    requires Inv(L, s) && Enabled(L, budget, s, CommitWrite)
    ensures SameHome(L, Target(L, Do(L, budget, s, CommitWrite)),
                     if IsCommitPoint(s, CommitWrite) then s.view else Target(L, s))
  {
    hide RoomInv, Clean, Apply, CommitWrites;
  }

  lemma TargetCrash(L: Layout, budget: nat, s: State)
    requires Inv(L, s)
    ensures SameHome(L, Target(L, Do(L, budget, s, Crash)), Target(L, s))
  {
    hide Recovered, RecoversTo, Inv, SameHome;
    StandsForTarget(L, s);
    SelfRecovers(L, s.disk, Target(L, s));
  }

  /** One step changes what a crash would leave only at the commit point, where it becomes the
      view that the operations of the whole group have built. */
  lemma TargetStep(L: Layout, budget: nat, s: State, a: Action)
    requires Inv(L, s) && Enabled(L, budget, s, a)
    ensures SameHome(L, Target(L, Do(L, budget, s, a)), if IsCommitPoint(s, a) then s.view else Target(L, s))
    ensures IsCommitPoint(s, a) ==> s.ops == []
  {
    hide RoomInv, Clean, Recovered, RecoveryWrites, Apply, CommitWrites, RecoversTo;
    match a
    case Begin =>
    case Check(i) =>
    case Append(i, b, x) =>
    case End(i) =>
    case CommitWrite => TargetCommitWrite(L, budget, s);
    case CommitDone => TargetCommitDone(L, budget, s);
    case Crash => TargetCrash(L, budget, s);
    case RecoverWrite =>
    case RecoverDone => RecoveredInFull(L, s.phase.base);
  }

  /** The view at the last commit point of a run, or c when the run has none. */
  ghost function LastCommitted(L: Layout, budget: nat, s: State, acts: seq<Action>, c: Disk): Disk
    requires Legal(L, budget, s, acts)
    decreases |acts|
  {
    if acts == [] then c
    else LastCommitted(L, budget, Do(L, budget, s, acts[0]), acts[1..],
                       if IsCommitPoint(s, acts[0]) then s.view else c)
  }

  /** The state of some run from a clean disk. */
  ghost predicate Reached(L: Layout, budget: nat, s: State) {
    exists d, acts :: Legal(L, budget, Start(d), acts) && Clean(L, d) && L.size == LOGSIZE
      && s == Exec(L, budget, Start(d), acts)
  }

  lemma ReachedInv(L: Layout, budget: nat, s: State)
    requires Reached(L, budget, s) && budget <= SAFE
    ensures Inv(L, s)
  {
    hide Inv, Clean, Legal, Exec;
    var d, acts :| Legal(L, budget, Start(d), acts) && Clean(L, d) && L.size == LOGSIZE
      && s == Exec(L, budget, Start(d), acts);
    StartInv(L, d);
    RunKeeps(L, budget, Start(d), acts);
  }

  lemma ReachedStep(L: Layout, budget: nat, s: State, a: Action)
    requires Reached(L, budget, s) && Enabled(L, budget, s, a)
    ensures Reached(L, budget, Do(L, budget, s, a))
  {
    hide Clean, Legal, Exec, Enabled, Do;
    var d, acts :| Legal(L, budget, Start(d), acts) && Clean(L, d) && L.size == LOGSIZE
      && s == Exec(L, budget, Start(d), acts);
    ExecOne(L, budget, s, a);
    ExecConcat(L, budget, Start(d), acts, [a]);
  }

  lemma {:induction false} TargetRun(L: Layout, budget: nat, s: State, acts: seq<Action>, c: Disk)
    requires Reached(L, budget, s) && Legal(L, budget, s, acts) && budget <= SAFE
    requires SameHome(L, Target(L, s), c)
    ensures SameHome(L, Target(L, Exec(L, budget, s, acts)), LastCommitted(L, budget, s, acts, c))
    decreases |acts|
  {
    hide Reached, Inv, Do, Enabled, Target, SameHome, IsCommitPoint;
    if acts != [] {
      var a := acts[0];
      ReachedInv(L, budget, s);
      ReachedStep(L, budget, s, a);
      TargetStep(L, budget, s, a);
      var t := Do(L, budget, s, a);
      if !IsCommitPoint(s, a) {
        SameHomeTrans(L, Target(L, t), Target(L, s), c);
        TargetRun(L, budget, t, acts[1..], c);
      } else {
        TargetRun(L, budget, t, acts[1..], s.view);
      }
    }
  }

  /** Durability over every run: wherever a crash hits, a completed recovery leaves the home blocks
      exactly as the last group to reach its commit point left them, and the log empty. */
  lemma DurableRuns(L: Layout, budget: nat, d: Disk, acts: seq<Action>)
    requires Clean(L, d) && L.size == LOGSIZE && budget <= MAXOPBLOCKS - 1
    requires Legal(L, budget, Start(d), acts)
    ensures var s := Exec(L, budget, Start(d), acts);
            && SameHome(L, Recovered(L, s.disk), LastCommitted(L, budget, Start(d), acts, d))
            && Clean(L, Recovered(L, s.disk))
  {
    hide Exec, Inv, LastCommitted, Recovered, RecoversTo, SameHome, Clean, Reached;
    var s := Exec(L, budget, Start(d), acts);
    StartInv(L, d);
    RunKeeps(L, budget, Start(d), acts);
    assert SameHome(L, d, d) by {
      SameHomeRefl(L, d);
    }
    assert Reached(L, budget, Start(d)) by {
      StartReached(L, budget, d);
    }
    TargetRun(L, budget, Start(d), acts, d);
    StandsForTarget(L, s);
    SelfRecovers(L, s.disk, Target(L, s));
    SameHomeTrans(L, Recovered(L, s.disk), Target(L, s), LastCommitted(L, budget, Start(d), acts, d));
  }

  lemma StartReached(L: Layout, budget: nat, d: Disk)
    requires Clean(L, d) && L.size == LOGSIZE
    ensures Reached(L, budget, Start(d))
  {
    hide Clean;
    assert Legal(L, budget, Start(d), []) && Start(d) == Exec(L, budget, Start(d), []);
  }

  lemma SameHomeRefl(L: Layout, d: Disk)
    ensures SameHome(L, d, d)
  {
  }

  // ---------- commit and recovery come to an end ----------

  /** After its last write a commit stands for the view. */
  lemma TargetIsView(L: Layout, s: State)
    requires Inv(L, s) && s.phase.Committing? && s.phase.k == |CommitWrites(L, s.phase.base, s.view, s.lh)|
    ensures SameHome(L, Target(L, s), s.view)
  {
    hide RoomInv, Clean, Apply, CommitWrites;
    CommitLength(L, s.phase.base, s.view, s.lh);
  }

  /** A commit can always be carried through: it ends with the view in the home blocks and an empty log, and the next
      operation may begin. */
  lemma {:induction false} CommitCompletes(L: Layout, budget: nat, s: State) returns (acts: seq<Action>)
    requires Inv(L, s) && s.phase.Committing?
    ensures Legal(L, budget, s, acts)
    ensures var t := Exec(L, budget, s, acts);
            && t.phase.Running? && t.lh == [] && SameHome(L, t.disk, s.view) && Clean(L, t.disk)
            && Enabled(L, budget, t, Begin)
    decreases |CommitWrites(L, s.phase.base, s.view, s.lh)| - s.phase.k
  {
    hide Clean, Apply, CommitWrites, SameHome, RoomInv, ValidLog, RestOnDisk;
    if s.phase.k < |CommitWrites(L, s.phase.base, s.view, s.lh)| {
      CommitWriteKeeps(L, budget, s);
      acts := CommitCompletes(L, budget, Do(L, budget, s, CommitWrite));
      ExecCons(L, budget, s, CommitWrite, acts);
      acts := [CommitWrite] + acts;
    } else {
      CommitDoneKeeps(L, budget, s);
      TargetCommitDone(L, budget, s);
      TargetIsView(L, s);
      var t := Do(L, budget, s, CommitDone);
      SameHomeTrans(L, Target(L, t), Target(L, s), s.view);
      ExecOne(L, budget, s, CommitDone);
      acts := [CommitDone];
    }
  }

  /** So can a recovery: it ends with what the crash left standing in the home blocks and an empty log. */
  lemma {:induction false} RecoveryCompletes(L: Layout, budget: nat, s: State) returns (acts: seq<Action>)
    requires Inv(L, s) && s.phase.Recovering?
    ensures Legal(L, budget, s, acts)
    ensures var t := Exec(L, budget, s, acts);
            && t == Start(t.disk) && SameHome(L, t.disk, Target(L, s)) && Clean(L, t.disk)
            && Enabled(L, budget, t, Begin)
    decreases |RecoveryWrites(L, s.phase.base)| - s.phase.k
  {
    hide Clean, Apply, RecoveryWrites, Recovered, RecoversTo, SameHome, RoomInv, GroupInv;
    if s.phase.k < |RecoveryWrites(L, s.phase.base)| {
      RecoverWriteKeeps(L, budget, s);
      acts := RecoveryCompletes(L, budget, Do(L, budget, s, RecoverWrite));
      ExecCons(L, budget, s, RecoverWrite, acts);
      acts := [RecoverWrite] + acts;
    } else {
      RecoverDoneKeeps(L, budget, s);
      RecoveredInFull(L, s.phase.base);
      assert SameHome(L, s.disk, s.disk) by { SameHomeRefl(L, s.disk); }
      ExecOne(L, budget, s, RecoverDone);
      acts := [RecoverDone];
    }
  }

  // ---------- the test of begin_op ----------

  /** The blocks of a transaction in which some are logged already and each operation logs those it wants. */
  function Together(logged: set<nat>, ops: seq<set<nat>>): set<nat> {
    if ops == [] then logged else Together(logged, ops[..|ops| - 1]) + ops[|ops| - 1]
  }

  /** n blocks are logged, and o operations log at most MAXOPBLOCKS each. */
  ghost predicate Wanted(n: nat, o: nat, logged: set<nat>, ops: seq<set<nat>>) {
    |logged| == n && |ops| == o && forall i | 0 <= i < |ops| :: |ops[i]| <= MAXOPBLOCKS
  }

  function Range(a: nat, n: nat): (r: set<nat>)
    ensures forall b :: b in r <==> a <= b < a + n
  {
    if n == 0 then {} else Range(a, n - 1) + {a + n - 1}
  }

  lemma {:induction false} RangeSize(a: nat, n: nat)
    ensures |Range(a, n)| == n
  {
    if n == 0 {
      assert Range(a, n) == {};
    } else {
      RangeSize(a, n - 1);
      assert Range(a, n) == Range(a, n - 1) + {a + n - 1};
    }
  }

  lemma {:induction false} TogetherBound(logged: set<nat>, ops: seq<set<nat>>)
    requires forall i | 0 <= i < |ops| :: |ops[i]| <= MAXOPBLOCKS
    ensures |Together(logged, ops)| <= |logged| + |ops| * MAXOPBLOCKS
    decreases |ops|
  {
    if ops != [] {
      var m := |ops| - 1;
      TogetherBound(logged, ops[..m]);
      UnionBound(Together(logged, ops[..m]), ops[m]);
    }
  }

  lemma UnionBound(a: set<nat>, b: set<nat>)
    ensures |a + b| <= |a| + |b|
  {
    assert a + b == a + (b - a);
    assert |b - a| <= |b| by {
      assert b == (b - a) + (b * a);
    }
  }

  lemma RangeSplit(a: nat, n: nat, m: nat)
    ensures Range(a, n) + Range(a + n, m) == Range(a, n + m)
  {
  }

  /** o operations that log as many different blocks as they may. */
  lemma {:induction false} MostWanted(n: nat, o: nat) returns (ops: seq<set<nat>>)
    ensures Wanted(n, o, Range(0, n), ops) && Together(Range(0, n), ops) == Range(0, n + o * MAXOPBLOCKS)
  {
    hide Range;
    RangeSize(0, n);
    if o == 0 {
      ops := [];
    } else {
      var more := MostWanted(n, o - 1);
      var a := n + (o - 1) * MAXOPBLOCKS;
      RangeSize(a, MAXOPBLOCKS);
      ops := more + [Range(a, MAXOPBLOCKS)];
      assert ops[..|ops| - 1] == more;
      RangeSplit(0, a, MAXOPBLOCKS);
    }
  }

  lemma Outgrows(n: nat, outstanding: nat)
    requires !HasRoom(n, outstanding)
    ensures exists logged, ops :: Wanted(n, outstanding + 1, logged, ops) && |Together(logged, ops)| > LOGSIZE
  {
    hide Together, Range, Wanted;
    var ops := MostWanted(n, outstanding + 1);
    RangeSize(0, n + (outstanding + 1) * MAXOPBLOCKS);
    assert Wanted(n, outstanding + 1, Range(0, n), ops);
  }

  /** `begin_op` refuses exactly when admitting the operation could make the transaction outgrow the log, whatever
      blocks the operations inside and the new one go on to log, at most MAXOPBLOCKS each. */
  lemma RefusalIsExact(n: nat, outstanding: nat)
    ensures HasRoom(n, outstanding) <==>
              forall logged, ops | Wanted(n, outstanding + 1, logged, ops) :: |Together(logged, ops)| <= LOGSIZE
  {
    hide Together;
    if HasRoom(n, outstanding) {
      forall logged, ops | Wanted(n, outstanding + 1, logged, ops)
        ensures |Together(logged, ops)| <= LOGSIZE
      {
        TogetherBound(logged, ops);
      }
    } else {
      Outgrows(n, outstanding);
    }
  }

  // ---------- the bound is tight ----------

  lemma {:induction false} ExecConcat(L: Layout, budget: nat, s: State, a: seq<Action>, b: seq<Action>)
    requires Legal(L, budget, s, a) && Legal(L, budget, Exec(L, budget, s, a), b)
    ensures Legal(L, budget, s, a + b)
    ensures Exec(L, budget, s, a + b) == Exec(L, budget, Exec(L, budget, s, a), b)
    decreases |a|
  {
    hide Do, Enabled;
    if a == [] {
      assert a + b == b;
    } else {
      ExecConcat(L, budget, Do(L, budget, s, a[0]), a[1..], b);
      assert (a + b)[1..] == a[1..] + b;
    }
  }

  lemma ExecOne(L: Layout, budget: nat, s: State, a: Action)
    requires Enabled(L, budget, s, a)
    ensures Legal(L, budget, s, [a]) && Exec(L, budget, s, [a]) == Do(L, budget, s, a)
  {
    hide Enabled, Do;
    assert [a][1..] == [];
  }

  lemma ExecCons(L: Layout, budget: nat, s: State, a: Action, rest: seq<Action>)
    requires Enabled(L, budget, s, a) && Legal(L, budget, Do(L, budget, s, a), rest)
    ensures Legal(L, budget, s, [a] + rest)
    ensures Exec(L, budget, s, [a] + rest) == Exec(L, budget, Do(L, budget, s, a), rest)
  {
    hide Enabled, Do;
    assert ([a] + rest)[1..] == rest;
  }

  /** Which of three operations logs the j-th block: ten, nine and the rest. */
  function Owner(j: nat): (i: nat)
    ensures i < 3
  {
    if j < 10 then 0 else if j < 19 then 1 else 2
  }

  function Share(i: nat, n: nat): nat {
    if i == 0 then if n < 10 then n else 10
    else if i == 1 then if n < 10 then 0 else if n < 19 then n - 10 else 9
    else if n < 19 then 0 else n - 19
  }

  /** Three operations inside, which have logged n consecutive blocks between them. */
  ghost predicate Filled(s: State, size: nat, first: nat, n: nat) {
    && s.phase == Running && !s.committing && |s.disk| == size
    && |s.ops| == 3 && s.outstanding == 3
    && s.lh == seq(n, j requires 0 <= j < n => first + j)
    && forall i | 0 <= i < 3 ::
         && !s.ops[i].checked
         && |s.ops[i].logged| == Share(i, n)
         && forall b | b in s.ops[i].logged :: b < first + n
  }

  lemma FillStep(L: Layout, budget: nat, s: State, first: nat, x: Block, n: nat) returns (acts: seq<Action>)
    requires Filled(s, |s.disk|, first, n) && n <= 28 && budget >= MAXOPBLOCKS && L.size == LOGSIZE
    requires Home(L, |s.disk|, first + n)
    ensures Legal(L, budget, s, acts)
    ensures Filled(Exec(L, budget, s, acts), |s.disk|, first, n + 1)
  {
    var i := Owner(n);
    var a, b := Check(i), Append(i, first + n, x);
    assert first + n !in s.lh;
    assert first + n !in s.ops[i].logged;
    assert Enabled(L, budget, s, a);
    var t := Do(L, budget, s, a);
    assert t.ops[i].logged == s.ops[i].logged;
    assert Enabled(L, budget, t, b);
    var u := Do(L, budget, t, b);
    acts := [a, b];
    assert acts[1..] == [b] && acts[1..][1..] == [];
    assert Legal(L, budget, t, [b]) && Exec(L, budget, t, [b]) == u;
  }

  ghost predicate RoomOnDisk(L: Layout, size: nat, first: nat) {
    forall b | first <= b < first + LOGSIZE :: Home(L, size, b)
  }

  lemma {:induction false} FillRun(L: Layout, budget: nat, d: Disk, first: nat, x: Block, n: nat)
    returns (acts: seq<Action>)
    requires n <= 29 && budget >= MAXOPBLOCKS && L.size == LOGSIZE && RoomOnDisk(L, |d|, first)
    ensures Legal(L, budget, Start(d), acts)
    ensures Filled(Exec(L, budget, Start(d), acts), |d|, first, n)
  {
    if n == 0 {
      acts := [Begin, Begin, Begin];
      var s1 := Do(L, budget, Start(d), Begin);
      var s2 := Do(L, budget, s1, Begin);
      assert acts[1..] == [Begin, Begin] && acts[1..][1..] == [Begin] && acts[1..][1..][1..] == [];
      assert Legal(L, budget, s2, [Begin]);
      assert Legal(L, budget, s1, acts[1..]);
    } else {
      hide Enabled, Do, Exec, Legal, Filled;
      var a := FillRun(L, budget, d, first, x, n - 1);
      var s := Exec(L, budget, Start(d), a);
      assert |s.disk| == |d| by { FilledSize(s, |d|, first, n - 1); }
      assert Home(L, |d|, first + (n - 1));
      var b := FillStep(L, budget, s, first, x, n - 1);
      ExecConcat(L, budget, Start(d), a, b);
      acts := a + b;
    }
  }

  lemma FilledSize(s: State, size: nat, first: nat, n: nat)
    requires Filled(s, size, first, n)
    ensures |s.disk| == size
  {
  }

  /** At 29 logged blocks the next `log_write` panics. */
  lemma PanicRun(L: Layout, budget: nat, s: State, first: nat) returns (acts: seq<Action>)
    requires Filled(s, |s.disk|, first, 29) && L.size == LOGSIZE
    ensures Legal(L, budget, s, acts) && Exec(L, budget, s, acts).phase.Panicked?
  {
    acts := [Check(1)];
    assert acts[1..] == [];
    assert |s.lh| == 29;
  }

  /** Two operations that both pass the unlocked size test at 28 blocks overrun the log area. */
  lemma OverrunRun(L: Layout, budget: nat, s: State, first: nat, x: Block) returns (acts: seq<Action>)
    requires Filled(s, |s.disk|, first, 28) && budget >= MAXOPBLOCKS && L.size == LOGSIZE
    requires RoomOnDisk(L, |s.disk|, first)
    ensures Legal(L, budget, s, acts) && |Exec(L, budget, s, acts).lh| == L.size
  {
    var b, c := first + 28, first + 29;
    assert |s.lh| == 28 && b !in s.lh && c !in s.lh;
    assert Home(L, |s.disk|, b) && Home(L, |s.disk|, c);
    assert |s.ops[1].logged| == 9 && |s.ops[2].logged| == 9;
    var t := Do(L, budget, s, Check(1));
    assert t.ops[1].logged == s.ops[1].logged && t.ops[2] == s.ops[2];
    var u := Do(L, budget, t, Check(2));
    assert u.ops[1] == t.ops[1] && u.ops[2].logged == s.ops[2].logged;
    assert Enabled(L, budget, u, Append(1, b, x));
    var w := Do(L, budget, u, Append(1, b, x));
    assert |w.lh| == 29 && c !in w.lh && w.ops[2] == u.ops[2];
    assert Enabled(L, budget, w, Append(2, c, x));
    hide Enabled, Do;
    ExecOne(L, budget, w, Append(2, c, x));
    ExecCons(L, budget, u, Append(1, b, x), [Append(2, c, x)]);
    ExecCons(L, budget, t, Check(2), [Append(1, b, x)] + [Append(2, c, x)]);
    ExecCons(L, budget, s, Check(1), [Check(2)] + ([Append(1, b, x)] + [Append(2, c, x)]));
    acts := [Check(1)] + ([Check(2)] + ([Append(1, b, x)] + [Append(2, c, x)]));
  }

  /** The reservation is sound exactly for budgets below MAXOPBLOCKS: with MAXOPBLOCKS distinct
      blocks per operation, the amount param.h allows, some interleaving panics and some
      interleaving of the unlocked size test outgrows the log area. */
  lemma BudgetIsExact(L: Layout, budget: nat, d: Disk, first: nat)
    requires Clean(L, d) && L.size == LOGSIZE && RoomOnDisk(L, |d|, first)
    ensures (forall acts | Legal(L, budget, Start(d), acts) :: !Exec(L, budget, Start(d), acts).phase.Panicked?)
            <==> budget <= MAXOPBLOCKS - 1
    ensures (forall acts | Legal(L, budget, Start(d), acts) :: |Exec(L, budget, Start(d), acts).lh| < L.size)
            <==> budget <= MAXOPBLOCKS - 1
  {
    hide Legal, Exec, Filled, Clean, Start;
    if budget <= MAXOPBLOCKS - 1 {
      forall acts | Legal(L, budget, Start(d), acts)
        ensures !Exec(L, budget, Start(d), acts).phase.Panicked?
        ensures |Exec(L, budget, Start(d), acts).lh| < L.size
      {
        GroupCommitSafe(L, budget, d, acts);
      }
    } else {
      var x := ZeroBlock();
      var a := FillRun(L, budget, d, first, x, 29);
      var s := Exec(L, budget, Start(d), a);
      FilledSize(s, |d|, first, 29);
      var p := PanicRun(L, budget, s, first);
      ExecConcat(L, budget, Start(d), a, p);
      assert Exec(L, budget, Start(d), a + p).phase.Panicked?;
      var c := FillRun(L, budget, d, first, x, 28);
      var t := Exec(L, budget, Start(d), c);
      FilledSize(t, |d|, first, 28);
      var o := OverrunRun(L, budget, t, first, x);
      ExecConcat(L, budget, Start(d), c, o);
      assert |Exec(L, budget, Start(d), c + o).lh| == L.size;
    }
  }
}

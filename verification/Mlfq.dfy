/** The multi-level feedback queue of proc.c and trap.c on one CPU, with K levels. */
module Mlfq {
  import opened Common

  const BOOST: nat := 100
  const NONE: int := -1

  datatype ProcState = Unused | Embryo | Sleeping | Runnable | Running | Zombie

  /** `exiting` says that the process is, or was, inside the `exit` that the tick handler calls for a killed process.
      `charged` is history: the ticks charged since the process was created, boosted, or last gave up the CPU by
      `yield_` or `sleep_`. */
  datatype Proc = Proc(state: ProcState, qlvl: nat, tq: nat, priority: int, exiting: bool, charged: nat)

  /** The time quantum of a level. */
  function Quantum(q: nat): nat {
    4 * q + 2
  }

  function Reset(p: Proc): Proc {
    p.(qlvl := 0, tq := 0, charged := 0)
  }

  /** The table, the process on the CPU (NONE in the scheduler) and the tick counter. */
  datatype State = State(procs: seq<Proc>, cpu: int, ticks: nat)

  predicate OnCpu(s: State) {
    0 <= s.cpu < |s.procs|
  }

  // ---------- the scheduler's choice ----------

  predicate Eligible(p: Proc, k: nat) {
    p.state.Runnable? && p.qlvl != k
  }

  /** Entry i is eligible and on the lowest level of all eligible entries. */
  predicate Top(procs: seq<Proc>, k: nat, i: nat) {
    && i < |procs| && Eligible(procs[i], k)
    && forall j | 0 <= j < |procs| && Eligible(procs[j], k) :: procs[i].qlvl <= procs[j].qlvl
  }

  /** Among the top entries: the first with a started quantum if there is one, otherwise the first of highest
      priority. */
  ghost predicate Choice(procs: seq<Proc>, k: nat, i: nat) {
    && Top(procs, k, i)
    && if exists j: nat :: Top(procs, k, j) && procs[j].tq != 0
       then procs[i].tq != 0 && forall j | 0 <= j < i && Top(procs, k, j) :: procs[j].tq == 0
       else forall j | 0 <= j < |procs| && Top(procs, k, j) ::
              procs[j].priority <= procs[i].priority && (j < i ==> procs[j].priority < procs[i].priority)
  }

  /** What the scan knows about its selection after n entries. */
  ghost predicate Selected(procs: seq<Proc>, k: nat, n: nat, i: int) {
    && n <= |procs|
    && (i == NONE ==> forall j | 0 <= j < n :: !Eligible(procs[j], k))
    && (i != NONE ==>
          && 0 <= i < n && Eligible(procs[i], k)
          && (forall j | 0 <= j < n && Eligible(procs[j], k) :: procs[i].qlvl <= procs[j].qlvl)
          && (procs[i].tq != 0 ==> forall j | 0 <= j < i && Eligible(procs[j], k) && procs[j].qlvl == procs[i].qlvl ::
               procs[j].tq == 0)
          && (procs[i].tq == 0 ==>
                forall j | 0 <= j < n && Eligible(procs[j], k) && procs[j].qlvl == procs[i].qlvl ::
                  procs[j].tq == 0 && procs[j].priority <= procs[i].priority
                    && (j < i ==> procs[j].priority < procs[i].priority)))
  }

  lemma SelectedIsChoice(procs: seq<Proc>, k: nat, i: int)
    requires Selected(procs, k, |procs|, i)
    ensures i != NONE ==> Choice(procs, k, i)
    ensures i == NONE ==> forall j | 0 <= j < |procs| :: !Eligible(procs[j], k)
  {
    if i != NONE {
      assert Top(procs, k, i);
      assert forall j: nat | Top(procs, k, j) :: Eligible(procs[j], k) && procs[j].qlvl == procs[i].qlvl;
      if procs[i].tq != 0 {
        assert exists j: nat :: Top(procs, k, j) && procs[j].tq != 0;
      }
    }
  }

  /** The choice is unique. */
  lemma ChoiceUnique(procs: seq<Proc>, k: nat, i: nat, j: nat)
    requires Choice(procs, k, i) && Choice(procs, k, j)
    ensures i == j
  {
    assert Top(procs, k, i) && Top(procs, k, j);
  }

  /** One pass over the table. */
  method Scan(procs: seq<Proc>, k: nat) returns (sel: int)
    ensures sel == NONE <==> forall j | 0 <= j < |procs| :: !Eligible(procs[j], k)
    ensures sel != NONE ==> 0 <= sel < |procs| && Choice(procs, k, sel)
  {
    sel := NONE;
    var n := 0;
    while n < |procs|
      invariant 0 <= n <= |procs| && Selected(procs, k, n, sel)
    {
      var p := procs[n];
      if p.state != Runnable || p.qlvl == k {
      } else if sel == NONE {
        sel := n;
      } else if procs[sel].qlvl > p.qlvl {
        sel := n;
      } else if procs[sel].qlvl == p.qlvl {
        if procs[sel].tq == 0 && procs[sel].priority < p.priority {
          sel := n;
        } else if procs[sel].tq == 0 && p.tq != 0 {
          sel := n;
        }
      }
      n := n + 1;
    }
    SelectedIsChoice(procs, k, sel);
    if sel != NONE {
      assert Eligible(procs[sel], k);
    }
  }

  // ---------- the machine ----------

  /** A tick may find the running process killed in user mode, in which case it calls `exit`: the process stays on the
      CPU, closes its files, which may put it to sleep, and becomes a zombie by a later Exit. Schedule names the process
      the scan selects. */
  datatype Event =
    | Alloc(i: nat)
    | AllocFails(i: nat)
    | Ready(i: nat)
    | Schedule(i: nat)
    | Tick(exits: bool)
    | YieldReset
    | Sleep
    | SleepReset
    | Wakeup(i: nat)
    | Exit
    | Reap(i: nat)
    | SetPriority(i: nat, priority: int)

  function Put(s: State, i: nat, p: Proc): State
    requires i < |s.procs|
  {
    s.(procs := s.procs[i := p])
  }

  /** The running process leaves the CPU as p. */
  function Leave(s: State, p: Proc): State
    requires OnCpu(s)
  {
    Put(s, s.cpu, p).(cpu := NONE)
  }

  function Charge(p: Proc): Proc {
    p.(tq := p.tq + 1, charged := p.charged + 1)
  }

  function Boost(procs: seq<Proc>): (r: seq<Proc>)
    ensures |r| == |procs| && forall i | 0 <= i < |r| :: r[i] == Reset(procs[i])
  {
    seq(|procs|, i requires 0 <= i < |procs| => Reset(procs[i]))
  }

  /** Down one level at the end of the quantum. */
  function Demote(p: Proc): Proc {
    if p.tq >= Quantum(p.qlvl) then p.(tq := 0, qlvl := p.qlvl + 1) else p
  }

  function Charged(s: State): (r: State)
    ensures |r.procs| == |s.procs| && r.cpu == s.cpu
  {
    if OnCpu(s) then Put(s, s.cpu, Charge(s.procs[s.cpu])) else s
  }

  function Boosted(s: State): (r: State)
    ensures |r.procs| == |s.procs| && r.cpu == s.cpu
  {
    if s.ticks % BOOST == 0 then s.(procs := Boost(s.procs)) else s
  }

  function Preempted(s: State, exits: bool): State {
    if !OnCpu(s) then s
    else if exits then Put(s, s.cpu, s.procs[s.cpu].(exiting := true))
    else Leave(s, Demote(s.procs[s.cpu]).(state := Runnable))
  }

  /** The timer interrupt: charge, boost every hundredth tick, begin to exit or demote and yield. */
  function TickStep(s: State, exits: bool): State {
    Preempted(Boosted(Charged(s.(ticks := (s.ticks + 1) % UINT_LIMIT))), exits)
  }

  predicate Is(s: State, i: nat, st: ProcState) {
    i < |s.procs| && s.procs[i].state == st
  }

  /** The running process is inside the `exit` of the tick handler. The timer gate has switched interrupts off and no
      lock switches them on again, and that code calls neither `yield_` nor `sleep_`. */
  predicate InExit(s: State) {
    OnCpu(s) && s.procs[s.cpu].exiting
  }

  ghost predicate Enabled(s: State, e: Event, k: nat) {
    match e
    case Alloc(i) => Is(s, i, Unused)
    case AllocFails(i) => Is(s, i, Embryo)
    case Ready(i) => Is(s, i, Embryo)
    case Schedule(i) => s.cpu == NONE && Choice(s.procs, k, i)
    case Tick(_) => !InExit(s)
    case YieldReset => OnCpu(s) && !InExit(s)
    case SleepReset => OnCpu(s) && !InExit(s)
    case Wakeup(i) => Is(s, i, Sleeping)
    case Reap(i) => Is(s, i, Zombie)
    case SetPriority(i, v) => i < |s.procs| && 0 <= v <= 10
    case _ => OnCpu(s)
  }

  ghost function Do(s: State, e: Event, k: nat): State
    requires Enabled(s, e, k)
  {
    match e
    case Alloc(i) => Put(s, i, Reset(s.procs[i]).(state := Embryo, priority := 0, exiting := false))
    case AllocFails(i) => Put(s, i, s.procs[i].(state := Unused))
    case Ready(i) => Put(s, i, s.procs[i].(state := Runnable))
    case Schedule(i) => Put(s, i, s.procs[i].(state := Running)).(cpu := i)
    case Tick(exits) => TickStep(s, exits)
    case YieldReset => Leave(s, Reset(s.procs[s.cpu]).(state := Runnable))
    case Sleep => Leave(s, s.procs[s.cpu].(state := Sleeping))
    case SleepReset => Leave(s, Reset(s.procs[s.cpu]).(state := Sleeping))
    case Wakeup(i) => Put(s, i, s.procs[i].(state := Runnable))
    case Exit => Leave(s, s.procs[s.cpu].(state := Zombie))
    case Reap(i) => Put(s, i, s.procs[i].(state := Unused))
    case SetPriority(i, v) => Put(s, i, s.procs[i].(priority := v))
  }

  // ---------- accounting ----------

  /** All ticks of the levels below q: 2 + 6 + ... + (4 * (q - 1) + 2). */
  function Below(q: nat): nat {
    2 * (q * q)
  }

  lemma BelowNext(q: nat)
    ensures Below(q + 1) == Below(q) + Quantum(q)
  {
  }

  lemma {:induction false} BelowMonotone(p: nat, q: nat)
    requires p <= q
    ensures Below(p) <= Below(q)
    decreases q - p
  {
    hide Below;
    if p < q {
      BelowMonotone(p, q - 1);
      BelowNext(q - 1);
    }
  }

  /** The books of one process balance. Only a process that exits from the tick handler can have its whole quantum
      charged. */
  predicate ProcOk(p: Proc, k: nat) {
    && p.qlvl <= k
    && p.charged == Below(p.qlvl) + p.tq
    && (p.qlvl == k ==> p.tq == 0)
    && p.tq <= Quantum(p.qlvl)
    && (!p.exiting ==> p.tq < Quantum(p.qlvl))
    && (p.state.Running? ==> p.qlvl < k)
  }

  ghost predicate CpuOk(s: State) {
    && (s.cpu == NONE || OnCpu(s))
    && forall i | 0 <= i < |s.procs| :: s.procs[i].state.Running? <==> s.cpu == i
  }

  ghost predicate Inv(s: State, k: nat) {
    && CpuOk(s)
    && forall i | 0 <= i < |s.procs| :: ProcOk(s.procs[i], k)
  }

  lemma PutKeeps(s: State, i: nat, p: Proc, k: nat)
    requires Inv(s, k) && i < |s.procs| && ProcOk(p, k) && s.cpu != i && !p.state.Running?
    ensures Inv(Put(s, i, p), k)
  {
    hide ProcOk;
  }

  lemma LeaveKeeps(s: State, p: Proc, k: nat)
    requires Inv(s, k) && OnCpu(s) && ProcOk(p, k) && !p.state.Running?
    ensures Inv(Leave(s, p), k)
  {
    hide ProcOk;
  }

  lemma ResetOk(p: Proc, k: nat, st: ProcState)
    requires 1 <= k
    ensures ProcOk(Reset(p).(state := st), k)
    ensures ProcOk(Reset(p).(state := st, priority := 0, exiting := false), k)
  {
  }

  /** The quantum a running process has used up counts towards the next level; a process that exits keeps it. */
  lemma ChargeOk(p: Proc, k: nat)
    requires ProcOk(p, k) && p.state.Running? && !p.exiting
    ensures ProcOk(Demote(Charge(p)).(state := Runnable), k) && ProcOk(Charge(p).(exiting := true), k)
  {
    hide Below;
    BelowNext(p.qlvl);
  }

  /** A reset process is not demoted. */
  lemma FreshOk(p: Proc, k: nat)
    requires ProcOk(p, k) && p.tq == 0
    ensures Demote(p) == p && ProcOk(p.(state := Runnable), k) && ProcOk(p.(exiting := true), k)
  {
  }

  lemma TickKeeps(s: State, exits: bool, k: nat)
    requires Inv(s, k) && 1 <= k && !InExit(s)
    ensures Inv(TickStep(s, exits), k)
  {
    hide ProcOk, Below;
    var t := (s.ticks + 1) % UINT_LIMIT;
    var c := Charged(s.(ticks := t));
    if t % BOOST == 0 {
      BoostKeeps(s, c, k);
      if OnCpu(s) {
        var p := Boosted(c).procs[s.cpu];
        FreshOk(p, k);
        StayKeeps(Boosted(c), p.(exiting := true), k);
        LeaveKeeps(Boosted(c), p.(state := Runnable), k);
      }
    } else if OnCpu(s) {
      var p := s.procs[s.cpu];
      ChargeOk(p, k);
      if exits {
        StayKeeps(s, Charge(p).(exiting := true), k);
        assert TickStep(s, exits).procs == Put(s, s.cpu, Charge(p).(exiting := true)).procs;
      } else {
        LeaveKeeps(s, Demote(Charge(p)).(state := Runnable), k);
        assert TickStep(s, exits).procs == Leave(s, Demote(Charge(p)).(state := Runnable)).procs;
      }
    }
  }

  lemma StayKeeps(s: State, p: Proc, k: nat)
    requires Inv(s, k) && OnCpu(s) && ProcOk(p, k) && p.state.Running?
    ensures Inv(Put(s, s.cpu, p), k)
  {
    hide ProcOk;
  }

  lemma BoostKeeps(s: State, c: State, k: nat)
    requires CpuOk(s) && 1 <= k && c.cpu == s.cpu && |c.procs| == |s.procs| && c.ticks % BOOST == 0
    requires forall i | 0 <= i < |s.procs| :: c.procs[i].state == s.procs[i].state
    ensures Inv(Boosted(c), k)
  {
    hide ProcOk;
    forall i | 0 <= i < |c.procs|
      ensures ProcOk(Reset(c.procs[i]), k)
    {
      ResetOk(c.procs[i], k, c.procs[i].state);
      assert Reset(c.procs[i]).(state := c.procs[i].state) == Reset(c.procs[i]);
    }
  }

  lemma StepKeeps(s: State, e: Event, k: nat)
    requires Inv(s, k) && 1 <= k && Enabled(s, e, k)
    ensures Inv(Do(s, e, k), k)
  {
    hide Below, TickStep;
    match e {
      case Tick(exits) => TickKeeps(s, exits, k);
      case Alloc(i) =>
        ResetOk(s.procs[i], k, Embryo);
        PutKeeps(s, i, Reset(s.procs[i]).(state := Embryo, priority := 0, exiting := false), k);
      case YieldReset =>
        ResetOk(s.procs[s.cpu], k, Runnable);
        LeaveKeeps(s, Reset(s.procs[s.cpu]).(state := Runnable), k);
      case SleepReset =>
        ResetOk(s.procs[s.cpu], k, Sleeping);
        LeaveKeeps(s, Reset(s.procs[s.cpu]).(state := Sleeping), k);
      case _ => PlainKeeps(s, e, k);
    }
  }

  lemma PlainKeeps(s: State, e: Event, k: nat)
    requires Inv(s, k) && 1 <= k && Enabled(s, e, k)
    requires !e.Tick? && !e.Alloc? && !e.YieldReset? && !e.SleepReset?
    ensures Inv(Do(s, e, k), k)
  {
    hide Below, TickStep;
  }

  // ---------- whole runs ----------

  ghost predicate Legal(s: State, run: seq<Event>, k: nat)
    decreases |run|
  {
    run == [] || (Enabled(s, run[0], k) && Legal(Do(s, run[0], k), run[1..], k))
  }

  ghost function Exec(s: State, run: seq<Event>, k: nat): State
    requires Legal(s, run, k)
    decreases |run|
  {
    if run == [] then s else Exec(Do(s, run[0], k), run[1..], k)
  }

  predicate Init(s: State) {
    s.cpu == NONE && s.ticks == 0 && forall i | 0 <= i < |s.procs| :: s.procs[i] == Proc(Unused, 0, 0, 0, false, 0)
  }

  lemma {:induction false} RunKeeps(s: State, run: seq<Event>, k: nat)
    requires Inv(s, k) && 1 <= k && Legal(s, run, k)
    ensures Inv(Exec(s, run, k), k)
    decreases |run|
  {
    hide Inv, Do, Enabled;
    if run != [] {
      StepKeeps(s, run[0], k);
      RunKeeps(Do(s, run[0], k), run[1..], k);
    }
  }

  /** The count of ticks charged to process i since its last reset, read off one event. */
  function Counted(s: State, e: Event, i: nat, n: nat): nat {
    match e
    case Alloc(j) => if j == i then 0 else n
    case Tick(_) => if (s.ticks + 1) % UINT_LIMIT % BOOST == 0 then 0 else if s.cpu == i then n + 1 else n
    case YieldReset => if s.cpu == i then 0 else n
    case SleepReset => if s.cpu == i then 0 else n
    case _ => n
  }

  /** The count read off a whole run. */
  ghost function TicksCharged(s: State, run: seq<Event>, k: nat, i: nat, n: nat): nat
    requires Legal(s, run, k)
    decreases |run|
  {
    if run == [] then n else TicksCharged(Do(s, run[0], k), run[1..], k, i, Counted(s, run[0], i, n))
  }

  lemma CountStep(s: State, e: Event, k: nat, i: nat)
    requires Enabled(s, e, k) && i < |s.procs|
    ensures |Do(s, e, k).procs| == |s.procs| && Do(s, e, k).procs[i].charged == Counted(s, e, i, s.procs[i].charged)
  {
  }

  lemma {:induction false} CountRun(s: State, run: seq<Event>, k: nat, i: nat)
    requires Legal(s, run, k) && i < |s.procs|
    ensures |Exec(s, run, k).procs| == |s.procs|
    ensures Exec(s, run, k).procs[i].charged == TicksCharged(s, run, k, i, s.procs[i].charged)
    decreases |run|
  {
    hide Do, Enabled, Counted;
    if run != [] {
      CountStep(s, run[0], k, i);
      CountRun(Do(s, run[0], k), run[1..], k, i);
    }
  }

  /** A killed process is charged the last tick of its quantum and begins to exit in that tick, before it would be
      demoted; the tick is not one that boosts. */
  predicate CutShort(s: State, e: Event) {
    && e == Tick(true) && OnCpu(s)
    && s.procs[s.cpu].tq + 1 == Quantum(s.procs[s.cpu].qlvl)
    && (s.ticks + 1) % UINT_LIMIT % BOOST != 0
  }

  /** Whether process i has been cut short and not been reset since, read off one event. */
  predicate CutBy(s: State, e: Event, i: nat, cut: bool) {
    match e
    case Alloc(j) => j != i && cut
    case Tick(_) => (s.ticks + 1) % UINT_LIMIT % BOOST != 0 && (cut || (s.cpu == i && CutShort(s, e)))
    case YieldReset => s.cpu != i && cut
    case SleepReset => s.cpu != i && cut
    case _ => cut
  }

  /** The same read off a whole run. */
  ghost predicate WasCut(s: State, run: seq<Event>, k: nat, i: nat, cut: bool)
    requires Legal(s, run, k)
    decreases |run|
  {
    if run == [] then cut else WasCut(Do(s, run[0], k), run[1..], k, i, CutBy(s, run[0], i, cut))
  }

  /** The whole quantum of the process is charged. */
  predicate UsedUp(p: Proc) {
    p.tq >= Quantum(p.qlvl)
  }

  lemma CutStep(s: State, e: Event, k: nat, i: nat)
    requires Inv(s, k) && 1 <= k && Enabled(s, e, k) && i < |s.procs|
    ensures |Do(s, e, k).procs| == |s.procs|
    ensures UsedUp(Do(s, e, k).procs[i]) <==> CutBy(s, e, i, UsedUp(s.procs[i]))
  {
    hide Below, TickStep;
    assert ProcOk(s.procs[i], k);
    if e.Tick? {
      TickCut(s, e.exits, k, i);
    }
  }

  lemma TickCut(s: State, exits: bool, k: nat, i: nat)
    requires Inv(s, k) && 1 <= k && !InExit(s) && i < |s.procs|
    ensures |TickStep(s, exits).procs| == |s.procs|
    ensures UsedUp(TickStep(s, exits).procs[i]) <==> CutBy(s, Tick(exits), i, UsedUp(s.procs[i]))
  {
    hide Below;
    assert ProcOk(s.procs[i], k);
  }

  lemma {:induction false} CutRuns(s: State, run: seq<Event>, k: nat, i: nat)
    requires Inv(s, k) && 1 <= k && Legal(s, run, k) && i < |s.procs|
    ensures |Exec(s, run, k).procs| == |s.procs|
    ensures UsedUp(Exec(s, run, k).procs[i]) <==> WasCut(s, run, k, i, UsedUp(s.procs[i]))
    decreases |run|
  {
    hide Inv, Do, Enabled, CutBy, UsedUp;
    if run != [] {
      StepKeeps(s, run[0], k);
      CutStep(s, run[0], k, i);
      CutRuns(Do(s, run[0], k), run[1..], k, i);
    }
  }

  /** In every run, for every process: the ticks charged since its last reset are 2 * qlvl^2 + tq and at most 2 * K^2;
      its level is at most K, and below K while it runs; tq never exceeds the quantum, and is the whole quantum exactly
      if the process was cut short on its way into `exit` and has not been reset since. */
  lemma Accounting(s: State, run: seq<Event>, k: nat, i: nat)
    requires Init(s) && 1 <= k && Legal(s, run, k) && i < |s.procs|
    ensures |Exec(s, run, k).procs| == |s.procs|
    ensures var p, ticks := Exec(s, run, k).procs[i], TicksCharged(s, run, k, i, 0);
            && ticks == 2 * (p.qlvl * p.qlvl) + p.tq
            && ticks <= 2 * (k * k)
            && p.qlvl <= k
            && (p.state.Running? ==> p.qlvl < k)
            && p.tq <= 4 * p.qlvl + 2
            && (p.tq == 4 * p.qlvl + 2 <==> WasCut(s, run, k, i, false))
            && (!p.exiting ==> p.tq < 4 * p.qlvl + 2)
  {
    hide Exec, Legal, TicksCharged, WasCut;
    InitInv(s, k);
    RunKeeps(s, run, k);
    CountRun(s, run, k, i);
    CutRuns(s, run, k, i);
    var p := Exec(s, run, k).procs[i];
    assert ProcOk(p, k);
    BooksBound(p, k);
  }

  lemma InitInv(s: State, k: nat)
    requires Init(s)
    ensures Inv(s, k)
  {
  }

  lemma BooksBound(p: Proc, k: nat)
    requires ProcOk(p, k)
    ensures p.charged <= Below(k)
  {
    hide Below;
    if p.qlvl < k {
      BelowNext(p.qlvl);
      BelowMonotone(p.qlvl + 1, k);
    }
  }

  // ---------- the states of a process, read off the events ----------

  /** The process on the CPU after the events of a run. */
  function CpuOf(run: seq<Event>): int {
    if run == [] then NONE else
    var before := CpuOf(run[..|run| - 1]);
    match run[|run| - 1]
    case Schedule(i) => i
    case Tick(exits) => if exits then before else NONE
    case YieldReset => NONE
    case Sleep => NONE
    case SleepReset => NONE
    case Exit => NONE
    case _ => before
  }

  /** Event e, with `cpu` on the CPU, puts process i into the given state. */
  predicate Enters(cpu: int, e: Event, i: nat, st: ProcState) {
    match st
    case Unused => e == AllocFails(i) || e == Reap(i)
    case Embryo => e == Alloc(i)
    case Runnable => e == Ready(i) || e == Wakeup(i) || (cpu == i && (e == YieldReset || e == Tick(false)))
    case Running => e == Schedule(i)
    case Sleeping => cpu == i && (e == Sleep || e == SleepReset)
    case Zombie => cpu == i && e == Exit
  }

  /** Event e is one that ends the given state of process i; while a process runs, every other event that takes a
      process off the CPU is its own. */
  predicate Ends(e: Event, i: nat, st: ProcState) {
    match st
    case Unused => e == Alloc(i)
    case Embryo => e == Ready(i) || e == AllocFails(i)
    case Runnable => e == Schedule(i)
    case Running => e == YieldReset || e == Tick(false) || e == Sleep || e == SleepReset || e == Exit
    case Sleeping => e == Wakeup(i)
    case Zombie => e == Reap(i)
  }

  /** No event after `from` ends the state. */
  ghost predicate NoneEnds(run: seq<Event>, from: int, i: nat, st: ProcState) {
    forall m | from < m < |run| && 0 <= m :: !Ends(run[m], i, st)
  }

  predicate EntersAt(run: seq<Event>, j: nat, i: nat, st: ProcState)
    requires j < |run|
  {
    Enters(CpuOf(run[..j]), run[j], i, st)
  }

  /** Process i has been put into the state, or begun in it, and no event since has ended it. */
  ghost predicate Since(run: seq<Event>, i: nat, st: ProcState) {
    || (st.Unused? && NoneEnds(run, -1, i, st))
    || exists j: nat | j < |run| :: EntersAt(run, j, i, st) && NoneEnds(run, j, i, st)
  }

  lemma SinceNext(run: seq<Event>, i: nat, st: ProcState)
    requires run != []
    ensures var m := |run| - 1;
            Since(run, i, st) <==> EntersAt(run, m, i, st) || (Since(run[..m], i, st) && !Ends(run[m], i, st))
  {
    hide EntersAt, Ends, NoneEnds;
    var m := |run| - 1;
    NoneEndsNext(run, m, i, st);
    NoneEndsNext(run, -1, i, st);
    forall j: nat | j < m
      ensures EntersAt(run[..m], j, i, st) <==> EntersAt(run, j, i, st)
      ensures NoneEnds(run, j, i, st) <==> NoneEnds(run[..m], j, i, st) && !Ends(run[m], i, st)
    {
      EntersBefore(run, m, j, i, st);
      NoneEndsNext(run, j, i, st);
    }
  }

  lemma EntersBefore(run: seq<Event>, m: nat, j: nat, i: nat, st: ProcState)
    requires j < m <= |run|
    ensures EntersAt(run[..m], j, i, st) <==> EntersAt(run, j, i, st)
  {
    hide CpuOf, Enters;
    assert run[..m][..j] == run[..j];
  }

  lemma NoneEndsNext(run: seq<Event>, from: int, i: nat, st: ProcState)
    requires run != [] && -1 <= from < |run|
    ensures var m := |run| - 1;
            NoneEnds(run, from, i, st) <==> from == m || (NoneEnds(run[..m], from, i, st) && !Ends(run[m], i, st))
  {
    hide Ends;
    var m := |run| - 1;
    assert forall j | 0 <= j < m :: run[..m][j] == run[j];
  }

  /** The last step of a run. */
  lemma {:induction false} LastStep(s: State, run: seq<Event>, k: nat)
    requires Legal(s, run, k) && run != []
    ensures var m := |run| - 1;
            && Legal(s, run[..m], k) && Enabled(Exec(s, run[..m], k), run[m], k)
            && Exec(s, run, k) == Do(Exec(s, run[..m], k), run[m], k)
    decreases |run|
  {
    hide Do, Enabled;
    var m := |run| - 1;
    if m == 0 {
      assert run[..m] == [] && run[1..] == [];
    } else {
      LastStep(Do(s, run[0], k), run[1..], k);
      assert run[1..][..m - 1] == run[..m][1..];
    }
  }

  /** One event: the state ends or stays or is entered as the event says. */
  lemma StateStep(s: State, e: Event, k: nat, i: nat, st: ProcState)
    requires CpuOk(s) && Enabled(s, e, k) && i < |s.procs|
    ensures |Do(s, e, k).procs| == |s.procs|
    ensures Do(s, e, k).procs[i].state == st <==> Enters(s.cpu, e, i, st) || (s.procs[i].state == st && !Ends(e, i, st))
  {
    hide Choice;
    if e.Schedule? {
      ChoiceInside(s.procs, k, e.i);
    }
  }

  lemma ChoiceInside(procs: seq<Proc>, k: nat, i: nat)
    requires Choice(procs, k, i)
    ensures i < |procs| && Eligible(procs[i], k)
  {
  }

  lemma {:induction false} CpuLaw(s: State, run: seq<Event>, k: nat)
    requires Init(s) && 1 <= k && Legal(s, run, k)
    ensures Exec(s, run, k).cpu == CpuOf(run) && CpuOk(Exec(s, run, k)) && |Exec(s, run, k).procs| == |s.procs|
    decreases |run|
  {
    hide Legal, Exec, Choice, TickStep;
    InitInv(s, k);
    RunKeeps(s, run, k);
    if run == [] {
      NoEvents(s, k);
    } else {
      LastStep(s, run, k);
      CpuLaw(s, run[..|run| - 1], k);
      CpuStep(Exec(s, run[..|run| - 1], k), run, k);
    }
  }

  lemma NoEvents(s: State, k: nat)
    ensures Legal(s, [], k) && Exec(s, [], k) == s
  {
  }

  lemma CpuStep(s: State, run: seq<Event>, k: nat)
    requires run != [] && s.cpu == CpuOf(run[..|run| - 1]) && CpuOk(s) && Enabled(s, run[|run| - 1], k)
    ensures Do(s, run[|run| - 1], k).cpu == CpuOf(run) && |Do(s, run[|run| - 1], k).procs| == |s.procs|
  {
    hide Choice;
    if run[|run| - 1].Schedule? {
      ChoiceInside(s.procs, k, run[|run| - 1].i);
    }
  }

  /** In every run a process is in a state if and only if some event put it there, or it began there, and none since has
      ended it: it sleeps exactly if it has called `sleep` or `sleep_` and not been woken since, and so for the other
      states. */
  lemma {:induction false} StateLaw(s: State, run: seq<Event>, k: nat, i: nat, st: ProcState)
    requires Init(s) && 1 <= k && Legal(s, run, k) && i < |s.procs|
    ensures |Exec(s, run, k).procs| == |s.procs|
    ensures Exec(s, run, k).procs[i].state == st <==> Since(run, i, st)
    decreases |run|
  {
    hide Legal, Exec, Do, Enabled, CpuOk, Enters, Ends, Since;
    CpuLaw(s, run, k);
    if run == [] {
      NoEvents(s, k);
      SinceStart(i, st);
    } else {
      var m := |run| - 1;
      LastStep(s, run, k);
      CpuLaw(s, run[..m], k);
      StateLaw(s, run[..m], k, i, st);
      StateStep(Exec(s, run[..m], k), run[m], k, i, st);
      SinceNext(run, i, st);
    }
  }

  lemma SinceStart(i: nat, st: ProcState)
    ensures Since([], i, st) <==> st == Unused
  {
  }

  /** The priority last set since the process was allocated, 0 if none was. */
  function PriorityOf(run: seq<Event>, i: nat): int {
    if run == [] then 0 else
    match run[|run| - 1]
    case Alloc(j) => if j == i then 0 else PriorityOf(run[..|run| - 1], i)
    case SetPriority(j, v) => if j == i then v else PriorityOf(run[..|run| - 1], i)
    case _ => PriorityOf(run[..|run| - 1], i)
  }

  /** A tick has sent the process into `exit` since it was allocated. */
  predicate SentToExit(run: seq<Event>, i: nat) {
    run != [] &&
    var m := |run| - 1;
    match run[m]
    case Alloc(j) => j != i && SentToExit(run[..m], i)
    case Tick(exits) => (exits && CpuOf(run[..m]) == i) || SentToExit(run[..m], i)
    case _ => SentToExit(run[..m], i)
  }

  /** The ticks of a run. */
  function TickCount(run: seq<Event>): nat {
    if run == [] then 0 else TickCount(run[..|run| - 1]) + if run[|run| - 1].Tick? then 1 else 0
  }

  /** In every run, no boost, tick, yield or sleep changes a priority, only a process that a tick has sent into `exit`
      is marked, and the clock counts the ticks. */
  lemma {:induction false} PriorityLaw(s: State, run: seq<Event>, k: nat, i: nat)
    requires Init(s) && 1 <= k && Legal(s, run, k) && i < |s.procs|
    ensures |Exec(s, run, k).procs| == |s.procs|
    ensures Exec(s, run, k).procs[i].priority == PriorityOf(run, i)
    ensures Exec(s, run, k).procs[i].exiting <==> SentToExit(run, i)
    ensures Exec(s, run, k).ticks == TickCount(run) % UINT_LIMIT
    decreases |run|
  {
    hide Legal, Exec, CpuOk, Do, Enabled, CpuOf;
    CpuLaw(s, run, k);
    if run == [] {
      NoEvents(s, k);
    } else {
      var m := |run| - 1;
      LastStep(s, run, k);
      CpuLaw(s, run[..m], k);
      PriorityLaw(s, run[..m], k, i);
      PriorityStep(Exec(s, run[..m], k), run[m], k, i);
    }
  }

  lemma PriorityStep(s: State, e: Event, k: nat, i: nat)
    requires CpuOk(s) && Enabled(s, e, k) && i < |s.procs|
    ensures |Do(s, e, k).procs| == |s.procs|
    ensures var p, q := s.procs[i], Do(s, e, k).procs[i];
            && q.priority == (if e == Alloc(i) then 0
                              else if e.SetPriority? && e.i == i then e.priority else p.priority)
            && (q.exiting <==> e != Alloc(i) && (p.exiting || (e == Tick(true) && s.cpu == i)))
            && Do(s, e, k).ticks == if e.Tick? then (s.ticks + 1) % UINT_LIMIT else s.ticks
  {
    hide Choice;
    if e.Schedule? {
      ChoiceInside(s.procs, k, e.i);
    }
  }

  lemma {:induction false} OneMoreEvent(s: State, run: seq<Event>, k: nat, e: Event)
    requires Legal(s, run, k)
    ensures Legal(s, run + [e], k) <==> Enabled(Exec(s, run, k), e, k)
    decreases |run|
  {
    hide Do, Enabled;
    if run == [] {
      assert run + [e] == [e] && [e][1..] == [];
    } else {
      assert (run + [e])[1..] == run[1..] + [e];
      OneMoreEvent(Do(s, run[0], k), run[1..], k, e);
    }
  }

  /** In every run all priorities are from 0 to 10, and any of them can be set. */
  lemma {:induction false} PriorityRange(s: State, run: seq<Event>, k: nat, i: nat, v: int)
    requires Init(s) && 1 <= k && Legal(s, run, k) && i < |s.procs|
    ensures |Exec(s, run, k).procs| == |s.procs| && 0 <= Exec(s, run, k).procs[i].priority <= 10
    ensures Legal(s, run + [SetPriority(i, v)], k) <==> 0 <= v <= 10
    decreases |run|
  {
    hide Legal, Exec, CpuOk, Do, CpuOf, Choice;
    CpuLaw(s, run, k);
    OneMoreEvent(s, run, k, SetPriority(i, v));
    if run == [] {
      NoEvents(s, k);
    } else {
      var m := |run| - 1;
      LastStep(s, run, k);
      CpuLaw(s, run[..m], k);
      PriorityRange(s, run[..m], k, i, v);
      PriorityStep(Exec(s, run[..m], k), run[m], k, i);
    }
  }

  /** A process that yields may be chosen again, unless a tick has just taken it to the last level. */
  lemma YieldsEligible(s: State, e: Event, k: nat)
    requires Inv(s, k) && 1 <= k && OnCpu(s) && Enabled(s, e, k) && (e == YieldReset || e == Tick(false))
    ensures |Do(s, e, k).procs| == |s.procs|
    ensures Eligible(Do(s, e, k).procs[s.cpu], k) <==> Do(s, e, k).procs[s.cpu].qlvl < k
    ensures e == YieldReset ==> Eligible(Do(s, e, k).procs[s.cpu], k)
    ensures !Eligible(Do(s, e, k).procs[s.cpu], k) ==>
              s.procs[s.cpu].qlvl == k - 1 && s.procs[s.cpu].tq + 1 == Quantum(k - 1)
  {
    hide Below, Choice;
    assert ProcOk(s.procs[s.cpu], k);
  }

  /** Level and quantum used are determined by the ticks charged. */
  lemma BooksUnique(q: nat, t: nat, q': nat, t': nat)
    requires Below(q) + t == Below(q') + t' && t < Quantum(q) && t' < Quantum(q')
    ensures q == q' && t == t'
  {
    hide Below;
    if q < q' {
      BelowNext(q);
      BelowMonotone(q + 1, q');
    } else if q' < q {
      BelowNext(q');
      BelowMonotone(q' + 1, q);
    }
  }

  // ---------- the quantum of a process that exits ----------

  /** Every process is within its quantum. */
  ghost predicate Within(s: State) {
    forall i | 0 <= i < |s.procs| :: !UsedUp(s.procs[i])
  }

  /** A step leaves all processes within their quanta exactly if it cuts none short. */
  lemma WithinExactly(s: State, e: Event, k: nat)
    requires Inv(s, k) && 1 <= k && Within(s) && Enabled(s, e, k)
    ensures Within(Do(s, e, k)) <==> !CutShort(s, e)
  {
    hide Do, Enabled, Inv, UsedUp, CutShort;
    var t := Do(s, e, k);
    SameTable(s, e, k);
    forall i | 0 <= i < |s.procs|
      ensures UsedUp(t.procs[i]) <==> s.cpu == i && CutShort(s, e)
    {
      assert !UsedUp(s.procs[i]);
      CutStep(s, e, k, i);
      CutOnly(s, e, i);
    }
    if CutShort(s, e) {
      CutOnCpu(s, e);
      assert UsedUp(t.procs[s.cpu]);
    }
  }

  lemma SameTable(s: State, e: Event, k: nat)
    requires Enabled(s, e, k)
    ensures |Do(s, e, k).procs| == |s.procs|
  {
  }

  lemma CutOnly(s: State, e: Event, i: nat)
    ensures CutBy(s, e, i, false) <==> s.cpu == i && CutShort(s, e)
  {
  }

  lemma CutOnCpu(s: State, e: Event)
    requires CutShort(s, e)
    ensures 0 <= s.cpu < |s.procs|
  {
  }

  lemma {:induction false} RunOneMore(s: State, run: seq<Event>, e: Event, k: nat)
    requires Legal(s, run, k) && Enabled(Exec(s, run, k), e, k)
    ensures Legal(s, run + [e], k) && Exec(s, run + [e], k) == Do(Exec(s, run, k), e, k)
    decreases |run|
  {
    hide Do, Enabled;
    if run == [] {
      assert run + [e] == [e] && [e][1..] == [];
    } else {
      assert (run + [e])[1..] == run[1..] + [e];
      RunOneMore(Do(s, run[0], k), run[1..], e, k);
    }
  }

  /** One process, seen alone: its state after a legal run. */
  ghost predicate Leads(run: seq<Event>, k: nat, p: Proc, cpu: int, ticks: nat) {
    var s := State([Proc(Unused, 0, 0, 0, false, 0)], NONE, 0);
    Legal(s, run, k) && Exec(s, run, k) == State([p], cpu, ticks)
  }

  lemma LeadsOn(run: seq<Event>, e: Event, run': seq<Event>, k: nat,
                p: Proc, cpu: int, ticks: nat, p': Proc, cpu': int, ticks': nat)
    requires run' == run + [e]
    requires Leads(run, k, p, cpu, ticks) && Enabled(State([p], cpu, ticks), e, k)
    requires Do(State([p], cpu, ticks), e, k) == State([p'], cpu', ticks')
    ensures Leads(run', k, p', cpu', ticks')
  {
    hide Do, Enabled, Legal, Exec;
    RunOneMore(State([Proc(Unused, 0, 0, 0, false, 0)], NONE, 0), run, e, k);
  }

  /** A process killed while it uses its second tick begins to exit with its whole first quantum charged. It sleeps, is
      woken and scheduled again with it, and only then becomes a zombie. */
  lemma CutRun(k: nat)
    requires 1 <= k
    ensures var run := [Alloc(0), Ready(0), Schedule(0), Tick(false), Schedule(0), Tick(true)];
            && Leads(run, k, Proc(Running, 0, 2, 0, true, 2), 0, 2)
            && Leads(run + [Sleep], k, Proc(Sleeping, 0, 2, 0, true, 2), NONE, 2)
            && Leads(run + [Sleep, Wakeup(0)], k, Proc(Runnable, 0, 2, 0, true, 2), NONE, 2)
            && Leads(run + [Sleep, Wakeup(0), Schedule(0)], k, Proc(Running, 0, 2, 0, true, 2), 0, 2)
            && Leads(run + [Sleep, Wakeup(0), Schedule(0), Exit], k, Proc(Zombie, 0, 2, 0, true, 2), NONE, 2)
  {
    hide Leads;
    CutStart(k);
    var run := [Alloc(0), Ready(0), Schedule(0), Tick(false), Schedule(0), Tick(true)];
    var p := Proc(Running, 0, 2, 0, true, 2);
    LeadsOn(run, Sleep, run + [Sleep], k, p, 0, 2, p.(state := Sleeping), NONE, 2);
    var run1 := run + [Sleep, Wakeup(0)];
    LeadsOn(run + [Sleep], Wakeup(0), run1, k, p.(state := Sleeping), NONE, 2, p.(state := Runnable), NONE, 2);
    OnlyOne(p.(state := Runnable), k);
    var run2 := run + [Sleep, Wakeup(0), Schedule(0)];
    LeadsOn(run1, Schedule(0), run2, k, p.(state := Runnable), NONE, 2, p, 0, 2);
    var run3 := run + [Sleep, Wakeup(0), Schedule(0), Exit];
    LeadsOn(run2, Exit, run3, k, p, 0, 2, p.(state := Zombie), NONE, 2);
  }

  lemma CutStart(k: nat)
    requires 1 <= k
    ensures Leads([Alloc(0), Ready(0), Schedule(0), Tick(false), Schedule(0), Tick(true)], k,
                  Proc(Running, 0, 2, 0, true, 2), 0, 2)
  {
    hide TickStep, Leads;
    var p := Proc(Running, 0, 0, 0, false, 0);
    var q := p.(tq := 1, charged := 1);
    FirstScheduled(k);
    var run := [Alloc(0), Ready(0), Schedule(0)];
    TickOfOne(p, 0, false);
    var run1 := [Alloc(0), Ready(0), Schedule(0), Tick(false)];
    LeadsOn(run, Tick(false), run1, k, p, 0, 0, q.(state := Runnable), NONE, 1);
    OnlyOne(q.(state := Runnable), k);
    var run2 := [Alloc(0), Ready(0), Schedule(0), Tick(false), Schedule(0)];
    LeadsOn(run1, Schedule(0), run2, k, q.(state := Runnable), NONE, 1, q, 0, 1);
    TickOfOne(q, 1, true);
    var run3 := [Alloc(0), Ready(0), Schedule(0), Tick(false), Schedule(0), Tick(true)];
    LeadsOn(run2, Tick(true), run3, k, q, 0, 1, Proc(Running, 0, 2, 0, true, 2), 0, 2);
  }

  lemma FirstScheduled(k: nat)
    requires 1 <= k
    ensures Leads([Alloc(0), Ready(0), Schedule(0)], k, Proc(Running, 0, 0, 0, false, 0), 0, 0)
  {
    hide TickStep, Leads;
    var p := Proc(Running, 0, 0, 0, false, 0);
    LeadsNowhere(k);
    LeadsOn([], Alloc(0), [Alloc(0)], k, p.(state := Unused), NONE, 0, p.(state := Embryo), NONE, 0);
    var run := [Alloc(0), Ready(0)];
    LeadsOn([Alloc(0)], Ready(0), run, k, p.(state := Embryo), NONE, 0, p.(state := Runnable), NONE, 0);
    OnlyOne(p.(state := Runnable), k);
    var run1 := [Alloc(0), Ready(0), Schedule(0)];
    LeadsOn(run, Schedule(0), run1, k, p.(state := Runnable), NONE, 0, p, 0, 0);
  }

  lemma LeadsNowhere(k: nat)
    ensures Leads([], k, Proc(Unused, 0, 0, 0, false, 0), NONE, 0)
  {
  }

  lemma TickOfOne(p: Proc, t: nat, exits: bool)
    requires (t + 1) % UINT_LIMIT % BOOST != 0
    ensures TickStep(State([p], 0, t), exits) ==
            if exits then State([Charge(p).(exiting := true)], 0, (t + 1) % UINT_LIMIT)
            else State([Demote(Charge(p)).(state := Runnable)], NONE, (t + 1) % UINT_LIMIT)
  {
  }

  lemma OnlyOne(p: Proc, k: nat)
    requires Eligible(p, k)
    ensures Choice([p], k, 0)
  {
    assert Top([p], k, 0);
  }

  // ---------- the kernel's routines ----------

  /** The process table and the CPU as the kernel's routines change them. */
  class Kernel {
    var procs: seq<Proc>
    var cpu: int
    var ticks: nat

    function View(): State
      reads this
    {
      State(procs, cpu, ticks)
    }

    constructor (n: nat)
      ensures |procs| == n && Init(View())
    {
      procs := seq(n, _ => Proc(Unused, 0, 0, 0, false, 0));
      cpu := NONE;
      ticks := 0;
    }

    method UpdateTq()
      requires OnCpu(View())
      modifies this
      ensures View() == Charged(old(View()))
    {
      procs := procs[cpu := procs[cpu].(tq := procs[cpu].tq + 1, charged := procs[cpu].charged + 1)];
    }

    method PriorityBoost()
      modifies this
      ensures View() == old(View()).(procs := Boost(old(procs)))
    {
      var i := 0;
      while i < |procs|
        invariant 0 <= i <= |procs| == |old(procs)| && cpu == old(cpu) && ticks == old(ticks)
        invariant forall j | 0 <= j < i :: procs[j] == Reset(old(procs)[j])
        invariant forall j | i <= j < |procs| :: procs[j] == old(procs)[j]
      {
        procs := procs[i := procs[i].(tq := 0, qlvl := 0, charged := 0)];
        i := i + 1;
      }
    }

    method QlvlDown()
      requires OnCpu(View())
      modifies this
      ensures View() == Put(old(View()), old(cpu), old(procs[cpu]).(tq := 0, qlvl := old(procs[cpu]).qlvl + 1))
    {
      procs := procs[cpu := procs[cpu].(tq := 0, qlvl := procs[cpu].qlvl + 1)];
    }

    method Yield()
      requires OnCpu(View())
      modifies this
      ensures View() == Leave(old(View()), old(procs[cpu]).(state := Runnable))
    {
      procs := procs[cpu := procs[cpu].(state := Runnable)];
      cpu := NONE;
    }

    /** `yield_`. */
    method YieldAndReset(ghost k: nat)
      requires OnCpu(View()) && !InExit(View())
      modifies this
      ensures View() == Do(old(View()), YieldReset, k)
    {
      procs := procs[cpu := procs[cpu].(state := Runnable, tq := 0, qlvl := 0, charged := 0)];
      cpu := NONE;
    }

    /** `sleep_`. */
    method SleepAndReset(ghost k: nat)
      requires OnCpu(View()) && !InExit(View())
      modifies this
      ensures View() == Do(old(View()), SleepReset, k)
    {
      procs := procs[cpu := procs[cpu].(state := Sleeping, tq := 0, qlvl := 0, charged := 0)];
      cpu := NONE;
    }

    /** `sleep`, as `exit` calls it among others. */
    method GoToSleep(ghost k: nat)
      requires OnCpu(View())
      modifies this
      ensures View() == Do(old(View()), Sleep, k)
    {
      procs := procs[cpu := procs[cpu].(state := Sleeping)];
      cpu := NONE;
    }

    /** The end of `exit`. */
    method FinishExit(ghost k: nat)
      requires OnCpu(View())
      modifies this
      ensures View() == Do(old(View()), Exit, k)
    {
      procs := procs[cpu := procs[cpu].(state := Zombie)];
      cpu := NONE;
    }

    /** The timer interrupt, up to the call of `exit` if the running process was killed and was in user mode. */
    method Timer(killed: bool, ghost k: nat)
      requires Inv(View(), k) && 1 <= k && !InExit(View())
      modifies this
      ensures View() == Do(old(View()), Tick(killed), k) && Inv(View(), k)
    {
      hide Inv, Below, ProcOk;
      TickKeeps(View(), killed, k);
      CpuFacts(View(), k);
      ticks := (ticks + 1) % UINT_LIMIT;
      if cpu != NONE {
        UpdateTq();
      }
      if ticks % BOOST == 0 {
        PriorityBoost();
      }
      if cpu != NONE {
        if killed {
          procs := procs[cpu := procs[cpu].(exiting := true)];
        } else {
          if procs[cpu].tq >= procs[cpu].qlvl * 4 + 2 {
            QlvlDown();
          }
          Yield();
        }
      }
    }

    /** A round of the scheduler: the process selected, if any, is switched to. */
    method Scheduler(k: nat) returns (sel: int)
      requires Inv(View(), k) && 1 <= k && cpu == NONE
      modifies this
      ensures Inv(View(), k)
      ensures sel == NONE ==> View() == old(View()) && forall i | 0 <= i < |procs| :: !Eligible(procs[i], k)
      ensures sel != NONE ==>
                && sel >= 0 && Enabled(old(View()), Schedule(sel), k)
                && View() == Do(old(View()), Schedule(sel), k)
    {
      hide Inv, Choice, Eligible;
      sel := Scan(procs, k);
      if sel != NONE {
        StepKeeps(View(), Schedule(sel), k);
        procs := procs[sel := procs[sel].(state := Running)];
        cpu := sel;
      }
    }
  }

  lemma CpuFacts(s: State, k: nat)
    requires Inv(s, k)
    ensures s.cpu == NONE || OnCpu(s)
  {
  }
}

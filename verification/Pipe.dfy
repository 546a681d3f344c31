/** The pipe of pipe.c over sleep and wakeup of proc.c: a ring buffer with wrapping 32-bit counters, and every
    interleaving of readers, writers and closers at the granularity of lock operations. */
module Pipe {
  import opened Common

  const PIPESIZE: nat := 512

  // ---------- the ring ----------

  datatype Ring = Ring(data: seq<Byte>, nread: nat, nwrite: nat)

  predicate Empty(r: Ring) {
    r.nread == r.nwrite
  }

  predicate Full(r: Ring) {
    r.nwrite == (r.nread + PIPESIZE) % UINT_LIMIT
  }

  function Slot(k: nat): (j: nat)
    ensures j < PIPESIZE
  {
    k % PIPESIZE
  }

  function Store(r: Ring, b: Byte): Ring
    requires |r.data| == PIPESIZE
  {
    Ring(r.data[Slot(r.nwrite) := b], r.nread, (r.nwrite + 1) % UINT_LIMIT)
  }

  function Head(r: Ring): Byte
    requires |r.data| == PIPESIZE
  {
    r.data[Slot(r.nread)]
  }

  function Drop(r: Ring): Ring {
    r.(nread := (r.nread + 1) % UINT_LIMIT)
  }

  /** The ring holds the bytes of `written` that `taken` has not got yet. */
  ghost predicate RingInv(r: Ring, taken: seq<Byte>, written: seq<Byte>) {
    && |r.data| == PIPESIZE
    && r.nread == |taken| % UINT_LIMIT && r.nwrite == |written| % UINT_LIMIT
    && |taken| <= |written| <= |taken| + PIPESIZE
    && taken == written[..|taken|]
    && forall k | |taken| <= k < |written| :: r.data[Slot(k)] == written[k]
  }

  /** A wrapped counter names the same slot, because PIPESIZE divides 2^32. */
  lemma SlotWraps(k: nat)
    ensures Slot(k % UINT_LIMIT) == Slot(k)
  {
    var q := k / UINT_LIMIT;
    assert k == q * UINT_LIMIT + k % UINT_LIMIT;
    assert k % UINT_LIMIT == k - (q * (UINT_LIMIT / PIPESIZE)) * PIPESIZE;
    SlotPeriod(k % UINT_LIMIT, q * (UINT_LIMIT / PIPESIZE));
  }

  lemma {:induction false} SlotPeriod(k: nat, n: nat)
    ensures Slot(k + n * PIPESIZE) == Slot(k)
    decreases n
  {
    if n > 0 {
      SlotPeriod(k, n - 1);
      assert k + n * PIPESIZE == (k + (n - 1) * PIPESIZE) + PIPESIZE;
    }
  }

  lemma SlotsApart(j: nat, k: nat)
    requires j < k < j + PIPESIZE
    ensures Slot(j) != Slot(k)
  {
  }

  lemma WrapDiff(a: nat, b: nat)
    requires a <= b <= a + PIPESIZE
    ensures a % UINT_LIMIT == b % UINT_LIMIT <==> a == b
    ensures b % UINT_LIMIT == (a % UINT_LIMIT + PIPESIZE) % UINT_LIMIT <==> b == a + PIPESIZE
  {
  }

  /** The counter tests decide emptiness and fullness, at any distance from a wrap. */
  lemma Tests(r: Ring, taken: seq<Byte>, written: seq<Byte>)
    requires RingInv(r, taken, written)
    ensures Empty(r) <==> |taken| == |written|
    ensures Full(r) <==> |written| == |taken| + PIPESIZE
  {
    WrapDiff(|taken|, |written|);
  }

  lemma StoreKeeps(r: Ring, taken: seq<Byte>, written: seq<Byte>, b: Byte)
    requires RingInv(r, taken, written) && !Full(r)
    ensures RingInv(Store(r, b), taken, written + [b])
  {
    hide Slot;
    Tests(r, taken, written);
    SlotWraps(|written|);
    forall k | |taken| <= k < |written|
      ensures Slot(k) != Slot(|written|)
    {
      SlotsApart(k, |written|);
    }
    NextWraps(|written|);
  }

  lemma NextWraps(k: nat)
    ensures (k % UINT_LIMIT + 1) % UINT_LIMIT == (k + 1) % UINT_LIMIT
  {
  }

  lemma DropKeeps(r: Ring, taken: seq<Byte>, written: seq<Byte>)
    requires RingInv(r, taken, written) && !Empty(r)
    ensures RingInv(Drop(r), taken + [Head(r)], written)
    ensures Head(r) == written[|taken|]
  {
    hide Slot;
    Tests(r, taken, written);
    SlotWraps(|taken|);
    NextWraps(|taken|);
  }

  // ---------- the protocol ----------

  datatype Chan = NRead | NWrite

  /** A call in progress: `pipewrite`, `piperead` (copying once its waiting loop is left) or `pipeclose`. */
  datatype Task =
    | Write(bytes: seq<Byte>, next: nat)
    | Read(n: nat, got: seq<Byte>, copying: bool)
    | Close(writable: bool)

  /** Where a wakeup continues. */
  datatype Then = ToSleep | ToRelease

  /** Program points. Acquiring, waking and sleeping are split at every lock operation. */
  datatype Pc =
    | Idle
    | Acquire                // acquire(&p->lock)
    | Run                    // the loop body of the call
    | WakeAcquire(k: Then)   // wakeup: acquire(&ptable.lock)
    | WakeScan(k: Then)      // wakeup1
    | WakeRelease(k: Then)   // wakeup: release(&ptable.lock)
    | SleepAcquire           // sleep: acquire(&ptable.lock)
    | SleepRelease           // sleep: release(lk)
    | SleepMark              // sleep: state = SLEEPING and sched()
    | Sleeping
    | Runnable               // woken, waiting to be scheduled
    | Resumed                // back from sched() with ptable.lock held
    | Release(ret: int)      // release(&p->lock), then return ret

  /** A process and the number of its call. */
  datatype Proc = Proc(pc: Pc, task: Task, killed: bool, call: nat)

  /** A call since it was started, and what it returned. */
  datatype Call = Call(task: Task, ret: Option<int>)

  const NOBODY: int := -1

  /** History: all bytes stored, all bytes taken, and the readers that were waiting when a `pipewrite` gave up on a
      full pipe, until the next wakeup of readers; all calls, and which of them stored or took each byte. The two flags
      `readEnd` and `writeEnd` say whether the pipe's ends are still referenced by an open file. */
  datatype State = State(ring: Ring, readopen: bool, writeopen: bool, readEnd: bool, writeEnd: bool,
                         pipeLock: int, ptLock: int, procs: seq<Proc>, taken: seq<Byte>, written: seq<Byte>,
                         left: set<nat>, calls: seq<Call>, writers: seq<nat>, readers: seq<nat>)

  datatype Action = Start(p: nat, task: Task) | Step(p: nat) | Kill(p: nat)

  predicate HoldsPipe(pc: Pc) {
    pc.Run? || pc.WakeAcquire? || pc.WakeScan? || pc.WakeRelease? || pc.SleepAcquire? || pc.SleepRelease? || pc.Release?
  }

  predicate HoldsTable(pc: Pc) {
    pc.WakeScan? || pc.WakeRelease? || pc.SleepRelease? || pc.SleepMark? || pc.Resumed?
  }

  /** The channel a call wakes. */
  function Wakes(t: Task): Chan {
    match t
    case Write(_, _) => NRead
    case Read(_, _, _) => NWrite
    case Close(w) => if w then NRead else NWrite
  }

  /** The channel a call sleeps on. */
  function SleepsOn(t: Task): Chan {
    if t.Write? then NWrite else NRead
  }

  /** A call uses the read end or the write end of the pipe. */
  predicate UsesRead(q: Proc) {
    !q.pc.Idle? && (q.task.Read? || q.task == Close(false))
  }

  predicate UsesWrite(q: Proc) {
    !q.pc.Idle? && (q.task.Write? || q.task == Close(true))
  }

  function WakeOne(q: Proc, c: Chan): Proc {
    if q.pc.Sleeping? && SleepsOn(q.task) == c then q.(pc := Runnable) else q
  }

  /** Every process sleeping on c made runnable. */
  function WakeAll(procs: seq<Proc>, c: Chan): (r: seq<Proc>)
    ensures |r| == |procs| && forall i | 0 <= i < |r| :: r[i] == WakeOne(procs[i], c)
  {
    seq(|procs|, i requires 0 <= i < |procs| => WakeOne(procs[i], c))
  }

  function At(s: State, p: nat, pc: Pc): State
    requires p < |s.procs|
  {
    s.(procs := s.procs[p := s.procs[p].(pc := pc)])
  }

  /** A call starts only on an end that is open; an end is closed once, when no call uses it. */
  predicate CanStart(s: State, p: nat, t: Task) {
    && p < |s.procs| && s.procs[p].pc.Idle?
    && match t
       case Write(bytes, next) => s.writeEnd && next == 0
       case Read(n, got, copying) => s.readEnd && got == [] && !copying
       case Close(true) => s.writeEnd && forall i | 0 <= i < |s.procs| :: !UsesWrite(s.procs[i])
       case Close(false) => s.readEnd && forall i | 0 <= i < |s.procs| :: !UsesRead(s.procs[i])
  }

  predicate CanStep(s: State, p: nat) {
    && p < |s.procs|
    && match s.procs[p].pc
       case Idle => false
       case Sleeping => false
       case Acquire => s.pipeLock == NOBODY
       case WakeAcquire(_) => s.ptLock == NOBODY
       case SleepAcquire => s.ptLock == NOBODY
       case Runnable => s.ptLock == NOBODY
       case _ => true
  }

  predicate Enabled(s: State, a: Action) {
    match a
    case Start(p, t) => CanStart(s, p, t)
    case Step(p) => CanStep(s, p)
    case Kill(p) => p < |s.procs| && s.ptLock == NOBODY
  }

  function StartTask(s: State, p: nat, t: Task): State
    requires p < |s.procs|
  {
    State(s.ring, s.readopen, s.writeopen, s.readEnd && t != Close(false), s.writeEnd && t != Close(true),
          s.pipeLock, s.ptLock, s.procs[p := Proc(Acquire, t, s.procs[p].killed, |s.calls|)], s.taken, s.written,
          s.left, s.calls + [Call(t, None)], s.writers, s.readers)
  }

  /** The call of process p has come as far as t. */
  function Progress(s: State, p: nat, t: Task): State
    requires p < |s.procs|
  {
    var c := s.procs[p].call;
    s.(procs := s.procs[p := s.procs[p].(task := t)],
       calls := if c < |s.calls| then s.calls[c := s.calls[c].(task := t)] else s.calls)
  }

  /** What a call that is not cut short returns. */
  function Result(t: Task): int {
    match t
    case Write(bytes, _) => |bytes|
    case Read(_, got, _) => |got|
    case Close(_) => 0
  }

  /** The call of process p returns. */
  function Return(s: State, p: nat, ret: int): State
    requires p < |s.procs|
  {
    var c := s.procs[p].call;
    At(s, p, Idle).(calls := if c < |s.calls| then s.calls[c := s.calls[c].(ret := Some(ret))] else s.calls)
  }

  /** `kill` of process p, in one critical section of ptable.lock. */
  function KillProc(s: State, p: nat): State
    requires p < |s.procs|
  {
    var q := s.procs[p];
    s.(procs := s.procs[p := q.(killed := true, pc := if q.pc.Sleeping? then Runnable else q.pc)])
  }

  /** The readers that have found that they must wait. */
  function WaitingReaders(s: State): set<nat> {
    set i: nat | i < |s.procs| && Waiting(s.procs[i]) && s.procs[i].task.Read?
  }

  /** One round of the loop of `pipewrite`. */
  function RunWrite(s: State, p: nat): State
    requires p < |s.procs| && s.procs[p].pc.Run? && s.procs[p].task.Write? && |s.ring.data| == PIPESIZE
  {
    var t := s.procs[p].task;
    if t.next >= |t.bytes| then At(s, p, WakeAcquire(ToRelease))
    else if Full(s.ring) then
      if !s.readopen || s.procs[p].killed then At(s, p, Release(-1)).(left := s.left + WaitingReaders(s))
      else At(s, p, WakeAcquire(ToSleep))
    else
      var b := t.bytes[t.next];
      Progress(s, p, t.(next := t.next + 1))
        .(ring := Store(s.ring, b), written := s.written + [b], writers := s.writers + [s.procs[p].call])
  }

  /** One round of the waiting loop or of the copying loop of `piperead`. */
  function RunRead(s: State, p: nat): State
    requires p < |s.procs| && s.procs[p].pc.Run? && s.procs[p].task.Read? && |s.ring.data| == PIPESIZE
  {
    var t := s.procs[p].task;
    if !t.copying then
      if Empty(s.ring) && s.writeopen then At(s, p, if s.procs[p].killed then Release(-1) else SleepAcquire)
      else Progress(s, p, t.(copying := true))
    else if |t.got| >= t.n || Empty(s.ring) then At(s, p, WakeAcquire(ToRelease))
    else
      var b := Head(s.ring);
      Progress(s, p, t.(got := t.got + [b]))
        .(ring := Drop(s.ring), taken := s.taken + [b], readers := s.readers + [s.procs[p].call])
  }

  function RunClose(s: State, p: nat): State
    requires p < |s.procs| && s.procs[p].task.Close?
  {
    var s' := At(s, p, WakeAcquire(ToRelease));
    if s.procs[p].task.writable then s'.(writeopen := false) else s'.(readopen := false)
  }

  function StepProc(s: State, p: nat): State
    requires p < |s.procs| && |s.ring.data| == PIPESIZE
  {
    var q := s.procs[p];
    match q.pc
    case Idle => s
    case Acquire => At(s, p, Run).(pipeLock := p)
    case Run =>
      if q.task.Write? then RunWrite(s, p) else if q.task.Read? then RunRead(s, p) else RunClose(s, p)
    case WakeAcquire(k) => At(s, p, WakeScan(k)).(ptLock := p)
    case WakeScan(k) =>
      s.(procs := WakeAll(s.procs, Wakes(q.task))[p := q.(pc := WakeRelease(k))],
         left := if Wakes(q.task) == NRead then {} else s.left)
    case WakeRelease(k) => At(s, p, if k == ToSleep then SleepAcquire else Release(Result(q.task))).(ptLock := NOBODY)
    case SleepAcquire => At(s, p, SleepRelease).(ptLock := p)
    case SleepRelease => At(s, p, SleepMark).(pipeLock := NOBODY)
    case SleepMark => At(s, p, Sleeping).(ptLock := NOBODY)
    case Sleeping => s
    case Runnable => At(s, p, Resumed).(ptLock := p)
    case Resumed => At(s, p, Acquire).(ptLock := NOBODY)
    case Release(ret) => Return(s, p, ret).(pipeLock := NOBODY)
  }

  function Do(s: State, a: Action): State
    requires Enabled(s, a) && |s.ring.data| == PIPESIZE
  {
    match a
    case Start(p, t) => StartTask(s, p, t)
    case Step(p) => StepProc(s, p)
    case Kill(p) => KillProc(s, p)
  }

  // ---------- the invariant ----------

  ghost predicate Locks(s: State) {
    && (s.pipeLock == NOBODY || 0 <= s.pipeLock < |s.procs|)
    && (s.ptLock == NOBODY || 0 <= s.ptLock < |s.procs|)
    && (forall i | 0 <= i < |s.procs| :: HoldsPipe(s.procs[i].pc) <==> s.pipeLock == i)
    && (forall i | 0 <= i < |s.procs| :: HoldsTable(s.procs[i].pc) <==> s.ptLock == i)
  }

  /** Only writers wake before they sleep, and closers never sleep. */
  predicate TaskOk(q: Proc) {
    && ((q.pc.WakeAcquire? || q.pc.WakeScan? || q.pc.WakeRelease?) && q.pc.k == ToSleep ==> q.task.Write?)
    && (q.task.Close? ==>
         !(q.pc.SleepAcquire? || q.pc.SleepRelease? || q.pc.SleepMark? || q.pc.Sleeping?
           || q.pc.Runnable? || q.pc.Resumed?))
    && (q.task.Read? && (q.pc.WakeAcquire? || q.pc.WakeScan? || q.pc.WakeRelease?) ==> q.task.copying)
    && (q.task.Read? && (q.pc.SleepAcquire? || q.pc.SleepRelease? || q.pc.SleepMark? || q.pc.Sleeping?) ==>
         !q.task.copying)
  }

  /** The flags of the pipe follow its ends, and a closed end has no calls but the close itself. */
  ghost predicate Ends(s: State) {
    && (s.readEnd ==> s.readopen) && (s.writeEnd ==> s.writeopen)
    && (forall i | 0 <= i < |s.procs| :: TaskOk(s.procs[i]))
    && (forall i | 0 <= i < |s.procs| && !s.procs[i].pc.Idle? && s.procs[i].task.Read? :: s.readEnd)
    && (forall i | 0 <= i < |s.procs| && !s.procs[i].pc.Idle? && s.procs[i].task.Write? :: s.writeEnd)
    && (forall i | 0 <= i < |s.procs| && !s.procs[i].pc.Idle? && s.procs[i].task.Close? ::
          if s.procs[i].task.writable then !s.writeEnd else !s.readEnd)
  }

  /** The process has found that it must wait. */
  predicate Waiting(q: Proc) {
    || q.pc.SleepAcquire? || q.pc.SleepRelease? || q.pc.SleepMark? || q.pc.Sleeping?
    || ((q.pc.WakeAcquire? || q.pc.WakeScan? || q.pc.WakeRelease?) && q.pc.k == ToSleep)
  }

  /** The process will wake c before it lets go of the pipe lock. */
  predicate Owes(q: Proc, c: Chan) {
    Wakes(q.task) == c && ((q.pc.Run? && (q.task.Read? ==> q.task.copying)) || q.pc.WakeAcquire? || q.pc.WakeScan?)
  }

  predicate Debt(s: State, c: Chan) {
    0 <= s.pipeLock < |s.procs| && Owes(s.procs[s.pipeLock], c)
  }

  /** The test of the call's waiting loop. */
  predicate MustWait(s: State, q: Proc) {
    if q.task.Write? then Full(s.ring) && s.readopen else Empty(s.ring) && s.writeopen
  }

  /** What a waiting call waits for has not happened, or its wakeup is still to come. */
  predicate Justified(s: State, q: Proc) {
    MustWait(s, q) || Debt(s, SleepsOn(q.task))
  }

  /** Process i is a reader that a writer has left behind. */
  predicate Forgotten(s: State, i: nat) {
    i < |s.procs| && s.procs[i].task.Read? && i in s.left
  }

  ghost predicate Waits(s: State) {
    forall i | 0 <= i < |s.procs| && Waiting(s.procs[i]) :: Justified(s, s.procs[i]) || Forgotten(s, i)
  }

  ghost predicate Inv(s: State) {
    RingInv(s.ring, s.taken, s.written) && Locks(s) && Ends(s) && Waits(s)
  }

  predicate Init(s: State) {
    && |s.ring.data| == PIPESIZE && s.ring.nread == 0 == s.ring.nwrite && s.taken == [] == s.written
    && s.readopen && s.writeopen && s.readEnd && s.writeEnd && s.pipeLock == NOBODY == s.ptLock && s.left == {}
    && s.calls == [] && s.writers == [] == s.readers
    && forall i | 0 <= i < |s.procs| :: s.procs[i].pc.Idle?
  }

  lemma InitInv(s: State)
    requires Init(s)
    ensures Inv(s)
  {
  }

  lemma StartKeeps(s: State, p: nat, t: Task)
    requires Inv(s) && CanStart(s, p, t)
    ensures Inv(StartTask(s, p, t))
  {
    var s' := StartTask(s, p, t);
    assert Locks(s') && Ends(s');
    forall i | 0 <= i < |s'.procs| && Waiting(s'.procs[i])
      ensures Justified(s', s'.procs[i]) || Forgotten(s', i)
    {
      assert i != p && (Justified(s, s.procs[i]) || Forgotten(s, i));
    }
  }

  lemma KillKeeps(s: State, p: nat)
    requires p < |s.procs| && s.ptLock == NOBODY
    requires Inv(s)
    ensures Inv(KillProc(s, p))
  {
    hide RingInv, Full, Empty;
    var s' := KillProc(s, p);
    assert Locks(s') && Ends(s');
    forall i | 0 <= i < |s'.procs| && Waiting(s'.procs[i])
      ensures Justified(s', s'.procs[i]) || Forgotten(s', i)
    {
      assert Justified(s, s.procs[i]) || Forgotten(s, i);
    }
  }

  // ---------- every step keeps the invariant ----------

  /** Other processes, the ring and the flags stay as they are, and no debt of the lock holder is dropped. */
  ghost predicate Quiet(s: State, s': State, p: nat) {
    && p < |s.procs| == |s'.procs|
    && (forall i | 0 <= i < |s.procs| && i != p :: s'.procs[i] == s.procs[i])
    && s'.ring == s.ring && s'.readopen == s.readopen && s'.writeopen == s.writeopen && s'.left == s.left
    && (Debt(s, NRead) ==> Debt(s', NRead)) && (Debt(s, NWrite) ==> Debt(s', NWrite))
  }

  lemma QuietWaits(s: State, s': State, p: nat)
    requires Waits(s) && Quiet(s, s', p)
    requires Waiting(s'.procs[p]) ==> Justified(s', s'.procs[p]) || Forgotten(s', p)
    ensures Waits(s')
  {
    hide Debt, Full, Empty;
    forall i | 0 <= i < |s'.procs| && Waiting(s'.procs[i])
      ensures Justified(s', s'.procs[i]) || Forgotten(s', i)
    {
      if i != p {
        assert Justified(s, s.procs[i]) || Forgotten(s, i);
      }
    }
  }

  /** The lock bookkeeping of a step of p from pc to pc'. */
  lemma LocksStep(s: State, s': State, p: nat)
    requires Locks(s) && p < |s.procs| == |s'.procs|
    requires forall i | 0 <= i < |s.procs| && i != p ::
               s'.procs[i].pc == s.procs[i].pc || (s.procs[i].pc.Sleeping? && s'.procs[i].pc.Runnable?)
    requires HoldsPipe(s.procs[p].pc) == HoldsPipe(s'.procs[p].pc) ==> s'.pipeLock == s.pipeLock
    requires HoldsPipe(s.procs[p].pc) && !HoldsPipe(s'.procs[p].pc) ==> s'.pipeLock == NOBODY
    requires !HoldsPipe(s.procs[p].pc) && HoldsPipe(s'.procs[p].pc) ==> s.pipeLock == NOBODY && s'.pipeLock == p
    requires HoldsTable(s.procs[p].pc) == HoldsTable(s'.procs[p].pc) ==> s'.ptLock == s.ptLock
    requires HoldsTable(s.procs[p].pc) && !HoldsTable(s'.procs[p].pc) ==> s'.ptLock == NOBODY
    requires !HoldsTable(s.procs[p].pc) && HoldsTable(s'.procs[p].pc) ==> s.ptLock == NOBODY && s'.ptLock == p
    ensures Locks(s')
  {
  }

  lemma EndsStep(s: State, s': State, p: nat)
    requires Ends(s) && p < |s.procs| == |s'.procs| && s'.readEnd == s.readEnd && s'.writeEnd == s.writeEnd
    requires forall i | 0 <= i < |s.procs| && i != p ::
               s'.procs[i] == s.procs[i] || s'.procs[i] == s.procs[i].(pc := Runnable)
    requires forall i | 0 <= i < |s.procs| && i != p && s'.procs[i] != s.procs[i] :: s.procs[i].pc.Sleeping?
    requires (s.readEnd ==> s'.readopen) && (s.writeEnd ==> s'.writeopen)
    requires TaskOk(s'.procs[p]) && !s.procs[p].pc.Idle?
    requires s'.procs[p].task.Read? ==> s.procs[p].task.Read?
    requires s'.procs[p].task.Write? ==> s.procs[p].task.Write?
    requires s'.procs[p].task.Close? ==> s.procs[p].task == s'.procs[p].task
    ensures Ends(s')
  {
  }

  predicate LockMove(held: bool, holds: bool, lock: int, lock': int, p: nat) {
    if held == holds then lock' == lock
    else if held then lock' == NOBODY
    else lock == NOBODY && lock' == p
  }

  /** p moves from its program point to pc, taking or dropping locks on the way. */
  lemma Moved(s: State, p: nat, pc: Pc, s': State)
    requires p < |s.procs| && !s.procs[p].pc.Idle?
    requires s' == At(s, p, pc).(pipeLock := s'.pipeLock, ptLock := s'.ptLock, calls := s'.calls)
    requires LockMove(HoldsPipe(s.procs[p].pc), HoldsPipe(pc), s.pipeLock, s'.pipeLock, p)
    requires LockMove(HoldsTable(s.procs[p].pc), HoldsTable(pc), s.ptLock, s'.ptLock, p)
    requires TaskOk(s.procs[p]) ==> TaskOk(s'.procs[p])
    requires TaskOk(s.procs[p]) && Waiting(s'.procs[p]) ==> Waiting(s.procs[p]) || MustWait(s, s.procs[p])
    requires HoldsPipe(s.procs[p].pc) && Owes(s.procs[p], Wakes(s.procs[p].task)) ==>
               HoldsPipe(pc) && Owes(s'.procs[p], Wakes(s.procs[p].task))
    requires Inv(s)
    ensures Inv(s')
  {
    hide RingInv, Waits, Ends, Locks, Full, Empty, TaskOk, Waiting, HoldsPipe, HoldsTable;
    HolderIs(s, p);
    TaskOkAt(s, p);
    WaitsAt(s, p);
    LocksStep(s, s', p);
    EndsStep(s, s', p);
    QuietWaits(s, s', p);
  }

  // Steps that only move p's program point.

  lemma LockSteps(s: State, p: nat)
    requires CanStep(s, p) && (s.procs[p].pc.Acquire? || s.procs[p].pc.Release?)
    requires Inv(s)
    ensures Inv(StepProc(s, p))
  {
    hide Inv, RunWrite, RunRead, RunClose, WakeAll;
    InvSize(s);
    var s' := StepProc(s, p);
    Moved(s, p, s'.procs[p].pc, s');
  }

  lemma WakeSteps(s: State, p: nat)
    requires CanStep(s, p) && (s.procs[p].pc.WakeAcquire? || s.procs[p].pc.WakeRelease?)
    requires Inv(s)
    ensures Inv(StepProc(s, p))
  {
    hide Inv, RunWrite, RunRead, RunClose, WakeAll;
    InvSize(s);
    var s' := StepProc(s, p);
    Moved(s, p, s'.procs[p].pc, s');
  }

  lemma SleepSteps(s: State, p: nat)
    requires CanStep(s, p) && (s.procs[p].pc.SleepAcquire? || s.procs[p].pc.SleepRelease? || s.procs[p].pc.SleepMark?)
    requires Inv(s)
    ensures Inv(StepProc(s, p))
  {
    hide Inv, RunWrite, RunRead, RunClose, WakeAll;
    InvSize(s);
    var s' := StepProc(s, p);
    Moved(s, p, s'.procs[p].pc, s');
  }

  lemma ResumeSteps(s: State, p: nat)
    requires CanStep(s, p) && (s.procs[p].pc.Runnable? || s.procs[p].pc.Resumed?)
    requires Inv(s)
    ensures Inv(StepProc(s, p))
  {
    hide Inv, RunWrite, RunRead, RunClose, WakeAll;
    InvSize(s);
    var s' := StepProc(s, p);
    Moved(s, p, s'.procs[p].pc, s');
  }

  lemma InvSize(s: State)
    requires Inv(s)
    ensures |s.ring.data| == PIPESIZE
  {
  }

  lemma HolderIs(s: State, p: nat)
    requires Locks(s) && p < |s.procs|
    ensures HoldsPipe(s.procs[p].pc) <==> s.pipeLock == p
    ensures HoldsTable(s.procs[p].pc) <==> s.ptLock == p
    ensures s.pipeLock == NOBODY || (0 <= s.pipeLock < |s.procs| && HoldsPipe(s.procs[s.pipeLock].pc))
    ensures s.ptLock == NOBODY || (0 <= s.ptLock < |s.procs| && HoldsTable(s.procs[s.ptLock].pc))
  {
  }

  lemma TaskOkAt(s: State, p: nat)
    requires Ends(s) && p < |s.procs|
    ensures TaskOk(s.procs[p]) && (s.readEnd ==> s.readopen) && (s.writeEnd ==> s.writeopen)
    ensures !s.procs[p].pc.Idle? && s.procs[p].task.Read? ==> s.readEnd
    ensures !s.procs[p].pc.Idle? && s.procs[p].task.Write? ==> s.writeEnd
    ensures !s.procs[p].pc.Idle? && s.procs[p].task == Close(true) ==> !s.writeEnd
    ensures !s.procs[p].pc.Idle? && s.procs[p].task == Close(false) ==> !s.readEnd
  {
  }

  lemma WaitsAt(s: State, p: nat)
    requires Waits(s) && p < |s.procs|
    ensures Waiting(s.procs[p]) ==> Justified(s, s.procs[p]) || Forgotten(s, p)
  {
  }

  /** A call in its loop that goes to wait, or leaves it to wake the other side. */
  lemma LeaveKeeps(s: State, p: nat, pc: Pc)
    requires p < |s.procs| && s.procs[p].pc.Run?
    requires
      || (pc == WakeAcquire(ToRelease) && (s.procs[p].task.Read? ==> s.procs[p].task.copying))
      || (pc == WakeAcquire(ToSleep) && s.procs[p].task.Write? && MustWait(s, s.procs[p]))
      || (pc == SleepAcquire && s.procs[p].task.Read? && !s.procs[p].task.copying && MustWait(s, s.procs[p]))
      || (pc == Release(-1) && s.procs[p].task.Read? && !s.procs[p].task.copying)
    requires Inv(s)
    ensures Inv(At(s, p, pc))
  {
    hide Inv, MustWait;
    Moved(s, p, pc, At(s, p, pc));
  }

  /** While p holds the pipe lock, nobody waits for what only p's side could announce. */
  lemma OnlyMine(s: State, p: nat, i: nat)
    requires Locks(s) && Waits(s) && p < |s.procs| && s.pipeLock == p && i < |s.procs| && Waiting(s.procs[i])
    requires SleepsOn(s.procs[i].task) != Wakes(s.procs[p].task)
    ensures MustWait(s, s.procs[i]) || Forgotten(s, i)
  {
    hide Locks, MustWait;
    assert Justified(s, s.procs[i]) || Forgotten(s, i);
  }

  /** A writer gives up on a full pipe, because nobody can read it any more or because the writer has been killed. */
  predicate GivesUp(s: State, p: nat) {
    && p < |s.procs| && s.procs[p].pc.Run? && s.procs[p].task.Write? && s.procs[p].task.next < |s.procs[p].task.bytes|
    && Full(s.ring) && (!s.readopen || s.procs[p].killed)
  }

  lemma WriteFails(s: State, p: nat)
    requires GivesUp(s, p) && |s.ring.data| == PIPESIZE
    requires Inv(s)
    ensures Inv(RunWrite(s, p))
  {
    hide RingInv, Locks, Ends, Waits, Full, Empty;
    var s' := RunWrite(s, p);
    HolderIs(s, p);
    TaskOkAt(s, p);
    LocksStep(s, s', p);
    EndsStep(s, s', p);
    forall i | 0 <= i < |s'.procs| && Waiting(s'.procs[i])
      ensures Justified(s', s'.procs[i]) || Forgotten(s', i)
    {
      TaskOkAt(s, i);
      if s.procs[i].task.Write? {
        OnlyMine(s, p, i);
      }
    }
    WaitsAll(s');
  }

  lemma WaitsAll(s: State)
    requires forall i | 0 <= i < |s.procs| && Waiting(s.procs[i]) :: Justified(s, s.procs[i]) || Forgotten(s, i)
    ensures Waits(s)
  {
  }

  /** p works on the pipe under its lock and owes the wakeup: those waiting for it are excused, the others still must
      wait. */
  lemma WorkWaits(s: State, s': State, p: nat)
    requires Locks(s) && Waits(s) && p < |s.procs| == |s'.procs| && s.pipeLock == p == s'.pipeLock
    requires forall i | 0 <= i < |s.procs| && i != p :: s'.procs[i] == s.procs[i]
    requires !Waiting(s'.procs[p]) && Wakes(s'.procs[p].task) == Wakes(s.procs[p].task)
               && Owes(s'.procs[p], Wakes(s.procs[p].task))
    requires forall i | 0 <= i < |s.procs| && i != p && SleepsOn(s.procs[i].task) != Wakes(s.procs[p].task)
               && MustWait(s, s.procs[i]) ::
               MustWait(s', s.procs[i])
    requires s'.left == s.left
    ensures Waits(s')
  {
    hide Locks, MustWait, Wakes, SleepsOn, Owes;
    forall i | 0 <= i < |s'.procs| && Waiting(s'.procs[i])
      ensures Justified(s', s'.procs[i]) || Forgotten(s', i)
    {
      if SleepsOn(s.procs[i].task) != Wakes(s.procs[p].task) {
        OnlyMine(s, p, i);
      }
    }
  }

  lemma StoreStep(s: State, p: nat)
    requires p < |s.procs| && s.procs[p].pc.Run? && s.procs[p].task.Write?
               && s.procs[p].task.next < |s.procs[p].task.bytes|
    requires |s.ring.data| == PIPESIZE && !Full(s.ring)
    requires Inv(s)
    ensures Inv(RunWrite(s, p))
  {
    hide RingInv, Locks, Ends, Waits, Full, Empty, Store;
    var s' := RunWrite(s, p);
    HolderIs(s, p);
    TaskOkAt(s, p);
    LocksStep(s, s', p);
    EndsStep(s, s', p);
    StoreKeeps(s.ring, s.taken, s.written, s.procs[p].task.bytes[s.procs[p].task.next]);
    WorkWaits(s, s', p);
  }

  lemma FetchStep(s: State, p: nat)
    requires p < |s.procs| && s.procs[p].pc.Run? && s.procs[p].task.Read? && s.procs[p].task.copying
               && |s.procs[p].task.got| < s.procs[p].task.n
    requires |s.ring.data| == PIPESIZE && !Empty(s.ring)
    requires Inv(s)
    ensures Inv(RunRead(s, p))
  {
    hide RingInv, Locks, Ends, Waits, Full, Empty, Drop, Head;
    var s' := RunRead(s, p);
    HolderIs(s, p);
    TaskOkAt(s, p);
    LocksStep(s, s', p);
    EndsStep(s, s', p);
    DropKeeps(s.ring, s.taken, s.written);
    WorkWaits(s, s', p);
  }

  lemma CopyStarts(s: State, p: nat)
    requires p < |s.procs| && s.procs[p].pc.Run? && s.procs[p].task.Read? && !s.procs[p].task.copying
    requires |s.ring.data| == PIPESIZE && !(Empty(s.ring) && s.writeopen)
    requires Inv(s)
    ensures Inv(RunRead(s, p))
  {
    hide RingInv, Locks, Ends, Waits, Full, Empty;
    var s' := RunRead(s, p);
    HolderIs(s, p);
    TaskOkAt(s, p);
    LocksStep(s, s', p);
    EndsStep(s, s', p);
    WorkWaits(s, s', p);
  }

  lemma CloseStep(s: State, p: nat)
    requires p < |s.procs| && s.procs[p].pc.Run? && s.procs[p].task.Close?
    requires Inv(s)
    ensures Inv(RunClose(s, p))
  {
    hide RingInv, Locks, Ends, Waits, Full, Empty;
    var s' := RunClose(s, p);
    HolderIs(s, p);
    TaskOkAt(s, p);
    LocksStep(s, s', p);
    EndsStep(s, s', p);
    WorkWaits(s, s', p);
  }

  lemma RunKeeps(s: State, p: nat)
    requires CanStep(s, p) && s.procs[p].pc.Run?
    requires Inv(s)
    ensures |s.ring.data| == PIPESIZE && Inv(StepProc(s, p))
  {
    hide Inv, Full, Empty;
    InvSize(s);
    var t := s.procs[p].task;
    if t.Write? {
      if t.next >= |t.bytes| {
        LeaveKeeps(s, p, WakeAcquire(ToRelease));
      } else if !Full(s.ring) {
        StoreStep(s, p);
      } else if GivesUp(s, p) {
        WriteFails(s, p);
      } else {
        LeaveKeeps(s, p, WakeAcquire(ToSleep));
      }
    } else if t.Read? {
      RunReadKeeps(s, p);
    } else {
      CloseStep(s, p);
    }
  }

  lemma RunReadKeeps(s: State, p: nat)
    requires p < |s.procs| && s.procs[p].pc.Run? && s.procs[p].task.Read? && |s.ring.data| == PIPESIZE
    requires Inv(s)
    ensures Inv(RunRead(s, p))
  {
    hide Inv, Full, Empty;
    var t := s.procs[p].task;
    if !t.copying {
      if Empty(s.ring) && s.writeopen {
        LeaveKeeps(s, p, if s.procs[p].killed then Release(-1) else SleepAcquire);
      } else {
        CopyStarts(s, p);
      }
    } else if |t.got| >= t.n || Empty(s.ring) {
      LeaveKeeps(s, p, WakeAcquire(ToRelease));
    } else {
      FetchStep(s, p);
    }
  }

  /** When p scans the process table, the processes waiting on its channel are all asleep: it holds both locks that a
      process on its way to sleep needs. */
  lemma ScanFinds(s: State, p: nat, i: nat)
    requires Locks(s) && Ends(s) && p < |s.procs| && s.procs[p].pc.WakeScan? && i < |s.procs| && i != p
               && Waiting(s.procs[i])
    ensures s.procs[i].pc.Sleeping?
  {
    hide Ends;
    HolderIs(s, i);
    HolderIs(s, p);
  }

  lemma ScanKeeps(s: State, p: nat)
    requires p < |s.procs| && s.procs[p].pc.WakeScan? && |s.ring.data| == PIPESIZE
    requires Inv(s)
    ensures Inv(StepProc(s, p))
  {
    hide RingInv, Locks, Ends, Waits, Full, Empty, RunWrite, RunRead, RunClose;
    var s' := StepProc(s, p);
    HolderIs(s, p);
    TaskOkAt(s, p);
    LocksStep(s, s', p);
    EndsStep(s, s', p);
    ScanWaits(s, s', p);
  }

  lemma ScanWaits(s: State, s': State, p: nat)
    requires Locks(s) && Ends(s) && Waits(s) && p < |s.procs| && s.procs[p].pc.WakeScan?
    requires s' == s.(procs := WakeAll(s.procs, Wakes(s.procs[p].task))
                                 [p := s.procs[p].(pc := WakeRelease(s.procs[p].pc.k))],
                      left := if Wakes(s.procs[p].task) == NRead then {} else s.left)
    ensures Waits(s')
  {
    hide Locks, Ends, Full, Empty, Debt;
    HolderIs(s, p);
    TaskOkAt(s, p);
    forall i | 0 <= i < |s'.procs| && Waiting(s'.procs[i])
      ensures MustWait(s', s'.procs[i]) || Forgotten(s', i)
    {
      if i != p {
        ScanFinds(s, p, i);
      }
      OnlyMine(s, p, i);
    }
  }

  lemma StepKeeps(s: State, a: Action)
    requires Enabled(s, a)
    requires Inv(s)
    ensures |s.ring.data| == PIPESIZE && Inv(Do(s, a))
  {
    hide Inv, RunWrite, RunRead, RunClose, WakeAll, StepProc, StartTask, KillProc;
    InvSize(s);
    match a {
      case Start(p, t) => StartKeeps(s, p, t);
      case Kill(p) => KillKeeps(s, p);
      case Step(p) =>
        var pc := s.procs[p].pc;
        if pc.Run? {
          RunKeeps(s, p);
        } else if pc.WakeScan? {
          ScanKeeps(s, p);
        } else if pc.Acquire? || pc.Release? {
          LockSteps(s, p);
        } else if pc.WakeAcquire? || pc.WakeRelease? {
          WakeSteps(s, p);
        } else if pc.Runnable? || pc.Resumed? {
          ResumeSteps(s, p);
        } else {
          SleepSteps(s, p);
        }
    }
  }

  // ---------- whole runs ----------

  /** The state after a run, if every action of the run is enabled when it comes. */
  function Exec(s: State, run: seq<Action>): (r: State)
    requires Legal(s, run)
    decreases |run|
  {
    if run == [] then s else Exec(Do(s, run[0]), run[1..])
  }

  predicate Legal(s: State, run: seq<Action>)
    decreases |run|
  {
    run == [] || (Enabled(s, run[0]) && |s.ring.data| == PIPESIZE && Legal(Do(s, run[0]), run[1..]))
  }

  lemma {:induction false} RunInv(s: State, run: seq<Action>)
    requires Inv(s) && Legal(s, run)
    ensures Inv(Exec(s, run))
    decreases |run|
  {
    hide Inv, Do, Enabled;
    if run != [] {
      StepKeeps(s, run[0]);
      RunInv(Do(s, run[0]), run[1..]);
    }
  }

  /** In every run, the bytes taken are the first bytes written, in order, at most PIPESIZE behind. */
  lemma BytesInOrder(s: State, run: seq<Action>)
    requires Init(s) && Legal(s, run)
    ensures var r := Exec(s, run);
            r.taken <= r.written && |r.written| - |r.taken| <= PIPESIZE
  {
    hide Do, Enabled, Legal, Exec;
    InitInv(s);
    RunInv(s, run);
  }

  /** A sleeping reader or writer for which nothing has happened. */
  ghost predicate RightlyAsleep(r: State, i: nat)
    requires i < |r.procs|
  {
    if r.procs[i].task.Read? then |r.taken| == |r.written| && r.writeopen
    else r.procs[i].task.Write? && |r.written| == |r.taken| + PIPESIZE && r.readopen
  }

  /** In every run, kills included, while the pipe lock is free a sleeping writer faces a full pipe that can still be
      read, and a sleeping reader faces an empty pipe that can still be written, unless it was waiting when a killed
      writer gave up on the full pipe and no wakeup of readers has come since. */
  lemma NoLostWakeup(s: State, run: seq<Action>)
    requires Init(s) && Legal(s, run) && Exec(s, run).pipeLock == NOBODY
    ensures var r := Exec(s, run);
            forall i | 0 <= i < |r.procs| && r.procs[i].pc.Sleeping? :: RightlyAsleep(r, i) || Forgotten(r, i)
  {
    hide Do, Enabled, Legal, Exec, Init;
    InitInv(s);
    RunInv(s, run);
    SleepersMustWait(Exec(s, run));
  }

  lemma SleepersMustWait(r: State)
    requires Inv(r) && r.pipeLock == NOBODY
    ensures forall i | 0 <= i < |r.procs| && r.procs[i].pc.Sleeping? :: RightlyAsleep(r, i) || Forgotten(r, i)
  {
    hide RingInv, Locks, Ends, Full, Empty;
    Tests(r.ring, r.taken, r.written);
    forall i | 0 <= i < |r.procs| && r.procs[i].pc.Sleeping?
      ensures RightlyAsleep(r, i) || Forgotten(r, i)
    {
      TaskOkAt(r, i);
      assert Justified(r, r.procs[i]) || Forgotten(r, i);
    }
  }

  /** The step in which a killed writer gives up while a reader waits. */
  predicate Forgets(s: State, a: Action) {
    a.Step? && GivesUp(s, a.p) && WaitingReaders(s) != {}
  }

  /** Every waiting reader is left behind by such a step: it stays on its way to sleep or asleep in front of a full
      pipe, and nobody owes it a wakeup. */
  lemma LeftBehind(s: State, a: Action, i: nat)
    requires Enabled(s, a) && |s.ring.data| == PIPESIZE && Forgets(s, a) && i in WaitingReaders(s)
    requires Inv(s)
    ensures var t := Do(s, a);
            && Waiting(t.procs[i]) && !Justified(t, t.procs[i]) && Forgotten(t, i)
            && |t.written| == |t.taken| + PIPESIZE && s.procs[a.p].killed
  {
    hide RingInv, Ends, Waits;
    Tests(s.ring, s.taken, s.written);
    TaskOkAt(s, i);
    HolderIs(s, a.p);
  }

  /** No other step leaves a reader behind. */
  lemma ForgetsExactly(s: State, a: Action)
    requires Enabled(s, a) && |s.ring.data| == PIPESIZE && !Forgets(s, a)
    ensures Do(s, a).left <= s.left
  {
    hide Full, Empty, Store, Drop, Head, Waiting, WakeAll, Wakes, Slot;
    if a.Step? && s.procs[a.p].pc.Run? {
      hide StepProc;
      RunForgets(s, a.p);
    }
  }

  lemma RunForgets(s: State, p: nat)
    requires p < |s.procs| && s.procs[p].pc.Run? && |s.ring.data| == PIPESIZE
               && !(GivesUp(s, p) && WaitingReaders(s) != {})
    ensures StepProc(s, p).left <= s.left
  {
    hide Full, Empty, Store, Drop, Head, Waiting, Slot;
  }

  /** A run in which no killed writer gives up while a reader waits. */
  predicate Careful(s: State, run: seq<Action>)
    requires Legal(s, run)
    decreases |run|
  {
    run == [] || (!Forgets(s, run[0]) && Careful(Do(s, run[0]), run[1..]))
  }

  lemma {:induction false} NobodyForgotten(s: State, run: seq<Action>)
    requires Legal(s, run) && Careful(s, run) && s.left == {}
    ensures Exec(s, run).left == {}
    decreases |run|
  {
    hide Do, Enabled, Forgets;
    if run != [] {
      ForgetsExactly(s, run[0]);
      NobodyForgotten(Do(s, run[0]), run[1..]);
    }
  }

  /** In such a run no wakeup is lost, and the two sides never sleep together. */
  lemma CarefulRuns(s: State, run: seq<Action>)
    requires Init(s) && Legal(s, run) && Careful(s, run) && Exec(s, run).pipeLock == NOBODY
    ensures var r := Exec(s, run);
            && (forall i | 0 <= i < |r.procs| && r.procs[i].pc.Sleeping? :: RightlyAsleep(r, i))
            && (forall i, j | 0 <= i < |r.procs| && 0 <= j < |r.procs| && r.procs[i].pc.Sleeping?
                 && r.procs[j].pc.Sleeping? ::
                  r.procs[i].task.Read? == r.procs[j].task.Read?)
  {
    hide Do, Enabled, Legal, Exec, Careful;
    NobodyForgotten(s, run);
    NoLostWakeup(s, run);
  }

  // ---------- a run that loses a wakeup ----------

  /** A reader asleep, and a killed writer that has stored n of its bytes into the pipe. */
  ghost predicate Filling(s: State, bytes: seq<Byte>, n: nat) {
    && |bytes| == PIPESIZE + 1 && n <= PIPESIZE && |s.ring.data| == PIPESIZE && s.ring.nread == 0 && s.ring.nwrite == n
    && |s.taken| == 0 && |s.written| == n && s.pipeLock == 1 && s.ptLock == NOBODY && s.readopen && s.writeopen
    && |s.calls| == 2
    && s.procs == [Proc(Sleeping, Read(1, [], false), false, 0), Proc(Run, Write(bytes, n), true, 1)]
  }

  lemma StoreOne(s: State, bytes: seq<Byte>, n: nat)
    requires Filling(s, bytes, n) && n < PIPESIZE
    ensures Enabled(s, Step(1)) && Filling(Do(s, Step(1)), bytes, n + 1)
  {
  }

  lemma {:induction false} StoreMore(s: State, bytes: seq<Byte>, n: nat) returns (run: seq<Action>)
    requires Filling(s, bytes, n)
    ensures Legal(s, run) && Filling(Exec(s, run), bytes, PIPESIZE)
    decreases PIPESIZE - n
  {
    if n == PIPESIZE {
      run := [];
    } else {
      StoreOne(s, bytes, n);
      hide Do, Enabled;
      assert |s.ring.data| == PIPESIZE;
      hide Filling;
      var rest := StoreMore(Do(s, Step(1)), bytes, n + 1);
      run := [Step(1)] + rest;
      assert run[1..] == rest;
    }
  }

  lemma {:induction false} Joined(s: State, a: seq<Action>, b: seq<Action>)
    requires Legal(s, a) && Legal(Exec(s, a), b)
    ensures Legal(s, a + b) && Exec(s, a + b) == Exec(Exec(s, a), b)
    decreases |a|
  {
    hide Do, Enabled;
    if a == [] {
      assert a + b == b;
    } else {
      Joined(Do(s, a[0]), a[1..], b);
      assert (a + b)[1..] == a[1..] + b;
    }
  }

  lemma OneAction(s: State, a: Action)
    requires Enabled(s, a) && |s.ring.data| == PIPESIZE
    ensures Legal(s, [a]) && Exec(s, [a]) == Do(s, a)
  {
    hide Do, Enabled;
    assert [a][1..] == [];
    assert Legal(Do(s, a), []);
  }

  lemma OneMoreAction(s: State, run: seq<Action>, a: Action)
    requires Legal(s, run) && Enabled(Exec(s, run), a) && |Exec(s, run).ring.data| == PIPESIZE
    ensures Legal(s, run + [a]) && Exec(s, run + [a]) == Do(Exec(s, run), a)
  {
    hide Do, Enabled, Legal, Exec;
    OneAction(Exec(s, run), a);
    Joined(s, run, [a]);
  }

  /** The reader goes to sleep on the empty pipe, and then the writer, already killed, starts. */
  lemma StartFilling(s: State, bytes: seq<Byte>) returns (run: seq<Action>)
    requires Init(s) && |bytes| == PIPESIZE + 1
    requires s.procs == [Proc(Idle, Close(true), false, 0), Proc(Idle, Close(true), false, 0)]
    ensures Legal(s, run) && Filling(Exec(s, run), bytes, 0)
  {
    run := AsleepRun(s);
    var t := Exec(s, run);
    var t1 := Do(t, Kill(1));
    OneMoreAction(s, run, Kill(1));
    run := run + [Kill(1)];
    var t2 := Do(t1, Start(1, Write(bytes, 0)));
    OneMoreAction(s, run, Start(1, Write(bytes, 0)));
    run := run + [Start(1, Write(bytes, 0))];
    OneMoreAction(s, run, Step(1));
    run := run + [Step(1)];
  }

  ghost predicate ReaderAsleep(s: State) {
    && |s.ring.data| == PIPESIZE && s.ring.nread == 0 == s.ring.nwrite && s.taken == [] == s.written
    && s.readopen && s.writeopen && s.readEnd && s.writeEnd && s.pipeLock == NOBODY == s.ptLock
    && |s.calls| == 1
    && s.procs == [Proc(Sleeping, Read(1, [], false), false, 0), Proc(Idle, Close(true), false, 0)]
  }

  lemma AsleepRun(s: State) returns (run: seq<Action>)
    requires Init(s) && s.procs == [Proc(Idle, Close(true), false, 0), Proc(Idle, Close(true), false, 0)]
    ensures Legal(s, run) && ReaderAsleep(Exec(s, run))
  {
    hide Legal, Exec;
    var s1 := Do(s, Start(0, Read(1, [], false)));
    OneAction(s, Start(0, Read(1, [], false)));
    run := [Start(0, Read(1, [], false))];
    var s2 := Do(s1, Step(0));
    OneMoreAction(s, run, Step(0));
    run := run + [Step(0)];
    var s3 := Do(s2, Step(0));
    OneMoreAction(s, run, Step(0));
    run := run + [Step(0)];
    var s4 := Do(s3, Step(0));
    OneMoreAction(s, run, Step(0));
    run := run + [Step(0)];
    var s5 := Do(s4, Step(0));
    OneMoreAction(s, run, Step(0));
    run := run + [Step(0)];
    var s6 := Do(s5, Step(0));
    OneMoreAction(s, run, Step(0));
    run := run + [Step(0)];
  }

  /** It does happen: a reader sleeps on the empty pipe, a writer stores PIPESIZE bytes, finds the pipe full and itself
      killed, and returns; the reader stays asleep in front of the full pipe with the lock free. */
  lemma LostRun(s: State, bytes: seq<Byte>) returns (run: seq<Action>)
    requires Init(s) && |bytes| == PIPESIZE + 1
    requires s.procs == [Proc(Idle, Close(true), false, 0), Proc(Idle, Close(true), false, 0)]
    ensures Legal(s, run)
    ensures var r := Exec(s, run);
            && |r.procs| == 2 && r.pipeLock == NOBODY && r.procs[0].pc.Sleeping? && !RightlyAsleep(r, 0)
            && |r.written| == PIPESIZE && r.taken == []
  {
    var a := StartFilling(s, bytes);
    var b := StoreMore(Exec(s, a), bytes, 0);
    Joined(s, a, b);
    run := a + b;
    GiveUpAndRelease(s, run, bytes);
    run := run + [Step(1)] + [Step(1)];
  }

  lemma GiveUpAndRelease(s: State, run: seq<Action>, bytes: seq<Byte>)
    requires Legal(s, run) && Filling(Exec(s, run), bytes, PIPESIZE)
    ensures Legal(s, run + [Step(1)] + [Step(1)])
    ensures var r := Exec(s, run + [Step(1)] + [Step(1)]);
            && |r.procs| == 2 && r.pipeLock == NOBODY && r.procs[0].pc.Sleeping? && r.procs[0].task.Read?
            && |r.written| == PIPESIZE && r.taken == []
  {
    hide Legal, Exec;
    OneMoreAction(s, run, Step(1));
    OneMoreAction(s, run + [Step(1)], Step(1));
  }

  /** In every run, if a call is in progress and not asleep, some process can take a step. */
  lemma NoDeadlock(s: State, run: seq<Action>, p: nat)
    requires Init(s) && Legal(s, run)
    requires p < |Exec(s, run).procs| && !Exec(s, run).procs[p].pc.Idle? && !Exec(s, run).procs[p].pc.Sleeping?
    ensures exists q :: CanStep(Exec(s, run), q)
  {
    hide Do, Enabled, Legal, Exec, Init;
    InitInv(s);
    RunInv(s, run);
    SomeoneSteps(Exec(s, run), p);
  }

  lemma SomeoneSteps(r: State, p: nat)
    requires Locks(r) && p < |r.procs| && !r.procs[p].pc.Idle? && !r.procs[p].pc.Sleeping?
    ensures exists q :: CanStep(r, q)
  {
    hide Locks;
    HolderIs(r, p);
    if r.ptLock != NOBODY {
      assert CanStep(r, r.ptLock);
    } else if r.pipeLock != NOBODY {
      assert CanStep(r, r.pipeLock);
    } else {
      assert CanStep(r, p);
    }
  }

  // ---------- the copying loops ----------

  /** The pipe's buffer, as the loops of `pipewrite` and `piperead` use it between two waits. */
  class Buffer {
    const data: array<Byte>
    var nread: nat
    var nwrite: nat
    ghost var taken: seq<Byte>
    ghost var written: seq<Byte>

    ghost predicate Valid()
      reads this, data
    {
      data.Length == PIPESIZE && RingInv(Ring(data[..], nread, nwrite), taken, written)
    }

    /** The bytes in the pipe. */
    ghost function Contents(): seq<Byte>
      requires Valid()
      reads this, data
    {
      written[|taken|..]
    }

    constructor (page: array<Byte>)
      requires page.Length == PIPESIZE
      ensures data == page && Valid() && Contents() == []
    {
      data := page;
      nread, nwrite := 0, 0;
      taken, written := [], [];
    }

    /** Stores bytes from index i on until they are all stored or the pipe is full. */
    method Fill(addr: seq<Byte>, i: nat) returns (j: nat)
      requires Valid() && i <= |addr|
      modifies this, data
      ensures Valid() && i <= j <= |addr|
      ensures Contents() == old(Contents()) + addr[i..j]
      ensures j < |addr| ==> |Contents()| == PIPESIZE
    {
      hide RingInv, Slot;
      j := i;
      ghost var before := written;
      ValidBounds(Ring(data[..], nread, nwrite), taken, written);
      while j < |addr| && nwrite != (nread + PIPESIZE) % UINT_LIMIT
        invariant Valid() && i <= j <= |addr| && taken == old(taken) && |taken| <= |before|
                    && written == before + addr[i..j]
      {
        StoreKeeps(Ring(data[..], nread, nwrite), taken, written, addr[j]);
        data[Slot(nwrite)] := addr[j];
        nwrite := (nwrite + 1) % UINT_LIMIT;
        written := written + [addr[j]];
        j := j + 1;
      }
      Tests(Ring(data[..], nread, nwrite), taken, written);
    }

    /** Takes up to n bytes. */
    method Drain(n: nat) returns (got: seq<Byte>)
      requires Valid()
      modifies this
      ensures Valid()
      ensures old(Contents()) == got + Contents()
      ensures |got| <= n && (|got| < n ==> Contents() == [])
    {
      hide RingInv, Slot;
      got := [];
      ghost var before := taken;
      ValidBounds(Ring(data[..], nread, nwrite), taken, written);
      while |got| < n && nread != nwrite
        invariant Valid() && |got| <= n && |before| <= |taken| <= |written| && written == old(written)
        invariant taken == before + got && got == written[|before|..|taken|]
      {
        DropKeeps(Ring(data[..], nread, nwrite), taken, written);
        got := got + [data[Slot(nread)]];
        taken := taken + [data[Slot(nread)]];
        nread := (nread + 1) % UINT_LIMIT;
        ValidBounds(Ring(data[..], nread, nwrite), taken, written);
      }
      Tests(Ring(data[..], nread, nwrite), taken, written);
    }
  }

  lemma ValidBounds(r: Ring, taken: seq<Byte>, written: seq<Byte>)
    requires RingInv(r, taken, written)
    ensures |taken| <= |written|
  {
  }
}

/** What the calls of a pipe were given and what they return, tied to what went through the pipe. */
module PipeCalls {
  import opened Common
  import opened Pipe

  // ---------- interleavings ----------

  /** The bytes of `whole` that carry tag c, in order. */
  function Pick(whole: seq<Byte>, tags: seq<nat>, c: nat): seq<Byte>
    requires |whole| == |tags|
  {
    if whole == [] then [] else
    var m := |whole| - 1;
    Pick(whole[..m], tags[..m], c) + if tags[m] == c then [whole[m]] else []
  }

  /** `whole` consists of the parts, each in its own order. */
  ghost predicate Interleaves(parts: seq<seq<Byte>>, whole: seq<Byte>) {
    exists tags: seq<nat> :: Tagged(parts, whole, tags)
  }

  ghost predicate Tagged(parts: seq<seq<Byte>>, whole: seq<Byte>, tags: seq<nat>) {
    && |tags| == |whole|
    && (forall j | 0 <= j < |tags| :: tags[j] < |parts|)
    && (forall c | 0 <= c < |parts| :: Pick(whole, tags, c) == parts[c])
  }

  lemma PickNext(whole: seq<Byte>, tags: seq<nat>, b: Byte, t: nat, c: nat)
    requires |whole| == |tags|
    ensures Pick(whole + [b], tags + [t], c) == Pick(whole, tags, c) + if t == c then [b] else []
  {
    assert (whole + [b])[..|whole|] == whole && (tags + [t])[..|tags|] == tags;
  }

  lemma {:induction false} PickNone(whole: seq<Byte>, tags: seq<nat>, c: nat)
    requires |whole| == |tags|
    ensures Pick(whole, tags, c) == [] <==> forall j | 0 <= j < |tags| :: tags[j] != c
    decreases |whole|
  {
    if whole != [] {
      var m := |whole| - 1;
      PickNone(whole[..m], tags[..m], c);
      assert forall j | 0 <= j < m :: tags[..m][j] == tags[j];
    }
  }

  lemma {:induction false} PickAll(whole: seq<Byte>, tags: seq<nat>, c: nat)
    requires |whole| == |tags| && forall j | 0 <= j < |tags| :: tags[j] == c
    ensures Pick(whole, tags, c) == whole
    decreases |whole|
  {
    if whole != [] {
      var m := |whole| - 1;
      PickAll(whole[..m], tags[..m], c);
      assert whole == whole[..m] + [whole[m]];
    }
  }

  // ---------- the invariant ----------

  /** The bytes a call has stored. */
  function Sent(t: Task): seq<Byte> {
    if t.Write? && t.next <= |t.bytes| then t.bytes[..t.next] else []
  }

  /** The bytes a call has taken. */
  function Got(t: Task): seq<Byte> {
    if t.Read? then t.got else []
  }

  predicate TaskWell(t: Task) {
    && (t.Write? ==> t.next <= |t.bytes|)
    && (t.Read? ==> |t.got| <= t.n && (!t.copying ==> t.got == []))
  }

  /** What call c has stored and taken is its part of the history. */
  ghost predicate BookOf(s: State, c: nat)
    requires c < |s.calls| && |s.writers| == |s.written| && |s.readers| == |s.taken|
  {
    && Pick(s.written, s.writers, c) == Sent(s.calls[c].task)
    && Pick(s.taken, s.readers, c) == Got(s.calls[c].task)
    && TaskWell(s.calls[c].task)
  }

  ghost predicate Books(s: State) {
    && |s.writers| == |s.written| && |s.readers| == |s.taken|
    && (forall j | 0 <= j < |s.writers| :: s.writers[j] < |s.calls|)
    && (forall j | 0 <= j < |s.readers| :: s.readers[j] < |s.calls|)
    && (forall c | 0 <= c < |s.calls| :: BookOf(s, c))
  }

  /** Every process inside a call has a call of its own, which has not returned. */
  ghost predicate Numbered(s: State) {
    && (forall i | 0 <= i < |s.procs| && !s.procs[i].pc.Idle? ::
          s.procs[i].call < |s.calls| && s.calls[s.procs[i].call] == Call(s.procs[i].task, None))
    && (forall i, j | 0 <= i < j < |s.procs| && !s.procs[i].pc.Idle? && !s.procs[j].pc.Idle? ::
          s.procs[i].call != s.procs[j].call)
  }

  /** A write returns the number of its bytes if it has stored them all, and -1 if it gave up before; a read returns the
      number of bytes it has taken, or -1 if it never began to copy. */
  predicate RetOk(t: Task, ret: int) {
    match t
    case Write(bytes, next) => if ret == -1 then next < |bytes| else ret == next == |bytes|
    case Read(_, got, copying) => if ret == -1 then !copying else ret == |got| && copying
    case Close(_) => ret == 0
  }

  predicate PcOk(q: Proc) {
    && ((q.pc.WakeAcquire? || q.pc.WakeScan? || q.pc.WakeRelease?) && q.pc.k == ToRelease ==>
          RetOk(q.task, Result(q.task)))
    && (q.pc.Release? ==> RetOk(q.task, q.pc.ret))
  }

  ghost predicate Rets(s: State) {
    && (forall i | 0 <= i < |s.procs| :: PcOk(s.procs[i]))
    && (forall c | 0 <= c < |s.calls| && s.calls[c].ret.Some? :: RetOk(s.calls[c].task, s.calls[c].ret.value))
  }

  predicate EndClosed(s: State, t: Task) {
    t.Close? ==> if t.writable then !s.writeopen else !s.readopen
  }

  /** Past its first step a close has closed its end. */
  ghost predicate Closings(s: State) {
    && (forall i | 0 <= i < |s.procs| && !s.procs[i].pc.Idle? && !s.procs[i].pc.Acquire? && !s.procs[i].pc.Run? ::
          EndClosed(s, s.procs[i].task))
    && (forall c | 0 <= c < |s.calls| && s.calls[c].ret.Some? :: EndClosed(s, s.calls[c].task))
  }

  ghost predicate CallsInv(s: State) {
    Books(s) && Numbered(s) && Rets(s) && Closings(s)
  }

  lemma InitCalls(s: State)
    requires Init(s)
    ensures CallsInv(s)
  {
  }

  // ---------- every step keeps it ----------

  lemma StartCalls(s: State, p: nat, t: Task)
    requires CallsInv(s) && CanStart(s, p, t)
    ensures CallsInv(StartTask(s, p, t))
  {
    hide Pick, RetOk;
    var s' := StartTask(s, p, t);
    PickNone(s.written, s.writers, |s.calls|);
    PickNone(s.taken, s.readers, |s.calls|);
    forall c | 0 <= c < |s'.calls|
      ensures BookOf(s', c)
    {
      if c < |s.calls| {
        assert BookOf(s, c);
      }
    }
    assert Numbered(s') && Rets(s') && Closings(s');
  }

  /** Steps that move program points, and may close an end or wake sleepers, but change no call. */
  lemma MoveCalls(s: State, s': State, p: nat)
    requires CallsInv(s) && p < |s.procs| == |s'.procs| && s'.calls == s.calls
    requires s'.written == s.written && s'.taken == s.taken && s'.writers == s.writers && s'.readers == s.readers
    requires forall i | 0 <= i < |s.procs| :: s'.procs[i].task == s.procs[i].task && s'.procs[i].call == s.procs[i].call
    requires forall i | 0 <= i < |s.procs| && i != p ::
               s'.procs[i].pc == s.procs[i].pc || (s.procs[i].pc.Sleeping? && s'.procs[i].pc.Runnable?)
    requires s'.procs[p].pc.Idle? <==> s.procs[p].pc.Idle?
    requires PcOk(s'.procs[p])
    requires (!s.readopen ==> !s'.readopen) && (!s.writeopen ==> !s'.writeopen)
    requires !s'.procs[p].pc.Idle? && !s'.procs[p].pc.Acquire? && !s'.procs[p].pc.Run? ==>
               EndClosed(s', s'.procs[p].task)
    ensures CallsInv(s')
  {
    hide Pick, RetOk;
    assert Books(s') by {
      forall c | 0 <= c < |s'.calls|
        ensures BookOf(s', c)
      {
        assert BookOf(s, c);
      }
    }
  }

  lemma ReturnCalls(s: State, p: nat, s': State)
    requires CallsInv(s) && p < |s.procs| && s.procs[p].pc.Release?
    requires s' == Return(s, p, s.procs[p].pc.ret).(pipeLock := s'.pipeLock)
    ensures CallsInv(s')
  {
    hide Pick, RetOk;
    forall c | 0 <= c < |s'.calls|
      ensures BookOf(s', c)
    {
      assert BookOf(s, c);
    }
    assert PcOk(s.procs[p]);
  }

  /** One more byte stored by call c, or one more taken, or a change of the call that neither stores nor takes. */
  lemma ProgressCalls(s: State, s': State, p: nat, t: Task, sent: seq<Byte>, got: seq<Byte>)
    requires CallsInv(s) && p < |s.procs| && s.procs[p].pc.Run? && |sent| <= 1 && |got| <= 1
    requires Sent(t) == Sent(s.procs[p].task) + sent && Got(t) == Got(s.procs[p].task) + got && TaskWell(t) && !t.Close?
    requires var c := s.procs[p].call;
             s' == Progress(s, p, t).(ring := s'.ring, written := s.written + sent, taken := s.taken + got,
                                      writers := if sent == [] then s.writers else s.writers + [c],
                                      readers := if got == [] then s.readers else s.readers + [c])
    ensures CallsInv(s')
  {
    hide Pick, RetOk, TaskWell;
    var c := s.procs[p].call;
    assert s.written + [] == s.written && s.taken + [] == s.taken;
    forall i | 0 <= i < |s'.calls|
      ensures BookOf(s', i)
    {
      assert BookOf(s, i);
      if sent != [] {
        PickNext(s.written, s.writers, sent[0], c, i);
        assert sent == [sent[0]];
      }
      if got != [] {
        PickNext(s.taken, s.readers, got[0], c, i);
        assert got == [got[0]];
      }
    }
    assert Numbered(s') && Rets(s') && Closings(s');
  }

  /** The task of a process inside a call, and its program point. */
  lemma CallFacts(s: State, p: nat)
    requires CallsInv(s) && p < |s.procs|
    ensures PcOk(s.procs[p])
    ensures !s.procs[p].pc.Idle? ==> TaskWell(s.procs[p].task)
    ensures !s.procs[p].pc.Idle? && !s.procs[p].pc.Acquire? && !s.procs[p].pc.Run? ==> EndClosed(s, s.procs[p].task)
  {
    hide Pick, RetOk;
    if !s.procs[p].pc.Idle? {
      assert BookOf(s, s.procs[p].call);
    }
  }

  /** p moves to program point pc. */
  lemma AtCalls(s: State, p: nat, pc: Pc, s': State)
    requires CallsInv(s) && p < |s.procs| && !s.procs[p].pc.Idle? && !pc.Idle?
    requires s' == At(s, p, pc).(pipeLock := s'.pipeLock, ptLock := s'.ptLock, left := s'.left)
    requires PcOk(s.procs[p].(pc := pc))
    requires !pc.Acquire? && !pc.Run? ==> EndClosed(s, s.procs[p].task)
    ensures CallsInv(s')
  {
    hide CallsInv, RetOk;
    MoveCalls(s, s', p);
  }

  lemma WriteCalls(s: State, p: nat)
    requires p < |s.procs| && s.procs[p].pc.Run? && s.procs[p].task.Write? && |s.ring.data| == PIPESIZE
    requires CallsInv(s)
    ensures CallsInv(RunWrite(s, p))
  {
    hide CallsInv, Full, Pipe.Store, WaitingReaders;
    CallFacts(s, p);
    var t, s' := s.procs[p].task, RunWrite(s, p);
    if t.next < |t.bytes| && !Full(s.ring) {
      var t' := t.(next := t.next + 1);
      assert t.bytes[..t.next + 1] == t.bytes[..t.next] + [t.bytes[t.next]];
      assert s.taken + [] == s.taken;
      ProgressCalls(s, s', p, t', [t.bytes[t.next]], []);
    } else {
      AtCalls(s, p, s'.procs[p].pc, s');
    }
  }

  lemma ReadCalls(s: State, p: nat)
    requires p < |s.procs| && s.procs[p].pc.Run? && s.procs[p].task.Read? && |s.ring.data| == PIPESIZE
    requires CallsInv(s)
    ensures CallsInv(RunRead(s, p))
  {
    hide CallsInv, Empty, Head, Pipe.Drop;
    CallFacts(s, p);
    var t, s' := s.procs[p].task, RunRead(s, p);
    assert s.written + [] == s.written && s.taken + [] == s.taken;
    if !t.copying && !(Empty(s.ring) && s.writeopen) {
      ProgressCalls(s, s', p, t.(copying := true), [], []);
    } else if t.copying && |t.got| < t.n && !Empty(s.ring) {
      ProgressCalls(s, s', p, t.(got := t.got + [Head(s.ring)]), [], [Head(s.ring)]);
    } else {
      AtCalls(s, p, s'.procs[p].pc, s');
    }
  }

  lemma CloseCalls(s: State, p: nat)
    requires CallsInv(s) && p < |s.procs| && s.procs[p].pc.Run? && s.procs[p].task.Close?
    ensures CallsInv(RunClose(s, p))
  {
    hide CallsInv;
    MoveCalls(s, RunClose(s, p), p);
  }

  lemma ScanCalls(s: State, p: nat)
    requires CallsInv(s) && p < |s.procs| && s.procs[p].pc.WakeScan? && |s.ring.data| == PIPESIZE
    ensures CallsInv(StepProc(s, p))
  {
    hide CallsInv, RunWrite, RunRead, RunClose, RetOk, Wakes;
    CallFacts(s, p);
    MoveCalls(s, StepProc(s, p), p);
  }

  /** Inside a wakeup. */
  lemma WakeCalls(s: State, p: nat)
    requires p < |s.procs| && |s.ring.data| == PIPESIZE && (s.procs[p].pc.WakeAcquire? || s.procs[p].pc.WakeRelease?)
    requires CallsInv(s)
    ensures CallsInv(StepProc(s, p))
  {
    hide CallsInv, RunWrite, RunRead, RunClose, RetOk, EndClosed, Result, WakeAll;
    CallFacts(s, p);
    var s' := StepProc(s, p);
    AtCalls(s, p, s'.procs[p].pc, s');
  }

  predicate Outside(pc: Pc) {
    pc.Acquire? || pc.SleepAcquire? || pc.SleepRelease? || pc.SleepMark? || pc.Sleeping? || pc.Runnable? || pc.Resumed?
  }

  lemma OutsideOk(q: Proc)
    requires Outside(q.pc) || q.pc.Run?
    ensures PcOk(q)
  {
  }

  lemma SleepCalls(s: State, p: nat)
    requires p < |s.procs| && |s.ring.data| == PIPESIZE
    requires s.procs[p].pc.SleepAcquire? || s.procs[p].pc.SleepRelease? || s.procs[p].pc.SleepMark?
    requires CallsInv(s)
    ensures CallsInv(StepProc(s, p))
  {
    hide CallsInv, RunWrite, RunRead, RunClose, PcOk, EndClosed, WakeAll;
    CallFacts(s, p);
    var s' := StepProc(s, p);
    OutsideOk(s'.procs[p]);
    AtCalls(s, p, s'.procs[p].pc, s');
  }

  lemma ResumeCalls(s: State, p: nat)
    requires p < |s.procs| && |s.ring.data| == PIPESIZE
    requires s.procs[p].pc.Acquire? || s.procs[p].pc.Runnable? || s.procs[p].pc.Resumed?
    requires CallsInv(s)
    ensures CallsInv(StepProc(s, p))
  {
    hide CallsInv, RunWrite, RunRead, RunClose, PcOk, EndClosed, WakeAll;
    CallFacts(s, p);
    var s' := StepProc(s, p);
    OutsideOk(s'.procs[p]);
    AtCalls(s, p, s'.procs[p].pc, s');
  }

  lemma StepCalls(s: State, a: Action)
    requires CallsInv(s) && Enabled(s, a) && |s.ring.data| == PIPESIZE
    ensures CallsInv(Do(s, a))
  {
    hide CallsInv, RunWrite, RunRead, RunClose, WakeAll, StartTask, RetOk;
    match a {
      case Start(p, t) => StartCalls(s, p, t);
      case Kill(p) =>
        CallFacts(s, p);
        MoveCalls(s, KillProc(s, p), p);
      case Step(p) =>
        if s.procs[p].pc.Release? {
          ReturnCalls(s, p, StepProc(s, p));
        } else if s.procs[p].pc.WakeScan? {
          ScanCalls(s, p);
        } else if s.procs[p].pc.WakeAcquire? || s.procs[p].pc.WakeRelease? {
          hide StepProc;
          WakeCalls(s, p);
        } else if s.procs[p].pc.Acquire? || s.procs[p].pc.Runnable? || s.procs[p].pc.Resumed? {
          hide StepProc;
          ResumeCalls(s, p);
        } else if !s.procs[p].pc.Run? {
          hide StepProc;
          SleepCalls(s, p);
        } else if s.procs[p].task.Write? {
          WriteCalls(s, p);
        } else if s.procs[p].task.Read? {
          ReadCalls(s, p);
        } else {
          CloseCalls(s, p);
        }
    }
  }

  lemma {:induction false} RunCalls(s: State, run: seq<Action>)
    requires CallsInv(s) && Legal(s, run)
    ensures CallsInv(Exec(s, run))
    decreases |run|
  {
    hide CallsInv, Do, Enabled;
    if run != [] {
      StepCalls(s, run[0]);
      RunCalls(Do(s, run[0]), run[1..]);
    }
  }

  // ---------- the calls of a run ----------

  /** The calls that a run starts, as they are started. */
  function Started(run: seq<Action>): seq<Task> {
    if run == [] then [] else (if run[0].Start? then [run[0].task] else []) + Started(run[1..])
  }

  /** The same call, possibly further on. */
  predicate SameCall(a: Task, b: Task) {
    match a
    case Write(bytes, _) => b.Write? && b.bytes == bytes
    case Read(n, _, _) => b.Read? && b.n == n
    case Close(_) => b == a
  }

  ghost predicate CallsKept(a: seq<Call>, b: seq<Call>) {
    |a| <= |b| && forall c | 0 <= c < |a| :: SameCall(a[c].task, b[c].task)
  }

  lemma CallsStep(s: State, a: Action)
    requires Numbered(s) && Enabled(s, a) && |s.ring.data| == PIPESIZE
    ensures CallsKept(s.calls, Do(s, a).calls)
    ensures if a.Start? then Do(s, a).calls == s.calls + [Call(a.task, None)] else |Do(s, a).calls| == |s.calls|
  {
    hide RunWrite, RunRead, RunClose, Return, WakeAll;
    if a.Step? {
      var q := s.procs[a.p];
      if q.pc.Release? {
        ReturnKeeps(s, a.p, q.pc.ret);
      } else if q.pc.Run? {
        hide StepProc;
        RunStep(s, a.p);
      } else {
        SameCalls(s.calls);
      }
    } else if a.Kill? {
      SameCalls(s.calls);
    } else {
      SameCalls(s.calls);
    }
  }

  lemma SameCalls(calls: seq<Call>)
    ensures CallsKept(calls, calls)
  {
  }

  lemma ReturnKeeps(s: State, p: nat, ret: int)
    requires p < |s.procs|
    ensures CallsKept(s.calls, Return(s, p, ret).calls) && |Return(s, p, ret).calls| == |s.calls|
  {
  }

  lemma ProgressKeeps(s: State, p: nat, t: Task)
    requires Numbered(s) && p < |s.procs| && !s.procs[p].pc.Idle? && SameCall(s.procs[p].task, t)
    ensures CallsKept(s.calls, Progress(s, p, t).calls) && |Progress(s, p, t).calls| == |s.calls|
  {
  }

  lemma RunStep(s: State, p: nat)
    requires Numbered(s) && p < |s.procs| && s.procs[p].pc.Run? && |s.ring.data| == PIPESIZE
    ensures CallsKept(s.calls, StepProc(s, p).calls) && |StepProc(s, p).calls| == |s.calls|
  {
    hide Numbered, CallsKept, Progress, Full, Empty, Pipe.Store, Pipe.Drop, Head, WaitingReaders;
    SameCalls(s.calls);
    var t := s.procs[p].task;
    if t.Write? {
      ProgressKeeps(s, p, t.(next := t.next + 1));
    } else if t.Read? {
      ProgressKeeps(s, p, t.(copying := true));
      if !Empty(s.ring) {
        ProgressKeeps(s, p, t.(got := t.got + [Head(s.ring)]));
      }
    }
  }

  lemma KeptTrans(a: seq<Call>, b: seq<Call>, c: seq<Call>)
    requires CallsKept(a, b) && CallsKept(b, c)
    ensures CallsKept(a, c)
  {
    forall i | 0 <= i < |a|
      ensures SameCall(a[i].task, c[i].task)
    {
      assert SameCall(a[i].task, b[i].task) && SameCall(b[i].task, c[i].task);
    }
  }

  /** The calls of b are those of a and those of `more`. */
  ghost predicate CallsAre(a: seq<Call>, more: seq<Task>, b: seq<Call>) {
    && CallsKept(a, b) && |b| == |a| + |more|
    && forall j | 0 <= j < |more| :: SameCall(more[j], b[|a| + j].task)
  }

  lemma CallsAreStep(a: seq<Call>, t: seq<Call>, first: seq<Task>, more: seq<Task>, b: seq<Call>)
    requires CallsKept(a, t) && CallsAre(t, more, b) && |first| <= 1
    requires if first == [] then |t| == |a| else t == a + [Call(first[0], None)]
    ensures CallsAre(a, first + more, b)
  {
    hide SameCall;
    KeptTrans(a, t, b);
    if first != [] {
      assert SameCall(t[|a|].task, b[|a|].task);
    }
  }

  lemma {:induction false} CallsOfRun(s: State, run: seq<Action>)
    requires CallsInv(s) && Legal(s, run)
    ensures CallsAre(s.calls, Started(run), Exec(s, run).calls)
    decreases |run|
  {
    hide Books, Numbered, Rets, Closings, Do, Enabled, CallsAre, CallsKept;
    if run == [] {
      NoCalls(s.calls);
    } else {
      var a, t := run[0], Do(s, run[0]);
      StepCalls(s, a);
      CallsStep(s, a);
      CallsOfRun(t, run[1..]);
      CallsAreStep(s.calls, t.calls, if a.Start? then [a.task] else [], Started(run[1..]), Exec(t, run[1..]).calls);
    }
  }

  lemma NoCalls(calls: seq<Call>)
    ensures CallsAre(calls, [], calls)
  {
  }

  /** The parts of the calls. */
  ghost function AllSent(calls: seq<Call>): (r: seq<seq<Byte>>)
    ensures |r| == |calls| && forall c | 0 <= c < |calls| :: r[c] == Sent(calls[c].task)
  {
    seq(|calls|, c requires 0 <= c < |calls| => Sent(calls[c].task))
  }

  ghost function AllGot(calls: seq<Call>): (r: seq<seq<Byte>>)
    ensures |r| == |calls| && forall c | 0 <= c < |calls| :: r[c] == Got(calls[c].task)
  {
    seq(|calls|, c requires 0 <= c < |calls| => Got(calls[c].task))
  }

  lemma BooksInterleave(s: State)
    requires Books(s)
    ensures Interleaves(AllSent(s.calls), s.written) && Interleaves(AllGot(s.calls), s.taken)
  {
    hide Pick;
    forall c | 0 <= c < |s.calls|
      ensures Pick(s.written, s.writers, c) == Sent(s.calls[c].task)
      ensures Pick(s.taken, s.readers, c) == Got(s.calls[c].task)
    {
      assert BookOf(s, c);
    }
    assert Tagged(AllSent(s.calls), s.written, s.writers);
    assert Tagged(AllGot(s.calls), s.taken, s.readers);
  }

  /** In every run: the calls are those that were started, with the bytes and counts they were given. What went into the
      pipe is an interleaving of what the writes have stored, each a prefix of its own bytes; what came out is an
      interleaving of what the reads have got. A write that returns a count has stored all its bytes, one that returns
      -1 has not; a read returns the number of its bytes, at most what it asked for; and a close that has returned has
      closed its end. */
  lemma EveryByte(s: State, run: seq<Action>)
    requires Init(s) && Legal(s, run)
    ensures var r := Exec(s, run);
            && |r.calls| == |Started(run)|
            && (forall c | 0 <= c < |r.calls| ::
                  SameCall(Started(run)[c], r.calls[c].task) && TaskWell(r.calls[c].task))
            && Interleaves(AllSent(r.calls), r.written) && Interleaves(AllGot(r.calls), r.taken)
            && r.taken <= r.written && |r.written| - |r.taken| <= PIPESIZE
            && (forall c | 0 <= c < |r.calls| && r.calls[c].ret.Some? ::
                  RetOk(r.calls[c].task, r.calls[c].ret.value) && EndClosed(r, r.calls[c].task))
  {
    hide Do, Enabled, Legal, Exec, Interleaves, RetOk, Started;
    var r := Exec(s, run);
    InitCalls(s);
    RunCalls(s, run);
    CallsOfRun(s, run);
    BytesInOrder(s, run);
    BooksInterleave(r);
    forall c | 0 <= c < |r.calls|
      ensures SameCall(Started(run)[c], r.calls[c].task) && TaskWell(r.calls[c].task)
    {
      assert BookOf(r, c);
    }
  }

  /** If only call w can have stored bytes, it has stored all there are. */
  lemma OnlyWriter(r: State, w: nat)
    requires Books(r) && w < |r.calls| && forall c | 0 <= c < |r.calls| && c != w :: !r.calls[c].task.Write?
    ensures r.written == Sent(r.calls[w].task)
  {
    hide Pick;
    forall j | 0 <= j < |r.writers|
      ensures r.writers[j] == w
    {
      assert BookOf(r, r.writers[j]);
      PickNone(r.written, r.writers, r.writers[j]);
    }
    PickAll(r.written, r.writers, w);
    assert BookOf(r, w);
  }

  lemma OnlyReader(r: State, d: nat)
    requires Books(r) && d < |r.calls| && forall c | 0 <= c < |r.calls| && c != d :: !r.calls[c].task.Read?
    ensures r.taken == Got(r.calls[d].task)
  {
    hide Pick;
    forall j | 0 <= j < |r.readers|
      ensures r.readers[j] == d
    {
      assert BookOf(r, r.readers[j]);
      PickNone(r.taken, r.readers, r.readers[j]);
    }
    PickAll(r.taken, r.readers, d);
    assert BookOf(r, d);
  }

  /** Between one write and one read, the reader gets the bytes of the writer, in order, none twice and none left
      out. */
  lemma OneToOne(s: State, run: seq<Action>, w: nat, d: nat)
    requires Init(s) && Legal(s, run) && w < |Started(run)| && d < |Started(run)|
    requires Started(run)[w].Write? && Started(run)[d].Read?
    requires forall c | 0 <= c < |Started(run)| && c != w && c != d :: Started(run)[c].Close?
    ensures var r := Exec(s, run);
            && |r.calls| == |Started(run)| && r.calls[d].task.Read? && r.calls[w].task.Write?
            && r.calls[d].task.got == r.taken && r.taken <= r.written <= Started(run)[w].bytes
  {
    hide Do, Enabled, Legal, Exec, Interleaves, RetOk, Started, Books, Numbered, Rets, Closings, Init;
    var r := Exec(s, run);
    InitCalls(s);
    RunCalls(s, run);
    EveryByte(s, run);
    forall c | 0 <= c < |r.calls|
      ensures SameCall(Started(run)[c], r.calls[c].task)
    {
    }
    OnlyWriter(r, w);
    OnlyReader(r, d);
  }

  // ---------- calls that come back early ----------

  predicate Leaving(pc: Pc) {
    pc.WakeAcquire? || pc.WakeScan? || pc.WakeRelease? || pc.Release?
  }

  predicate ShortRead(t: Task) {
    t.Read? && t.copying && |t.got| < t.n
  }

  /** A read that is leaving with fewer bytes than it asked for found the pipe empty, and with none at all also
      closed for writing; one that returns -1 was killed in front of an empty pipe open for writing; and a write
      that is leaving without having stored all its bytes found it full and nobody to read it, or itself killed. */
  predicate EarlyOk(ring: Ring, readopen: bool, writeopen: bool, q: Proc) {
    && (ShortRead(q.task) && Leaving(q.pc) ==> Empty(ring) && (q.task.got == [] ==> !writeopen))
    && (ShortRead(q.task) && q.pc.Run? && q.task.got == [] ==> !Empty(ring) || !writeopen)
    && (q.task.Read? && q.task.copying ==> q.pc.Idle? || q.pc.Run? || Leaving(q.pc))
    && (q.task.Read? && Leaving(q.pc) && !q.pc.Release? ==> q.task.copying && q.pc.k == ToRelease)
    && (q.task.Read? && !q.task.copying && q.pc.Release? ==> Empty(ring) && writeopen && q.killed)
    && (q.task.Write? && q.pc == Release(-1) ==> Full(ring) && (q.killed || !readopen))
  }

  ghost predicate Earlies(s: State) {
    forall i | 0 <= i < |s.procs| :: EarlyOk(s.ring, s.readopen, s.writeopen, s.procs[i])
  }

  /** Who does not hold the pipe lock is not leaving. */
  lemma EarlyElsewhere(s: State, ring: Ring, readopen: bool, writeopen: bool, q: Proc)
    requires !HoldsPipe(q.pc) && EarlyOk(s.ring, s.readopen, s.writeopen, q)
    ensures EarlyOk(ring, readopen, writeopen, q)
  {
  }

  /** Steps of p under the pipe lock may change the ring. */
  lemma EarlyWork(s: State, s': State, p: nat)
    requires Locks(s) && Earlies(s) && p < |s.procs| == |s'.procs| && HoldsPipe(s.procs[p].pc)
    requires forall i | 0 <= i < |s.procs| && i != p :: s'.procs[i] == s.procs[i]
    requires EarlyOk(s'.ring, s'.readopen, s'.writeopen, s'.procs[p])
    ensures Earlies(s')
  {
    hide EarlyOk, HoldsPipe, Locks;
    forall i | 0 <= i < |s'.procs|
      ensures EarlyOk(s'.ring, s'.readopen, s'.writeopen, s'.procs[i])
    {
      if i != p {
        HolderIs(s, p);
        HolderIs(s, i);
        EarlyElsewhere(s, s'.ring, s'.readopen, s'.writeopen, s.procs[i]);
      }
    }
  }

  /** Steps that leave the ring alone. */
  lemma EarlyMove(s: State, s': State, p: nat)
    requires Earlies(s) && p < |s.procs| == |s'.procs| && s'.ring == s.ring
    requires s'.readopen == s.readopen && s'.writeopen == s.writeopen
    requires forall i | 0 <= i < |s.procs| && i != p ::
               s'.procs[i] == s.procs[i] || (s.procs[i].pc.Sleeping? && s'.procs[i] == s.procs[i].(pc := Runnable))
    requires EarlyOk(s'.ring, s'.readopen, s'.writeopen, s'.procs[p])
    ensures Earlies(s')
  {
    hide Empty, Full;
  }

  lemma EarlyWrite(s: State, p: nat)
    requires p < |s.procs| && s.procs[p].pc.Run? && s.procs[p].task.Write? && |s.ring.data| == PIPESIZE && Locks(s)
    requires Earlies(s)
    ensures Earlies(RunWrite(s, p))
  {
    hide Locks, Empty, Full, Pipe.Store, WaitingReaders, Earlies;
    EarlyWork(s, RunWrite(s, p), p);
  }

  lemma EarlyRead(s: State, p: nat)
    requires p < |s.procs| && s.procs[p].pc.Run? && s.procs[p].task.Read? && |s.ring.data| == PIPESIZE && Locks(s)
    requires Earlies(s)
    ensures Earlies(RunRead(s, p))
  {
    hide Locks, Empty, Full, Pipe.Drop, Head, Earlies;
    EarlyAt(s, p);
    EarlyWork(s, RunRead(s, p), p);
  }

  lemma EarlyClose(s: State, p: nat)
    requires p < |s.procs| && s.procs[p].pc.Run? && s.procs[p].task.Close? && Locks(s) && Earlies(s)
    ensures Earlies(RunClose(s, p))
  {
    hide Locks, Empty, Full, Earlies;
    EarlyWork(s, RunClose(s, p), p);
  }

  lemma EarlyLeaves(s: State, q: Proc)
    requires EarlyOk(s.ring, s.readopen, s.writeopen, q)
    ensures q.pc.WakeAcquire? ==> EarlyOk(s.ring, s.readopen, s.writeopen, q.(pc := WakeScan(q.pc.k)))
    ensures q.pc.WakeRelease? ==>
              EarlyOk(s.ring, s.readopen, s.writeopen,
                      q.(pc := if q.pc.k == ToSleep then SleepAcquire else Release(Result(q.task))))
    ensures EarlyOk(s.ring, s.readopen, s.writeopen, q.(pc := Idle))
  {
    hide Empty, Full;
  }

  lemma EarlyWake(s: State, p: nat)
    requires p < |s.procs| && (s.procs[p].pc.WakeAcquire? || s.procs[p].pc.WakeRelease? || s.procs[p].pc.Release?)
    requires |s.ring.data| == PIPESIZE && Earlies(s)
    ensures Earlies(StepProc(s, p))
  {
    hide Empty, Full, RunWrite, RunRead, RunClose, Earlies, WakeAll, EarlyOk;
    EarlyAt(s, p);
    EarlyLeaves(s, s.procs[p]);
    EarlyMove(s, StepProc(s, p), p);
  }

  lemma EarlyScan(s: State, p: nat)
    requires p < |s.procs| && s.procs[p].pc.WakeScan? && |s.ring.data| == PIPESIZE && Earlies(s)
    ensures Earlies(StepProc(s, p))
  {
    hide Empty, Full, RunWrite, RunRead, RunClose, Earlies, Wakes;
    EarlyAt(s, p);
    EarlyMove(s, StepProc(s, p), p);
  }

  /** A call that is not leaving and has not got the lock. */
  lemma EarlyPc(s: State, q: Proc, pc: Pc)
    requires EarlyOk(s.ring, s.readopen, s.writeopen, q) && !q.pc.Idle? && !q.pc.Run? && !Leaving(q.pc) && !Leaving(pc)
    ensures EarlyOk(s.ring, s.readopen, s.writeopen, q.(pc := pc))
  {
    hide Empty, Full;
  }

  lemma EarlySleep(s: State, p: nat)
    requires p < |s.procs| && (s.procs[p].pc.SleepAcquire? || s.procs[p].pc.SleepRelease? || s.procs[p].pc.SleepMark?)
    requires |s.ring.data| == PIPESIZE && Earlies(s)
    ensures Earlies(StepProc(s, p))
  {
    hide Empty, Full, RunWrite, RunRead, RunClose, Earlies, WakeAll, EarlyOk;
    EarlyAt(s, p);
    EarlyPc(s, s.procs[p], StepProc(s, p).procs[p].pc);
    EarlyMove(s, StepProc(s, p), p);
  }

  lemma EarlyResume(s: State, p: nat)
    requires p < |s.procs| && (s.procs[p].pc.Acquire? || s.procs[p].pc.Runnable? || s.procs[p].pc.Resumed?)
    requires |s.ring.data| == PIPESIZE && Earlies(s)
    ensures Earlies(StepProc(s, p))
  {
    hide Empty, Full, RunWrite, RunRead, RunClose, Earlies, WakeAll, EarlyOk;
    EarlyAt(s, p);
    EarlyPc(s, s.procs[p], StepProc(s, p).procs[p].pc);
    EarlyMove(s, StepProc(s, p), p);
  }

  lemma EarlyStep(s: State, a: Action)
    requires Enabled(s, a) && |s.ring.data| == PIPESIZE && Locks(s) && Earlies(s)
    ensures Earlies(Do(s, a))
  {
    hide Locks, Empty, Full, RunWrite, RunRead, RunClose, Earlies, WakeAll;
    match a {
      case Start(p, t) => EarlyMove(s, StartTask(s, p, t), p);
      case Kill(p) =>
        EarlyAt(s, p);
        EarlyMove(s, KillProc(s, p), p);
      case Step(p) =>
        var pc := s.procs[p].pc;
        if pc.WakeScan? {
          EarlyScan(s, p);
        } else if Leaving(pc) {
          EarlyWake(s, p);
        } else if pc.Acquire? || pc.Runnable? || pc.Resumed? {
          EarlyResume(s, p);
        } else if !pc.Run? {
          EarlySleep(s, p);
        } else if s.procs[p].task.Write? {
          EarlyWrite(s, p);
        } else if s.procs[p].task.Read? {
          EarlyRead(s, p);
        } else {
          EarlyClose(s, p);
        }
    }
  }

  lemma EarlyAt(s: State, p: nat)
    requires Earlies(s) && p < |s.procs|
    ensures EarlyOk(s.ring, s.readopen, s.writeopen, s.procs[p])
  {
    hide EarlyOk;
  }

  lemma {:induction false} RunEarlies(s: State, run: seq<Action>)
    requires Inv(s) && Earlies(s) && Legal(s, run)
    ensures Earlies(Exec(s, run))
    decreases |run|
  {
    hide RingInv, Locks, Ends, Waits, Do, Enabled, Earlies;
    if run != [] {
      StepKeeps(s, run[0]);
      EarlyStep(s, run[0]);
      RunEarlies(Do(s, run[0]), run[1..]);
    }
  }

  /** In every run, a read about to return fewer bytes than it asked for faces an empty pipe, one about to return 0 the
      end of the file, and one about to return -1 was killed while it waited; a write about to give up faces a full
      pipe that nobody reads, or was killed. */
  lemma ShortOnlyIf(s: State, run: seq<Action>, p: nat)
    requires Init(s) && Legal(s, run) && p < |Exec(s, run).procs| && Exec(s, run).procs[p].pc.Release?
    ensures var r := Exec(s, run); var q := r.procs[p];
            && (q.task.Read? && q.pc.ret < q.task.n ==> |r.taken| == |r.written|)
            && (q.task.Read? && 0 == q.pc.ret < q.task.n ==> !r.writeopen)
            && (q.task.Read? && q.pc.ret == -1 ==> q.killed && r.writeopen)
            && (q.task.Write? && q.pc.ret == -1 ==> |r.written| == |r.taken| + PIPESIZE && (q.killed || !r.readopen))
  {
    hide Do, Enabled, Legal, Exec, Empty, Full, RingInv, Locks, Ends, Waits;
    var r := Exec(s, run);
    InitInv(s);
    assert Earlies(s) by { InitEarlies(s); }
    RunInv(s, run);
    RunEarlies(s, run);
    InitCalls(s);
    RunCalls(s, run);
    CallFacts(r, p);
    EarlyAt(r, p);
    Tests(r.ring, r.taken, r.written);
  }

  lemma InitEarlies(s: State)
    requires Init(s)
    ensures Earlies(s)
  {
  }
}

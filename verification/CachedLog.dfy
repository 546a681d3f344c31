/** The buffer cache and the log together: processes get, lock, read, change, log and release buffers in any
    interleaving, the cache recycles idle buffers, the last operation out commits through the cache, and a crash
    may come between any two steps. */
module CachedLog {
  import opened Common
  import opened Blocks
  import opened RedoLog
  import opened Bcache
  import G = GroupCommit

  /** The process that is inside `commit` or `recover_from_log`. */
  const WRITER: nat := 0

  /** `touched` are the buffers changed and neither logged nor written yet. */
  datatype State = State(g: G.State, bufs: seq<Buf>, users: seq<set<nat>>, touched: set<nat>)

  /** Every atomic section of bio.c and log.c. */
  datatype Action =
    | Get(p: nat, b: nat, i: nat)
    | Lock(p: nat, i: nat)
    | Read(p: nat, i: nat)
    | Store(p: nat, i: nat, x: Block)
    | LogWrite(p: nat, i: nat, op: nat)
    | Release(p: nat, i: nat)
    | Drop(p: nat, i: nat)
    | Begin
    | Check(op: nat)
    | End(op: nat)
    | Move(to: nat, from: nat)
    | Write(i: nat)
    | Finish
    | Crash

  const EMPTY: Buf := Buf(false, false, 0, 0, 0, None, ZeroBlock())

  function Start(d: Disk): State {
    State(G.Start(d), seq(NBUF, _ => EMPTY), seq(NBUF, _ => {}), {})
  }

  ghost predicate Held(s: State, p: nat, i: nat) {
    i < |s.bufs| && i < |s.users| && s.bufs[i].holder == Some(p) && s.bufs[i].valid
  }

  ghost predicate Writing(g: G.State) {
    g.phase.Committing? || g.phase.Recovering?
  }

  /** The blocks that the committer copies next: a cached block to its log slot, the header, a log slot to its
      home, the cleared header. */
  ghost predicate Aimed(L: Layout, g: G.State, to: Buf, from: Buf) {
    match g.phase
    case Committing(base, k) =>
      var n := |g.lh|;
      && ValidLog(L, |base|, g.lh) && 0 < n && k < 2 * n + 2
      && (k < n ==> to.blockno == L.start + 1 + k && from.blockno == g.lh[k])
      && (k == n || k == 2 * n + 1 ==> to.blockno == L.start)
      && (n < k <= 2 * n ==> to.blockno == g.lh[k - n - 1] && from.blockno == L.start + 1 + (k - n - 1))
    case Recovering(base, k) =>
      var lh := HeadBlocks(At(base, L.start));
      && k <= |lh|
      && (k < |lh| ==> to.blockno == lh[k] && from.blockno == L.start + 1 + k)
      && (k == |lh| ==> to.blockno == L.start)
    case _ => false
  }

  /** What the copy leaves in the buffer `to`. */
  ghost function Copied(L: Layout, g: G.State, to: Buf, from: Buf): Block
    requires Aimed(L, g, to, from)
  {
    match g.phase
    case Committing(base, k) =>
      if k == |g.lh| then WithHead(to.data, g.lh)
      else if k == 2 * |g.lh| + 1 then ClearHead(to.data)
      else from.data
    case Recovering(base, k) => if k == |HeadBlocks(At(base, L.start))| then ClearHead(to.data) else from.data
    case _ => from.data
  }

  /** The steps open to state s. A process changes a buffer only inside an operation, logs the buffer before it
      lets go of it, and an operation has logged all its changes when it ends. */
  ghost predicate Enabled(L: Layout, budget: nat, s: State, a: Action) {
    match a
    case Get(p, b, i) =>
      && !s.g.phase.Panicked? && i < |s.bufs| == |s.users| && b < |s.g.disk|
      && (forall j | 0 <= j < |s.bufs| && Cached(s.bufs[j], b) :: p !in s.users[j])
      && (Cached(s.bufs[i], b) || (!Busy(s.bufs[i]) && forall j | 0 <= j < |s.bufs| :: !Cached(s.bufs[j], b)))
    case Lock(p, i) =>
      !s.g.phase.Panicked? && i < |s.bufs| == |s.users| && p in s.users[i] && s.bufs[i].holder.None?
    case Read(p, i) =>
      && !s.g.phase.Panicked? && i < |s.bufs| == |s.users|
      && s.bufs[i].holder == Some(p) && !s.bufs[i].valid && s.bufs[i].blockno < |s.g.disk|
    case Store(p, i, x) => s.g.phase.Running? && Held(s, p, i) && s.g.ops != [] && p != WRITER
    case LogWrite(p, i, op) =>
      && Held(s, p, i) && p != WRITER
      && G.Enabled(L, budget, s.g, G.Append(op, s.bufs[i].blockno, s.bufs[i].data))
    case Release(p, i) =>
      !s.g.phase.Panicked? && i < |s.bufs| && s.bufs[i].holder == Some(p) && i !in s.touched
    case Drop(p, i) =>
      !s.g.phase.Panicked? && i < |s.bufs| == |s.users| && p in s.users[i] && s.bufs[i].holder != Some(p)
        && s.bufs[i].refcnt > 0
    case Begin => G.Enabled(L, budget, s.g, G.Begin)
    case Check(op) => G.Enabled(L, budget, s.g, G.Check(op))
    case End(op) => G.Enabled(L, budget, s.g, G.End(op)) && (|s.g.ops| == 1 ==> s.touched == {})
    case Move(to, from) =>
      && Writing(s.g) && s.touched == {} && Held(s, WRITER, to) && Held(s, WRITER, from)
      && Aimed(L, s.g, s.bufs[to], s.bufs[from])
    case Write(i) => Writing(s.g) && Held(s, WRITER, i) && i in s.touched && s.bufs[i].blockno < |s.g.disk|
    case Finish => Writing(s.g) && s.touched == {} && G.Enabled(L, budget, s.g, LastStep(s.g))
    case Crash => true
  }

  ghost function LastStep(g: G.State): G.Action {
    if g.phase.Committing? then G.CommitDone else G.RecoverDone
  }

  ghost function WriteStep(g: G.State): G.Action {
    if g.phase.Committing? then G.CommitWrite else G.RecoverWrite
  }

  /** Buffer i replaced, with its new users. */
  ghost function Set(s: State, i: nat, u: Buf, us: set<nat>): State
    requires i < |s.bufs| && i < |s.users|
  {
    s.(bufs := s.bufs[i := u], users := s.users[i := us])
  }

  function Gotten(u: Buf, b: nat): Buf {
    if Cached(u, b) then u.(refcnt := u.refcnt + 1) else Buf(false, false, ROOTDEV, b, 1, u.holder, u.data)
  }

  /** `bwrite` of buffer i: the disk gets the buffer's data, whatever it is. */
  ghost function AfterWrite(g: G.State, u: Buf): G.State
    requires Writing(g) && u.blockno < |g.disk|
  {
    var next := if g.phase.Committing? then G.Committing(g.phase.base, g.phase.k + 1)
                else G.Recovering(g.phase.base, g.phase.k + 1);
    g.(disk := g.disk[u.blockno := u.data], phase := next)
  }

  ghost function Do(L: Layout, budget: nat, s: State, a: Action): State
    requires Enabled(L, budget, s, a)
  {
    match a
    case Get(p, b, i) =>
      Set(s, i, Gotten(s.bufs[i], b), if Cached(s.bufs[i], b) then s.users[i] + {p} else {p})
    case Lock(p, i) => Set(s, i, s.bufs[i].(holder := Some(p)), s.users[i])
    case Read(p, i) => Set(s, i, s.bufs[i].(valid := true, data := s.g.disk[s.bufs[i].blockno]), s.users[i])
    case Store(p, i, x) => s.(bufs := s.bufs[i := s.bufs[i].(data := x)], touched := s.touched + {i})
    case LogWrite(p, i, op) =>
      s.(g := G.Do(L, budget, s.g, G.Append(op, s.bufs[i].blockno, s.bufs[i].data)),
         bufs := s.bufs[i := s.bufs[i].(dirty := true)], touched := s.touched - {i})
    case Release(p, i) => s.(bufs := s.bufs[i := s.bufs[i].(holder := None)])
    case Drop(p, i) => Set(s, i, s.bufs[i].(refcnt := s.bufs[i].refcnt - 1), s.users[i] - {p})
    case Begin => s.(g := G.Do(L, budget, s.g, G.Begin))
    case Check(op) => s.(g := G.Do(L, budget, s.g, G.Check(op)))
    case End(op) => s.(g := G.Do(L, budget, s.g, G.End(op)))
    case Move(to, from) =>
      s.(bufs := s.bufs[to := s.bufs[to].(data := Copied(L, s.g, s.bufs[to], s.bufs[from]))], touched := {to})
    case Write(i) =>
      s.(g := AfterWrite(s.g, s.bufs[i]), bufs := s.bufs[i := s.bufs[i].(dirty := false)], touched := s.touched - {i})
    case Finish => s.(g := G.Do(L, budget, s.g, LastStep(s.g)))
    case Crash => Start(s.g.disk).(g := G.Do(L, budget, s.g, G.Crash))
  }

  // ---------- the invariant ----------

  /** How many logged blocks the commit has already written home. */
  ghost function Installed(g: G.State): (m: nat)
    ensures m <= |g.lh|
  {
    if g.phase.Committing? && g.phase.k > |g.lh| then
      if g.phase.k - |g.lh| - 1 < |g.lh| then g.phase.k - |g.lh| - 1 else |g.lh|
    else 0
  }

  /** The blocks that are logged and not yet installed. */
  ghost function Pending(g: G.State): seq<nat> {
    g.lh[Installed(g)..]
  }

  /** One buffer: a clean one shows the disk, a dirty one is logged and not installed and shows what was logged. */
  ghost predicate Coherent(g: G.State, u: Buf, us: set<nat>, hot: bool) {
    && BufOk(u, us, g.disk)
    && (hot ==> u.valid && u.holder.Some?)
    && (u.valid && !u.dirty && !hot ==> u.blockno < |g.disk| && u.data == g.disk[u.blockno])
    && (u.dirty ==> u.blockno in Pending(g))
    && (u.dirty && !hot ==> u.blockno < |g.view| && u.data == g.view[u.blockno])
  }

  ghost predicate Pinned(bufs: seq<Buf>, b: nat) {
    exists i | 0 <= i < |bufs| :: bufs[i].dirty && Cached(bufs[i], b)
  }

  /** The writes of the running commit or recovery. */
  ghost function Program(L: Layout, g: G.State): seq<DiskWrite> {
    match g.phase
    case Committing(base, _) => if ValidLog(L, |base|, g.lh) then CommitWrites(L, base, g.view, g.lh) else []
    case Recovering(base, _) => RecoveryWrites(L, base)
    case _ => []
  }

  /** Buffer u holds what the next write of the running commit or recovery must put on the disk. */
  ghost predicate Staged(L: Layout, g: G.State, u: Buf) {
    && Writing(g) && g.phase.k < |Program(L, g)|
    && Program(L, g)[g.phase.k] == DiskWrite(u.blockno, u.data)
  }

  ghost predicate TouchedOk(L: Layout, g: G.State, bufs: seq<Buf>, touched: set<nat>) {
    && (forall i | i in touched :: i < |bufs|)
    && (Writing(g) ==> forall i | i in touched :: touched == {i} && Staged(L, g, bufs[i]))
  }

  ghost predicate AllCoherent(s: State) {
    && |s.bufs| == |s.users| == NBUF
    && Unique(s.bufs)
    && forall i | 0 <= i < NBUF :: Coherent(s.g, s.bufs[i], s.users[i], i in s.touched)
  }

  ghost predicate AllPinned(g: G.State, bufs: seq<Buf>) {
    forall b | b in Pending(g) :: Pinned(bufs, b)
  }

  ghost predicate CacheInv(L: Layout, s: State) {
    AllCoherent(s) && AllPinned(s.g, s.bufs) && TouchedOk(L, s.g, s.bufs, s.touched)
  }

  // ---------- steps of the cache ----------

  lemma At1(s: State, i: nat)
    requires AllCoherent(s) && i < NBUF
    ensures Coherent(s.g, s.bufs[i], s.users[i], i in s.touched)
  {
    hide Coherent, Unique;
  }

  /** Replacing a buffer by a coherent one of the same block. */
  lemma SetCoherent(s: State, i: nat, u: Buf, us: set<nat>, touched: set<nat>)
    requires AllCoherent(s) && i < NBUF && u.dev == s.bufs[i].dev && u.blockno == s.bufs[i].blockno
    requires Coherent(s.g, u, us, i in touched)
    requires forall j | 0 <= j < NBUF && j != i :: j in touched <==> j in s.touched
    ensures AllCoherent(Set(s, i, u, us).(touched := touched))
  {
    hide Coherent;
  }

  lemma SetPinned(g: G.State, bufs: seq<Buf>, i: nat, u: Buf)
    requires AllPinned(g, bufs) && i < |bufs|
    requires bufs[i].dirty ==> u.dirty && u.dev == bufs[i].dev && u.blockno == bufs[i].blockno
    ensures AllPinned(g, bufs[i := u])
  {
    hide Pending;
    forall b | b in Pending(g)
      ensures Pinned(bufs[i := u], b)
    {
      var j :| 0 <= j < |bufs| && bufs[j].dirty && Cached(bufs[j], b);
      assert bufs[i := u][j].dirty && Cached(bufs[i := u][j], b);
    }
  }

  lemma SetTouched(L: Layout, g: G.State, bufs: seq<Buf>, touched: set<nat>, i: nat, u: Buf)
    requires TouchedOk(L, g, bufs, touched) && i < |bufs|
    requires i in touched ==> u.blockno == bufs[i].blockno && u.data == bufs[i].data
    ensures TouchedOk(L, g, bufs[i := u], touched)
  {
    hide Program, Writing;
  }

  /** A change of one buffer that keeps its block, its dirty mark and, if it is touched, its data. */
  lemma SetKeeps(L: Layout, s: State, i: nat, u: Buf, us: set<nat>)
    requires CacheInv(L, s) && i < NBUF && u.dev == s.bufs[i].dev && u.blockno == s.bufs[i].blockno
    requires Coherent(s.g, u, us, i in s.touched) && u.dirty == s.bufs[i].dirty
    requires i in s.touched ==> u.data == s.bufs[i].data
    ensures CacheInv(L, Set(s, i, u, us))
  {
    hide Coherent, AllCoherent, AllPinned, TouchedOk;
    SizesOf(L, s);
    SetCoherent(s, i, u, us, s.touched);
    SetPinned(s.g, s.bufs, i, u);
    SetTouched(L, s.g, s.bufs, s.touched, i, u);
  }

  /** An idle clean buffer turned over to another block: no logged block loses its buffer. */
  lemma RecycleKeeps(L: Layout, s: State, p: nat, b: nat, i: nat)
    requires CacheInv(L, s) && i < NBUF && b < |s.g.disk| && !Busy(s.bufs[i])
    requires forall j | 0 <= j < NBUF :: !Cached(s.bufs[j], b)
    ensures CacheInv(L, Set(s, i, Gotten(s.bufs[i], b), {p}))
  {
    hide AllCoherent, AllPinned, TouchedOk, Coherent;
    SizesOf(L, s);
    At1(s, i);
    RecycledBuf(s.g, s.bufs[i], s.users[i], i in s.touched, b, p);
    RecycleCoherent(s, p, b, i);
    SetPinned(s.g, s.bufs, i, Gotten(s.bufs[i], b));
    SetTouched(L, s.g, s.bufs, s.touched, i, Gotten(s.bufs[i], b));
  }

  lemma RecycledBuf(g: G.State, u: Buf, us: set<nat>, hot: bool, b: nat, p: nat)
    requires Coherent(g, u, us, hot) && !Busy(u) && !Cached(u, b) && b < |g.disk|
    ensures !hot && Coherent(g, Gotten(u, b), {p}, hot)
  {
    hide Pending;
    assert us == {};
  }

  lemma RecycleCoherent(s: State, p: nat, b: nat, i: nat)
    requires AllCoherent(s) && i < NBUF && Coherent(s.g, Gotten(s.bufs[i], b), {p}, i in s.touched)
    requires forall j | 0 <= j < NBUF :: !Cached(s.bufs[j], b)
    ensures AllCoherent(Set(s, i, Gotten(s.bufs[i], b), {p}))
  {
    hide Coherent;
    var t := Set(s, i, Gotten(s.bufs[i], b), {p});
    assert Unique(t.bufs);
  }

  lemma GetKeeps(L: Layout, budget: nat, s: State, p: nat, b: nat, i: nat)
    requires CacheInv(L, s) && Enabled(L, budget, s, Get(p, b, i))
    ensures CacheInv(L, Do(L, budget, s, Get(p, b, i)))
  {
    hide AllCoherent, AllPinned, TouchedOk, Coherent;
    SizesOf(L, s);
    if Cached(s.bufs[i], b) {
      At1(s, i);
      OneMore(s.g, s.bufs[i], s.users[i], i in s.touched, p, b);
      SetKeeps(L, s, i, Gotten(s.bufs[i], b), s.users[i] + {p});
    } else {
      RecycleKeeps(L, s, p, b, i);
    }
  }

  lemma SizesOf(L: Layout, s: State)
    requires CacheInv(L, s)
    ensures |s.bufs| == |s.users| == NBUF
  {
    hide Coherent, AllPinned, TouchedOk;
  }

  lemma OneMore(g: G.State, u: Buf, us: set<nat>, hot: bool, p: nat, b: nat)
    requires Coherent(g, u, us, hot) && Cached(u, b) && p !in us
    ensures Coherent(g, Gotten(u, b), us + {p}, hot)
  {
    hide Pending;
  }

  lemma LockKeeps(L: Layout, budget: nat, s: State, p: nat, i: nat)
    requires CacheInv(L, s) && Enabled(L, budget, s, Lock(p, i))
    ensures CacheInv(L, Do(L, budget, s, Lock(p, i)))
  {
    hide AllCoherent, AllPinned, TouchedOk, Pending;
    SizesOf(L, s);
    At1(s, i);
    SetKeeps(L, s, i, s.bufs[i].(holder := Some(p)), s.users[i]);
  }

  lemma ReadKeeps(L: Layout, budget: nat, s: State, p: nat, i: nat)
    requires CacheInv(L, s) && Enabled(L, budget, s, Read(p, i))
    ensures CacheInv(L, Do(L, budget, s, Read(p, i)))
  {
    hide AllCoherent, AllPinned, TouchedOk, Pending;
    SizesOf(L, s);
    At1(s, i);
    SetKeeps(L, s, i, s.bufs[i].(valid := true, data := s.g.disk[s.bufs[i].blockno]), s.users[i]);
  }

  lemma ReleaseKeeps(L: Layout, budget: nat, s: State, p: nat, i: nat)
    requires CacheInv(L, s) && Enabled(L, budget, s, Release(p, i))
    ensures CacheInv(L, Do(L, budget, s, Release(p, i)))
  {
    hide AllCoherent, AllPinned, TouchedOk, Pending;
    SizesOf(L, s);
    At1(s, i);
    SetKeeps(L, s, i, s.bufs[i].(holder := None), s.users[i]);
    assert s.users[i := s.users[i]] == s.users;
  }

  lemma DropKeeps(L: Layout, budget: nat, s: State, p: nat, i: nat)
    requires CacheInv(L, s) && Enabled(L, budget, s, Drop(p, i))
    ensures CacheInv(L, Do(L, budget, s, Drop(p, i)))
  {
    hide AllCoherent, AllPinned, TouchedOk, Pending;
    SizesOf(L, s);
    At1(s, i);
    SetKeeps(L, s, i, s.bufs[i].(refcnt := s.bufs[i].refcnt - 1), s.users[i] - {p});
  }

  lemma StoreKeeps(L: Layout, budget: nat, s: State, p: nat, i: nat, x: Block)
    requires CacheInv(L, s) && Enabled(L, budget, s, Store(p, i, x))
    ensures CacheInv(L, Do(L, budget, s, Store(p, i, x)))
  {
    hide AllCoherent, AllPinned, Pending, Staged;
    SizesOf(L, s);
    At1(s, i);
    var u := s.bufs[i].(data := x);
    SetCoherent(s, i, u, s.users[i], s.touched + {i});
    assert s.users[i := s.users[i]] == s.users;
    SetPinned(s.g, s.bufs, i, u);
  }

  // ---------- steps of the log ----------

  /** Steps that change neither disk nor view nor what is pending. */
  lemma SameLog(L: Layout, s: State, g: G.State)
    requires CacheInv(L, s) && g.disk == s.g.disk && Pending(g) == Pending(s.g)
    requires g.view == s.g.view || Pending(s.g) == []
    requires Writing(g) ==> s.touched == {}
    ensures CacheInv(L, s.(g := g))
  {
    hide Pending, Staged, Writing;
    var t := s.(g := g);
    forall i | 0 <= i < NBUF
      ensures Coherent(t.g, t.bufs[i], t.users[i], i in t.touched)
    {
      At1(s, i);
    }
  }

  lemma BeginKeeps(L: Layout, budget: nat, s: State)
    requires CacheInv(L, s) && Enabled(L, budget, s, Begin)
    ensures CacheInv(L, Do(L, budget, s, Begin))
  {
    hide CacheInv;
    SameLog(L, s, G.Do(L, budget, s.g, G.Begin));
  }

  lemma CheckKeeps(L: Layout, budget: nat, s: State, op: nat)
    requires CacheInv(L, s) && Enabled(L, budget, s, Check(op))
    ensures CacheInv(L, Do(L, budget, s, Check(op)))
  {
    hide CacheInv;
    SameLog(L, s, G.Do(L, budget, s.g, G.Check(op)));
  }

  lemma EndKeeps(L: Layout, budget: nat, s: State, op: nat)
    requires CacheInv(L, s) && G.GroupInv(L, s.g) && Enabled(L, budget, s, End(op))
    ensures CacheInv(L, Do(L, budget, s, End(op)))
  {
    hide CacheInv;
    SameLog(L, s, G.Do(L, budget, s.g, G.End(op)));
  }

  /** `log_write`: the buffer becomes dirty, its block pending, and the view gets its data. */
  lemma LogWriteKeeps(L: Layout, budget: nat, s: State, p: nat, i: nat, op: nat)
    requires CacheInv(L, s) && G.GroupInv(L, s.g) && Enabled(L, budget, s, LogWrite(p, i, op))
    ensures CacheInv(L, Do(L, budget, s, LogWrite(p, i, op)))
  {
    hide CacheInv, G.GroupInv, G.Enabled, G.Do, Pending;
    SizesOf(L, s);
    var g := G.Do(L, budget, s.g, G.Append(op, s.bufs[i].blockno, s.bufs[i].data));
    LoggedView(L, budget, s.g, op, s.bufs[i].blockno, s.bufs[i].data, g);
    LoggedKeeps(L, s, g, i);
  }

  lemma LoggedKeeps(L: Layout, s: State, g: G.State, i: nat)
    requires CacheInv(L, s) && i < NBUF && s.bufs[i].valid && s.bufs[i].blockno < |s.g.view|
    requires g.view == s.g.view[s.bufs[i].blockno := s.bufs[i].data] && g.disk == s.g.disk && g.phase.Running?
    requires s.bufs[i].blockno in Pending(g) && forall c | c in Pending(s.g) :: c in Pending(g)
    requires forall c | c in Pending(g) :: c == s.bufs[i].blockno || c in Pending(s.g)
    ensures CacheInv(L, State(g, s.bufs[i := s.bufs[i].(dirty := true)], s.users, s.touched - {i}))
  {
    hide AllCoherent, AllPinned, Staged, Pending;
    SizesOf(L, s);
    LoggedCoherent(s, g, i);
    LoggedPinned(s, g, i);
  }

  lemma LoggedView(L: Layout, budget: nat, g: G.State, op: nat, b: nat, x: Block, g': G.State)
    requires G.GroupInv(L, g) && G.Enabled(L, budget, g, G.Append(op, b, x))
    requires g' == G.Do(L, budget, g, G.Append(op, b, x))
    ensures b < |g.view| && g'.view == g.view[b := x] && g'.disk == g.disk && g'.phase.Running?
    ensures b in Pending(g') && forall c | c in Pending(g) :: c in Pending(g')
    ensures forall c | c in Pending(g') :: c == b || c in Pending(g)
  {
    hide ValidLog;
  }

  lemma LoggedCoherent(s: State, g: G.State, i: nat)
    requires AllCoherent(s) && i < NBUF && s.bufs[i].valid && s.bufs[i].blockno < |s.g.view|
    requires g.view == s.g.view[s.bufs[i].blockno := s.bufs[i].data] && g.disk == s.g.disk
    requires s.bufs[i].blockno in Pending(g) && forall c | c in Pending(s.g) :: c in Pending(g)
    ensures AllCoherent(State(g, s.bufs[i := s.bufs[i].(dirty := true)], s.users, s.touched - {i}))
  {
    hide Pending;
    var t := State(g, s.bufs[i := s.bufs[i].(dirty := true)], s.users, s.touched - {i});
    forall j | 0 <= j < NBUF
      ensures Coherent(t.g, t.bufs[j], t.users[j], j in t.touched)
    {
      At1(s, j);
      At1(s, i);
      assert j != i ==> s.bufs[j].dirty ==> s.bufs[j].blockno != s.bufs[i].blockno;
    }
  }

  lemma LoggedPinned(s: State, g: G.State, i: nat)
    requires AllCoherent(s) && AllPinned(s.g, s.bufs) && i < NBUF && s.bufs[i].valid
    requires forall c | c in Pending(g) :: c == s.bufs[i].blockno || c in Pending(s.g)
    ensures AllPinned(g, s.bufs[i := s.bufs[i].(dirty := true)])
  {
    hide Pending;
    var u := s.bufs[i].(dirty := true);
    SetPinned(s.g, s.bufs, i, u);
    At1(s, i);
    forall b | b in Pending(g)
      ensures Pinned(s.bufs[i := u], b)
    {
      if b == u.blockno {
        assert s.bufs[i := u][i].dirty && Cached(s.bufs[i := u][i], b);
      }
    }
  }

  // ---------- the disk in the middle of a commit ----------

  /** The writes of a commit, one by one. */
  lemma Entries(L: Layout, v: Disk, lh: seq<nat>, h: Block)
    ensures var ws, n := CommitProgram(L, v, lh, h), |lh|;
            && (forall t | 0 <= t < n :: ws[t] == DiskWrite(L.start + 1 + t, At(v, lh[t])))
            && ws[n] == DiskWrite(L.start, h)
            && (forall t | n + 1 <= t < 2 * n + 1 :: ws[t] == DiskWrite(lh[t - n - 1], At(v, lh[t - n - 1])))
            && ws[2 * n + 1] == DiskWrite(L.start, ClearHead(h))
  {
    hide At, ClearHead, LogWrites, InstallWrites;
  }

  /** The header block after k writes. */
  lemma HeaderAt(L: Layout, d: Disk, v: Disk, lh: seq<nat>, h: Block, k: nat)
    requires ValidLog(L, |d|, lh) && k < 2 * |lh| + 2
    ensures Apply(d, CommitProgram(L, v, lh, h)[..k])[L.start] == if k <= |lh| then d[L.start] else h
  {
    hide Apply, At, CommitProgram, ClearHead;
    var ws, n := CommitProgram(L, v, lh, h)[..k], |lh|;
    Entries(L, v, lh, h);
    if k <= n {
      ApplyMiss(d, ws, L.start);
    } else {
      assert forall t | n < t < k :: ws[t].blockno == lh[t - n - 1] && Home(L, |d|, lh[t - n - 1]);
      ApplyHit(d, ws, n);
    }
  }

  /** Log slot t after it has been written. */
  lemma SlotAt(L: Layout, d: Disk, v: Disk, lh: seq<nat>, h: Block, k: nat, t: nat)
    requires ValidLog(L, |d|, lh) && k <= 2 * |lh| + 2 && t < |lh| && t < k
    ensures Apply(d, CommitProgram(L, v, lh, h)[..k])[L.start + 1 + t] == At(v, lh[t])
  {
    hide Apply, At, CommitProgram, ClearHead;
    var ws, n := CommitProgram(L, v, lh, h)[..k], |lh|;
    Entries(L, v, lh, h);
    assert forall m | n < m < k && m < 2 * n + 1 :: ws[m].blockno == lh[m - n - 1] && Home(L, |d|, lh[m - n - 1]);
    ApplyHit(d, ws, t);
  }

  /** A home block that is not logged, or not yet installed. */
  lemma HomeKept(L: Layout, d: Disk, v: Disk, lh: seq<nat>, h: Block, k: nat, b: nat)
    requires ValidLog(L, |d|, lh) && k <= 2 * |lh| + 2 && Home(L, |d|, b) && (b !in lh || k <= |lh| + 1)
    ensures Apply(d, CommitProgram(L, v, lh, h)[..k])[b] == d[b]
  {
    hide Apply, At, CommitProgram, ClearHead;
    var ws, n := CommitProgram(L, v, lh, h)[..k], |lh|;
    Entries(L, v, lh, h);
    assert forall m | n < m < k && m < 2 * n + 1 :: ws[m].blockno == lh[m - n - 1];
    ApplyMiss(d, ws, b);
  }

  /** A home block after it has been installed. */
  lemma HomeInstalled(L: Layout, d: Disk, v: Disk, lh: seq<nat>, h: Block, k: nat, t: nat)
    requires ValidLog(L, |d|, lh) && k <= 2 * |lh| + 2 && t < |lh| && t < k - |lh| - 1
    ensures Apply(d, CommitProgram(L, v, lh, h)[..k])[lh[t]] == At(v, lh[t])
  {
    hide Apply, At, CommitProgram, ClearHead;
    var ws, n := CommitProgram(L, v, lh, h)[..k], |lh|;
    Entries(L, v, lh, h);
    assert forall m | n + 1 + t < m < k && m < 2 * n + 1 :: ws[m].blockno == lh[m - n - 1] != lh[t];
    ApplyHit(d, ws, n + 1 + t);
  }

  lemma NoWrites(d: Disk)
    ensures Apply(d, []) == d
  {
  }

  lemma InTail(lh: seq<nat>, m: nat, t: nat)
    requires m <= t < |lh|
    ensures lh[t] in lh[m..]
  {
    assert lh[m..][t - m] == lh[t];
  }

  /** A home block with nothing pending is on the disk as the operations see it. */
  lemma RestIsHome(L: Layout, g: G.State, b: nat)
    requires G.Inv(L, g) && !g.phase.Recovering? && Home(L, |g.disk|, b) && b !in Pending(g)
    ensures b < |g.view| && g.disk[b] == g.view[b]
  {
    hide G.RoomInv, Clean, Apply, CommitProgram, WithHead;
    if !g.phase.Committing? {
      assert g.lh[0..] == g.lh;
    } else if g.lh == [] {
      NoWrites(g.phase.base);
    } else {
      RestInCommit(L, g, b);
    }
  }

  lemma RestInCommit(L: Layout, g: G.State, b: nat)
    requires G.DiskInv(L, g) && g.phase.Committing? && g.lh != [] && Home(L, |g.disk|, b) && b !in Pending(g)
    ensures b < |g.view| && g.disk[b] == g.view[b]
  {
    hide Clean, Apply, CommitProgram, WithHead;
    var base, k := g.phase.base, g.phase.k;
    var h := WithHead(base[L.start], g.lh);
    if b in g.lh {
      var t :| 0 <= t < |g.lh| && g.lh[t] == b;
      if t >= Installed(g) {
        InTail(g.lh, Installed(g), t);
      } else {
        HomeInstalled(L, base, g.view, g.lh, h, k, t);
      }
    } else {
      HomeKept(L, base, g.view, g.lh, h, k, b);
    }
  }

  // ---------- steps of the committer ----------

  /** With nothing touched, a valid buffer of a block that is not pending shows the disk. */
  lemma CleanBuf(s: State, i: nat)
    requires AllCoherent(s) && i < NBUF && s.bufs[i].valid && s.touched == {} && s.bufs[i].blockno !in Pending(s.g)
    ensures s.bufs[i].blockno < |s.g.disk| && s.bufs[i].data == s.g.disk[s.bufs[i].blockno]
  {
    hide Pending, Unique;
    At1(s, i);
  }

  /** With nothing touched, a valid buffer of a pending block shows what was logged. */
  lemma PinnedBuf(s: State, i: nat)
    requires AllCoherent(s) && AllPinned(s.g, s.bufs) && i < NBUF && s.bufs[i].valid && s.touched == {}
    requires s.bufs[i].blockno in Pending(s.g)
    ensures s.bufs[i].blockno < |s.g.view| && s.bufs[i].data == s.g.view[s.bufs[i].blockno]
  {
    hide Pending;
    At1(s, i);
    var j :| 0 <= j < |s.bufs| && s.bufs[j].dirty && Cached(s.bufs[j], s.bufs[i].blockno);
    At1(s, j);
    assert i == j;
  }

  lemma LogNotPending(L: Layout, g: G.State, b: nat)
    requires ValidLog(L, |g.disk|, g.lh) && L.InLog(b)
    ensures b !in Pending(g)
  {
    hide Installed;
  }

  /** What the copies of a commit leave in their buffers is what the commit's program writes. */
  lemma CommitMove(L: Layout, s: State, to: nat, from: nat)
    requires G.Inv(L, s.g) && s.g.phase.Committing? && AllCoherent(s) && AllPinned(s.g, s.bufs) && s.touched == {}
    requires |s.bufs| == NBUF && to < NBUF && from < NBUF && s.bufs[to].valid && s.bufs[from].valid
    requires Aimed(L, s.g, s.bufs[to], s.bufs[from])
    ensures Staged(L, s.g, s.bufs[to].(data := Copied(L, s.g, s.bufs[to], s.bufs[from])))
  {
    hide AllCoherent, AllPinned, G.RoomInv, Clean, Apply, CommitProgram, Pending, At, WithHead, ClearHead;
    var g, base, k, n := s.g, s.g.phase.base, s.g.phase.k, |s.g.lh|;
    var h := WithHead(base[L.start], g.lh);
    Entries(L, g.view, g.lh, h);
    CopiedIs(L, s, to, from, h);
  }

  /** The data of the k-th write of a commit whose header block is h. */
  ghost predicate Meant(g: G.State, k: nat, h: Block, x: Block) {
    var n := |g.lh|;
    && (k < n ==> x == At(g.view, g.lh[k]))
    && (k == n ==> x == h)
    && (n < k <= 2 * n ==> x == At(g.view, g.lh[k - n - 1]))
    && (k == 2 * n + 1 ==> x == ClearHead(h))
  }

  lemma CopiedIs(L: Layout, s: State, to: nat, from: nat, h: Block)
    requires |s.bufs| == NBUF && to < NBUF && from < NBUF && s.bufs[to].valid && s.bufs[from].valid && s.touched == {}
    requires s.g.phase.Committing? && Aimed(L, s.g, s.bufs[to], s.bufs[from]) && L.start < |s.g.phase.base|
    requires h == WithHead(s.g.phase.base[L.start], s.g.lh)
    requires AllCoherent(s) && AllPinned(s.g, s.bufs) && G.GroupInv(L, s.g) && G.DiskInv(L, s.g)
    ensures Meant(s.g, s.g.phase.k, h, Copied(L, s.g, s.bufs[to], s.bufs[from]))
  {
    hide AllCoherent, AllPinned, Clean, Apply, CommitProgram, WithHead, ClearHead, G.RestOnDisk;
    var g, base, k, n := s.g, s.g.phase.base, s.g.phase.k, |s.g.lh|;
    if k < n {
      InTail(g.lh, 0, k);
      PinnedBuf(s, from);
    } else if k == n || k == 2 * n + 1 {
      LogNotPending(L, g, L.start);
      CleanBuf(s, to);
      HeaderAt(L, base, g.view, g.lh, h, k);
    } else {
      var t := k - n - 1;
      LogNotPending(L, g, L.start + 1 + t);
      CleanBuf(s, from);
      SlotAt(L, base, g.view, g.lh, h, k, t);
    }
  }

  /** A recovery does not change the log before it clears the header. */
  lemma RecoveryKeepsLog(L: Layout, d: Disk, k: nat, b: nat)
    requires RecoversTo(L, d, Recovered(L, d)) && k <= |HeadBlocks(d[L.start])| && L.InLog(b)
    ensures b < |d| && Apply(d, RecoveryWrites(L, d)[..k])[b] == d[b]
  {
    hide Apply, HeadBlocks, Recovered, ClearHead, SlotsHold;
    var lh := HeadBlocks(d[L.start]);
    assert RecoveryWrites(L, d)[..k] == ReplayWrites(L, d, lh)[..k];
    ReplayPrefix(L, d, lh, k);
  }

  lemma RecoveryMove(L: Layout, s: State, to: nat, from: nat)
    requires G.Inv(L, s.g) && s.g.phase.Recovering? && AllCoherent(s) && s.touched == {}
    requires to < NBUF && from < NBUF && s.bufs[to].valid && s.bufs[from].valid
    requires Aimed(L, s.g, s.bufs[to], s.bufs[from])
    ensures Staged(L, s.g, s.bufs[to].(data := Copied(L, s.g, s.bufs[to], s.bufs[from])))
  {
    hide AllCoherent, G.RoomInv, Clean, Apply, HeadBlocks, Recovered, ClearHead, SlotsHold;
    var base, k := s.g.phase.base, s.g.phase.k;
    var lh := HeadBlocks(base[L.start]);
    assert s.g.lh == [];
    if k < |lh| {
      CleanBuf(s, from);
      RecoveryKeepsLog(L, base, k, L.start + 1 + k);
    } else {
      CleanBuf(s, to);
      RecoveryKeepsLog(L, base, k, L.start);
    }
  }

  lemma MoveKeeps(L: Layout, budget: nat, s: State, to: nat, from: nat)
    requires CacheInv(L, s) && G.Inv(L, s.g) && Enabled(L, budget, s, Move(to, from))
    ensures CacheInv(L, Do(L, budget, s, Move(to, from)))
  {
    hide AllCoherent, AllPinned, G.Inv, Aimed, Copied, Staged, Coherent;
    SizesOf(L, s);
    var u := s.bufs[to].(data := Copied(L, s.g, s.bufs[to], s.bufs[from]));
    if s.g.phase.Committing? {
      CommitMove(L, s, to, from);
    } else {
      RecoveryMove(L, s, to, from);
    }
    At1(s, to);
    HotBuf(s.g, s.bufs[to], s.users[to], false, u.data);
    SetCoherent(s, to, u, s.users[to], {to});
    assert s.users[to := s.users[to]] == s.users;
    SetPinned(s.g, s.bufs, to, u);
  }

  lemma HotBuf(g: G.State, u: Buf, us: set<nat>, hot: bool, x: Block)
    requires Coherent(g, u, us, hot) && u.valid && u.holder.Some?
    ensures Coherent(g, u.(data := x), us, true)
  {
    hide Pending;
  }

  /** A `bwrite` of the staged buffer is the next write of the commit or recovery. */
  lemma WriteRefines(L: Layout, budget: nat, g: G.State, u: Buf)
    requires G.Inv(L, g) && Staged(L, g, u) && u.blockno < |g.disk|
    ensures G.Enabled(L, budget, g, WriteStep(g)) && G.Do(L, budget, g, WriteStep(g)) == AfterWrite(g, u)
  {
    hide G.RoomInv, CommitWrites, RecoveryWrites, Clean, Apply, G.GroupInv, RecoversTo, Recovered, ValidLog;
  }

  lemma WrittenBlock(L: Layout, g: G.State, u: Buf)
    requires g.phase.Committing? && Staged(L, g, u)
    ensures g.phase.k < 2 * |g.lh| + 2 && |g.lh| > 0
    ensures if |g.lh| < g.phase.k <= 2 * |g.lh| then u.blockno == g.lh[g.phase.k - |g.lh| - 1] else L.InLog(u.blockno)
  {
    hide CommitProgram, WithHead;
    ProgramBlock(L, g.view, g.lh, WithHead(g.phase.base[L.start], g.lh), g.phase.k);
  }

  lemma ProgramBlock(L: Layout, v: Disk, lh: seq<nat>, h: Block, k: nat)
    requires |lh| < L.size && k < |CommitProgram(L, v, lh, h)|
    ensures var b := CommitProgram(L, v, lh, h)[k].blockno;
            if |lh| < k <= 2 * |lh| then b == lh[k - |lh| - 1] else L.InLog(b)
  {
    hide CommitProgram, At, ClearHead;
    Entries(L, v, lh, h);
  }

  /** Exactly the block written, if it was pending, is no longer pending. */
  lemma PendingAfter(L: Layout, g: G.State, u: Buf)
    requires G.GroupInv(L, g) && Staged(L, g, u) && u.blockno < |g.disk|
    ensures forall c | c in Pending(AfterWrite(g, u)) :: c in Pending(g) && c != u.blockno
    ensures forall c | c in Pending(g) && c != u.blockno :: c in Pending(AfterWrite(g, u))
  {
    hide Program, Staged;
    assert Writing(g) by {
      StagedWrites(L, g, u);
    }
    if g.phase.Committing? {
      WrittenBlock(L, g, u);
      var k, n := g.phase.k, |g.lh|;
      if n < k <= 2 * n {
        TailShrinks(g.lh, k - n - 1);
      } else {
        LogNotPending(L, g, u.blockno);
      }
    }
  }

  lemma StagedWrites(L: Layout, g: G.State, u: Buf)
    requires Staged(L, g, u)
    ensures Writing(g)
  {
  }

  lemma TailShrinks(lh: seq<nat>, m: nat)
    requires Distinct(lh) && m < |lh|
    ensures forall c | c in lh[m + 1..] :: c in lh[m..] && c != lh[m]
    ensures forall c | c in lh[m..] && c != lh[m] :: c in lh[m + 1..]
  {
    assert lh[m..] == [lh[m]] + lh[m + 1..];
    assert lh[m + 1..] == lh[m..][1..];
  }

  lemma WriteCoherent(s: State, i: nat, g: G.State)
    requires AllCoherent(s) && i < NBUF && s.touched == {i} && s.bufs[i].blockno < |s.g.disk|
    requires g.disk == s.g.disk[s.bufs[i].blockno := s.bufs[i].data] && g.view == s.g.view
    requires forall c | c in Pending(s.g) && c != s.bufs[i].blockno :: c in Pending(g)
    ensures AllCoherent(State(g, s.bufs[i := s.bufs[i].(dirty := false)], s.users, {}))
  {
    hide Pending;
    var t := State(g, s.bufs[i := s.bufs[i].(dirty := false)], s.users, {});
    At1(s, i);
    forall j | 0 <= j < NBUF
      ensures Coherent(t.g, t.bufs[j], t.users[j], j in t.touched)
    {
      At1(s, j);
      assert j != i ==> s.bufs[j].valid ==> s.bufs[j].blockno != s.bufs[i].blockno;
    }
  }

  lemma WritePinned(s: State, i: nat, g: G.State)
    requires AllPinned(s.g, s.bufs) && i < |s.bufs|
    requires forall c | c in Pending(g) :: c in Pending(s.g) && c != s.bufs[i].blockno
    ensures AllPinned(g, s.bufs[i := s.bufs[i].(dirty := false)])
  {
    hide Pending;
    var z := s.bufs[i := s.bufs[i].(dirty := false)];
    forall b | b in Pending(g)
      ensures Pinned(z, b)
    {
      var j :| 0 <= j < |s.bufs| && s.bufs[j].dirty && Cached(s.bufs[j], b);
      assert z[j].dirty && Cached(z[j], b);
    }
  }

  lemma WriteKeeps(L: Layout, budget: nat, s: State, i: nat)
    requires CacheInv(L, s) && G.Inv(L, s.g) && Enabled(L, budget, s, Write(i))
    ensures CacheInv(L, Do(L, budget, s, Write(i)))
  {
    hide AllCoherent, AllPinned, G.GroupInv, G.RoomInv, G.DiskInv, Staged, Pending;
    SizesOf(L, s);
    var g := AfterWrite(s.g, s.bufs[i]);
    PendingAfter(L, s.g, s.bufs[i]);
    WriteCoherent(s, i, g);
    WritePinned(s, i, g);
    assert s.touched - {i} == {};
  }

  lemma FinishPending(L: Layout, budget: nat, g: G.State)
    requires G.Inv(L, g) && Writing(g) && G.Enabled(L, budget, g, LastStep(g))
    ensures Pending(g) == [] == Pending(G.Do(L, budget, g, LastStep(g)))
    ensures G.Do(L, budget, g, LastStep(g)).disk == g.disk && !Writing(G.Do(L, budget, g, LastStep(g)))
  {
    hide G.RoomInv, G.RestOnDisk, Clean, Apply, CommitWrites, RecoveryWrites, RecoversTo, Recovered;
    if g.phase.Committing? {
      G.CommitLength(L, g.phase.base, g.view, g.lh);
    }
  }

  lemma FinishKeeps(L: Layout, budget: nat, s: State)
    requires CacheInv(L, s) && G.Inv(L, s.g) && Enabled(L, budget, s, Finish)
    ensures CacheInv(L, Do(L, budget, s, Finish))
  {
    hide CacheInv, G.Inv, G.Enabled, G.Do, Pending;
    FinishPending(L, budget, s.g);
    SameLog(L, s, G.Do(L, budget, s.g, LastStep(s.g)));
  }

  lemma EmptyCache(L: Layout, s: State, d: Disk)
    requires s == Start(d).(g := s.g) && Pending(s.g) == []
    ensures CacheInv(L, s)
  {
    hide Pending, Staged;
  }

  // ---------- a commit can always go on ----------

  /** The block that the committer copies from next; for the header it is the header block itself. */
  ghost function SourceOf(L: Layout, g: G.State): nat
    requires Writing(g)
  {
    var k := g.phase.k;
    if g.phase.Recovering? then
      if k < |HeadBlocks(At(g.phase.base, L.start))| then L.start + 1 + k else L.start
    else if k < |g.lh| then g.lh[k]
    else if |g.lh| < k <= 2 * |g.lh| then L.start + k - |g.lh|
    else L.start
  }

  lemma AimedAtNext(L: Layout, g: G.State, to: Buf, from: Buf)
    requires G.GroupInv(L, g) && Writing(g) && g.phase.k < |Program(L, g)|
    requires to.blockno == Program(L, g)[g.phase.k].blockno && from.blockno == SourceOf(L, g)
    ensures Aimed(L, g, to, from)
  {
    hide CommitProgram, WithHead, ClearHead, HeadBlocks, At, G.GroupInv;
    if g.phase.Committing? {
      var h := WithHead(g.phase.base[L.start], g.lh);
      Entries(L, g.view, g.lh, h);
    }
  }

  /** Whatever has happened to the cache, once the committer has bread the two blocks of its next copy, it can make the
      copy and write it, which is one more write of its program. */
  lemma CommitProceeds(L: Layout, budget: nat, s: State, to: nat, from: nat)
    requires CacheInv(L, s) && G.Inv(L, s.g) && Writing(s.g) && s.touched == {} && s.g.phase.k < |Program(L, s.g)|
    requires Held(s, WRITER, to) && Held(s, WRITER, from)
    requires s.bufs[to].blockno == Program(L, s.g)[s.g.phase.k].blockno && s.bufs[from].blockno == SourceOf(L, s.g)
    ensures Enabled(L, budget, s, Move(to, from))
    ensures var t := Do(L, budget, s, Move(to, from));
            && Enabled(L, budget, t, Write(to))
            && var u := Do(L, budget, t, Write(to));
               u.touched == {} && Writing(u.g) && u.g.phase.k == s.g.phase.k + 1
  {
    hide AllPinned, TouchedOk, G.GroupInv, G.RoomInv, G.DiskInv, Aimed, Copied, Program, SourceOf, Coherent;
    SizesOf(L, s);
    AimedAtNext(L, s.g, s.bufs[to], s.bufs[from]);
    At1(s, to);
    ValidInside(s.g, s.bufs[to], s.users[to], to in s.touched);
  }

  lemma ValidInside(g: G.State, u: Buf, us: set<nat>, hot: bool)
    requires Coherent(g, u, us, hot) && u.valid
    ensures u.blockno < |g.disk|
  {
    hide Pending;
  }

  // ---------- every run is a run of the log ----------

  /** The step of the log that a step of cache and log makes, if any. */
  ghost function Project(s: State, a: Action): seq<G.Action> {
    match a
    case LogWrite(_, i, op) => if i < |s.bufs| then [G.Append(op, s.bufs[i].blockno, s.bufs[i].data)] else []
    case Begin => [G.Begin]
    case Check(op) => [G.Check(op)]
    case End(op) => [G.End(op)]
    case Write(_) => [WriteStep(s.g)]
    case Finish => [LastStep(s.g)]
    case Crash => [G.Crash]
    case _ => []
  }

  lemma WriteIsStep(L: Layout, budget: nat, s: State, i: nat)
    requires CacheInv(L, s) && G.Inv(L, s.g) && Enabled(L, budget, s, Write(i))
    ensures G.Enabled(L, budget, s.g, WriteStep(s.g))
    ensures G.Do(L, budget, s.g, WriteStep(s.g)) == Do(L, budget, s, Write(i)).g
  {
    hide AllCoherent, AllPinned, G.Inv, Staged, G.Enabled, G.Do;
    WriteRefines(L, budget, s.g, s.bufs[i]);
  }

  lemma StepRefines(L: Layout, budget: nat, s: State, a: Action)
    requires CacheInv(L, s) && G.Inv(L, s.g) && Enabled(L, budget, s, a)
    ensures G.Legal(L, budget, s.g, Project(s, a))
    ensures G.Exec(L, budget, s.g, Project(s, a)) == Do(L, budget, s, a).g
  {
    hide CacheInv, G.Inv, G.Enabled, G.Do, G.Legal, G.Exec, Aimed, Copied;
    match a {
      case LogWrite(_, i, op) => G.ExecOne(L, budget, s.g, G.Append(op, s.bufs[i].blockno, s.bufs[i].data));
      case Begin => G.ExecOne(L, budget, s.g, G.Begin);
      case Check(op) => G.ExecOne(L, budget, s.g, G.Check(op));
      case End(op) => G.ExecOne(L, budget, s.g, G.End(op));
      case Write(i) =>
        WriteIsStep(L, budget, s, i);
        G.ExecOne(L, budget, s.g, WriteStep(s.g));
      case Finish => G.ExecOne(L, budget, s.g, LastStep(s.g));
      case Crash =>
        CrashEnabled(L, budget, s.g);
        G.ExecOne(L, budget, s.g, G.Crash);
      case _ => NoSteps(L, budget, s.g);
    }
  }

  lemma CrashEnabled(L: Layout, budget: nat, g: G.State)
    ensures G.Enabled(L, budget, g, G.Crash)
  {
  }

  lemma NoSteps(L: Layout, budget: nat, g: G.State)
    ensures G.Legal(L, budget, g, []) && G.Exec(L, budget, g, []) == g
  {
  }

  ghost predicate Legal(L: Layout, budget: nat, s: State, acts: seq<Action>)
    decreases |acts|
  {
    acts == [] || (Enabled(L, budget, s, acts[0]) && Legal(L, budget, Do(L, budget, s, acts[0]), acts[1..]))
  }

  ghost function Exec(L: Layout, budget: nat, s: State, acts: seq<Action>): State
    requires Legal(L, budget, s, acts)
    decreases |acts|
  {
    if acts == [] then s else Exec(L, budget, Do(L, budget, s, acts[0]), acts[1..])
  }

  /** The steps of the log in a run of cache and log. */
  ghost function Trace(L: Layout, budget: nat, s: State, acts: seq<Action>): seq<G.Action>
    requires Legal(L, budget, s, acts)
    decreases |acts|
  {
    if acts == [] then [] else Project(s, acts[0]) + Trace(L, budget, Do(L, budget, s, acts[0]), acts[1..])
  }

  /** What holds in every reachable state. */
  ghost predicate Sound(L: Layout, budget: nat, s: State) {
    CacheInv(L, s) && G.Reached(L, budget, s.g)
  }

  lemma ReachedMore(L: Layout, budget: nat, g: G.State, acts: seq<G.Action>)
    requires G.Reached(L, budget, g) && G.Legal(L, budget, g, acts)
    ensures G.Reached(L, budget, G.Exec(L, budget, g, acts))
  {
    hide Clean, G.Legal, G.Exec;
    var d, before :| G.Legal(L, budget, G.Start(d), before) && Clean(L, d) && L.size == LOGSIZE
      && g == G.Exec(L, budget, G.Start(d), before);
    G.ExecConcat(L, budget, G.Start(d), before, acts);
  }

  lemma CrashPending(L: Layout, budget: nat, s: State)
    requires Enabled(L, budget, s, Crash)
    ensures CacheInv(L, Do(L, budget, s, Crash))
  {
    hide CacheInv;
    EmptyCache(L, Do(L, budget, s, Crash), s.g.disk);
  }

  /** Every run of cache and log keeps the invariant and is a run of the log alone. */
  lemma {:induction false} RunRefines(L: Layout, budget: nat, s: State, acts: seq<Action>)
    requires Sound(L, budget, s) && Legal(L, budget, s, acts) && budget <= G.SAFE
    ensures Sound(L, budget, Exec(L, budget, s, acts))
    ensures G.Legal(L, budget, s.g, Trace(L, budget, s, acts))
    ensures G.Exec(L, budget, s.g, Trace(L, budget, s, acts)) == Exec(L, budget, s, acts).g
    decreases |acts|
  {
    hide CacheInv, G.GroupInv, G.RoomInv, G.DiskInv, G.Reached, Enabled, Do, G.Legal, G.Exec, Project;
    if acts == [] {
      NoSteps(L, budget, s.g);
    } else {
      G.ReachedInv(L, budget, s.g);
      match acts[0] {
        case Get(p, b, i) => GetKeeps(L, budget, s, p, b, i);
        case Lock(p, i) => LockKeeps(L, budget, s, p, i);
        case Read(p, i) => ReadKeeps(L, budget, s, p, i);
        case Store(p, i, x) => StoreKeeps(L, budget, s, p, i, x);
        case LogWrite(p, i, op) => LogWriteKeeps(L, budget, s, p, i, op);
        case Release(p, i) => ReleaseKeeps(L, budget, s, p, i);
        case Drop(p, i) => DropKeeps(L, budget, s, p, i);
        case Begin => BeginKeeps(L, budget, s);
        case Check(op) => CheckKeeps(L, budget, s, op);
        case End(op) => EndKeeps(L, budget, s, op);
        case Move(to, from) => MoveKeeps(L, budget, s, to, from);
        case Write(i) => WriteKeeps(L, budget, s, i);
        case Finish => FinishKeeps(L, budget, s);
        case Crash => CrashPending(L, budget, s);
      }
      var t := Do(L, budget, s, acts[0]);
      StepRefines(L, budget, s, acts[0]);
      ReachedMore(L, budget, s.g, Project(s, acts[0]));
      RunRefines(L, budget, t, acts[1..]);
      G.ExecConcat(L, budget, s.g, Project(s, acts[0]), Trace(L, budget, t, acts[1..]));
    }
  }

  // ---------- the block map ----------

  /** Block b is in a buffer that has been changed and not logged yet. */
  ghost predicate Touches(s: State, b: nat) {
    exists i | i in s.touched :: i < |s.bufs| && Cached(s.bufs[i], b)
  }

  /** Whatever is recycled, what the cache and the disk show of a home block is what the operations have logged. */
  lemma CacheShowsView(L: Layout, s: State, b: nat)
    requires CacheInv(L, s) && G.Inv(L, s.g) && !s.g.phase.Recovering? && Home(L, |s.g.disk|, b) && !Touches(s, b)
    ensures b < |s.g.view| && Logical(s.bufs, s.g.disk, b) == s.g.view[b]
  {
    hide G.GroupInv, G.RoomInv, G.DiskInv, Logical, Pending, TouchedOk, Coherent, Home;
    assert b < |s.g.disk| by { HomeInside(L, |s.g.disk|, b); }
    if exists i :: 0 <= i < NBUF && Holds(s.bufs[i], b) {
      var i :| 0 <= i < NBUF && Holds(s.bufs[i], b);
      LogicalHit(s.bufs, s.g.disk, b, i);
      assert i !in s.touched;
      BufShows(L, s, b, i);
    } else {
      LogicalMiss(s.bufs, s.g.disk, b);
      NotHeld(s, b);
      RestIsHome(L, s.g, b);
    }
  }

  lemma HomeInside(L: Layout, size: nat, b: nat)
    requires Home(L, size, b)
    ensures b < size
  {
  }

  lemma BufShows(L: Layout, s: State, b: nat, i: nat)
    requires AllCoherent(s) && AllPinned(s.g, s.bufs) && i < NBUF && Holds(s.bufs[i], b) && i !in s.touched
    requires G.Inv(L, s.g) && !s.g.phase.Recovering? && Home(L, |s.g.disk|, b)
    ensures b < |s.g.view| && s.bufs[i].data == s.g.view[b]
  {
    hide G.Inv, Pending, Home;
    At1(s, i);
    if b !in Pending(s.g) {
      RestIsHome(L, s.g, b);
    } else {
      var j :| 0 <= j < |s.bufs| && s.bufs[j].dirty && Cached(s.bufs[j], b);
      assert i == j;
    }
  }

  lemma NotHeld(s: State, b: nat)
    requires AllCoherent(s) && AllPinned(s.g, s.bufs) && forall i | 0 <= i < NBUF :: !Holds(s.bufs[i], b)
    ensures b !in Pending(s.g)
  {
    hide Pending;
    if b in Pending(s.g) {
      var j :| 0 <= j < |s.bufs| && s.bufs[j].dirty && Cached(s.bufs[j], b);
      At1(s, j);
    }
  }

  lemma BeforeInstall(L: Layout, g: G.State)
    requires G.Inv(L, g) && g.phase.Committing? && g.phase.k <= |g.lh| + 1
    ensures SameHome(L, g.disk, g.phase.base)
  {
    hide G.RoomInv, Clean, Apply, CommitProgram, WithHead;
    var base, k := g.phase.base, g.phase.k;
    if g.lh == [] {
      NoWrites(base);
    } else {
      forall b | 0 <= b < |base| && Home(L, |base|, b)
        ensures g.disk[b] == base[b]
      {
        HomeKept(L, base, g.view, g.lh, WithHead(base[L.start], g.lh), k, b);
      }
    }
  }

  /** Every logged block that is not yet installed sits in a valid dirty buffer, every dirty buffer holds such a
      block, cache and disk together show what the operations have logged, and until the header is on the disk a
      commit has changed no home block. */
  ghost predicate CacheServes(L: Layout, s: State) {
    && !s.g.phase.Panicked?
    && (forall b | b in Pending(s.g) :: exists i | 0 <= i < |s.bufs| :: Holds(s.bufs[i], b) && s.bufs[i].dirty)
    && (forall i | 0 <= i < |s.bufs| && s.bufs[i].dirty :: s.bufs[i].blockno in Pending(s.g))
    && (!s.g.phase.Recovering? ==>
          forall b | 0 <= b < |s.g.disk| && Home(L, |s.g.disk|, b) && !Touches(s, b) ::
            b < |s.g.view| && Logical(s.bufs, s.g.disk, b) == s.g.view[b])
    && (s.g.phase.Committing? && s.g.phase.k <= |s.g.lh| + 1 ==> SameHome(L, s.g.disk, s.g.phase.base))
  }

  lemma PinnedHolds(s: State, b: nat)
    requires AllCoherent(s) && Pinned(s.bufs, b)
    ensures exists i | 0 <= i < |s.bufs| :: Holds(s.bufs[i], b) && s.bufs[i].dirty
  {
    hide Pending;
    var j :| 0 <= j < |s.bufs| && s.bufs[j].dirty && Cached(s.bufs[j], b);
    At1(s, j);
    assert Holds(s.bufs[j], b) && s.bufs[j].dirty;
  }

  lemma SoundServes(L: Layout, s: State)
    requires CacheInv(L, s) && G.Inv(L, s.g) && !s.g.phase.Panicked?
    ensures CacheServes(L, s)
  {
    hide G.Inv, Pending, TouchedOk, Home, Logical, Touches, SameHome, Pinned, Coherent;
    forall b | b in Pending(s.g)
      ensures exists i | 0 <= i < |s.bufs| :: Holds(s.bufs[i], b) && s.bufs[i].dirty
    {
      PinnedHolds(s, b);
    }
    forall i | 0 <= i < |s.bufs| && s.bufs[i].dirty
      ensures s.bufs[i].blockno in Pending(s.g)
    {
      At1(s, i);
      DirtyPending(s.g, s.bufs[i], s.users[i], i in s.touched);
    }
    if !s.g.phase.Recovering? {
      forall b | 0 <= b < |s.g.disk| && Home(L, |s.g.disk|, b) && !Touches(s, b)
        ensures b < |s.g.view| && Logical(s.bufs, s.g.disk, b) == s.g.view[b]
      {
        CacheShowsView(L, s, b);
      }
    }
    if s.g.phase.Committing? && s.g.phase.k <= |s.g.lh| + 1 {
      BeforeInstall(L, s.g);
    }
  }

  lemma DirtyPending(g: G.State, u: Buf, us: set<nat>, hot: bool)
    requires Coherent(g, u, us, hot) && u.dirty
    ensures u.blockno in Pending(g)
  {
    hide Pending;
  }

  lemma StartSound(L: Layout, budget: nat, d: Disk)
    requires Clean(L, d) && L.size == LOGSIZE
    ensures Sound(L, budget, Start(d))
  {
    hide CacheInv, Clean, G.Reached;
    EmptyCache(L, Start(d), d);
    G.StartReached(L, budget, d);
  }

  /** Cache and log over every interleaving and any crashes: the run is a run of the log alone, so all that is proved
      of the log holds under a cache that evicts, and the cache serves the log. */
  lemma CacheAndLog(L: Layout, budget: nat, d: Disk, acts: seq<Action>)
    requires Clean(L, d) && L.size == LOGSIZE && budget <= G.SAFE && Legal(L, budget, Start(d), acts)
    ensures var s := Exec(L, budget, Start(d), acts);
            && G.Legal(L, budget, G.Start(d), Trace(L, budget, Start(d), acts))
            && s.g == G.Exec(L, budget, G.Start(d), Trace(L, budget, Start(d), acts))
            && CacheServes(L, s)
  {
    hide Exec, Legal, Trace, CacheInv, G.Inv, G.Reached, G.Legal, G.Exec, CacheServes, Clean, Start;
    var s := Exec(L, budget, Start(d), acts);
    StartSound(L, budget, d);
    assert Start(d).g == G.Start(d) by { StartOf(d); }
    RunRefines(L, budget, Start(d), acts);
    G.ReachedInv(L, budget, s.g);
    G.GroupCommitSafe(L, budget, d, Trace(L, budget, Start(d), acts));
    SoundServes(L, s);
  }

  lemma StartOf(d: Disk)
    ensures Start(d).g == G.Start(d)
  {
  }

  // ---------- a plain block map ----------

  /** The home blocks of the map after step a are those before it, except for the block that a process stores into. */
  ghost predicate MapMoves(L: Layout, s: State, t: State, a: Action) {
    && |t.g.disk| == |s.g.disk|
    && forall b | 0 <= b < |s.g.disk| && Home(L, |s.g.disk|, b) :: Logical(t.bufs, t.g.disk, b) == Shown(s, a, b)
  }

  /** What a plain block map has for block b after step a. */
  ghost function Shown(s: State, a: Action, b: nat): Block
    requires b < |s.g.disk|
  {
    if a.Store? && a.i < |s.bufs| && Cached(s.bufs[a.i], b) then a.x else Logical(s.bufs, s.g.disk, b)
  }

  lemma CacheOkOf(s: State)
    requires AllCoherent(s)
    ensures CacheOk(s.bufs, s.users, s.g.disk)
  {
    hide Pending, Unique;
    forall i | 0 <= i < NBUF
      ensures BufOk(s.bufs[i], s.users[i], s.g.disk)
    {
      At1(s, i);
    }
  }

  /** One buffer replaced by another copy of the same block that shows the same. */
  lemma SameShown(L: Layout, s: State, t: State, a: Action, i: nat, u: Buf)
    requires AllCoherent(s) && i < NBUF && t.bufs == s.bufs[i := u] && |t.g.disk| == |s.g.disk| && !a.Store?
    requires u.dev == s.bufs[i].dev && u.blockno == s.bufs[i].blockno
    requires forall b | 0 <= b < |s.g.disk| && !Cached(u, b) :: s.g.disk[b] == t.g.disk[b]
    requires u.dev == ROOTDEV && u.blockno < |s.g.disk| ==>
               (if u.valid then u.data else t.g.disk[u.blockno])
               == (if s.bufs[i].valid then s.bufs[i].data else s.g.disk[u.blockno])
    ensures MapMoves(L, s, t, a)
  {
    hide Logical, Home, Pending;
    At1(s, i);
    UpdateKeepsMap(s.bufs, s.g.disk, i, u, t.g.disk);
  }

  lemma GetShows(L: Layout, budget: nat, s: State, p: nat, b: nat, i: nat)
    requires AllCoherent(s) && Enabled(L, budget, s, Get(p, b, i))
    ensures MapMoves(L, s, Do(L, budget, s, Get(p, b, i)), Get(p, b, i))
  {
    hide Logical, Home, Pending, Coherent, Unique;
    var t := Do(L, budget, s, Get(p, b, i));
    if Cached(s.bufs[i], b) {
      SameShown(L, s, t, Get(p, b, i), i, Gotten(s.bufs[i], b));
    } else {
      CacheOkOf(s);
      At1(s, i);
      IdleUsers(s.g, s.bufs[i], s.users[i], i in s.touched);
      RecycleKeepsMap(s.bufs, s.users, s.g.disk, i, b, Gotten(s.bufs[i], b));
    }
  }

  lemma IdleUsers(g: G.State, u: Buf, us: set<nat>, hot: bool)
    requires Coherent(g, u, us, hot) && !Busy(u)
    ensures us == {}
  {
    hide Pending;
  }

  lemma StoreShows(L: Layout, budget: nat, s: State, p: nat, i: nat, x: Block)
    requires AllCoherent(s) && Enabled(L, budget, s, Store(p, i, x))
    ensures MapMoves(L, s, Do(L, budget, s, Store(p, i, x)), Store(p, i, x))
  {
    hide Logical, Home, Pending;
    At1(s, i);
    ModifyMap(s.bufs, s.g.disk, i, s.bufs[i].(data := x));
  }

  /** Copying a log slot over a home block writes what the buffer already holds. */
  lemma MoveShows(L: Layout, budget: nat, s: State, to: nat, from: nat)
    requires CacheInv(L, s) && G.Inv(L, s.g) && Enabled(L, budget, s, Move(to, from)) && s.g.phase.Committing?
    ensures MapMoves(L, s, Do(L, budget, s, Move(to, from)), Move(to, from))
  {
    hide AllCoherent, AllPinned, G.Inv, Aimed, Copied, Staged, Home, Logical, CacheInv;
    SizesOf(L, s);
    InvParts(L, s);
    var u := s.bufs[to].(data := Copied(L, s.g, s.bufs[to], s.bufs[from]));
    CommitMove(L, s, to, from);
    StagedShows(L, s, to, u);
    var t := Do(L, budget, s, Move(to, from));
    if u.data == s.bufs[to].data {
      SameShown(L, s, t, Move(to, from), to, u);
    } else {
      LogShown(L, s, t, Move(to, from), to, u);
    }
  }

  lemma InvParts(L: Layout, s: State)
    requires CacheInv(L, s)
    ensures AllCoherent(s) && AllPinned(s.g, s.bufs)
  {
    hide AllCoherent, AllPinned, TouchedOk;
  }

  lemma StagedShows(L: Layout, s: State, to: nat, u: Buf)
    requires AllCoherent(s) && AllPinned(s.g, s.bufs) && |s.bufs| == NBUF && to < NBUF && s.bufs[to].valid
               && s.touched == {}
    requires s.g.phase.Committing? && u == s.bufs[to].(data := u.data) && Staged(L, s.g, u)
    ensures u.data == s.bufs[to].data || L.InLog(u.blockno)
  {
    hide AllCoherent, AllPinned, CommitProgram, WithHead, ClearHead, At;
    WrittenBlock(L, s.g, u);
    var k, n := s.g.phase.k, |s.g.lh|;
    if n < k <= 2 * n {
      var t := k - n - 1;
      InTail(s.g.lh, t, t);
      PinnedBuf(s, to);
      Entries(L, s.g.view, s.g.lh, WithHead(s.g.phase.base[L.start], s.g.lh));
      AtInside(s.g.view, u.blockno);
    }
  }

  lemma AtInside(d: Disk, b: nat)
    requires b < |d|
    ensures At(d, b) == d[b]
  {
  }

  /** A change of a buffer of the log area is not seen in any home block. */
  lemma LogShown(L: Layout, s: State, t: State, a: Action, i: nat, u: Buf)
    requires i < |s.bufs| && t.bufs == s.bufs[i := u] && t.g.disk == s.g.disk && !a.Store?
    requires u.blockno == s.bufs[i].blockno && L.InLog(u.blockno)
    ensures MapMoves(L, s, t, a)
  {
    hide Logical;
    forall b | 0 <= b < |s.g.disk| && Home(L, |s.g.disk|, b)
      ensures Logical(t.bufs, t.g.disk, b) == Logical(s.bufs, s.g.disk, b)
    {
      LogicalFrame(s.bufs, i, u, s.g.disk, t.g.disk, b);
    }
  }

  lemma WriteShows(L: Layout, budget: nat, s: State, i: nat)
    requires AllCoherent(s) && Enabled(L, budget, s, Write(i))
    ensures MapMoves(L, s, Do(L, budget, s, Write(i)), Write(i))
  {
    hide Logical, Home, Pending, MapMoves;
    At1(s, i);
    var t := Do(L, budget, s, Write(i));
    SameShown(L, s, t, Write(i), i, t.bufs[i]);
  }

  lemma NothingShown(L: Layout, s: State, t: State, a: Action)
    requires t.bufs == s.bufs && t.g.disk == s.g.disk && !a.Store?
    ensures MapMoves(L, s, t, a)
  {
    hide Logical, Home;
  }

  /** Cache and log refine a plain block map: outside of recovery every step but a crash leaves every home block of the
      map as it is, except a store, which changes its own block. */
  lemma PlainBlockMap(L: Layout, budget: nat, s: State, a: Action)
    requires CacheInv(L, s) && G.Inv(L, s.g) && Enabled(L, budget, s, a) && !a.Crash? && !s.g.phase.Recovering?
    ensures MapMoves(L, s, Do(L, budget, s, a), a)
  {
    hide AllCoherent, AllPinned, TouchedOk, G.Inv, Aimed, Copied, Staged, Home, Logical, MapMoves, G.Enabled;
    SizesOf(L, s);
    var t := Do(L, budget, s, a);
    match a {
      case Get(p, b, i) => GetShows(L, budget, s, p, b, i);
      case Lock(p, i) => SameShown(L, s, t, a, i, t.bufs[i]);
      case Read(p, i) => SameShown(L, s, t, a, i, t.bufs[i]);
      case Store(p, i, x) => StoreShows(L, budget, s, p, i, x);
      case LogWrite(p, i, op) => SameShown(L, s, t, a, i, t.bufs[i]);
      case Release(p, i) => SameShown(L, s, t, a, i, t.bufs[i]);
      case Drop(p, i) => SameShown(L, s, t, a, i, t.bufs[i]);
      case Begin => NothingShown(L, s, t, a);
      case Check(op) => NothingShown(L, s, t, a);
      case End(op) => NothingShown(L, s, t, a);
      case Move(to, from) => MoveShows(L, budget, s, to, from);
      case Write(i) => WriteShows(L, budget, s, i);
      case Finish => NothingShown(L, s, t, a);
    }
  }

  /** What cache and disk show. */
  ghost function MapOf(s: State): (m: Disk)
    ensures |m| == |s.g.disk|
  {
    seq(|s.g.disk|, b requires 0 <= b < |s.g.disk| => Logical(s.bufs, s.g.disk, b))
  }

  /** The header write of a commit. */
  ghost predicate IsHeaderWrite(s: State, a: Action) {
    a.Write? && s.g.phase.Committing? && s.g.phase.k == |s.g.lh|
  }

  /** The block map at the last header write of a run, or c when the run has none. */
  ghost function LastMap(L: Layout, budget: nat, s: State, acts: seq<Action>, c: Disk): Disk
    requires Legal(L, budget, s, acts)
    decreases |acts|
  {
    if acts == [] then c
    else LastMap(L, budget, Do(L, budget, s, acts[0]), acts[1..], if IsHeaderWrite(s, acts[0]) then MapOf(s) else c)
  }

  /** When the header is about to be written, the whole map is what the group has logged. */
  lemma MapIsView(L: Layout, budget: nat, s: State, a: Action)
    requires CacheInv(L, s) && G.Inv(L, s.g) && Enabled(L, budget, s, a) && IsHeaderWrite(s, a)
    ensures SameHome(L, MapOf(s), s.g.view)
  {
    hide AllCoherent, AllPinned, G.RoomInv, G.DiskInv, Logical, Staged, ValidLog;
    var i := a.i;
    WrittenBlock(L, s.g, s.bufs[i]);
    forall b | 0 <= b < |s.g.disk| && Home(L, |s.g.disk|, b)
      ensures MapOf(s)[b] == s.g.view[b]
    {
      assert !Touches(s, b);
      CacheShowsView(L, s, b);
    }
  }

  lemma {:induction false} LastMapIs(L: Layout, budget: nat, s: State, acts: seq<Action>, c: Disk, e: Disk)
    requires Sound(L, budget, s) && Legal(L, budget, s, acts) && budget <= G.SAFE && SameHome(L, c, e)
    requires G.Legal(L, budget, s.g, Trace(L, budget, s, acts))
    ensures SameHome(L, LastMap(L, budget, s, acts, c),
                     G.LastCommitted(L, budget, s.g, Trace(L, budget, s, acts), e))
    decreases |acts|
  {
    hide CacheInv, G.Inv, G.Reached, Enabled, Do, SameHome, G.Legal, G.Exec, G.LastCommitted, Project, MapOf,
      IsHeaderWrite;
    if acts == [] {
      NoneCommitted(L, budget, s.g, e);
    } else {
      var a := acts[0];
      var t := Do(L, budget, s, a);
      OneStep(L, budget, s, a);
      RunRefines(L, budget, t, acts[1..]);
      var rest := Trace(L, budget, t, acts[1..]);
      G.ReachedInv(L, budget, s.g);
      StepRefines(L, budget, s, a);
      if IsHeaderWrite(s, a) {
        MapIsView(L, budget, s, a);
        CommittedHere(L, budget, s, a, t.g, rest, e);
        LastMapIs(L, budget, t, acts[1..], MapOf(s), s.g.view);
      } else {
        CommittedElsewhere(L, budget, s, a, t.g, rest, e);
        LastMapIs(L, budget, t, acts[1..], c, e);
      }
    }
  }

  lemma OneStep(L: Layout, budget: nat, s: State, a: Action)
    requires Sound(L, budget, s) && Enabled(L, budget, s, a) && budget <= G.SAFE
    ensures Sound(L, budget, Do(L, budget, s, a))
  {
    hide Sound, Enabled, Do;
    assert [a][1..] == [];
    assert Legal(L, budget, Do(L, budget, s, a), []);
    assert Legal(L, budget, s, [a]);
    RunRefines(L, budget, s, [a]);
  }

  lemma NoneCommitted(L: Layout, budget: nat, g: G.State, e: Disk)
    ensures G.Legal(L, budget, g, []) && G.LastCommitted(L, budget, g, [], e) == e
  {
  }

  lemma CommittedHere(L: Layout, budget: nat, s: State, a: Action, g: G.State, rest: seq<G.Action>, e: Disk)
    requires IsHeaderWrite(s, a) && G.Legal(L, budget, s.g, Project(s, a)) && g == G.Exec(L, budget, s.g, Project(s, a))
    requires G.Legal(L, budget, g, rest) && G.Legal(L, budget, s.g, Project(s, a) + rest)
    ensures G.LastCommitted(L, budget, s.g, Project(s, a) + rest, e) == G.LastCommitted(L, budget, g, rest, s.g.view)
  {
    hide G.Enabled, G.Do;
    assert ([G.CommitWrite] + rest)[1..] == rest;
    assert [G.CommitWrite][1..] == [];
  }

  lemma CommittedElsewhere(L: Layout, budget: nat, s: State, a: Action, g: G.State, rest: seq<G.Action>, e: Disk)
    requires !IsHeaderWrite(s, a) && G.Legal(L, budget, s.g, Project(s, a))
               && g == G.Exec(L, budget, s.g, Project(s, a))
    requires G.Legal(L, budget, g, rest) && G.Legal(L, budget, s.g, Project(s, a) + rest)
    ensures G.LastCommitted(L, budget, s.g, Project(s, a) + rest, e) == G.LastCommitted(L, budget, g, rest, e)
  {
    hide G.Enabled, G.Do;
    var p := Project(s, a);
    if p == [] {
      assert p + rest == rest;
    } else {
      assert (p + rest)[1..] == rest;
      assert p[1..] == [];
    }
  }

  /** Durability under a cache that evicts: wherever a crash hits, a completed recovery leaves the home blocks as cache
      and disk showed them when the last group to commit wrote its header, and the log empty. */
  lemma CachedDurable(L: Layout, budget: nat, d: Disk, acts: seq<Action>)
    requires Clean(L, d) && L.size == LOGSIZE && budget <= G.SAFE && Legal(L, budget, Start(d), acts)
    ensures var s := Exec(L, budget, Start(d), acts);
            && SameHome(L, Recovered(L, s.g.disk), LastMap(L, budget, Start(d), acts, d))
            && Clean(L, Recovered(L, s.g.disk))
  {
    hide Exec, Legal, Trace, LastMap, Sound, G.Inv, G.Legal, G.Exec, G.LastCommitted, Clean, Recovered, SameHome, Start;
    var s := Exec(L, budget, Start(d), acts);
    StartSound(L, budget, d);
    assert Start(d).g == G.Start(d) by { StartOf(d); }
    RunRefines(L, budget, Start(d), acts);
    G.SameHomeRefl(L, d);
    LastMapIs(L, budget, Start(d), acts, d, d);
    G.DurableRuns(L, budget, d, Trace(L, budget, Start(d), acts));
    var m := LastMap(L, budget, Start(d), acts, d);
    var e := G.LastCommitted(L, budget, G.Start(d), Trace(L, budget, Start(d), acts), d);
    G.SameHomeTrans(L, m, e, e);
    G.SameHomeTrans(L, Recovered(L, s.g.disk), e, m);
  }

  // ---------- what a process can do ----------

  lemma {:induction false} ExecMore(L: Layout, budget: nat, s: State, acts: seq<Action>, a: Action)
    requires Legal(L, budget, s, acts) && Enabled(L, budget, Exec(L, budget, s, acts), a)
    ensures Legal(L, budget, s, acts + [a])
    ensures Exec(L, budget, s, acts + [a]) == Do(L, budget, Exec(L, budget, s, acts), a)
    decreases |acts|
  {
    hide Enabled, Do;
    if acts == [] {
      assert acts + [a] == [a] && [a][1..] == [];
      assert Legal(L, budget, Do(L, budget, s, a), []);
    } else {
      assert (acts + [a])[1..] == acts[1..] + [a];
      ExecMore(L, budget, Do(L, budget, s, acts[0]), acts[1..], a);
    }
  }

  lemma ExecTwo(L: Layout, budget: nat, s: State, a: Action, b: Action)
    requires Enabled(L, budget, s, a) && Enabled(L, budget, Do(L, budget, s, a), b)
    ensures Legal(L, budget, s, [a, b])
    ensures Exec(L, budget, s, [a, b]) == Do(L, budget, Do(L, budget, s, a), b)
  {
    hide Enabled, Do;
    ExecMore(L, budget, s, [], a);
    assert [] + [a] == [a];
    ExecMore(L, budget, s, [a], b);
    assert [a] + [b] == [a, b];
  }

  /** Process p, which uses no buffer of block b, can have buffer i for it: the buffer that caches b, if nobody
      holds it, or an idle clean buffer if none does. */
  ghost predicate CanHave(s: State, p: nat, b: nat, i: nat) {
    && !s.g.phase.Panicked? && i < |s.bufs| == |s.users| && b < |s.g.disk|
    && (forall j | 0 <= j < |s.bufs| && Cached(s.bufs[j], b) :: p !in s.users[j])
    && if Cached(s.bufs[i], b) then s.bufs[i].holder.None?
       else s.bufs[i].refcnt == 0 && !s.bufs[i].dirty && forall j | 0 <= j < |s.bufs| :: !Cached(s.bufs[j], b)
  }

  lemma GetThenLock(L: Layout, budget: nat, s: State, p: nat, b: nat, i: nat)
    requires AllCoherent(s) && CanHave(s, p, b, i)
    ensures Legal(L, budget, s, [Get(p, b, i), Lock(p, i)])
    ensures var t := Exec(L, budget, s, [Get(p, b, i), Lock(p, i)]);
            && t.g == s.g && i < |t.bufs| == |t.users| && t.bufs[i].holder == Some(p) && Cached(t.bufs[i], b)
            && (t.bufs[i].valid ==> Cached(s.bufs[i], b) && s.bufs[i].valid && t.bufs[i].data == s.bufs[i].data)
            && (!t.bufs[i].valid ==> Cached(s.bufs[i], b) ==> !s.bufs[i].valid)
  {
    hide Unique, Legal, Exec, Coherent;
    At1(s, i);
    IdleHolder(s.g, s.bufs[i], s.users[i], i in s.touched);
    var t := Do(L, budget, s, Get(p, b, i));
    assert Enabled(L, budget, t, Lock(p, i));
    ExecTwo(L, budget, s, Get(p, b, i), Lock(p, i));
  }

  lemma IdleHolder(g: G.State, u: Buf, us: set<nat>, hot: bool)
    requires Coherent(g, u, us, hot)
    ensures u.refcnt == 0 ==> u.holder.None?
  {
    if u.refcnt == 0 {
      assert us == {};
    }
  }

  lemma ShownBlock(s: State, b: nat, i: nat)
    requires AllCoherent(s) && i < NBUF && b < |s.g.disk|
    requires Cached(s.bufs[i], b) || forall j | 0 <= j < |s.bufs| :: !Cached(s.bufs[j], b)
    ensures Logical(s.bufs, s.g.disk, b) ==
              if Cached(s.bufs[i], b) && s.bufs[i].valid then s.bufs[i].data else s.g.disk[b]
  {
    hide Coherent, Logical;
    if Cached(s.bufs[i], b) {
      LogicalAt(s.bufs, s.g.disk, i);
    } else {
      LogicalMiss(s.bufs, s.g.disk, b);
    }
  }

  /** `bread`: a process that can have a buffer for a block gets it, locks it and, if it holds nothing yet, reads the
      disk; it then holds what cache and disk show of the block, and the log has not moved. */
  lemma BreadReads(L: Layout, budget: nat, s: State, p: nat, b: nat, i: nat) returns (acts: seq<Action>)
    requires AllCoherent(s) && CanHave(s, p, b, i)
    ensures Legal(L, budget, s, acts)
    ensures var t := Exec(L, budget, s, acts);
            t.g == s.g && Held(t, p, i) && Cached(t.bufs[i], b) && t.bufs[i].data == Logical(s.bufs, s.g.disk, b)
  {
    hide AllCoherent, Logical, Legal, Exec;
    SizesHere(s);
    GetThenLock(L, budget, s, p, b, i);
    acts := [Get(p, b, i), Lock(p, i)];
    var t := Exec(L, budget, s, acts);
    ShownBlock(s, b, i);
    if !t.bufs[i].valid {
      ExecMore(L, budget, s, acts, Read(p, i));
      acts := acts + [Read(p, i)];
    }
  }

  lemma SizesHere(s: State)
    requires AllCoherent(s)
    ensures |s.bufs| == |s.users| == NBUF
  {
    hide Coherent, Unique;
  }

  /** An operation past its size test can store into the buffer it holds, log it and let go of it; the group then has
      what was stored, and the buffer stays to show it. */
  lemma UpdateGoesThrough(L: Layout, budget: nat, s: State, p: nat, i: nat, op: nat, x: Block)
      returns (acts: seq<Action>)
    requires AllCoherent(s) && Held(s, p, i) && p != WRITER
    requires s.g.phase.Running? && op < |s.g.ops| && s.g.ops[op].checked && |s.g.view| == |s.g.disk|
    requires Home(L, |s.g.disk|, s.bufs[i].blockno) && |s.g.ops[op].logged + {s.bufs[i].blockno}| <= budget
    ensures Legal(L, budget, s, acts)
    ensures var t, b := Exec(L, budget, s, acts), s.bufs[i].blockno;
            && b < |t.g.view| && t.g.view[b] == x && b in t.g.lh && t.g.disk == s.g.disk
            && i < |t.bufs| && Cached(t.bufs[i], b) && t.bufs[i].dirty && t.bufs[i].data == x
            && t.bufs[i].holder.None? && t.bufs[i].refcnt == s.bufs[i].refcnt - 1
  {
    hide AllCoherent, Legal, Exec, Coherent;
    SizesHere(s);
    At1(s, i);
    InUse(s.g, s.bufs[i], s.users[i], i in s.touched);
    var s1 := Do(L, budget, s, Store(p, i, x));
    ExecTwo(L, budget, s, Store(p, i, x), LogWrite(p, i, op));
    acts := [Store(p, i, x), LogWrite(p, i, op)];
    ExecMore(L, budget, s, acts, Release(p, i));
    acts := acts + [Release(p, i)];
    ExecMore(L, budget, s, acts, Drop(p, i));
    acts := acts + [Drop(p, i)];
  }

  lemma InUse(g: G.State, u: Buf, us: set<nat>, hot: bool)
    requires Coherent(g, u, us, hot) && u.holder.Some? && u.valid
    ensures u.holder.value in us && u.refcnt > 0 && u.dev == ROOTDEV
  {
  }
}

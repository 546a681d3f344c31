/** The redo log of log.c: the disk writes that commit and recovery make, in
    order, and what a crash between any two of them leaves behind. */
module RedoLog {
  import opened Common
  import opened Blocks

  const MAXOPBLOCKS: nat := 10
  const LOGSIZE: nat := 30

  type Disk = seq<Block>

  /** `log.start` and `log.size`: a header block followed by size - 1 data blocks. */
  datatype Layout = Layout(start: nat, size: nat) {
    predicate InLog(b: nat) {
      start <= b < start + size
    }
  }

  /** One atomic block write. */
  datatype DiskWrite = DiskWrite(blockno: nat, data: Block)

  function Put(d: Disk, w: DiskWrite): (r: Disk)
    ensures |r| == |d|
  {
    if w.blockno < |d| then d[w.blockno := w.data] else d
  }

  /** The disk after the writes ws, in order. */
  function Apply(d: Disk, ws: seq<DiskWrite>): (r: Disk)
    ensures |r| == |d|
  {
    if ws == [] then d else Put(Apply(d, ws[..|ws| - 1]), ws[|ws| - 1])
  }

  function At(d: Disk, b: nat): Block {
    if b < |d| then d[b] else ZeroBlock()
  }

  // ---------- header block ----------

  /** The block numbers recorded in a header block. */
  function HeadBlocks(h: Block): (lh: seq<nat>) {
    if GetWord(h, 0) <= LOGSIZE
    then seq(GetWord(h, 0), i requires 0 <= i < GetWord(h, 0) => GetWord(h, i + 1))
    else []
  }

  /** Header block r holds n = |lh| and the first k entries of lh. */
  ghost predicate HeadHolds(r: Block, lh: seq<nat>, k: nat) {
    && k <= |lh| <= LOGSIZE && GetWord(r, 0) == |lh|
    && forall i | 0 <= i < k :: GetWord(r, i + 1) == lh[i]
  }

  lemma HeadNext(r: Block, lh: seq<nat>, k: nat)
    requires k < |lh| && lh[k] < UINT_LIMIT && HeadHolds(r, lh, k)
    ensures HeadHolds(PutWord(r, k + 1, lh[k]), lh, k + 1)
  {
    hide GetWord, PutWord;
  }

  lemma HeadDecodes(r: Block, lh: seq<nat>)
    requires HeadHolds(r, lh, |lh|)
    ensures HeadBlocks(r) == lh && GetWord(r, 0) <= LOGSIZE
  {
    hide GetWord;
  }

  /** The header block after `write_head` has stored n and the first k entries. */
  function HeadPrefix(h: Block, lh: seq<nat>, k: nat): (r: Block)
    requires k <= |lh| <= LOGSIZE && forall i | 0 <= i < |lh| :: lh[i] < UINT_LIMIT
    ensures HeadHolds(r, lh, k)
  {
    if k == 0 then PutWord(h, 0, |lh|) else
    var r := HeadPrefix(h, lh, k - 1);
    HeadNext(r, lh, k - 1);
    PutWord(r, k, lh[k - 1])
  }

  function WithHead(h: Block, lh: seq<nat>): (r: Block)
    requires |lh| <= LOGSIZE && forall i | 0 <= i < |lh| :: lh[i] < UINT_LIMIT
    ensures HeadBlocks(r) == lh && GetWord(r, 0) <= LOGSIZE
  {
    var r := HeadPrefix(h, lh, |lh|);
    HeadDecodes(r, lh);
    r
  }

  /** The header block that `write_head` writes for an empty log. */
  function ClearHead(h: Block): (r: Block)
    ensures HeadBlocks(r) == [] && GetWord(r, 0) <= LOGSIZE
  {
    PutWord(h, 0, 0)
  }

  // ---------- the write programs ----------

  function LogWrites(L: Layout, v: Disk, lh: seq<nat>): (ws: seq<DiskWrite>)
    ensures |ws| == |lh|
    ensures forall i | 0 <= i < |ws| :: ws[i] == DiskWrite(L.start + 1 + i, At(v, lh[i]))
  {
    seq(|lh|, i requires 0 <= i < |lh| => DiskWrite(L.start + 1 + i, At(v, lh[i])))
  }

  function InstallWrites(v: Disk, lh: seq<nat>): (ws: seq<DiskWrite>)
    ensures |ws| == |lh|
    ensures forall i | 0 <= i < |ws| :: ws[i] == DiskWrite(lh[i], At(v, lh[i]))
  {
    seq(|lh|, i requires 0 <= i < |lh| => DiskWrite(lh[i], At(v, lh[i])))
  }

  /** Every disk write of `commit`, in order, when the cached block contents are v. */
  function CommitWrites(L: Layout, d: Disk, v: Disk, lh: seq<nat>): (ws: seq<DiskWrite>)
    requires ValidLog(L, |d|, lh)
  {
    if lh == [] then [] else CommitProgram(L, v, lh, WithHead(d[L.start], lh))
  }

  /** The writes of a nonempty commit whose header block is h. */
  function CommitProgram(L: Layout, v: Disk, lh: seq<nat>, h: Block): (ws: seq<DiskWrite>)
    ensures |ws| == 2 * |lh| + 2
  {
    LogWrites(L, v, lh) + [DiskWrite(L.start, h)] + InstallWrites(v, lh) + [DiskWrite(L.start, ClearHead(h))]
  }

  /** Every disk write of `recover_from_log`, in order, when it starts from disk d. */
  function RecoveryWrites(L: Layout, d: Disk): (ws: seq<DiskWrite>) {
    var h := At(d, L.start);
    ReplayWrites(L, d, HeadBlocks(h)) + [DiskWrite(L.start, ClearHead(h))]
  }

  /** Copies of the log data blocks to the home locations lh. */
  function ReplayWrites(L: Layout, d: Disk, lh: seq<nat>): (ws: seq<DiskWrite>)
    ensures |ws| == |lh|
    ensures forall i | 0 <= i < |ws| :: ws[i] == DiskWrite(lh[i], At(d, L.start + 1 + i))
  {
    seq(|lh|, i requires 0 <= i < |lh| => DiskWrite(lh[i], At(d, L.start + 1 + i)))
  }

  /** The disk after a recovery that runs to its end. */
  function Recovered(L: Layout, d: Disk): (r: Disk)
    ensures |r| == |d|
  {
    Apply(d, RecoveryWrites(L, d))
  }

  /** The disk after recovery has been started and cut short |cuts| times, the i-th
      time after its first cuts[i] writes. */
  function CutRecoveries(L: Layout, d: Disk, cuts: seq<nat>): (r: Disk)
    ensures |r| == |d|
    decreases |cuts|
  {
    if cuts == [] then d else
    var ws := RecoveryWrites(L, d);
    CutRecoveries(L, Apply(d, ws[..if cuts[0] < |ws| then cuts[0] else |ws|]), cuts[1..])
  }

  // ---------- validity and the meaning of a crashed disk ----------

  ghost predicate Home(L: Layout, size: nat, b: nat) {
    b < size && !L.InLog(b)
  }

  ghost predicate Distinct<T>(s: seq<T>) {
    forall i, j | 0 <= i < j < |s| :: s[i] != s[j]
  }

  /** A transaction that fits the log: what `log_write` maintains. */
  ghost predicate ValidLog(L: Layout, size: nat, lh: seq<nat>) {
    && L.start + L.size <= size <= UINT_LIMIT
    && |lh| < L.size && |lh| <= LOGSIZE
    && Distinct(lh)
    && forall i | 0 <= i < |lh| :: Home(L, size, lh[i])
  }

  /** The header on disk names a valid transaction, with no more entries than `lh.block` has. */
  ghost predicate ValidHead(L: Layout, d: Disk)
    requires L.start < |d|
  {
    GetWord(d[L.start], 0) <= LOGSIZE && ValidLog(L, |d|, HeadBlocks(d[L.start]))
  }

  ghost predicate SameHome(L: Layout, d: Disk, e: Disk) {
    && |d| == |e|
    && forall b | 0 <= b < |d| && Home(L, |d|, b) :: d[b] == e[b]
  }

  /** Nothing is waiting to be installed. */
  ghost predicate Clean(L: Layout, d: Disk) {
    ValidLog(L, |d|, []) && ValidHead(L, d) && HeadBlocks(d[L.start]) == []
  }

  /** The home blocks after the transaction: logged blocks as cached in v, the others as on d. */
  ghost function Committed(d: Disk, v: Disk, lh: seq<nat>): (t: Disk)
    ensures |t| == |d|
  {
    seq(|d|, b requires 0 <= b < |d| => if b in lh then At(v, b) else d[b])
  }

  /** The i-th log data block holds the contents that t has for the block lh[i]. */
  ghost predicate SlotsHold(L: Layout, d: Disk, t: Disk, lh: seq<nat>)
    requires ValidLog(L, |d|, lh) && |t| == |d|
  {
    forall i | 0 <= i < |lh| :: d[L.start + 1 + i] == t[lh[i]]
  }

  /** Disk d stands for home contents t: every block the header names is held by its
      log slot, every other home block is in place. */
  ghost predicate RecoversTo(L: Layout, d: Disk, t: Disk) {
    && |d| == |t|
    && L.start < |d|
    && ValidHead(L, d)
    && SlotsHold(L, d, t, HeadBlocks(d[L.start]))
    && (forall b | 0 <= b < |d| && Home(L, |d|, b) && b !in HeadBlocks(d[L.start]) :: d[b] == t[b])
  }

  // ---------- lemmas about write sequences ----------

  lemma {:induction false} ApplyConcat(d: Disk, a: seq<DiskWrite>, b: seq<DiskWrite>)
    ensures Apply(d, a + b) == Apply(Apply(d, a), b)
    decreases |b|
  {
    if b == [] {
      assert a + b == a;
    } else {
      var m := |b| - 1;
      ApplyConcat(d, a, b[..m]);
      assert (a + b)[..|a + b| - 1] == a + b[..m];
    }
  }

  lemma TakeNext<T>(before: seq<T>, s: seq<T>, i: nat)
    requires i < |s|
    ensures before + s[..i] + [s[i]] == before + s[..i + 1]
  {
  }

  lemma {:induction false} ApplyMiss(d: Disk, ws: seq<DiskWrite>, b: nat)
    requires b < |d| && forall i | 0 <= i < |ws| :: ws[i].blockno != b
    ensures Apply(d, ws)[b] == d[b]
    decreases |ws|
  {
    if ws != [] {
      ApplyMiss(d, ws[..|ws| - 1], b);
    }
  }

  lemma {:induction false} ApplyHit(d: Disk, ws: seq<DiskWrite>, i: nat)
    requires i < |ws| && ws[i].blockno < |d|
    requires forall j | i < j < |ws| :: ws[j].blockno != ws[i].blockno
    ensures Apply(d, ws)[ws[i].blockno] == ws[i].data
    decreases |ws|
  {
    if i < |ws| - 1 {
      ApplyHit(d, ws[..|ws| - 1], i);
    }
  }

  // ---------- recovery ----------

  lemma ReplayHit(L: Layout, d: Disk, lh: seq<nat>, m: nat, i: nat)
    requires ValidLog(L, |d|, lh) && i < m <= |lh|
    ensures Apply(d, ReplayWrites(L, d, lh)[..m])[lh[i]] == d[L.start + 1 + i]
  {
    hide Apply, ReplayWrites;
    var ws := ReplayWrites(L, d, lh)[..m];
    assert ws[i] == DiskWrite(lh[i], d[L.start + 1 + i]);
    assert forall j | i < j < m :: ws[j].blockno == lh[j] && lh[j] != lh[i];
    ApplyHit(d, ws, i);
  }

  lemma ReplayMiss(L: Layout, d: Disk, lh: seq<nat>, m: nat, b: nat)
    requires b < |d| && m <= |lh| && b !in lh
    ensures Apply(d, ReplayWrites(L, d, lh)[..m])[b] == d[b]
  {
    hide Apply, ReplayWrites;
    var ws := ReplayWrites(L, d, lh)[..m];
    assert forall j | 0 <= j < m :: ws[j].blockno == lh[j] && lh[j] in lh;
    ApplyMiss(d, ws, b);
  }

  /** Replaying the first m log blocks puts them in place and touches no other block. */
  lemma ReplayPrefix(L: Layout, d: Disk, lh: seq<nat>, m: nat)
    requires ValidLog(L, |d|, lh) && m <= |lh|
    ensures var e := Apply(d, ReplayWrites(L, d, lh)[..m]);
            && (forall i | 0 <= i < m :: e[lh[i]] == d[L.start + 1 + i])
            && (forall b | 0 <= b < |d| && b !in lh :: e[b] == d[b])
  {
    var e := Apply(d, ReplayWrites(L, d, lh)[..m]);
    forall i | 0 <= i < m
      ensures e[lh[i]] == d[L.start + 1 + i]
    {
      hide Apply, ReplayWrites;
      ReplayHit(L, d, lh, m, i);
    }
    forall b | 0 <= b < |d| && b !in lh
      ensures e[b] == d[b]
    {
      hide Apply, ReplayWrites;
      ReplayMiss(L, d, lh, m, b);
    }
  }

  /** A replay cut after m blocks leaves a disk that stands for the same home contents. */
  lemma ReplayStep(L: Layout, d: Disk, t: Disk, m: nat)
    requires RecoversTo(L, d, t)
    requires m <= |HeadBlocks(d[L.start])|
    ensures RecoversTo(L, Apply(d, ReplayWrites(L, d, HeadBlocks(d[L.start]))[..m]), t)
  {
    hide HeadBlocks, ClearHead, WithHead;
    var lh := HeadBlocks(d[L.start]);
    var e := Apply(d, ReplayWrites(L, d, lh)[..m]);
    ReplayPrefix(L, d, lh, m);
    assert forall b | 0 <= b < |d| && L.InLog(b) :: e[b] == d[b];
    assert SlotsHold(L, e, t, lh);
    assert forall b | 0 <= b < |d| && Home(L, |d|, b) && b !in lh :: e[b] == t[b];
  }

  lemma RecoveredIs(L: Layout, d: Disk)
    requires L.start < |d|
    ensures Recovered(L, d) == Apply(d, ReplayWrites(L, d, HeadBlocks(d[L.start])))[L.start := ClearHead(d[L.start])]
  {
    hide HeadBlocks, ClearHead, ReplayWrites;
    var ws := ReplayWrites(L, d, HeadBlocks(d[L.start]));
    assert RecoveryWrites(L, d)[..|ws|] == ws;
  }

  lemma RecoveredInFull(L: Layout, d: Disk)
    ensures Apply(d, RecoveryWrites(L, d)[..|RecoveryWrites(L, d)|]) == Recovered(L, d)
  {
    hide RecoveryWrites, Apply;
    var ws := RecoveryWrites(L, d);
    assert ws[..|ws|] == ws;
  }

  /** A finished replay followed by clearing the header. */
  lemma ReplayEnd(L: Layout, d: Disk, t: Disk)
    requires RecoversTo(L, d, t)
    ensures Clean(L, Recovered(L, d)) && SameHome(L, Recovered(L, d), t)
  {
    hide HeadBlocks, ClearHead, ReplayWrites, Apply, Recovered;
    var lh := HeadBlocks(d[L.start]);
    var ws := ReplayWrites(L, d, lh);
    ReplayPrefix(L, d, lh, |lh|);
    assert ws[..|lh|] == ws;
    RecoveredIs(L, d);
    var e := Apply(d, ws);
    forall b | 0 <= b < |d| && Home(L, |d|, b)
      ensures e[b] == t[b]
    {
      if b in lh {
        var i :| 0 <= i < |lh| && lh[i] == b;
      }
    }
  }

  lemma CleanStandsForItself(L: Layout, d: Disk, t: Disk)
    requires Clean(L, d) && SameHome(L, d, t)
    ensures RecoversTo(L, d, t)
  {
  }

  /** Cutting a recovery after any of its writes leaves a disk that stands for the same home
      contents. */
  lemma RecoveryStep(L: Layout, d: Disk, t: Disk, k: nat)
    requires RecoversTo(L, d, t)
    requires k <= |RecoveryWrites(L, d)|
    ensures RecoversTo(L, Apply(d, RecoveryWrites(L, d)[..k]), t)
  {
    var lh := HeadBlocks(d[L.start]);
    var ws := RecoveryWrites(L, d);
    if k <= |lh| {
      assert ws[..k] == ReplayWrites(L, d, lh)[..k];
      ReplayStep(L, d, t, k);
    } else {
      assert ws[..k] == ws;
      ReplayEnd(L, d, t);
      CleanStandsForItself(L, Recovered(L, d), t);
    }
  }

  lemma {:induction false} CutRecoveriesKeep(L: Layout, d: Disk, t: Disk, cuts: seq<nat>)
    requires RecoversTo(L, d, t)
    ensures RecoversTo(L, CutRecoveries(L, d, cuts), t)
    decreases |cuts|
  {
    if cuts != [] {
      var ws := RecoveryWrites(L, d);
      var k := if cuts[0] < |ws| then cuts[0] else |ws|;
      RecoveryStep(L, d, t, k);
      CutRecoveriesKeep(L, Apply(d, ws[..k]), t, cuts[1..]);
    }
  }

  // ---------- commit ----------

  /** Up to the header write, commit touches only log data blocks. */
  lemma LogWritesKeep(L: Layout, d: Disk, v: Disk, lh: seq<nat>, k: nat)
    requires ValidLog(L, |d|, lh) && k <= |lh|
    ensures var e := Apply(d, LogWrites(L, v, lh)[..k]);
            && SameHome(L, e, d) && e[L.start] == d[L.start]
            && forall i | 0 <= i < k :: e[L.start + 1 + i] == At(v, lh[i])
  {
    hide LogWrites, Apply, At;
    var ws := LogWrites(L, v, lh)[..k];
    forall i | 0 <= i < k
      ensures Apply(d, ws)[L.start + 1 + i] == At(v, lh[i])
    {
      ApplyHit(d, ws, i);
    }
    forall b | 0 <= b < |d| && (Home(L, |d|, b) || b == L.start)
      ensures Apply(d, ws)[b] == d[b]
    {
      ApplyMiss(d, ws, b);
    }
  }

  /** The disk right after the header write, which is the commit point. */
  ghost predicate AtCommitPoint(L: Layout, d: Disk, v: Disk, lh: seq<nat>, f: Disk) {
    && ValidLog(L, |d|, lh)
    && SameHome(L, f, d)
    && ValidHead(L, f) && HeadBlocks(f[L.start]) == lh
    && forall i | 0 <= i < |lh| :: f[L.start + 1 + i] == At(v, lh[i])
  }

  lemma CommitPointStandsFor(L: Layout, d: Disk, v: Disk, lh: seq<nat>, f: Disk)
    requires AtCommitPoint(L, d, v, lh, f)
    ensures RecoversTo(L, f, Committed(d, v, lh))
  {
    var t := Committed(d, v, lh);
    assert forall i | 0 <= i < |lh| :: t[lh[i]] == At(v, lh[i]);
    assert SlotsHold(L, f, t, lh);
  }

  /** After the commit point commit makes the very writes recovery would make. */
  lemma CommitTailIsRecovery(L: Layout, d: Disk, v: Disk, lh: seq<nat>, f: Disk)
    requires AtCommitPoint(L, d, v, lh, f)
    ensures CommitProgram(L, v, lh, f[L.start]) ==
              LogWrites(L, v, lh) + [DiskWrite(L.start, f[L.start])] + RecoveryWrites(L, f)
  {
    assert ReplayWrites(L, f, lh) == InstallWrites(v, lh);
  }

  /** The first |lh| + 1 writes of a commit lead to its commit point. */
  lemma CommitPoint(L: Layout, d: Disk, v: Disk, lh: seq<nat>, h: Block) returns (f: Disk)
    requires ValidLog(L, |d|, lh) && HeadBlocks(h) == lh && GetWord(h, 0) <= LOGSIZE
    ensures f == Apply(d, LogWrites(L, v, lh) + [DiskWrite(L.start, h)])
    ensures AtCommitPoint(L, d, v, lh, f) && f[L.start] == h
  {
    var a := LogWrites(L, v, lh);
    assert a[..|lh|] == a;
    LogWritesKeep(L, d, v, lh, |lh|);
    var w := a + [DiskWrite(L.start, h)];
    assert w[..|w| - 1] == a;
    f := Apply(d, w);
  }

  /** The disk after the first k writes of a commit, k past the commit point. */
  lemma CommitPast(L: Layout, d: Disk, v: Disk, lh: seq<nat>, h: Block, k: nat) returns (f: Disk)
    requires ValidLog(L, |d|, lh) && HeadBlocks(h) == lh && GetWord(h, 0) <= LOGSIZE
    requires |lh| < k <= |CommitProgram(L, v, lh, h)|
    ensures AtCommitPoint(L, d, v, lh, f)
    ensures |CommitProgram(L, v, lh, h)| == |lh| + 1 + |RecoveryWrites(L, f)|
    ensures Apply(d, CommitProgram(L, v, lh, h)[..k]) == Apply(f, RecoveryWrites(L, f)[..k - |lh| - 1])
  {
    hide Apply, LogWrites, RecoveryWrites, HeadBlocks, GetWord, CommitProgram, AtCommitPoint;
    f := CommitPoint(L, d, v, lh, h);
    CommitTailIsRecovery(L, d, v, lh, f);
    var a := LogWrites(L, v, lh) + [DiskWrite(L.start, h)];
    var b := RecoveryWrites(L, f)[..k - |lh| - 1];
    assert (a + RecoveryWrites(L, f))[..k] == a + b;
    ApplyConcat(d, a, b);
  }

  /** What the disk stands for after the first k writes of a commit. */
  lemma CommitPrefix(L: Layout, d: Disk, v: Disk, lh: seq<nat>, k: nat)
    requires Clean(L, d) && ValidLog(L, |d|, lh)
    requires k <= |CommitWrites(L, d, v, lh)|
    ensures RecoversTo(L, Apply(d, CommitWrites(L, d, v, lh)[..k]),
                       if k > |lh| then Committed(d, v, lh) else d)
  {
    hide HeadBlocks, ClearHead, WithHead;
    if lh == [] {
      CleanStandsForItself(L, d, d);
    } else if k <= |lh| {
      assert CommitWrites(L, d, v, lh)[..k] == LogWrites(L, v, lh)[..k];
      LogWritesKeep(L, d, v, lh, k);
      CleanStandsForItself(L, Apply(d, CommitWrites(L, d, v, lh)[..k]), d);
    } else {
      var f := CommitPast(L, d, v, lh, WithHead(d[L.start], lh), k);
      CommitPointStandsFor(L, d, v, lh, f);
      RecoveryStep(L, f, Committed(d, v, lh), k - |lh| - 1);
    }
  }

  /** An uncut commit is a recovery from its commit point. */
  lemma CommitIsRecovery(L: Layout, d: Disk, v: Disk, lh: seq<nat>, h: Block) returns (f: Disk)
    requires ValidLog(L, |d|, lh) && HeadBlocks(h) == lh && GetWord(h, 0) <= LOGSIZE
    ensures AtCommitPoint(L, d, v, lh, f)
    ensures Apply(d, CommitProgram(L, v, lh, h)) == Recovered(L, f)
  {
    f := CommitPoint(L, d, v, lh, h);
    hide *;
    CommitTailIsRecovery(L, d, v, lh, f);
    ApplyConcat(d, LogWrites(L, v, lh) + [DiskWrite(L.start, h)], RecoveryWrites(L, f));
    RecoveredInFull(L, f);
    var ws := RecoveryWrites(L, f);
    assert ws[..|ws|] == ws;
  }

  /** A commit that is not cut installs the transaction and empties the log. */
  lemma CommitEnd(L: Layout, d: Disk, v: Disk, lh: seq<nat>)
    requires Clean(L, d) && ValidLog(L, |d|, lh)
    ensures Clean(L, Apply(d, CommitWrites(L, d, v, lh)))
    ensures SameHome(L, Apply(d, CommitWrites(L, d, v, lh)), Committed(d, v, lh))
  {
    if lh != [] {
      hide HeadBlocks, WithHead, CommitProgram, AtCommitPoint, RecoversTo, Apply, Recovered, Committed;
      var f := CommitIsRecovery(L, d, v, lh, WithHead(d[L.start], lh));
      CommitPointStandsFor(L, d, v, lh, f);
      ReplayEnd(L, f, Committed(d, v, lh));
    }
  }

  /** Crash atomicity. A commit is cut after any k of its writes and recovery is cut any number
      of times; the first recovery to finish leaves the home blocks as they were before the
      transaction when the header write had not reached the disk, and as the whole
      transaction made them when it had. The log is empty again. */
  lemma CrashAtomicity(L: Layout, d: Disk, v: Disk, lh: seq<nat>, k: nat, cuts: seq<nat>)
    requires Clean(L, d) && ValidLog(L, |d|, lh)
    requires k <= |CommitWrites(L, d, v, lh)|
    ensures var crashed := CutRecoveries(L, Apply(d, CommitWrites(L, d, v, lh)[..k]), cuts);
            && SameHome(L, Recovered(L, crashed), if k > |lh| then Committed(d, v, lh) else d)
            && Clean(L, Recovered(L, crashed))
  {
    var e := Apply(d, CommitWrites(L, d, v, lh)[..k]);
    var t := if k > |lh| then Committed(d, v, lh) else d;
    CommitPrefix(L, d, v, lh, k);
    CutRecoveriesKeep(L, e, t, cuts);
    var c := CutRecoveries(L, e, cuts);
    ReplayEnd(L, c, t);
  }
}

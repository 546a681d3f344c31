/** `struct log` and the functions of log.c, over a cached disk. Every block write is recorded,
    so that each function is tied to the write program that RedoLog reasons about. */
module Log {
  import opened Blocks
  import opened RedoLog

  datatype LogResult = Logged | TooBig | OutsideTransaction

  /** The test of `begin_op`: the log has room for one more operation. */
  predicate HasRoom(n: nat, outstanding: nat) {
    n + (outstanding + 1) * MAXOPBLOCKS <= LOGSIZE
  }

  /** The test of `log_write`: the transaction is already as large as the log allows. */
  predicate Full(n: nat, L: Layout) {
    n >= LOGSIZE || n >= L.size - 1
  }

  /** Log absorption: a block is recorded once per transaction. */
  function Absorb(lh: seq<nat>, b: nat): (r: seq<nat>)
    ensures Distinct(lh) ==> Distinct(r)
    ensures b in r && forall c :: c in lh ==> c in r
    ensures |lh| <= |r| <= |lh| + 1
  {
    if b in lh then lh else lh + [b]
  }

  lemma EmptyHead(h: Block)
    ensures WithHead(h, []) == ClearHead(h)
  {
  }

  /** View w shows the home blocks and the header as v does, and v's first n logged blocks in the log. */
  ghost predicate InLogArea(L: Layout, v: Disk, lh: seq<nat>, w: Disk, n: nat) {
    && |v| == |w| && n <= |lh| && ValidLog(L, |v|, lh)
    && (forall b | 0 <= b < |v| && (b == L.start || Home(L, |v|, b)) :: w[b] == v[b])
    && (forall i | 0 <= i < n :: w[L.start + 1 + i] == v[lh[i]])
  }

  lemma LogNone(L: Layout, v: Disk, lh: seq<nat>)
    requires ValidLog(L, |v|, lh)
    ensures InLogArea(L, v, lh, v, 0)
  {
  }

  lemma LogOne(L: Layout, v: Disk, lh: seq<nat>, w: Disk, n: nat)
    requires InLogArea(L, v, lh, w, n) && n < |lh|
    ensures w[lh[n]] == v[lh[n]]
    ensures InLogArea(L, v, lh, w[L.start + n + 1 := v[lh[n]]], n + 1)
  {
  }

  lemma InLogAreaKeepsHead(L: Layout, v: Disk, lh: seq<nat>, w: Disk)
    requires InLogArea(L, v, lh, w, |lh|) && L.start < |v|
    ensures w[L.start] == v[L.start]
  {
  }

  /** Replaying the log area with header h writes the logged blocks of v to their homes. */
  lemma ReplayOfLogged(L: Layout, v: Disk, lh: seq<nat>, w: Disk, h: Block)
    requires InLogArea(L, v, lh, w, |lh|)
    ensures ReplayWrites(L, w[L.start := h], lh) == InstallWrites(v, lh)
  {
  }

  /** After the whole log area is installed the homes show what v showed. */
  lemma InstalledShows(L: Layout, v: Disk, lh: seq<nat>, w: Disk, h: Block, disk: Disk, u: Disk)
    requires InLogArea(L, v, lh, w, |lh|)
    requires Installed(L, w[L.start := h], lh, disk, u, |lh|)
    ensures forall b | 0 <= b < |v| && Home(L, |v|, b) :: u[b] == v[b]
    ensures forall b | b in lh :: u[b] == disk[b]
    ensures u[L.start] == h
  {
    forall b | b in lh
      ensures u[b] == v[b] == disk[b]
    {
      var i :| 0 <= i < |lh| && lh[i] == b;
      assert w[L.start := h][L.start + 1 + i] == v[lh[i]];
    }
    assert L.InLog(L.start);
  }

  /** The first n log data blocks of view v have been copied to their homes, on disk and in the view w. */
  ghost predicate Installed(L: Layout, v: Disk, lh: seq<nat>, disk: Disk, w: Disk, n: nat) {
    && |disk| == |v| == |w| && n <= |lh| && ValidLog(L, |v|, lh)
    && (forall b | 0 <= b < |v| && b !in lh :: w[b] == v[b])
    && (forall i | 0 <= i < n :: w[lh[i]] == disk[lh[i]] == v[L.start + 1 + i])
  }

  lemma InstallNone(L: Layout, v: Disk, lh: seq<nat>, disk: Disk)
    requires |disk| == |v| && ValidLog(L, |v|, lh)
    ensures Installed(L, v, lh, disk, v, 0)
  {
  }

  lemma InstallOne(L: Layout, v: Disk, lh: seq<nat>, disk: Disk, w: Disk, n: nat)
    requires Installed(L, v, lh, disk, w, n) && n < |lh|
    ensures w[L.start + n + 1] == v[L.start + n + 1]
    ensures var x := v[L.start + n + 1];
            Installed(L, v, lh, disk[lh[n] := x], w[lh[n] := x], n + 1)
  {
    assert L.InLog(L.start + n + 1);
  }

  lemma CommitProgramIs(before: seq<DiskWrite>, after: seq<DiskWrite>, L: Layout, v: Disk, lh: seq<nat>, h: Block)
    requires after == before + LogWrites(L, v, lh) + [DiskWrite(L.start, h)] + InstallWrites(v, lh)
                        + [DiskWrite(L.start, ClearHead(h))]
    ensures after == before + CommitProgram(L, v, lh, h)
  {
    hide LogWrites, InstallWrites, ClearHead;
  }

  class Log {
    const L: Layout
    var disk: Disk
    var cache: map<nat, Block>
    var lh: seq<nat>
    var outstanding: nat
    var committing: bool
    ghost const boot: Disk
    ghost var writes: seq<DiskWrite>

    /** The disk is the boot image with the recorded writes, the recorded block numbers form a valid
        transaction, and only they may differ between cache and disk. */
    ghost predicate Valid()
      reads this
    {
      && disk == Apply(boot, writes)
      && ValidLog(L, |disk|, lh)
      && (forall b | b in cache :: b < |disk|)
      && (forall b | b in cache && b !in lh :: cache[b] == disk[b])
    }

    function Read(b: nat): Block
      requires b < |disk|
      reads this
    {
      if b in cache then cache[b] else disk[b]
    }

    /** The block contents a process sees through the buffer cache. */
    ghost function View(): (v: Disk)
      reads this
      ensures |v| == |disk| && forall b | 0 <= b < |disk| :: v[b] == Read(b)
    {
      seq(|disk|, b requires 0 <= b < |disk| reads this => Read(b))
    }

    constructor (d: Disk, layout: Layout)
      requires ValidLog(layout, |d|, [])
      ensures Valid() && disk == d && L == layout && lh == [] && outstanding == 0 && !committing && writes == []
    {
      L, disk, cache, lh, outstanding, committing := layout, d, map[], [], 0, false;
      boot, writes := d, [];
    }

    method Bread(b: nat) returns (x: Block)
      requires b < |disk|
      modifies this`cache
      ensures x == old(Read(b))
      ensures cache == old(cache)[b := x]
    {
      x := Read(b);
      cache := cache[b := x];
    }

    method Bwrite(b: nat, x: Block)
      requires b < |disk|
      modifies this`disk, this`cache, this`writes
      ensures disk == old(disk)[b := x] && cache == old(cache)[b := x]
      ensures writes == old(writes) + [DiskWrite(b, x)]
      ensures old(disk == Apply(boot, writes)) ==> disk == Apply(boot, writes)
    {
      disk := disk[b := x];
      cache := cache[b := x];
      writes := writes + [DiskWrite(b, x)];
      assert writes[..|writes| - 1] == old(writes);
    }

    /** The body of the loops of `write_log` and `install_trans`: copy one block through the cache. */
    method CopyBlock(from: nat, to: nat)
      requires Valid() && from < |disk| && to < |disk|
      modifies this`disk, this`cache, this`writes
      ensures Valid() && disk == old(disk)[to := old(Read(from))]
      ensures writes == old(writes) + [DiskWrite(to, old(Read(from)))]
      ensures Read(to) == disk[to] && forall b | 0 <= b < |disk| && b != to :: Read(b) == old(Read(b))
    {
      hide Apply;
      var x := Bread(from);
      Bwrite(to, x);
    }

    method WriteLog()
      requires Valid()
      modifies this`disk, this`cache, this`writes
      ensures Valid() && |disk| == old(|disk|)
      ensures writes == old(writes) + LogWrites(L, old(View()), lh)
      ensures InLogArea(L, old(View()), lh, View(), |lh|)
    {
      hide Apply, LogWrites, InLogArea, Distinct;
      ghost var v := View();
      var tail := 0;
      LogNone(L, v, lh);
      while tail < |lh|
        invariant 0 <= tail <= |lh|
        invariant Valid() && |disk| == |v|
        invariant writes == old(writes) + LogWrites(L, v, lh)[..tail]
        invariant InLogArea(L, v, lh, View(), tail)
      {
        ghost var before := View();
        LogOne(L, v, lh, before, tail);
        CopyBlock(lh[tail], L.start + tail + 1);
        assert View() == before[L.start + tail + 1 := v[lh[tail]]];
        TakeNext(old(writes), LogWrites(L, v, lh), tail);
        tail := tail + 1;
      }
      assert LogWrites(L, v, lh)[..tail] == LogWrites(L, v, lh);
    }

    method WriteHead()
      requires Valid() && L.size > 0
      modifies this`disk, this`cache, this`writes
      ensures Valid() && |disk| == old(|disk|)
      ensures writes == old(writes) + [DiskWrite(L.start, WithHead(old(Read(L.start)), lh))]
      ensures View() == old(View())[L.start := WithHead(old(Read(L.start)), lh)]
    {
      hide PutWord, GetWord, Apply;
      var hb := Bread(L.start);
      ghost var h := hb;
      hb := PutWord(hb, 0, |lh|);
      for i := 0 to |lh|
        invariant hb == HeadPrefix(h, lh, i)
      {
        hb := PutWord(hb, i + 1, lh[i]);
      }
      Bwrite(L.start, hb);
      assert View() == old(View())[L.start := hb];
    }

    method InstallTrans()
      requires Valid()
      modifies this`disk, this`cache, this`writes
      ensures Valid() && |disk| == old(|disk|)
      ensures writes == old(writes) + ReplayWrites(L, old(View()), lh)
      ensures Installed(L, old(View()), lh, disk, View(), |lh|)
    {
      hide Apply, ReplayWrites, Installed, Distinct;
      ghost var v := View();
      var tail := 0;
      InstallNone(L, v, lh, disk);
      while tail < |lh|
        invariant 0 <= tail <= |lh|
        invariant Valid() && |disk| == |v|
        invariant writes == old(writes) + ReplayWrites(L, v, lh)[..tail]
        invariant Installed(L, v, lh, disk, View(), tail)
      {
        ghost var before := View();
        InstallOne(L, v, lh, disk, before, tail);
        CopyBlock(L.start + tail + 1, lh[tail]);
        assert View() == before[lh[tail] := v[L.start + tail + 1]];
        TakeNext(old(writes), ReplayWrites(L, v, lh), tail);
        tail := tail + 1;
      }
      assert ReplayWrites(L, v, lh)[..tail] == ReplayWrites(L, v, lh);
    }

    /** Commits the transaction with exactly the writes of the commit program, in order; what processes
        see does not change and every home block is on the disk afterwards. */
    method Commit()
      requires Valid()
      modifies this`disk, this`cache, this`writes, this`lh
      ensures Valid() && lh == [] && |disk| == old(|disk|)
      ensures writes == old(writes) + CommitWrites(L, old(disk), old(View()), old(lh))
      ensures disk == Apply(old(disk), CommitWrites(L, old(disk), old(View()), old(lh)))
      ensures forall b | 0 <= b < |disk| && Home(L, |disk|, b) :: Read(b) == old(Read(b)) && disk[b] == Read(b)
    {
      hide Apply, LogWrites, ReplayWrites, InstallWrites, WithHead, ClearHead, CommitProgram, InLogArea, Installed;
      ghost var v, blocks, d := View(), lh, disk;
      if |lh| > 0 {
        ghost var h := WithHead(disk[L.start], lh);
        WriteLog();
        ghost var w := View();
        assert w[L.start] == d[L.start] by {
          InLogAreaKeepsHead(L, v, lh, w);
        }
        WriteHead();
        ReplayOfLogged(L, v, lh, w, h);
        InstallTrans();
        InstalledShows(L, v, lh, w, h, disk, View());
        lh := [];
        WriteHead();
        EmptyHead(h);
        CommitProgramIs(old(writes), writes, L, v, blocks, h);
      }
      ApplyConcat(boot, old(writes), CommitWrites(L, d, v, blocks));
    }

    method ReadHead()
      requires Valid() && lh == [] && L.start < |disk| && ValidHead(L, View())
      modifies this`cache, this`lh
      ensures Valid() && View() == old(View())
      ensures lh == HeadBlocks(old(Read(L.start)))
    {
      var h := Bread(L.start);
      var n, i := GetWord(h, 0), 0;
      var blocks: seq<nat> := [];
      while i < n
        invariant i <= n
        invariant |blocks| == i && forall j | 0 <= j < i :: blocks[j] == GetWord(h, j + 1)
      {
        blocks := blocks + [GetWord(h, i + 1)];
        i := i + 1;
      }
      assert blocks == HeadBlocks(h);
      lh := blocks;
    }

    /** Recovery from a cache that holds nothing the disk does not makes exactly the writes of the
        recovery program. */
    method RecoverFromLog()
      requires Valid() && lh == [] && L.start < |disk| && ValidHead(L, disk)
      modifies this`disk, this`cache, this`writes, this`lh
      ensures Valid() && lh == []
      ensures writes == old(writes) + RecoveryWrites(L, old(disk))
      ensures disk == Recovered(L, old(disk))
      ensures View() == disk
    {
      hide Apply, ReplayWrites, WithHead, ClearHead, HeadBlocks;
      ghost var d := disk;
      assert View() == d;
      ReadHead();
      InstallTrans();
      lh := [];
      WriteHead();
      EmptyHead(d[L.start]);
      assert writes == old(writes) + RecoveryWrites(L, d);
      ApplyConcat(boot, old(writes), RecoveryWrites(L, d));
    }

    /** `log_write` by a process that has put x into the buffer of home block b. */
    method LogWrite(b: nat, x: Block) returns (r: LogResult)
      requires Valid() && Home(L, |disk|, b)
      modifies this`cache, this`lh
      ensures Valid()
      ensures r == if Full(old(|lh|), L) then TooBig else if outstanding < 1 then OutsideTransaction else Logged
      ensures r.Logged? ==> lh == Absorb(old(lh), b) && View() == old(View())[b := x]
      ensures !r.Logged? ==> lh == old(lh) && cache == old(cache)
    {
      if |lh| >= LOGSIZE || |lh| >= L.size - 1 {
        return TooBig;
      }
      if outstanding < 1 {
        return OutsideTransaction;
      }
      var i := 0;
      while i < |lh| && lh[i] != b
        invariant 0 <= i <= |lh| && b !in lh[..i]
      {
        i := i + 1;
      }
      lh := if i < |lh| then lh[i := b] else lh + [b];
      cache := cache[b := x];
      assert View() == old(View())[b := x];
      return Logged;
    }

    /** One pass of the loop of `begin_op`; false means the caller sleeps and tries again. */
    method BeginOp() returns (admitted: bool)
      modifies this`outstanding
      ensures admitted == (!committing && HasRoom(|lh|, old(outstanding)))
      ensures outstanding == old(outstanding) + if admitted then 1 else 0
    {
      if committing {
        return false;
      } else if |lh| + (outstanding + 1) * MAXOPBLOCKS > LOGSIZE {
        return false;
      } else {
        outstanding := outstanding + 1;
        return true;
      }
    }

    /** `end_op`: the last operation to leave commits the transaction of the whole group. */
    method EndOp()
      requires Valid() && outstanding > 0 && !committing
      modifies this
      ensures Valid() && !committing && outstanding == old(outstanding) - 1
      ensures outstanding > 0 ==> disk == old(disk) && lh == old(lh) && writes == old(writes)
      ensures outstanding == 0 ==>
                && lh == []
                && writes == old(writes) + CommitWrites(L, old(disk), old(View()), old(lh))
      ensures |disk| == old(|disk|)
      ensures forall b | 0 <= b < |disk| && Home(L, |disk|, b) :: Read(b) == old(Read(b))
    {
      hide Apply, CommitWrites;
      outstanding := outstanding - 1;
      if outstanding == 0 {
        committing := true;
        assert View() == old(View());
        Commit();
        committing := false;
      }
    }
  }
}

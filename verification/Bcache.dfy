/** The buffer cache of bio.c: a ring of NBUF buffers, kept in most-recently-used order, in front of
    the disk. Each method is one atomic section of the source; any interleaving of processes is a
    sequence of these methods. */
module Bcache {
  import opened Common
  import opened Blocks
  import opened RedoLog

  const NBUF: nat := 30
  const HEAD: nat := NBUF
  const ROOTDEV: nat := 1

  datatype Buf = Buf(valid: bool, dirty: bool, dev: nat, blockno: nat, refcnt: nat, holder: Option<nat>, data: Block)

  // ---------- the ring ----------

  /** Position i of the ring: the head, then the buffers of `order`, then the head again. */
  ghost function Pos(order: seq<nat>, i: nat): nat
    requires i <= |order| + 1
  {
    if i == 0 || i == |order| + 1 then HEAD else order[i - 1]
  }

  /** next and prev link the head and the distinct buffers of `order` into one ring. */
  ghost predicate Ring(next: seq<nat>, prev: seq<nat>, order: seq<nat>) {
    && |next| == |prev| == NBUF + 1
    && Distinct(order)
    && (forall i | 0 <= i < |order| :: order[i] < NBUF)
    && (forall i | 0 <= i <= |order| :: next[Pos(order, i)] == Pos(order, i + 1))
    && (forall i | 0 <= i <= |order| :: prev[Pos(order, i + 1)] == Pos(order, i))
  }

  lemma PushFront(next: seq<nat>, prev: seq<nat>, order: seq<nat>, b: nat)
    requires Ring(next, prev, order) && b < NBUF && b !in order
    ensures next[HEAD] <= HEAD
    ensures var n1 := next[b := next[HEAD]];
            Ring(n1[HEAD := b], prev[b := HEAD][next[HEAD] := b], [b] + order)
  {
    var old1 := next[HEAD];
    assert old1 == next[Pos(order, 0)] == Pos(order, 1);
    var n := next[b := old1][HEAD := b];
    var p := prev[b := HEAD][old1 := b];
    var o := [b] + order;
    forall i | 0 <= i <= |o|
      ensures n[Pos(o, i)] == Pos(o, i + 1)
      ensures p[Pos(o, i + 1)] == Pos(o, i)
    {
      if i >= 2 {
        assert Pos(o, i) == Pos(order, i - 1) && Pos(o, i + 1) == Pos(order, i);
        assert next[Pos(order, i - 1)] == Pos(order, i);
      }
    }
  }

  lemma Unlink(next: seq<nat>, prev: seq<nat>, order: seq<nat>, k: nat)
    requires Ring(next, prev, order) && k < |order|
    ensures next[order[k]] <= HEAD && prev[order[k]] <= HEAD
    ensures Ring(next[prev[order[k]] := next[order[k]]], prev[next[order[k]] := prev[order[k]]], Cut(order, k))
    ensures order[k] !in Cut(order, k)
  {
    var b := order[k];
    assert next[Pos(order, k + 1)] == Pos(order, k + 2);
    assert prev[Pos(order, k + 1)] == Pos(order, k);
    var n, p := next[prev[b] := next[b]], prev[next[b] := prev[b]];
    var o := Cut(order, k);
    forall i | 0 <= i <= |o|
      ensures n[Pos(o, i)] == Pos(o, i + 1)
      ensures p[Pos(o, i + 1)] == Pos(o, i)
    {
      var j := if i <= k then i else i + 1;
      assert Pos(o, i) == Pos(order, j);
      assert Pos(o, i + 1) == Pos(order, if i + 1 <= k then i + 1 else i + 2);
    }
  }

  // ---------- logical contents ----------

  /** Buffer u is the valid cached copy of block b. */
  predicate Holds(u: Buf, b: nat) {
    u.valid && u.dev == ROOTDEV && u.blockno == b
  }

  predicate Cached(u: Buf, b: nat) {
    u.dev == ROOTDEV && u.blockno == b
  }

  /** What the block map behind cache and disk has for block b. */
  ghost function Logical(bufs: seq<Buf>, disk: Disk, b: nat): Block
    requires b < |disk|
  {
    if bufs == [] then disk[b]
    else if Holds(bufs[|bufs| - 1], b) then bufs[|bufs| - 1].data
    else Logical(bufs[..|bufs| - 1], disk, b)
  }

  ghost predicate Unique(bufs: seq<Buf>) {
    forall i, j | 0 <= i < j < |bufs| :: bufs[i].dev == ROOTDEV && bufs[j].dev == ROOTDEV ==>
      bufs[i].blockno != bufs[j].blockno
  }

  /** What holds of one buffer whose current users are us. */
  ghost predicate BufOk(u: Buf, us: set<nat>, disk: Disk) {
    && u.refcnt == |us|
    && (u.holder.Some? ==> u.holder.value in us)
    && (u.dirty ==> u.valid)
    && (u.dev == ROOTDEV ==> u.blockno < |disk|)
    && (u.dev != ROOTDEV ==> !u.valid && us == {})
    && (u.valid && !u.dirty && u.holder.None? ==> u.data == disk[u.blockno])
  }

  ghost predicate CacheOk(bufs: seq<Buf>, users: seq<set<nat>>, disk: Disk) {
    && |bufs| == |users| == NBUF
    && Unique(bufs)
    && forall i | 0 <= i < NBUF :: BufOk(bufs[i], users[i], disk)
  }

  lemma {:induction false} LogicalHit(bufs: seq<Buf>, disk: Disk, b: nat, i: nat)
    requires b < |disk| && i < |bufs| && Unique(bufs) && Holds(bufs[i], b)
    ensures Logical(bufs, disk, b) == bufs[i].data
    decreases |bufs|
  {
    if i < |bufs| - 1 {
      LogicalHit(bufs[..|bufs| - 1], disk, b, i);
    }
  }

  lemma {:induction false} LogicalMiss(bufs: seq<Buf>, disk: Disk, b: nat)
    requires b < |disk| && forall i | 0 <= i < |bufs| :: !Holds(bufs[i], b)
    ensures Logical(bufs, disk, b) == disk[b]
    decreases |bufs|
  {
    if bufs != [] {
      LogicalMiss(bufs[..|bufs| - 1], disk, b);
    }
  }

  /** A buffer that neither was nor is a copy of block b does not bear on its contents. */
  lemma {:induction false} LogicalFrame(bufs: seq<Buf>, i: nat, u: Buf, disk: Disk, disk': Disk, b: nat)
    requires b < |disk| == |disk'| && disk[b] == disk'[b] && i < |bufs|
    requires !Holds(bufs[i], b) && !Holds(u, b)
    ensures Logical(bufs[i := u], disk', b) == Logical(bufs, disk, b)
    decreases |bufs|
  {
    var m := |bufs| - 1;
    if i < m {
      assert bufs[i := u][..m] == bufs[..m][i := u];
      LogicalFrame(bufs[..m], i, u, disk, disk', b);
    } else {
      assert bufs[i := u][..m] == bufs[..m];
      LogicalSameDisk(bufs[..m], disk, disk', b);
    }
  }

  lemma {:induction false} LogicalSameDisk(bufs: seq<Buf>, disk: Disk, disk': Disk, b: nat)
    requires b < |disk| == |disk'| && disk[b] == disk'[b]
    ensures Logical(bufs, disk', b) == Logical(bufs, disk, b)
    decreases |bufs|
  {
    if bufs != [] {
      LogicalSameDisk(bufs[..|bufs| - 1], disk, disk', b);
    }
  }

  /** The block map is the same before and after. */
  ghost predicate SameMap(bufs: seq<Buf>, disk: Disk, bufs': seq<Buf>, disk': Disk) {
    && |disk| == |disk'|
    && forall b | 0 <= b < |disk| :: Logical(bufs', disk', b) == Logical(bufs, disk, b)
  }

  /** Block c of the map becomes x and nothing else changes. */
  ghost predicate MapUpdated(bufs: seq<Buf>, bufs': seq<Buf>, disk: Disk, c: nat, x: Block) {
    && c < |disk| && Logical(bufs', disk, c) == x
    && forall b | 0 <= b < |disk| && b != c :: Logical(bufs', disk, b) == Logical(bufs, disk, b)
  }

  lemma ModifyMap(bufs: seq<Buf>, disk: Disk, i: nat, u: Buf)
    requires i < |bufs| && Unique(bufs) && bufs[i].dev == ROOTDEV && bufs[i].blockno < |disk|
    requires u == bufs[i].(data := u.data) && u.valid
    ensures MapUpdated(bufs, bufs[i := u], disk, u.blockno, u.data)
  {
    LogicalAt(bufs[i := u], disk, i);
    forall b | 0 <= b < |disk| && b != u.blockno
      ensures Logical(bufs[i := u], disk, b) == Logical(bufs, disk, b)
    {
      LogicalFrame(bufs, i, u, disk, disk, b);
    }
  }

  /** Changing one buffer without changing what its block shows keeps the block map. */
  lemma UpdateKeepsMap(bufs: seq<Buf>, disk: Disk, i: nat, u: Buf, disk': Disk)
    requires i < |bufs| && Unique(bufs) && |disk| == |disk'|
    requires u.dev == bufs[i].dev && u.blockno == bufs[i].blockno
    requires u.dev == ROOTDEV ==> u.blockno < |disk|
    requires forall b | 0 <= b < |disk| && !Cached(u, b) :: disk[b] == disk'[b]
    requires u.dev == ROOTDEV ==>
               (if u.valid then u.data else disk'[u.blockno])
                 == (if bufs[i].valid then bufs[i].data else disk[u.blockno])
    ensures SameMap(bufs, disk, bufs[i := u], disk')
  {
    forall b | 0 <= b < |disk|
      ensures Logical(bufs[i := u], disk', b) == Logical(bufs, disk, b)
    {
      if Cached(u, b) {
        LogicalAt(bufs, disk, i);
        LogicalAt(bufs[i := u], disk', i);
      } else {
        LogicalFrame(bufs, i, u, disk, disk', b);
      }
    }
  }

  lemma LogicalAt(bufs: seq<Buf>, disk: Disk, i: nat)
    requires i < |bufs| && Unique(bufs) && bufs[i].dev == ROOTDEV && bufs[i].blockno < |disk|
    ensures Logical(bufs, disk, bufs[i].blockno) == if bufs[i].valid then bufs[i].data else disk[bufs[i].blockno]
  {
    if bufs[i].valid {
      LogicalHit(bufs, disk, bufs[i].blockno, i);
    } else {
      LogicalMiss(bufs, disk, bufs[i].blockno);
    }
  }

  /** Giving an unused clean buffer to a block that is not cached keeps the block map. */
  lemma RecycleKeepsMap(bufs: seq<Buf>, users: seq<set<nat>>, disk: Disk, i: nat, b: nat, u: Buf)
    requires CacheOk(bufs, users, disk) && i < NBUF && b < |disk|
    requires users[i] == {} && !bufs[i].dirty
    requires forall j | 0 <= j < NBUF :: !Cached(bufs[j], b)
    requires Cached(u, b) && !u.valid
    ensures SameMap(bufs, disk, bufs[i := u], disk)
  {
    hide Logical;
    assert BufOk(bufs[i], users[i], disk);
    forall c | 0 <= c < |disk|
      ensures Logical(bufs[i := u], disk, c) == Logical(bufs, disk, c)
    {
      if Holds(bufs[i], c) {
        LogicalHit(bufs, disk, c, i);
        LogicalMiss(bufs[i := u], disk, c);
      } else {
        LogicalFrame(bufs, i, u, disk, disk, c);
      }
    }
  }

  // ---------- the cache ----------

  /** Every buffer is on the ring. */
  ghost predicate AllOf(order: seq<nat>) {
    |order| == NBUF && forall j | 0 <= j < NBUF :: j in order
  }

  /** In use, or modified and not yet committed: `bget` must not recycle it. */
  predicate Busy(u: Buf) {
    u.refcnt != 0 || u.dirty
  }

  lemma UpdateOk(bufs: seq<Buf>, users: seq<set<nat>>, disk: Disk, i: nat, u: Buf, us: set<nat>)
    requires CacheOk(bufs, users, disk) && i < NBUF && BufOk(u, us, disk)
    requires u.dev == ROOTDEV ==> forall j | 0 <= j < NBUF && j != i :: !Cached(bufs[j], u.blockno)
    ensures CacheOk(bufs[i := u], users[i := us], disk)
  {
  }

  lemma OnlyHolder(bufs: seq<Buf>, users: seq<set<nat>>, disk: Disk, i: nat)
    requires CacheOk(bufs, users, disk) && i < NBUF && bufs[i].dev == ROOTDEV
    ensures forall j | 0 <= j < NBUF && j != i :: !Cached(bufs[j], bufs[i].blockno)
  {
  }

  lemma WriteOk(bufs: seq<Buf>, users: seq<set<nat>>, disk: Disk, i: nat, u: Buf)
    requires CacheOk(bufs, users, disk) && i < NBUF && BufOk(bufs[i], users[i], disk) && bufs[i].valid
    requires u == bufs[i].(dirty := false)
    ensures u.blockno < |disk| && CacheOk(bufs[i := u], users, disk[u.blockno := u.data])
  {
    var d := disk[u.blockno := u.data];
    forall j | 0 <= j < NBUF
      ensures BufOk(bufs[i := u][j], users[j], d)
    {
      assert BufOk(bufs[j], users[j], disk);
    }
  }

  lemma SameMapRefl(bufs: seq<Buf>, disk: Disk)
    ensures SameMap(bufs, disk, bufs, disk)
  {
  }

  lemma FrontKeepsAll(order: seq<nat>, k: nat)
    requires AllOf(order) && k < NBUF
    ensures AllOf([order[k]] + Cut(order, k))
  {
    var o := [order[k]] + Cut(order, k);
    forall j | 0 <= j < NBUF
      ensures j in o
    {
      assert j in order;
      var m :| 0 <= m < |order| && order[m] == j;
      assert if m == k then o[0] == j else if m < k then o[m + 1] == j else o[m] == j;
    }
  }

  class Bcache {
    var bufs: seq<Buf>
    var next: seq<nat>
    var prev: seq<nat>
    var disk: Disk
    ghost var order: seq<nat>
    ghost var users: seq<set<nat>>

    ghost predicate Valid()
      reads this
    {
      Ring(next, prev, order) && AllOf(order) && CacheOk(bufs, users, disk)
    }

    /** Puts buffer b at the front of the ring. */
    method LinkFront(b: nat)
      requires Ring(next, prev, order) && b < NBUF && b !in order
      modifies this`next, this`prev, this`order
      ensures Ring(next, prev, order) && order == [b] + old(order)
    {
      PushFront(next, prev, order, b);
      next := next[b := next[HEAD]];
      prev := prev[b := HEAD];
      prev := prev[next[HEAD] := b];
      next := next[HEAD := b];
      order := [b] + order;
    }

    /** `binit`. */
    constructor (d: Disk, blank: Block)
      ensures Valid() && disk == d && users == seq(NBUF, _ => {})
      ensures forall i | 0 <= i < NBUF :: order[i] == NBUF - 1 - i
      ensures forall b | 0 <= b < |d| :: Logical(bufs, disk, b) == d[b]
    {
      bufs := seq(NBUF, _ => Buf(false, false, 0, 0, 0, None, blank));
      next := seq(NBUF + 1, _ => HEAD);
      prev := seq(NBUF + 1, _ => HEAD);
      disk := d;
      order := [];
      users := seq(NBUF, _ => {});
      new;
      for b := 0 to NBUF
        invariant Ring(next, prev, order)
        invariant |order| == b && forall i | 0 <= i < b :: order[i] == b - 1 - i
        invariant bufs == seq(NBUF, _ => Buf(false, false, 0, 0, 0, None, blank)) && disk == d
                    && users == seq(NBUF, _ => {})
      {
        LinkFront(b);
      }
      forall j | 0 <= j < NBUF
        ensures j in order
      {
        assert order[NBUF - 1 - j] == j;
      }
      forall b | 0 <= b < |d|
        ensures Logical(bufs, disk, b) == d[b]
      {
        LogicalMiss(bufs, disk, b);
      }
    }

    /** `bget` under bcache.lock: the buffer of block b with one more reference, or the least recently
        used idle buffer turned over to b. None is the panic when every buffer is busy. */
    method Bget(p: nat, b: nat) returns (r: Option<nat>)
      requires Valid() && b < |disk|
      requires forall i | 0 <= i < NBUF && Cached(bufs[i], b) :: p !in users[i]
      modifies this`bufs, this`users
      ensures Valid() && SameMap(old(bufs), disk, bufs, disk)
      ensures r.Some? ==>
                && r.value < NBUF && Cached(bufs[r.value], b)
                && users == old(users)[r.value := old(users)[r.value] + {p}]
                && bufs == old(bufs)[r.value := bufs[r.value]]
      ensures r.Some? && Cached(old(bufs)[r.value], b) ==>
                bufs[r.value] == old(bufs)[r.value].(refcnt := old(bufs)[r.value].refcnt + 1)
      ensures r.Some? && !Cached(old(bufs)[r.value], b) ==>
                && !bufs[r.value].valid && !Busy(old(bufs)[r.value])
                && (forall i | 0 <= i < NBUF :: !Cached(old(bufs)[i], b))
                && (forall i, j | 0 <= i < j < NBUF && order[i] == r.value :: Busy(old(bufs)[order[j]]))
      ensures r.None? ==>
                && bufs == old(bufs) && users == old(users)
                && forall i | 0 <= i < NBUF :: Busy(bufs[i]) && !Cached(bufs[i], b)
    {
      hide Logical;
      var i := Lookup(b);
      if i != HEAD {
        ghost var us := users[i] + {p};
        var u := bufs[i].(refcnt := bufs[i].refcnt + 1);
        assert BufOk(bufs[i], users[i], disk);
        OnlyHolder(bufs, users, disk, i);
        UpdateOk(bufs, users, disk, i, u, us);
        UpdateKeepsMap(bufs, disk, i, u, disk);
        bufs, users := bufs[i := u], users[i := us];
        return Some(i);
      }
      i := LeastRecentIdle();
      if i != HEAD {
        var u := Buf(false, false, ROOTDEV, b, 1, bufs[i].holder, bufs[i].data);
        assert BufOk(bufs[i], users[i], disk);
        assert users[i] == {};
        RecycleKeepsMap(bufs, users, disk, i, b, u);
        UpdateOk(bufs, users, disk, i, u, {p});
        bufs, users := bufs[i := u], users[i := {p}];
        return Some(i);
      }
      SameMapRefl(bufs, disk);
      return None;
    }

    /** The first loop of `bget`: along `next` from the head. */
    method Lookup(b: nat) returns (i: nat)
      requires Valid()
      ensures i == HEAD ==> forall j | 0 <= j < NBUF :: !Cached(bufs[j], b)
      ensures i != HEAD ==> i < NBUF && Cached(bufs[i], b)
    {
      i := next[HEAD];
      ghost var k := 1;
      assert next[Pos(order, 0)] == Pos(order, 1);
      while i != HEAD
        invariant 1 <= k <= NBUF + 1 && i == Pos(order, k)
        invariant forall j | 0 <= j < k - 1 :: !Cached(bufs[order[j]], b)
        decreases NBUF + 1 - k
      {
        if bufs[i].dev == ROOTDEV && bufs[i].blockno == b {
          return;
        }
        assert next[Pos(order, k)] == Pos(order, k + 1);
        i := next[i];
        k := k + 1;
      }
      assert k == NBUF + 1;
      forall j | 0 <= j < NBUF
        ensures !Cached(bufs[j], b)
      {
        assert j in order;
      }
    }

    /** The second loop of `bget`: along `prev` from the head. */
    method LeastRecentIdle() returns (i: nat)
      requires Valid()
      ensures i == HEAD ==> forall j | 0 <= j < NBUF :: Busy(bufs[j])
      ensures i != HEAD ==>
                && i < NBUF && !Busy(bufs[i])
                && forall m, j | 0 <= m < j < NBUF && order[m] == i :: Busy(bufs[order[j]])
    {
      assert prev[Pos(order, NBUF + 1)] == Pos(order, NBUF);
      i := prev[HEAD];
      ghost var k := NBUF;
      while i != HEAD
        invariant 0 <= k <= NBUF && i == Pos(order, k)
        invariant forall j | k <= j < NBUF :: Busy(bufs[order[j]])
        decreases k
      {
        if bufs[i].refcnt == 0 && !bufs[i].dirty {
          return;
        }
        assert prev[Pos(order, k)] == Pos(order, k - 1);
        i := prev[i];
        k := k - 1;
      }
      assert k == 0;
      forall j | 0 <= j < NBUF
        ensures Busy(bufs[j])
      {
        assert j in order;
      }
    }

    /** `acquiresleep` on the buffer, when it is free. */
    method Acquire(p: nat, i: nat)
      requires Valid() && i < NBUF && p in users[i] && bufs[i].holder.None?
      modifies this`bufs
      ensures Valid() && SameMap(old(bufs), disk, bufs, disk)
      ensures bufs == old(bufs)[i := old(bufs)[i].(holder := Some(p))]
    {
      hide Logical;
      var u := bufs[i].(holder := Some(p));
      assert BufOk(bufs[i], users[i], disk);
      OnlyHolder(bufs, users, disk, i);
      UpdateOk(bufs, users, disk, i, u, users[i]);
      UpdateKeepsMap(bufs, disk, i, u, disk);
      assert users[i := users[i]] == users;
      bufs := bufs[i := u];
    }

    /** The rest of `bread`: the buffer shows the logical contents of its block; the disk is not written. */
    method Fill(p: nat, i: nat) returns (x: Block)
      requires Valid() && i < NBUF && bufs[i].holder == Some(p)
      modifies this`bufs
      ensures Valid() && SameMap(old(bufs), disk, bufs, disk)
      ensures bufs[i].valid && bufs == old(bufs)[i := old(bufs)[i].(valid := true, data := x)]
      ensures bufs[i].blockno < |disk| && x == Logical(old(bufs), disk, bufs[i].blockno)
    {
      hide Logical;
      assert BufOk(bufs[i], users[i], disk);
      LogicalAt(bufs, disk, i);
      x := bufs[i].data;
      if !bufs[i].valid {
        x := disk[bufs[i].blockno];
      }
      var u := bufs[i].(valid := true, data := x);
      OnlyHolder(bufs, users, disk, i);
      UpdateOk(bufs, users, disk, i, u, users[i]);
      UpdateKeepsMap(bufs, disk, i, u, disk);
      assert users[i := users[i]] == users;
      bufs := bufs[i := u];
    }

    /** The holder changes the data of its buffer: exactly one block of the map changes. */
    method Modify(p: nat, i: nat, x: Block)
      requires Valid() && i < NBUF && bufs[i].holder == Some(p) && bufs[i].valid
      modifies this`bufs
      ensures Valid() && bufs == old(bufs)[i := old(bufs)[i].(data := x)]
      ensures MapUpdated(old(bufs), bufs, disk, bufs[i].blockno, x)
    {
      hide Logical;
      var u := bufs[i].(data := x);
      assert BufOk(bufs[i], users[i], disk);
      OnlyHolder(bufs, users, disk, i);
      UpdateOk(bufs, users, disk, i, u, users[i]);
      assert users[i := users[i]] == users;
      ModifyMap(bufs, disk, i, u);
      bufs := bufs[i := u];
    }

    /** `log_write` marks the buffer: it cannot be recycled before it is written. */
    method Pin(p: nat, i: nat)
      requires Valid() && i < NBUF && bufs[i].holder == Some(p) && bufs[i].valid
      modifies this`bufs
      ensures Valid() && SameMap(old(bufs), disk, bufs, disk)
      ensures bufs == old(bufs)[i := old(bufs)[i].(dirty := true)]
    {
      hide Logical;
      var u := bufs[i].(dirty := true);
      assert BufOk(bufs[i], users[i], disk);
      OnlyHolder(bufs, users, disk, i);
      UpdateOk(bufs, users, disk, i, u, users[i]);
      UpdateKeepsMap(bufs, disk, i, u, disk);
      assert users[i := users[i]] == users;
      bufs := bufs[i := u];
    }

    /** `bwrite`: the only method that writes the disk, and it writes the buffer's own block only. */
    method Bwrite(p: nat, i: nat)
      requires Valid() && i < NBUF && bufs[i].holder == Some(p) && bufs[i].valid
      modifies this`bufs, this`disk
      ensures Valid() && SameMap(old(bufs), old(disk), bufs, disk)
      ensures bufs[i].blockno < |disk| && disk == old(disk)[bufs[i].blockno := bufs[i].data]
      ensures bufs == old(bufs)[i := old(bufs)[i].(dirty := false)]
    {
      hide Logical;
      var u := bufs[i].(dirty := false);
      assert BufOk(bufs[i], users[i], disk);
      var d := disk[u.blockno := u.data];
      OnlyHolder(bufs, users, disk, i);
      UpdateKeepsMap(bufs, disk, i, u, d);
      WriteOk(bufs, users, disk, i, u);
      bufs, disk := bufs[i := u], d;
    }

    /** The first half of `brelse`. Whoever changed the data has logged it or written it. */
    method Release(p: nat, i: nat)
      requires Valid() && i < NBUF && bufs[i].holder == Some(p)
      requires bufs[i].valid ==> bufs[i].dirty || bufs[i].data == disk[bufs[i].blockno]
      modifies this`bufs
      ensures Valid() && SameMap(old(bufs), disk, bufs, disk)
      ensures bufs == old(bufs)[i := old(bufs)[i].(holder := None)]
    {
      hide Logical;
      var u := bufs[i].(holder := None);
      assert BufOk(bufs[i], users[i], disk);
      OnlyHolder(bufs, users, disk, i);
      UpdateOk(bufs, users, disk, i, u, users[i]);
      UpdateKeepsMap(bufs, disk, i, u, disk);
      assert users[i := users[i]] == users;
      bufs := bufs[i := u];
    }

    /** The second half of `brelse`: drop the reference; the last one moves the buffer to the front. */
    method Unref(p: nat, i: nat)
      requires Valid() && i < NBUF && p in users[i] && bufs[i].holder != Some(p)
      modifies this`bufs, this`users, this`next, this`prev, this`order
      ensures Valid() && SameMap(old(bufs), disk, bufs, disk)
      ensures users == old(users)[i := old(users)[i] - {p}]
      ensures bufs == old(bufs)[i := old(bufs)[i].(refcnt := old(bufs)[i].refcnt - 1)]
      ensures bufs[i].refcnt > 0 ==> order == old(order)
      ensures bufs[i].refcnt == 0 ==>
                exists k | 0 <= k < NBUF && old(order)[k] == i :: order == [i] + Cut(old(order), k)
    {
      hide Logical;
      ghost var us := users[i] - {p};
      assert BufOk(bufs[i], users[i], disk);
      var u := bufs[i].(refcnt := bufs[i].refcnt - 1);
      OnlyHolder(bufs, users, disk, i);
      UpdateOk(bufs, users, disk, i, u, us);
      UpdateKeepsMap(bufs, disk, i, u, disk);
      bufs, users := bufs[i := u], users[i := us];
      if bufs[i].refcnt == 0 {
        MoveToFront(i);
      }
    }

    method MoveToFront(i: nat)
      requires Ring(next, prev, order) && AllOf(order) && i < NBUF
      modifies this`next, this`prev, this`order
      ensures Ring(next, prev, order) && AllOf(order)
      ensures exists k | 0 <= k < NBUF && old(order)[k] == i :: order == [i] + Cut(old(order), k)
    {
      assert i in order;
      ghost var k :| 0 <= k < |order| && order[k] == i;
      Unlink(next, prev, order, k);
      var n, p := next[i], prev[i];
      prev := prev[n := p];
      next := next[p := n];
      order := Cut(order, k);
      LinkFront(i);
      FrontKeepsAll(old(order), k);
    }
  }
}
